/** When is no piece ever lost? */
module Conservation {
  import opened Types
  import opened Protocol

  ghost predicate Held(s: State, loc: Loc) {
    exists u :: Place(u, loc) in s.store
  }

  /** The receiver has stored the piece and the sender may still delete its own copy. */
  ghost predicate Outstanding(s: State, h: nat, from: Uri, loc: Loc) {
    && h in s.handoffs
    && s.handoffs[h].from == from
    && s.handoffs[h].loc == loc
    && s.handoffs[h].data.Some?
    && s.handoffs[h].phase.Stored?
  }

  ghost predicate Handing(s: State, node: Uri, loc: Loc) {
    exists h :: Outstanding(s, h, node, loc)
  }

  /** A copy that no pending ack will delete. */
  ghost predicate Stable(s: State, node: Uri, loc: Loc) {
    Place(node, loc) in s.store && !Handing(s, node, loc)
  }

  ghost predicate HasStable(s: State, loc: Loc) {
    exists u :: Stable(s, u, loc)
  }

  /** The receiver of a piece is not itself still handing that piece on. */
  ghost predicate Guarded(s: State, step: Step, loc: Loc) {
    step.Sending? && step.s.StorePiece? && step.s.handoff in s.handoffs ==>
      var ho := s.handoffs[step.s.handoff];
      ho.loc == loc ==> !Handing(s, ho.to, loc)
  }

  ghost predicate GuardedRun(c: Config, s: State, run: seq<Step>, loc: Loc)
    requires IsRun(c, s, run)
    decreases |run|
  {
    run == [] || (Guarded(s, run[0], loc) && GuardedRun(c, After(c, s, run[0]), run[1..], loc))
  }

  // ----- any number of cluster changes -----

  /** Only an accepted send makes a hand-off outstanding, and only a node's own outstanding one deletes. */
  lemma SendLeaves(c: Config, s: State, step: SendStep, loc: Loc, u: Uri)
    requires CanSend(c, s, step) && Ordered(c, s) && Place(u, loc) in s.store && !Handing(s, u, loc)
    requires step.StorePiece? ==> s.handoffs[step.handoff].from != u || s.handoffs[step.handoff].loc != loc
    ensures Stable(SendAfter(c, s, step), u, loc)
  {
    var t := SendAfter(c, s, step);
    assert step.Delete? ==> Outstanding(s, step.handoff, s.handoffs[step.handoff].from, s.handoffs[step.handoff].loc);
    forall h ensures !Outstanding(t, h, u, loc) {
      assert !Outstanding(s, h, u, loc);
    }
  }

  lemma StoredIsStable(c: Config, s: State, h: nat)
    requires CanSend(c, s, StorePiece(h)) && Ordered(c, s)
    requires !Handing(s, s.handoffs[h].to, s.handoffs[h].loc)
    ensures Stable(SendAfter(c, s, StorePiece(h)), s.handoffs[h].to, s.handoffs[h].loc)
  {
    var t := SendAfter(c, s, StorePiece(h));
    assert HandoffOrdered(c, s.stab, s.clock, s.handoffs[h]);
    forall g ensures !Outstanding(t, g, s.handoffs[h].to, s.handoffs[h].loc) {
      assert !Outstanding(s, g, s.handoffs[h].to, s.handoffs[h].loc);
    }
  }

  lemma StableSend(c: Config, s: State, step: SendStep, loc: Loc, u: Uri)
    requires CanSend(c, s, step) && Ordered(c, s) && Stable(s, u, loc)
    requires Guarded(s, Sending(step), loc)
    ensures HasStable(SendAfter(c, s, step), loc)
  {
    hide SendAfter, Handing, Ordered;
    if step.StorePiece? && s.handoffs[step.handoff].loc == loc {
      StoredIsStable(c, s, step.handoff);
    } else {
      SendLeaves(c, s, step, loc, u);
    }
  }

  lemma StableWrite(c: Config, s: State, step: WriteStep, loc: Loc, u: Uri)
    requires CanWrite(c, s, step) && Stable(s, u, loc)
    ensures Stable(WriteAfter(c, s, step), u, loc)
  {
    var t := WriteAfter(c, s, step);
    assert t.handoffs == s.handoffs;
    assert forall h :: Outstanding(t, h, u, loc) ==> Outstanding(s, h, u, loc);
  }

  lemma StableElsewhere(s: State, t: State, loc: Loc, u: Uri)
    requires Stable(s, u, loc) && t.store == s.store && t.handoffs == s.handoffs
    ensures Stable(t, u, loc)
  {
    assert forall h :: Outstanding(t, h, u, loc) ==> Outstanding(s, h, u, loc);
  }

  lemma StableStep(c: Config, s: State, step: Step, loc: Loc)
    requires Enabled(c, s, step) && Ordered(c, s) && HasStable(s, loc) && Guarded(s, step, loc)
    ensures HasStable(After(c, s, step), loc)
  {
    var u :| Stable(s, u, loc);
    match step
    case Map(m) => StableElsewhere(s, MapAfter(s, m), loc, u);
    case Flushing(f) => StableElsewhere(s, FlushAfter(c, s, f), loc, u);
    case Sending(d) => StableSend(c, s, d, loc, u);
    case Writing(w) => StableWrite(c, s, w, loc, u);
  }

  /** Through any number of map versions, and with creates and rebuilds going on, a piece is never lost
      as long as no node takes it while it is itself still handing it on. */
  lemma {:induction false} NeverLost(c: Config, s: State, run: seq<Step>, loc: Loc)
    requires IsRun(c, s, run) && Ordered(c, s) && HasStable(s, loc) && GuardedRun(c, s, run, loc)
    ensures HasStable(Final(c, s, run), loc) && Held(Final(c, s, run), loc)
    decreases |run|
  {
    if run == [] {
      var u :| Stable(s, u, loc);
    } else {
      StableStep(c, s, run[0], loc);
      OrderedStep(c, s, run[0]);
      NeverLost(c, After(c, s, run[0]), run[1..], loc);
    }
  }

  /** The version check leaves one way to break the guard: the receiver's own hand-off is still
      outstanding under a strictly older map. */
  lemma GuardBrokenOnlyByOlderMap(c: Config, s: State, h: nat, g: nat)
    requires Ordered(c, s) && CanSend(c, s, StorePiece(h))
    requires Outstanding(s, g, s.handoffs[h].to, s.handoffs[h].loc)
    ensures s.handoffs[g].version < s.handoffs[h].version
  {
    var to := s.handoffs[h].to;
    assert At(s.stab, to) <= At(s.peer, to);
  }

  // ----- exactly when pending acks can lose a piece -----

  ghost predicate DeletesOnly(run: seq<Step>) {
    forall i | 0 <= i < |run| :: run[i].Sending? && run[i].s.Delete?
  }

  ghost predicate AcksCanLose(c: Config, s: State, loc: Loc) {
    exists run :: IsRun(c, s, run) && DeletesOnly(run) && !Held(Final(c, s, run), loc)
  }

  lemma {:induction false} DeletesAreGuarded(c: Config, s: State, run: seq<Step>, loc: Loc)
    requires IsRun(c, s, run) && DeletesOnly(run)
    ensures GuardedRun(c, s, run, loc)
    decreases |run|
  {
    if run != [] {
      assert run[0].Sending?;
      DeletesAreGuarded(c, After(c, s, run[0]), run[1..], loc);
    }
  }

  function Copies(s: State, loc: Loc): set<Place> {
    set p | p in s.store && p.loc == loc
  }

  lemma {:induction false} LosingRun(c: Config, s: State, loc: Loc) returns (run: seq<Step>)
    requires !HasStable(s, loc)
    ensures IsRun(c, s, run) && DeletesOnly(run) && !Held(Final(c, s, run), loc)
    decreases |Copies(s, loc)|
  {
    run := [];
    if Held(s, loc) {
      var u :| Place(u, loc) in s.store;
      assert !Stable(s, u, loc);
      var h :| Outstanding(s, h, u, loc);
      var step := Sending(Delete(h));
      var t := After(c, s, step);
      assert Copies(t, loc) == Copies(s, loc) - {Place(u, loc)};
      forall w | Place(w, loc) in t.store ensures !Stable(t, w, loc) {
        assert !Stable(s, w, loc);
        var g :| Outstanding(s, g, w, loc);
        assert Outstanding(t, g, w, loc);
      }
      var rest := LosingRun(c, t, loc);
      run := [step] + rest;
      assert run[1..] == rest;
    }
  }

  /** Deletes that are already owed can lose a piece if and only if every copy of it is owed one. */
  lemma AcksCanLoseIff(c: Config, s: State, loc: Loc)
    requires Ordered(c, s)
    ensures AcksCanLose(c, s, loc) <==> !HasStable(s, loc)
  {
    if HasStable(s, loc) {
      forall run | IsRun(c, s, run) && DeletesOnly(run) ensures Held(Final(c, s, run), loc) {
        DeletesAreGuarded(c, s, run, loc);
        NeverLost(c, s, run, loc);
      }
    } else {
      var run := LosingRun(c, s, loc);
    }
  }
}
