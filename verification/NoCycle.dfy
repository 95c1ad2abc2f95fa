/**
 * Outstanding hand-offs of one piece can form a cycle, but not one in which each sender had read its map
 * before the previous hand-off arrived.
 */
module NoCycle {
  import opened Types
  import opened Protocol
  import opened Conservation
  import opened Moves

  /** A map that a node read before it stored a piece is no newer than the map the piece came with. */
  ghost predicate ReadsBeforeStores(flushes: map<nat, Flush>, handoffs: map<nat, Handoff>) {
    forall h | h in handoffs && handoffs[h].phase.Stored? ::
      && (forall g | g in handoffs :: HandoffBefore(handoffs[h], handoffs[g]))
      && (forall f | f in flushes :: FlushBefore(handoffs[h], flushes[f]))
  }

  ghost predicate HandoffBefore(h: Handoff, g: Handoff)
    requires h.phase.Stored?
  {
    g.from == h.to && g.snapAt < h.phase.at ==> g.version <= h.version
  }

  ghost predicate FlushBefore(h: Handoff, fl: Flush)
    requires h.phase.Stored?
  {
    fl.node == h.to && fl.snapshot.Taken? && fl.snapshot.at < h.phase.at ==>
      fl.snapshot.version <= h.version
  }

  lemma SendKeeps(c: Config, s: State, step: SendStep)
    requires CanSend(c, s, step) && Ordered(c, s) && ReadsBeforeStores(s.flushes, s.handoffs)
    ensures ReadsBeforeStores(SendAfter(c, s, step).flushes, SendAfter(c, s, step).handoffs)
  {
    hide SendAfter, CanSend, Ordered, HandoffBefore, FlushBefore, HandoffFrom, FlushFrom;
    var t := SendAfter(c, s, step);
    forall h, g | h in t.handoffs && t.handoffs[h].phase.Stored? && g in t.handoffs
      ensures HandoffBefore(t.handoffs[h], t.handoffs[g])
    {
      HandoffsFrom(c, s, step, h);
      HandoffsFrom(c, s, step, g);
      HandoffKept(c, s, h, g, t.handoffs[h], t.handoffs[g]);
    }
    forall h, f | h in t.handoffs && t.handoffs[h].phase.Stored? && f in t.flushes
      ensures FlushBefore(t.handoffs[h], t.flushes[f])
    {
      HandoffsFrom(c, s, step, h);
      FlushesFrom(c, s, step, f);
      FlushKept(c, s, h, f, t.handoffs[h], t.flushes[f]);
    }
  }

  lemma HandoffKept(c: Config, s: State, h: nat, g: nat, ho: Handoff, other: Handoff)
    requires Ordered(c, s) && ReadsBeforeStores(s.flushes, s.handoffs)
    requires HandoffFrom(c, s, h, ho) && ho.phase.Stored? && HandoffFrom(c, s, g, other)
    ensures HandoffBefore(ho, other)
  {
    assert At(s.stab, other.from) <= At(s.peer, other.from);
    HandoffStaysOrdered(c, s, h, ho);
    HandoffStaysOrdered(c, s, g, other);
  }

  lemma FlushKept(c: Config, s: State, h: nat, f: nat, ho: Handoff, fl: Flush)
    requires Ordered(c, s) && ReadsBeforeStores(s.flushes, s.handoffs)
    requires HandoffFrom(c, s, h, ho) && ho.phase.Stored? && FlushFrom(s, f, fl)
    ensures FlushBefore(ho, fl)
  {
    assert At(s.stab, fl.node) <= At(s.peer, fl.node);
    FlushStaysOrdered(c, s, f, fl);
  }

  lemma FlushKeeps(c: Config, s: State, step: FlushStep)
    requires CanFlush(s, step) && Ordered(c, s) && ReadsBeforeStores(s.flushes, s.handoffs)
    ensures ReadsBeforeStores(FlushAfter(c, s, step).flushes, s.handoffs)
    ensures FlushAfter(c, s, step).handoffs == s.handoffs
  {
  }

  lemma StepKeeps(c: Config, s: State, step: Step)
    requires Enabled(c, s, step) && Ordered(c, s) && ReadsBeforeStores(s.flushes, s.handoffs)
    ensures ReadsBeforeStores(After(c, s, step).flushes, After(c, s, step).handoffs)
  {
    match step
    case Map(m) => assert MapAfter(s, m).handoffs == s.handoffs;
    case Flushing(f) => FlushKeeps(c, s, f);
    case Sending(d) => SendKeeps(c, s, d);
    case Writing(w) => assert WriteAfter(c, s, w).handoffs == s.handoffs;
  }

  lemma {:induction false} RunKeeps(c: Config, s: State, run: seq<Step>)
    requires IsRun(c, s, run) && Ordered(c, s) && ReadsBeforeStores(s.flushes, s.handoffs)
    ensures Ordered(c, Final(c, s, run))
    ensures ReadsBeforeStores(Final(c, s, run).flushes, Final(c, s, run).handoffs)
    decreases |run|
  {
    if run != [] {
      OrderedStep(c, s, run[0]);
      StepKeeps(c, s, run[0]);
      RunKeeps(c, After(c, s, run[0]), run[1..]);
    }
  }

  /** Each hand-off of the sequence is outstanding, and the next one leaves the node it arrived at; the last
      leads back to the first. */
  ghost predicate Chase(s: State, loc: Loc, hs: seq<nat>) {
    && hs != []
    && (forall i | 0 <= i < |hs| :: hs[i] in s.handoffs && Outstanding(s, hs[i], s.handoffs[hs[i]].from, loc))
    && (forall i | 0 < i < |hs| :: s.handoffs[hs[i]].from == s.handoffs[hs[i - 1]].to)
    && s.handoffs[hs[0]].from == s.handoffs[hs[|hs| - 1]].to
  }

  /** A chase in which each sender had read its map before the previous hand-off arrived. */
  ghost predicate Cycle(s: State, loc: Loc, hs: seq<nat>) {
    && Chase(s, loc, hs)
    && (forall i | 0 < i < |hs| :: Follows(s.handoffs[hs[i - 1]], s.handoffs[hs[i]]))
    && Follows(s.handoffs[hs[|hs| - 1]], s.handoffs[hs[0]])
  }

  ghost predicate Follows(h: Handoff, g: Handoff) {
    h.phase.Stored? && g.from == h.to && g.snapAt < h.phase.at
  }

  lemma {:induction false} VersionsFall(s: State, loc: Loc, hs: seq<nat>, i: nat)
    requires ReadsBeforeStores(s.flushes, s.handoffs) && Cycle(s, loc, hs) && i < |hs|
    ensures s.handoffs[hs[i]].version <= s.handoffs[hs[0]].version
  {
    if i > 0 {
      VersionsFall(s, loc, hs, i - 1);
      assert Follows(s.handoffs[hs[i - 1]], s.handoffs[hs[i]]);
      assert HandoffBefore(s.handoffs[hs[i - 1]], s.handoffs[hs[i]]);
    }
  }

  /** In no reachable state, over any number of map versions, do outstanding hand-offs chase each other around
      a cycle with every map read before the previous arrival. */
  lemma NoHandoffCycle(c: Config, run: seq<Step>, loc: Loc, hs: seq<nat>)
    requires IsRun(c, START, run)
    ensures !Cycle(Final(c, START, run), loc, hs)
  {
    RunKeeps(c, START, run);
    var s := Final(c, START, run);
    if Cycle(s, loc, hs) {
      // The last version is at most the first and the first at most the last, so both name one holder.
      VersionsFall(s, loc, hs, |hs| - 1);
    }
  }

  // ----- without that condition -----

  ghost predicate CanChase(c: Config, loc: Loc) {
    exists run, hs :: IsRun(c, START, run) && Chase(Final(c, START, run), loc, hs)
  }

  /** From the piece being created on `a` under map `k`: to `b` under map `j`, and back under the later map `k`. */
  lemma ChaseHappens(c: Config, loc: Loc, j: nat, k: nat, a: Uri, b: Uri)
    requires loc.index < c.n && j < k && a != b
    requires c.holder(j, loc) == Some(b) && c.holder(k, loc) == Some(a)
    ensures CanChase(c, loc)
  {
    hide Chase, BackAndForth, FlushAfter, SendAfter, MapAfter, CanFlush, CanSend, CanMap;
    var create := Writing(Create(a, loc, k));
    assert c.Names(a, loc, k);
    var s0 := After(c, START, create);
    ReachedSelf(c, s0, loc, k);
    var t, g, h := ThereAndBack(c, s0, s0, loc, j, k, k, a, b);
    var rest :| IsRun(c, s0, rest) && ChangeRun(c, s0, rest, loc, k) && Final(c, s0, rest) == t;
    Prefixed(c, START, create, rest);
    assert Final(c, START, [create] + rest) == t;
    BackAndForthIsChase(t, loc, g, h, a, b);
  }

  lemma BackAndForthIsChase(s: State, loc: Loc, g: nat, h: nat, a: Uri, b: Uri)
    requires BackAndForth(s, loc, g, h, a, b)
    ensures Chase(s, loc, [g, h])
  {
  }

  lemma SameHolder(c: Config, s: State, loc: Loc, hs: seq<nat>, i: nat)
    requires Ordered(c, s) && Chase(s, loc, hs) && i < |hs| && !EverMoves(c, loc)
    ensures s.handoffs[hs[i]].to == s.handoffs[hs[0]].to
  {
    var g, h := s.handoffs[hs[i]], s.handoffs[hs[0]];
    assert Outstanding(s, hs[i], g.from, loc) && Outstanding(s, hs[0], h.from, loc);
    assert HandoffOrdered(c, s.stab, s.clock, g) && HandoffOrdered(c, s.stab, s.clock, h);
    assert !PlacedApart(c, loc, g.version, h.version);
  }

  /** Outstanding hand-offs can come to chase each other around a cycle if and only if the maps ever place
      the piece on different nodes. */
  lemma CanChaseIff(c: Config, loc: Loc)
    requires loc.index < c.n
    ensures CanChase(c, loc) <==> EverMoves(c, loc)
  {
    if EverMoves(c, loc) {
      var j, k :| PlacedApart(c, loc, j, k);
      if j < k {
        ChaseHappens(c, loc, j, k, c.holder(k, loc).value, c.holder(j, loc).value);
      } else {
        ChaseHappens(c, loc, k, j, c.holder(j, loc).value, c.holder(k, loc).value);
      }
    } else {
      forall run, hs | IsRun(c, START, run) ensures !Chase(Final(c, START, run), loc, hs) {
        OrderedRun(c, START, run);
        var s := Final(c, START, run);
        if Chase(s, loc, hs) {
          SameHolder(c, s, loc, hs, |hs| - 1);
        }
      }
    }
  }
}
