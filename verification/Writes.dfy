/**
 * When creates and rebuilds write the piece too, it can be lost if and only if the maps move it once: the
 * new holder may be given the piece while its stabilizer still hands it to the old one.
 */
module Writes {
  import opened Types
  import opened Codec
  import opened Protocol
  import opened Conservation
  import opened Moves

  /** Nodes learn no map past `w`; anything else may happen. */
  ghost predicate MapsUpTo(run: seq<Step>, w: nat) {
    forall i | 0 <= i < |run| :: Learns(run[i], w)
  }

  ghost predicate Learns(step: Step, w: nat) {
    step.Map? && step.m.LearnPeer? ==> step.m.version <= w
  }

  /** Some run of the changes up to `w`, with any writes, leaves the piece on no node. */
  ghost predicate CanLoseWriting(c: Config, s: State, loc: Loc, w: nat) {
    exists run :: IsRun(c, s, run) && MapsUpTo(run, w) && !Held(Final(c, s, run), loc)
  }

  /** Some map after `v` and up to `w` places the piece on another node than `a`. */
  ghost predicate MovesLater(c: Config, loc: Loc, v: nat, w: nat, a: Uri) {
    exists k :: MovesIn(c, loc, v, k, w, a)
  }

  ghost predicate MovesIn(c: Config, loc: Loc, v: nat, k: nat, w: nat, a: Uri) {
    v < k <= w && c.holder(k, loc).Some? && c.holder(k, loc) != Some(a)
  }

  // ----- without a move nothing is lost -----

  /** The holder has the piece, and a send of it that leaves there will be rejected. */
  ghost predicate Staying(c: Config, s: State, loc: Loc, v: nat, w: nat, a: Uri) {
    && Ordered(c, s)
    && (forall u :: At(s.peer, u) <= w)
    && NamedNodesKnow(c, s.peer, loc, v)
    && Place(a, loc) in s.store
    && SendsInVain(s.handoffs, s.peer, loc, a)
  }

  ghost predicate SendsInVain(handoffs: map<nat, Handoff>, peer: map<Uri, nat>, loc: Loc, a: Uri) {
    forall h | h in handoffs && handoffs[h].loc == loc && handoffs[h].data.Some? && handoffs[h].from == a ::
      InVain(peer, handoffs[h])
  }

  ghost predicate InVain(peer: map<Uri, nat>, h: Handoff) {
    h.phase.Sent? && h.version < At(peer, h.to)
  }

  lemma StayingMap(c: Config, s: State, step: MapStep, loc: Loc, v: nat, w: nat, a: Uri)
    requires CanMap(s, step) && Learns(Map(step), w) && Staying(c, s, loc, v, w, a)
    ensures Staying(c, MapAfter(s, step), loc, v, w, a)
  {
    var t := MapAfter(s, step);
    OrderedMap(c, s, step);
    assert forall u :: At(s.peer, u) <= At(t.peer, u) <= w;
  }

  lemma StayingFlush(c: Config, s: State, step: FlushStep, loc: Loc, v: nat, w: nat, a: Uri)
    requires CanFlush(s, step) && Staying(c, s, loc, v, w, a)
    ensures Staying(c, FlushAfter(c, s, step), loc, v, w, a)
  {
    OrderedFlush(c, s, step);
    hide FlushAfter, CanFlush, Ordered;
  }

  lemma StayingWrite(c: Config, s: State, step: WriteStep, loc: Loc, v: nat, w: nat, a: Uri)
    requires CanWrite(c, s, step) && Staying(c, s, loc, v, w, a)
    ensures Staying(c, WriteAfter(c, s, step), loc, v, w, a)
  {
    OrderedWrite(c, s, step);
    WritesKeep(c, s, step, Place(a, loc));
    hide WriteAfter, CanWrite, Ordered;
  }

  lemma WritesKeep(c: Config, s: State, step: WriteStep, p: Place)
    requires CanWrite(c, s, step) && p in s.store
    ensures p in WriteAfter(c, s, step).store
  {
  }

  /** The holder offers the piece only under a map before `v`, of which every node named there knows better. */
  lemma OffersInVain(c: Config, s: State, f: nat, loc: Loc, v: nat, w: nat, a: Uri)
    requires CanSend(c, s, Offer(f, loc)) && Staying(c, s, loc, v, w, a) && s.flushes[f].node == a
    requires c.holder(v, loc) == Some(a) && !MovesLater(c, loc, v, w, a)
    ensures InVain(s.peer, SendOf(c, f, s.flushes[f], loc, Some(s.store[Place(a, loc)])))
  {
    var fl := s.flushes[f];
    var i := fl.snapshot.version;
    assert FlushOrdered(c, s.stab, s.clock, fl);
    assert i <= At(s.stab, a) <= At(s.peer, a) <= w;
    assert !MovesIn(c, loc, v, i, w, a);
    assert v <= At(s.peer, c.holder(i, loc).value);
  }

  lemma StayingHandoffs(c: Config, s: State, step: SendStep, loc: Loc, v: nat, w: nat, a: Uri, h: nat)
    requires CanSend(c, s, step) && Staying(c, s, loc, v, w, a)
    requires c.holder(v, loc) == Some(a) && !MovesLater(c, loc, v, w, a)
    requires h in SendAfter(c, s, step).handoffs
    requires var g := SendAfter(c, s, step).handoffs[h]; g.loc == loc && g.data.Some? && g.from == a
    ensures InVain(s.peer, SendAfter(c, s, step).handoffs[h])
  {
    if step.Offer? && h == s.clock {
      OffersInVain(c, s, step.flush, loc, v, w, a);
    } else {
      assert h in s.handoffs;
      assert InVain(s.peer, s.handoffs[h]);
    }
  }

  lemma StayingStore(c: Config, s: State, step: SendStep, loc: Loc, v: nat, w: nat, a: Uri)
    requires CanSend(c, s, step) && Staying(c, s, loc, v, w, a)
    ensures Place(a, loc) in SendAfter(c, s, step).store
  {
    assert step.Delete? && s.handoffs[step.handoff].loc == loc && s.handoffs[step.handoff].from == a ==>
        InVain(s.peer, s.handoffs[step.handoff]);
  }

  lemma StayingSend(c: Config, s: State, step: SendStep, loc: Loc, v: nat, w: nat, a: Uri)
    requires CanSend(c, s, step) && Staying(c, s, loc, v, w, a)
    requires c.holder(v, loc) == Some(a) && !MovesLater(c, loc, v, w, a)
    ensures Staying(c, SendAfter(c, s, step), loc, v, w, a)
  {
    hide Ordered, InVain;
    OrderedSend(c, s, step);
    StayingStore(c, s, step, loc, v, w, a);
    var t := SendAfter(c, s, step);
    hide SendAfter, CanSend;
    forall h | h in t.handoffs && t.handoffs[h].loc == loc && t.handoffs[h].data.Some? && t.handoffs[h].from == a
      ensures InVain(t.peer, t.handoffs[h])
    {
      StayingHandoffs(c, s, step, loc, v, w, a, h);
    }
  }

  lemma {:induction false} StayingRun(c: Config, s: State, run: seq<Step>, loc: Loc, v: nat, w: nat, a: Uri)
    requires IsRun(c, s, run) && MapsUpTo(run, w) && Staying(c, s, loc, v, w, a)
    requires c.holder(v, loc) == Some(a) && !MovesLater(c, loc, v, w, a)
    ensures Held(Final(c, s, run), loc)
    decreases |run|
  {
    if run != [] {
      hide Staying, MapAfter, FlushAfter, SendAfter, WriteAfter, CanMap, CanFlush, CanSend, CanWrite;
      assert Learns(run[0], w);
      match run[0] {
        case Map(m) => StayingMap(c, s, m, loc, v, w, a);
        case Flushing(f) => StayingFlush(c, s, f, loc, v, w, a);
        case Sending(d) => StayingSend(c, s, d, loc, v, w, a);
        case Writing(d) => StayingWrite(c, s, d, loc, v, w, a);
      }
      assert MapsUpTo(run[1..], w);
      StayingRun(c, After(c, s, run[0]), run[1..], loc, v, w, a);
    }
  }

  // ----- with one it can be -----

  lemma {:induction false} ChangesLearn(c: Config, s: State, run: seq<Step>, loc: Loc, w: nat)
    requires IsRun(c, s, run) && ChangeRun(c, s, run, loc, w)
    ensures MapsUpTo(run, w)
    decreases |run|
  {
    if run != [] {
      ChangesLearn(c, After(c, s, run[0]), run[1..], loc, w);
      forall i | 0 <= i < |run| ensures Learns(run[i], w) {
        assert i > 0 ==> run[i] == run[1..][i - 1];
      }
    }
  }

  /** Once the new holder has the piece as well, it hands it to the old one under map `v`, and the old one hands
      it back under `k`; then both deletes run. */
  lemma LostOnceWritten(c: Config, t: State, loc: Loc, v: nat, k: nat, w: nat, a: Uri, b: Uri)
    requires loc.index < c.n && Ordered(c, t) && v < k <= w && a != b
    requires c.holder(v, loc) == Some(a) && c.holder(k, loc) == Some(b)
    requires At(t.peer, a) <= v && At(t.peer, b) <= v && Place(b, loc) in t.store
    requires forall p | p in t.store && p.loc == loc :: p.node == a || p.node == b
    ensures CanLose(c, t, loc, w)
  {
    ReachedSelf(c, t, loc, w);
    assert At(t.stab, a) <= At(t.peer, a) && At(t.stab, b) <= At(t.peer, b);
    var lost := LostBetweenTwo(c, t, t, loc, v, k, w, b, a);
    var run :| IsRun(c, t, run) && ChangeRun(c, t, run, loc, w) && Final(c, t, run) == lost;
  }

  /** A create under map `k` is enough. */
  lemma CreateLoses(c: Config, s: State, loc: Loc, v: nat, k: nat, w: nat, a: Uri)
    requires Ordered(c, s) && Settled(c, s, loc, v, a) && MovesIn(c, loc, v, k, w, a)
    ensures CanLoseWriting(c, s, loc, w)
  {
    hide FlushAfter, SendAfter, MapAfter, CanFlush, CanSend, CanMap;
    var b := c.holder(k, loc).value;
    var create := Create(b, loc, k);
    assert c.Names(b, loc, k);
    OrderedWrite(c, s, create);
    var t := WriteAfter(c, s, create);
    LostOnceWritten(c, t, loc, v, k, w, a, b);
    var rest :| IsRun(c, t, rest) && ChangeRun(c, t, rest, loc, w) && !Held(Final(c, t, rest), loc);
    ChangesLearn(c, t, rest, loc, w);
    assert After(c, s, Writing(create)) == t;
    Prefixed(c, s, Writing(create), rest);
    assert MapsUpTo([Writing(create)] + rest, w);
  }

  /** So is a rebuild that the new holder was asked for and that has heard enough; no client writes. */
  lemma RebuildLoses(c: Config, s: State, r: nat, loc: Loc, v: nat, k: nat, w: nat, a: Uri, b: Uri)
    requires Ordered(c, s) && v < k <= w && a != b
    requires c.holder(v, loc) == Some(a) && c.holder(k, loc) == Some(b)
    requires At(s.peer, a) <= v && At(s.peer, b) <= v
    requires forall p | p in s.store && p.loc == loc :: p.node == a || p.node == b
    requires CanWrite(c, s, FinishRebuild(r)) && s.rebuilds[r].loc == loc && s.rebuilds[r].node == b
    ensures CanLose(c, WriteAfter(c, s, FinishRebuild(r)), loc, w)
  {
    OrderedWrite(c, s, FinishRebuild(r));
    LostOnceWritten(c, WriteAfter(c, s, FinishRebuild(r)), loc, v, k, w, a, b);
  }

  /** From any settled state, the interleavings of the changes up to map `w` with any creates and rebuilds can
      lose the piece if and only if those maps ever move it. */
  lemma CanLoseWritingIffMovesOnce(c: Config, s: State, loc: Loc, v: nat, w: nat, a: Uri)
    requires Ordered(c, s) && Settled(c, s, loc, v, a) && v <= w
    ensures CanLoseWriting(c, s, loc, w) <==> MovesLater(c, loc, v, w, a)
  {
    if MovesLater(c, loc, v, w, a) {
      var k :| MovesIn(c, loc, v, k, w, a);
      CreateLoses(c, s, loc, v, k, w, a);
    } else {
      assert Staying(c, s, loc, v, w, a);
      forall run | IsRun(c, s, run) && MapsUpTo(run, w) ensures Held(Final(c, s, run), loc) {
        StayingRun(c, s, run, loc, v, w, a);
      }
    }
  }

  // ----- from the empty cluster -----

  /** Some run stores the piece and then goes on to a state in which no node has it. */
  ghost predicate CanLoseWritten(c: Config, loc: Loc) {
    exists run, more :: LosesAfter(c, loc, run, more)
  }

  ghost predicate LosesAfter(c: Config, loc: Loc, run: seq<Step>, more: seq<Step>) {
    && IsRun(c, START, run) && Held(Final(c, START, run), loc)
    && IsRun(c, Final(c, START, run), more) && !Held(Final(c, Final(c, START, run), more), loc)
  }

  ghost predicate Named(c: Config, loc: Loc, node: Uri) {
    exists u: nat :: c.holder(u, loc) == Some(node)
  }

  /** The piece is, and will be rebuilt, only on nodes that some map names, and is on its way nowhere. */
  ghost predicate OnNamed(c: Config, s: State, loc: Loc) {
    && (forall p | p in s.store && p.loc == loc :: Named(c, loc, p.node))
    && (forall p | p in s.rebuildQueue && p.loc == loc :: Named(c, loc, p.node))
    && (forall r | r in s.rebuilds && s.rebuilds[r].loc == loc :: Named(c, loc, s.rebuilds[r].node))
    && (forall h | h in s.handoffs && s.handoffs[h].loc == loc :: s.handoffs[h].data.None?)
  }

  lemma NamedAreOne(c: Config, loc: Loc, x: Uri, y: Uri)
    requires !EverMoves(c, loc) && Named(c, loc, x) && Named(c, loc, y)
    ensures x == y
  {
    var j: nat :| c.holder(j, loc) == Some(x);
    var k: nat :| c.holder(k, loc) == Some(y);
    assert !PlacedApart(c, loc, j, k);
  }

  lemma OnNamedWrite(c: Config, s: State, step: WriteStep, loc: Loc)
    requires CanWrite(c, s, step) && OnNamed(c, s, loc)
    ensures OnNamed(c, WriteAfter(c, s, step), loc)
    ensures Held(s, loc) ==> Held(WriteAfter(c, s, step), loc)
  {
    var t := WriteAfter(c, s, step);
    assert forall p | p in s.store :: p in t.store;
  }

  /** A node that some map names is never asked by a map to give the piece to another. */
  lemma NothingOffered(c: Config, s: State, f: nat, loc: Loc)
    requires OnNamed(c, s, loc) && !EverMoves(c, loc)
    ensures !CanSend(c, s, Offer(f, loc))
  {
    if CanSend(c, s, Offer(f, loc)) {
      var fl := s.flushes[f];
      var to := c.holder(fl.snapshot.version, loc).value;
      assert Named(c, loc, to) && Named(c, loc, fl.node);
      NamedAreOne(c, loc, fl.node, to);
    }
  }

  lemma SentWithoutData(c: Config, s: State, step: SendStep, loc: Loc, h: nat)
    requires CanSend(c, s, step) && OnNamed(c, s, loc) && !EverMoves(c, loc)
    requires h in SendAfter(c, s, step).handoffs && SendAfter(c, s, step).handoffs[h].loc == loc
    ensures SendAfter(c, s, step).handoffs[h].data.None?
  {
    if step.Offer? && step.loc == loc {
      NothingOffered(c, s, step.flush, loc);
    }
  }

  lemma StoredAsBefore(c: Config, s: State, step: SendStep, loc: Loc, p: Place)
    requires CanSend(c, s, step) && OnNamed(c, s, loc) && p.loc == loc
    ensures p in SendAfter(c, s, step).store <==> p in s.store
  {
  }

  lemma AskedOnNamed(c: Config, s: State, step: SendStep, loc: Loc, p: Place)
    requires CanSend(c, s, step) && Ordered(c, s) && OnNamed(c, s, loc)
    requires p in SendAfter(c, s, step).rebuildQueue && p.loc == loc
    ensures Named(c, loc, p.node)
  {
    if step.QueueRebuild? {
      assert HandoffOrdered(c, s.stab, s.clock, s.handoffs[step.handoff]);
    }
  }

  lemma OnNamedSend(c: Config, s: State, step: SendStep, loc: Loc)
    requires CanSend(c, s, step) && Ordered(c, s) && OnNamed(c, s, loc) && !EverMoves(c, loc)
    ensures OnNamed(c, SendAfter(c, s, step), loc)
    ensures Held(s, loc) ==> Held(SendAfter(c, s, step), loc)
  {
    hide Ordered, EverMoves, Named;
    var t := SendAfter(c, s, step);
    hide SendAfter, CanSend;
    forall p: Place | p.loc == loc ensures p in t.store <==> p in s.store {
      StoredAsBefore(c, s, step, loc, p);
    }
    forall p | p in t.rebuildQueue && p.loc == loc ensures Named(c, loc, p.node) {
      AskedOnNamed(c, s, step, loc, p);
    }
    forall h | h in t.handoffs && t.handoffs[h].loc == loc ensures t.handoffs[h].data.None? {
      SentWithoutData(c, s, step, loc, h);
    }
  }

  lemma {:induction false} OnNamedRun(c: Config, s: State, run: seq<Step>, loc: Loc)
    requires IsRun(c, s, run) && Ordered(c, s) && OnNamed(c, s, loc) && !EverMoves(c, loc)
    ensures Ordered(c, Final(c, s, run)) && OnNamed(c, Final(c, s, run), loc)
    ensures Held(s, loc) ==> Held(Final(c, s, run), loc)
    decreases |run|
  {
    if run != [] {
      OrderedStep(c, s, run[0]);
      OnNamedStep(c, s, run[0], loc);
      OnNamedRun(c, After(c, s, run[0]), run[1..], loc);
    }
  }

  lemma OnNamedStep(c: Config, s: State, step: Step, loc: Loc)
    requires Enabled(c, s, step) && Ordered(c, s) && OnNamed(c, s, loc) && !EverMoves(c, loc)
    ensures OnNamed(c, After(c, s, step), loc)
    ensures Held(s, loc) ==> Held(After(c, s, step), loc)
  {
    match step
    case Map(m) => SameRebuilds(s, m);
    case Flushing(f) => FlushRebuilds(c, s, f);
    case Sending(d) => OnNamedSend(c, s, d, loc);
    case Writing(d) => OnNamedWrite(c, s, d, loc);
  }

  lemma SameRebuilds(s: State, step: MapStep)
    requires CanMap(s, step)
    ensures MapAfter(s, step).rebuildQueue == s.rebuildQueue
  {
  }

  lemma FlushRebuilds(c: Config, s: State, step: FlushStep)
    requires CanFlush(s, step)
    ensures FlushAfter(c, s, step).rebuildQueue == s.rebuildQueue
  {
  }

  /** Created on `b` under the later map `k`, handed to `a` under `j`, and back. */
  lemma WrittenLoses(c: Config, loc: Loc, j: nat, k: nat, a: Uri, b: Uri)
    requires loc.index < c.n && j < k && a != b
    requires c.holder(j, loc) == Some(a) && c.holder(k, loc) == Some(b)
    ensures CanLoseWritten(c, loc)
  {
    hide FlushAfter, SendAfter, MapAfter, CanFlush, CanSend, CanMap;
    var create := Writing(Create(b, loc, k));
    assert c.Names(b, loc, k);
    var run := [create];
    var t := After(c, START, create);
    assert run == [create] + [];
    Prefixed(c, START, create, []);
    assert Final(c, START, run) == t;
    OrderedStep(c, START, create);
    assert Place(b, loc) in t.store && Held(t, loc);
    LostOnceWritten(c, t, loc, j, k, k, a, b);
    var more :| IsRun(c, t, more) && ChangeRun(c, t, more, loc, k) && !Held(Final(c, t, more), loc);
    assert LosesAfter(c, loc, run, more);
  }

  /** A piece can be stored and later be on no node if and only if two maps place it on different nodes. */
  lemma CanLoseWrittenIff(c: Config, loc: Loc)
    requires loc.index < c.n
    ensures CanLoseWritten(c, loc) <==> EverMoves(c, loc)
  {
    if EverMoves(c, loc) {
      var j, k :| PlacedApart(c, loc, j, k);
      if j < k {
        WrittenLoses(c, loc, j, k, c.holder(j, loc).value, c.holder(k, loc).value);
      } else {
        WrittenLoses(c, loc, k, j, c.holder(k, loc).value, c.holder(j, loc).value);
      }
    } else {
      forall run, more ensures !LosesAfter(c, loc, run, more) {
        if LosesAfter(c, loc, run, more) {
          OnNamedRun(c, START, run, loc);
          OnNamedRun(c, Final(c, START, run), more, loc);
        }
      }
    }
  }

  // ----- settled states are reached -----

  /** Only receivers have learned anything, and nothing newer than `v`. */
  ghost predicate OnlyLearned(s: State, v: nat) {
    && s.store == map[] && s.handoffs == map[] && s.stab == map[]
    && forall u :: At(s.peer, u) <= v
  }

  lemma LearnOne(c: Config, s: State, u: Uri, v: nat)
    requires OnlyLearned(s, v)
    ensures Enabled(c, s, Map(LearnPeer(u, v))) && OnlyLearned(After(c, s, Map(LearnPeer(u, v))), v)
    ensures At(After(c, s, Map(LearnPeer(u, v))).peer, u) == v
    ensures forall x :: At(s.peer, x) <= At(After(c, s, Map(LearnPeer(u, v))).peer, x)
  {
    assert forall x :: At(s.peer, x) <= v;
    var t := After(c, s, Map(LearnPeer(u, v)));
    assert forall x :: At(t.peer, x) == if x == u then v else At(s.peer, x);
  }

  lemma {:induction false} LearnAll(c: Config, loc: Loc, v: nat, m: nat) returns (run: seq<Step>)
    ensures IsRun(c, START, run) && OnlyLearned(Final(c, START, run), v)
    ensures forall w: nat | w < m && c.holder(w, loc).Some? ::
              v <= At(Final(c, START, run).peer, c.holder(w, loc).value)
  {
    run := [];
    if m == 0 {
      assert forall u :: At(START.peer, u) == 0;
    } else {
      run := LearnAll(c, loc, v, m - 1);
      if c.holder(m - 1, loc).Some? {
        hide After, Enabled, OnlyLearned;
        var step := Map(LearnPeer(c.holder(m - 1, loc).value, v));
        LearnOne(c, Final(c, START, run), c.holder(m - 1, loc).value, v);
        Appended(c, START, run, step);
        run := run + [step];
      }
    }
  }

  /** Whatever map `v` says, a run from the empty cluster settles the piece on the holder it names. */
  lemma SettledIsReached(c: Config, loc: Loc, v: nat, a: Uri) returns (run: seq<Step>)
    requires loc.index < c.n && c.holder(v, loc) == Some(a)
    ensures IsRun(c, START, run) && Ordered(c, Final(c, START, run)) && Settled(c, Final(c, START, run), loc, v, a)
  {
    run := LearnAll(c, loc, v, v + 1);
    var step := Writing(Create(a, loc, v));
    assert c.Names(a, loc, v);
    Appended(c, START, run, step);
    run := run + [step];
    OrderedRun(c, START, run);
  }
}
