/**
 * Over a range of cluster changes in which nobody creates or rebuilds it, a piece can be lost if and only if
 * its holder moves twice. `Writes` is about changes in which it is written as well.
 */
module Moves {
  import opened Types
  import opened Protocol
  import opened Conservation

  /**
   * Before the change: the piece is on its holder `a` under map `v` and nowhere else, no send carries
   * it, no node is past `v`, and every node that a map up to `v` names as its holder has learned `v`.
   */
  ghost predicate Settled(c: Config, s: State, loc: Loc, v: nat, a: Uri) {
    && loc.index < c.n
    && c.holder(v, loc) == Some(a)
    && (forall p | p in s.store && p.loc == loc :: p.node == a)
    && Place(a, loc) in s.store
    && (forall h | h in s.handoffs && s.handoffs[h].loc == loc :: s.handoffs[h].data.None?)
    && (forall u :: At(s.peer, u) <= v)
    && NamedNodesKnow(c, s.peer, loc, v)
  }

  ghost predicate NamedNodesKnow(c: Config, peer: map<Uri, nat>, loc: Loc, v: nat) {
    forall w: nat | w <= v && c.holder(w, loc).Some? :: v <= At(peer, c.holder(w, loc).value)
  }

  /** A step of the changes up to map `w`, in which no create or rebuild writes this piece. */
  ghost predicate InChange(s: State, step: Step, loc: Loc, w: nat) {
    match step
    case Map(m) => m.LearnPeer? ==> m.version <= w
    case Flushing(_) => true
    case Sending(_) => true
    case Writing(d) =>
      && (d.Create? ==> d.loc != loc)
      && (d.FinishRebuild? && d.rebuild in s.rebuilds ==> s.rebuilds[d.rebuild].loc != loc)
  }

  ghost predicate ChangeRun(c: Config, s: State, run: seq<Step>, loc: Loc, w: nat)
    requires IsRun(c, s, run)
    decreases |run|
  {
    run == [] || (InChange(s, run[0], loc, w) && ChangeRun(c, After(c, s, run[0]), run[1..], loc, w))
  }

  /** Some run of the changes up to `w` leaves the piece on no node. */
  ghost predicate CanLose(c: Config, s: State, loc: Loc, w: nat) {
    exists run :: IsRun(c, s, run) && ChangeRun(c, s, run, loc, w) && !Held(Final(c, s, run), loc)
  }

  /** From its holder `a` under `v`, the maps up to `w` move the piece away and then move it again. */
  ghost predicate MovesTwice(c: Config, loc: Loc, v: nat, w: nat, a: Uri) {
    exists j, k :: MovesAt(c, loc, v, j, k, w, a)
  }

  ghost predicate MovesAt(c: Config, loc: Loc, v: nat, j: nat, k: nat, w: nat, a: Uri) {
    && v < j < k <= w
    && c.holder(j, loc).Some? && c.holder(j, loc) != Some(a)
    && c.holder(k, loc).Some? && c.holder(k, loc) != c.holder(j, loc)
  }

  /** Some two maps place the piece on different nodes. */
  ghost predicate EverMoves(c: Config, loc: Loc) {
    exists j, k :: PlacedApart(c, loc, j, k)
  }

  ghost predicate PlacedApart(c: Config, loc: Loc, j: nat, k: nat) {
    c.holder(j, loc).Some? && c.holder(k, loc).Some? && c.holder(j, loc) != c.holder(k, loc)
  }

  /** The maps from `v` to before `m` keep the piece on `a`, those from `m` to `w` put it on `b`. */
  ghost predicate OneMove(c: Config, loc: Loc, v: nat, m: nat, w: nat, a: Uri, b: Uri) {
    && v < m
    && (forall i: nat | v <= i < m && i <= w :: c.holder(i, loc).None? || c.holder(i, loc) == Some(a))
    && (forall i: nat | m <= i <= w :: c.holder(i, loc).None? || c.holder(i, loc) == Some(b))
  }

  function FirstMove(c: Config, loc: Loc, i: nat, w: nat, a: Uri): (m: nat)
    ensures i <= m
    ensures forall x: nat | i <= x < m && x <= w :: c.holder(x, loc).None? || c.holder(x, loc) == Some(a)
    ensures m <= w ==> c.holder(m, loc).Some? && c.holder(m, loc) != Some(a)
    decreases w + 1 - i
  {
    if i > w || (c.holder(i, loc).Some? && c.holder(i, loc) != Some(a)) then i
    else FirstMove(c, loc, i + 1, w, a)
  }

  lemma OneMoveOtherwise(c: Config, loc: Loc, v: nat, w: nat, a: Uri) returns (m: nat, b: Uri)
    requires c.holder(v, loc) == Some(a) && !MovesTwice(c, loc, v, w, a)
    ensures OneMove(c, loc, v, m, w, a, b)
  {
    m := FirstMove(c, loc, v + 1, w, a);
    b := if m <= w then c.holder(m, loc).value else a;
    forall i: nat | m <= i <= w ensures c.holder(i, loc).None? || c.holder(i, loc) == Some(b) {
      assert !MovesAt(c, loc, v, m, i, w, a);
    }
  }

  // ----- one move is safe -----

  /** Only the old holder, and after it has learned of the move the new one, have the piece. */
  ghost predicate OnEitherHolder(
    store: map<Place, Bytes>, peer: map<Uri, nat>, loc: Loc, m: nat, a: Uri, b: Uri)
  {
    forall p | p in store && p.loc == loc :: p.node == a || (p.node == b && m <= At(peer, a))
  }

  /** A send with the piece either goes from the old holder under a new map, or will be rejected. */
  ghost predicate MovesForward(peer: map<Uri, nat>, h: Handoff, m: nat, a: Uri) {
    || (h.from == a && m <= h.version)
    || (h.phase.Sent? && h.version < At(peer, h.to))
  }

  ghost predicate AllMoveForward(
    handoffs: map<nat, Handoff>, peer: map<Uri, nat>, loc: Loc, m: nat, a: Uri)
  {
    forall h | h in handoffs && handoffs[h].loc == loc && handoffs[h].data.Some? ::
      MovesForward(peer, handoffs[h], m, a)
  }

  /** The move of one piece: where it goes, and between which maps. */
  datatype Move = Move(loc: Loc, v: nat, m: nat, w: nat, a: Uri, b: Uri)

  ghost predicate Moving(c: Config, s: State, mv: Move) {
    && Ordered(c, s)
    && OneMove(c, mv.loc, mv.v, mv.m, mv.w, mv.a, mv.b)
    && (forall u :: At(s.peer, u) <= mv.w)
    && NamedNodesKnow(c, s.peer, mv.loc, mv.v)
    && OnEitherHolder(s.store, s.peer, mv.loc, mv.m, mv.a, mv.b)
    && AllMoveForward(s.handoffs, s.peer, mv.loc, mv.m, mv.a)
  }

  lemma MovingMap(c: Config, s: State, step: MapStep, mv: Move)
    requires CanMap(s, step) && Moving(c, s, mv) && InChange(s, Map(step), mv.loc, mv.w)
    ensures Moving(c, MapAfter(s, step), mv)
  {
    var t := MapAfter(s, step);
    OrderedMap(c, s, step);
    assert forall u :: At(s.peer, u) <= At(t.peer, u) <= mv.w;
  }

  lemma MovingFlush(c: Config, s: State, step: FlushStep, mv: Move)
    requires CanFlush(s, step) && Moving(c, s, mv)
    ensures Moving(c, FlushAfter(c, s, step), mv)
  {
    var t := FlushAfter(c, s, step);
    OrderedFlush(c, s, step);
    assert t.peer == s.peer && t.store == s.store && t.handoffs == s.handoffs;
  }

  lemma MovingWrite(c: Config, s: State, step: WriteStep, mv: Move)
    requires CanWrite(c, s, step) && Moving(c, s, mv) && InChange(s, Writing(step), mv.loc, mv.w)
    ensures Moving(c, WriteAfter(c, s, step), mv)
  {
    var t := WriteAfter(c, s, step);
    OrderedWrite(c, s, step);
    assert t.peer == s.peer && t.handoffs == s.handoffs;
    assert forall p: Place | p.loc == mv.loc :: p in t.store <==> p in s.store;
  }

  /** Whoever offers the piece does so from the old holder under a new map, or in vain. */
  lemma OfferMovesForward(c: Config, s: State, f: nat, mv: Move)
    requires CanSend(c, s, Offer(f, mv.loc)) && Moving(c, s, mv)
    ensures MovesForward(s.peer,
              SendOf(c, f, s.flushes[f], mv.loc, Some(s.store[Place(s.flushes[f].node, mv.loc)])), mv.m, mv.a)
  {
    var fl := s.flushes[f];
    var i := fl.snapshot.version;
    assert i <= At(s.stab, fl.node) <= At(s.peer, fl.node) <= mv.w;
    assert Place(fl.node, mv.loc) in s.store;
    if i < mv.v {
      assert mv.v <= At(s.peer, c.holder(i, mv.loc).value);
    }
  }

  /** Only the new holder takes the piece, and it is not handing it on. */
  lemma StoreMovesForward(c: Config, s: State, h: nat, mv: Move)
    requires CanSend(c, s, StorePiece(h)) && Moving(c, s, mv) && s.handoffs[h].loc == mv.loc
    ensures s.handoffs[h].from == mv.a && mv.m <= s.handoffs[h].version && mv.m <= At(s.peer, mv.a)
    ensures s.handoffs[h].to == mv.b
    ensures !Handing(s, s.handoffs[h].to, mv.loc)
  {
    assert s.handoffs[h].version <= At(s.stab, mv.a) <= At(s.peer, mv.a) <= mv.w;
    assert forall g :: Outstanding(s, g, s.handoffs[h].to, mv.loc) ==>
      MovesForward(s.peer, s.handoffs[g], mv.m, mv.a);
  }

  lemma MovingSendStore(c: Config, s: State, step: SendStep, mv: Move)
    requires CanSend(c, s, step) && Moving(c, s, mv)
    ensures OnEitherHolder(SendAfter(c, s, step).store, s.peer, mv.loc, mv.m, mv.a, mv.b)
    ensures Guarded(s, Sending(step), mv.loc)
  {
    if step.StorePiece? && s.handoffs[step.handoff].loc == mv.loc {
      StoreMovesForward(c, s, step.handoff, mv);
    }
  }

  lemma MovingHandoff(c: Config, s: State, step: SendStep, mv: Move, h: nat)
    requires CanSend(c, s, step) && Moving(c, s, mv) && h in SendAfter(c, s, step).handoffs
    requires SendAfter(c, s, step).handoffs[h].loc == mv.loc
    requires SendAfter(c, s, step).handoffs[h].data.Some?
    ensures MovesForward(s.peer, SendAfter(c, s, step).handoffs[h], mv.m, mv.a)
  {
    if step.Offer? && h == s.clock {
      OfferMovesForward(c, s, step.flush, mv);
    } else if step.StorePiece? && h == step.handoff {
      StoreMovesForward(c, s, step.handoff, mv);
    } else {
      assert MovesForward(s.peer, s.handoffs[h], mv.m, mv.a);
    }
  }

  lemma MovingSendHandoffs(c: Config, s: State, step: SendStep, mv: Move)
    requires CanSend(c, s, step) && Moving(c, s, mv)
    ensures AllMoveForward(SendAfter(c, s, step).handoffs, s.peer, mv.loc, mv.m, mv.a)
  {
    var t := SendAfter(c, s, step);
    forall h | h in t.handoffs && t.handoffs[h].loc == mv.loc && t.handoffs[h].data.Some?
      ensures MovesForward(s.peer, t.handoffs[h], mv.m, mv.a)
    {
      MovingHandoff(c, s, step, mv, h);
    }
  }

  lemma MovingStep(c: Config, s: State, step: Step, mv: Move)
    requires Enabled(c, s, step) && Moving(c, s, mv) && InChange(s, step, mv.loc, mv.w)
    ensures Moving(c, After(c, s, step), mv)
    ensures Guarded(s, step, mv.loc)
  {
    match step
    case Map(m) => MovingMap(c, s, m, mv);
    case Flushing(f) => MovingFlush(c, s, f, mv);
    case Writing(d) => MovingWrite(c, s, d, mv);
    case Sending(d) =>
      OrderedSend(c, s, d);
      MovingSendStore(c, s, d, mv);
      MovingSendHandoffs(c, s, d, mv);
      assert SendAfter(c, s, d).peer == s.peer;
  }

  lemma {:induction false} MovingRun(c: Config, s: State, run: seq<Step>, mv: Move)
    requires IsRun(c, s, run) && Moving(c, s, mv) && ChangeRun(c, s, run, mv.loc, mv.w)
    ensures Moving(c, Final(c, s, run), mv)
    ensures GuardedRun(c, s, run, mv.loc)
    decreases |run|
  {
    if run != [] {
      MovingStep(c, s, run[0], mv);
      MovingRun(c, After(c, s, run[0]), run[1..], mv);
    }
  }

  lemma OneMoveConserves(c: Config, s: State, run: seq<Step>, mv: Move)
    requires Ordered(c, s) && Settled(c, s, mv.loc, mv.v, mv.a) && mv.v <= mv.w
    requires OneMove(c, mv.loc, mv.v, mv.m, mv.w, mv.a, mv.b)
    requires IsRun(c, s, run) && ChangeRun(c, s, run, mv.loc, mv.w)
    ensures Held(Final(c, s, run), mv.loc)
    ensures forall p | p in Final(c, s, run).store && p.loc == mv.loc :: p.node == mv.a || p.node == mv.b
  {
    assert Stable(s, mv.a, mv.loc);
    MovingRun(c, s, run, mv);
    NeverLost(c, s, run, mv.loc);
  }

  /**
   * While the nodes switch from `v` to `v + 1` in any order, and drains, reads, sends, accepts,
   * rejections, acks, deletes and losses interleave freely, and nobody creates or rebuilds the piece, it
   * is always on its old or on its new holder, and nowhere else.
   */
  lemma OneChangeConserves(c: Config, s: State, run: seq<Step>, loc: Loc, v: nat, a: Uri)
    requires Ordered(c, s) && Settled(c, s, loc, v, a)
    requires IsRun(c, s, run) && ChangeRun(c, s, run, loc, v + 1)
    ensures Held(Final(c, s, run), loc)
    ensures forall p | p in Final(c, s, run).store && p.loc == loc ::
              p.node == a || c.holder(v + 1, loc) == Some(p.node)
  {
    var b := if c.holder(v + 1, loc).Some? then c.holder(v + 1, loc).value else a;
    OneMoveConserves(c, s, run, Move(loc, v, v + 1, v + 1, a, b));
  }

  // ----- two moves are not -----

  lemma {:induction false} Appended(c: Config, s: State, run: seq<Step>, step: Step)
    requires IsRun(c, s, run) && Enabled(c, Final(c, s, run), step)
    ensures IsRun(c, s, run + [step])
    ensures Final(c, s, run + [step]) == After(c, Final(c, s, run), step)
    decreases |run|
  {
    if run == [] {
      assert run + [step] == [step];
      assert [step][1..] == [];
    } else {
      Appended(c, After(c, s, run[0]), run[1..], step);
      assert (run + [step])[1..] == run[1..] + [step];
    }
  }

  lemma Prefixed(c: Config, s: State, step: Step, rest: seq<Step>)
    requires Enabled(c, s, step) && IsRun(c, After(c, s, step), rest)
    ensures IsRun(c, s, [step] + rest)
    ensures Final(c, s, [step] + rest) == Final(c, After(c, s, step), rest)
  {
    hide After, Enabled;
    assert ([step] + rest)[0] == step && ([step] + rest)[1..] == rest;
  }

  lemma {:induction false} AppendedInChange(c: Config, s: State, run: seq<Step>, step: Step, loc: Loc, w: nat)
    requires IsRun(c, s, run) && ChangeRun(c, s, run, loc, w) && IsRun(c, s, run + [step])
    requires InChange(Final(c, s, run), step, loc, w)
    ensures ChangeRun(c, s, run + [step], loc, w)
    decreases |run|
  {
    if run == [] {
      assert run + [step] == [step];
    } else {
      assert (run + [step])[1..] == run[1..] + [step];
      AppendedInChange(c, After(c, s, run[0]), run[1..], step, loc, w);
    }
  }

  /** `t` is reached from `s` by a run of the changes up to `w`. */
  ghost predicate Reached(c: Config, s: State, t: State, loc: Loc, w: nat) {
    exists run :: IsRun(c, s, run) && ChangeRun(c, s, run, loc, w) && Final(c, s, run) == t
  }

  lemma ReachedSelf(c: Config, s: State, loc: Loc, w: nat)
    ensures Reached(c, s, s, loc, w)
  {
    assert IsRun(c, s, []) && Final(c, s, []) == s;
  }

  lemma ReachedNext(c: Config, s: State, t: State, step: Step, loc: Loc, w: nat) returns (t': State)
    requires Reached(c, s, t, loc, w) && Enabled(c, t, step) && InChange(t, step, loc, w)
    ensures t' == After(c, t, step) && Reached(c, s, t', loc, w)
  {
    t' := After(c, t, step);
    var run :| IsRun(c, s, run) && ChangeRun(c, s, run, loc, w) && Final(c, s, run) == t;
    Appended(c, s, run, step);
    AppendedInChange(c, s, run, step, loc, w);
  }

  /** What a hand-over starts from: the sender has the piece and nobody is past map `v`. */
  ghost predicate MayHandOver(c: Config, s: State, loc: Loc, v: nat, from: Uri, to: Uri) {
    && loc.index < c.n
    && Place(from, loc) in s.store
    && At(s.stab, from) <= v && At(s.peer, from) <= v && At(s.peer, to) <= v
    && c.holder(v, loc) == Some(to) && from != to
  }

  /** A node whose queue is about to be replaced may fail to read its keys, or else replaces it. */
  lemma SettleReset(c: Config, s0: State, s: State, loc: Loc, w: nat, node: Uri) returns (t: State)
    requires Reached(c, s0, s, loc, w)
    ensures Reached(c, s0, t, loc, w) && node !in t.resets && s.clock <= t.clock
    ensures t.store == s.store && t.handoffs == s.handoffs && t.peer == s.peer && t.stab == s.stab
  {
    t := s;
    if node in s.resets {
      var step := if s.resets[node].KeysUnread? then LoseKeys(node) else ReplaceQueue(node);
      ResetEnds(s, step);
      hide Reached, MapAfter, FlushAfter, SendAfter, WriteAfter;
      t := ReachedNext(c, s0, s, Map(step), loc, w);
    }
  }

  lemma ResetEnds(s: State, step: MapStep)
    requires CanMap(s, step) && (step.LoseKeys? || step.ReplaceQueue?)
    ensures var t := MapAfter(s, step);
            && step.node !in t.resets && t.clock == s.clock + 1
            && t.store == s.store && t.handoffs == s.handoffs && t.peer == s.peer && t.stab == s.stab
  {
  }

  /** A node learns map `v` and queues what it stores. */
  lemma LearnOver(c: Config, s0: State, s: State, loc: Loc, v: nat, w: nat, node: Uri) returns (t: State)
    requires Reached(c, s0, s, loc, w) && v <= w && Place(node, loc) in s.store
    requires At(s.stab, node) <= v && At(s.peer, node) <= v
    ensures Reached(c, s0, t, loc, w) && s.clock <= t.clock
    ensures t.store == s.store && t.handoffs == s.handoffs
    ensures t.peer == s.peer[node := v] && t.stab == s.stab[node := v]
    ensures Task(node, loc.key) in t.queue
  {
    hide Reached, FlushAfter, SendAfter, WriteAfter, CanFlush, CanSend, CanWrite;
    var t0 := SettleReset(c, s0, s, loc, w, node);
    var t1 := ReachedNext(c, s0, t0, Map(LearnPeer(node, v)), loc, w);
    var t2 := ReachedNext(c, s0, t1, Map(SwitchStab(node, v)), loc, w);
    var t3 := ReachedNext(c, s0, t2, Map(ReadKeys(node)), loc, w);
    assert Task(node, loc.key) in StoredTasks(t2.store, node) by {
      assert Place(node, loc) in t2.store;
    }
    t := ReachedNext(c, s0, t3, Map(ReplaceQueue(node)), loc, w);
  }

  /** A node learns map `v`, offers the piece to the holder there, and the holder stores it. */
  lemma HandOver(c: Config, s0: State, s: State, loc: Loc, v: nat, w: nat, from: Uri, to: Uri)
    returns (t: State, h: nat)
    requires Reached(c, s0, s, loc, w) && v <= w && MayHandOver(c, s, loc, v, from, to)
    ensures Reached(c, s0, t, loc, w)
    ensures s.clock <= h < t.clock
    ensures Outstanding(t, h, from, loc) && t.handoffs[h].to == to
    ensures forall g | g in s.handoffs && g < s.clock :: g in t.handoffs && t.handoffs[g] == s.handoffs[g]
    ensures t.peer == s.peer[from := v] && t.stab == s.stab[from := v]
    ensures t.store.Keys == s.store.Keys + {Place(to, loc)}
  {
    var t1 := LearnOver(c, s0, s, loc, v, w, from);
    t, h := SendOver(c, s0, t1, loc, v, w, from, to);
  }

  lemma SendOver(c: Config, s0: State, s: State, loc: Loc, v: nat, w: nat, from: Uri, to: Uri)
    returns (t: State, h: nat)
    requires Reached(c, s0, s, loc, w) && MayHandOver(c, s, loc, v, from, to)
    requires At(s.stab, from) == v && Task(from, loc.key) in s.queue
    ensures Reached(c, s0, t, loc, w)
    ensures s.clock <= h < t.clock
    ensures Outstanding(t, h, from, loc) && t.handoffs[h].to == to
    ensures forall g | g in s.handoffs && g < s.clock :: g in t.handoffs && t.handoffs[g] == s.handoffs[g]
    ensures t.peer == s.peer && t.stab == s.stab
    ensures t.store.Keys == s.store.Keys + {Place(to, loc)}
  {
    hide Reached, SendAfter, MapAfter, WriteAfter, CanSend, CanMap, CanWrite;
    var f := s.clock;
    var t1 := ReachedNext(c, s0, s, Flushing(Drain(from)), loc, w);
    assert Task(from, loc.key) in TasksOf(s.queue, from);
    var t2 := ReachedNext(c, s0, t1, Flushing(ReadMap(f)), loc, w);
    assert loc == Loc(loc.key, loc.index);
    t, h := OfferOver(c, s0, t2, f, loc, v, w, to);
  }

  lemma OfferOver(c: Config, s0: State, s: State, f: nat, loc: Loc, v: nat, w: nat, to: Uri)
    returns (t: State, h: nat)
    requires Reached(c, s0, s, loc, w) && f in s.flushes && Ready(c, s.flushes[f], loc)
    requires s.flushes[f].snapshot.version == v
    requires MayHandOver(c, s, loc, v, s.flushes[f].node, to)
    ensures Reached(c, s0, t, loc, w)
    ensures s.clock <= h < t.clock
    ensures Outstanding(t, h, s.flushes[f].node, loc) && t.handoffs[h].to == to
    ensures forall g | g in s.handoffs && g < s.clock :: g in t.handoffs && t.handoffs[g] == s.handoffs[g]
    ensures t.peer == s.peer && t.stab == s.stab
    ensures t.store.Keys == s.store.Keys + {Place(to, loc)}
  {
    hide Reached, FlushAfter, MapAfter, WriteAfter, CanFlush, CanMap, CanWrite;
    h := s.clock;
    var t1 := ReachedNext(c, s0, s, Sending(Offer(f, loc)), loc, w);
    t := ReachedNext(c, s0, t1, Sending(StorePiece(h)), loc, w);
  }

  lemma DeleteOver(c: Config, s0: State, s: State, loc: Loc, w: nat, h: nat, from: Uri) returns (t: State)
    requires Reached(c, s0, s, loc, w) && Outstanding(s, h, from, loc)
    ensures Reached(c, s0, t, loc, w)
    ensures t.clock == s.clock + 1 && t.peer == s.peer && t.stab == s.stab
    ensures forall g | g in s.handoffs && g != h :: g in t.handoffs && t.handoffs[g] == s.handoffs[g]
    ensures t.store.Keys == s.store.Keys - {Place(from, loc)}
  {
    t := ReachedNext(c, s0, s, Sending(Delete(h)), loc, w);
  }

  /** A hand-off to `b` and one back from it, both waiting to be deleted at their senders. */
  ghost predicate BackAndForth(s: State, loc: Loc, g: nat, h: nat, a: Uri, b: Uri) {
    && g != h && Outstanding(s, g, a, loc) && s.handoffs[g].to == b
    && Outstanding(s, h, b, loc) && s.handoffs[h].to == a
  }

  /** The first move's receiver hands the piece back while the sender's delete is still owed. */
  lemma ThereAndBack(
    c: Config, s0: State, s: State, loc: Loc, j: nat, k: nat, w: nat, a: Uri, b: Uri)
    returns (t: State, g: nat, h: nat)
    requires Reached(c, s0, s, loc, w) && j < k <= w
    requires MayHandOver(c, s, loc, j, a, b) && c.holder(k, loc) == Some(a)
    requires At(s.stab, b) <= At(s.peer, b)
    ensures Reached(c, s0, t, loc, w) && BackAndForth(t, loc, g, h, a, b)
    ensures t.store.Keys == s.store.Keys + {Place(b, loc)} + {Place(a, loc)}
  {
    var t1;
    t1, g := HandOver(c, s0, s, loc, j, w, a, b);
    t, h := HandOver(c, s0, t1, loc, k, w, b, a);
  }

  lemma LostBetweenTwo(
    c: Config, s0: State, s: State, loc: Loc, j: nat, k: nat, w: nat, a: Uri, b: Uri) returns (t: State)
    requires Reached(c, s0, s, loc, w) && j < k <= w
    requires MayHandOver(c, s, loc, j, a, b) && c.holder(k, loc) == Some(a)
    requires At(s.stab, b) <= At(s.peer, b)
    requires forall p | p in s.store && p.loc == loc :: p.node == a || p.node == b
    ensures Reached(c, s0, t, loc, w) && !Held(t, loc)
  {
    var t2, h1, h2 := ThereAndBack(c, s0, s, loc, j, k, w, a, b);
    var t3 := DeleteOver(c, s0, t2, loc, w, h2, b);
    assert Outstanding(t3, h1, a, loc);
    t := DeleteOver(c, s0, t3, loc, w, h1, a);
    assert forall p | p in s.store.Keys && p.loc == loc :: p.node == a || p.node == b;
  }

  /** A sender that learns `k` first reaches `d`, which then still acts on the older map `j`. */
  lemma SkippedAhead(c: Config, s: State, loc: Loc, v: nat, k: nat, w: nat, a: Uri, d: Uri)
    returns (t: State)
    requires Ordered(c, s) && Settled(c, s, loc, v, a) && v < k <= w
    requires c.holder(k, loc) == Some(d) && d != a
    ensures Reached(c, s, t, loc, w)
    ensures forall u | u != a :: At(t.stab, u) <= At(t.peer, u) <= v
    ensures Place(d, loc) in t.store
    ensures forall p | p in t.store && p.loc == loc :: p.node == d
  {
    ReachedSelf(c, s, loc, w);
    assert forall u :: At(s.stab, u) <= At(s.peer, u) <= v;
    var t1, h := HandOver(c, s, s, loc, k, w, a, d);
    t := DeleteOver(c, s, t1, loc, w, h, a);
    assert forall p | p in t.store.Keys && p.loc == loc :: p.node == d;
    forall u | u != a ensures At(t.stab, u) <= At(t.peer, u) <= v {
      assert At(s.stab, u) <= At(s.peer, u) <= v;
    }
  }

  lemma TwoMovesLose(c: Config, s: State, loc: Loc, v: nat, j: nat, k: nat, w: nat, a: Uri)
    requires Ordered(c, s) && Settled(c, s, loc, v, a) && MovesAt(c, loc, v, j, k, w, a)
    ensures CanLose(c, s, loc, w)
  {
    var b := c.holder(j, loc).value;
    var d := c.holder(k, loc).value;
    var t;
    if d == a {
      assert forall u :: At(s.stab, u) <= At(s.peer, u) <= v;
      ReachedSelf(c, s, loc, w);
      t := LostBetweenTwo(c, s, s, loc, j, k, w, a, b);
    } else {
      var ahead := SkippedAhead(c, s, loc, v, k, w, a, d);
      t := LostBetweenTwo(c, s, ahead, loc, j, k, w, d, b);
    }
    var run :| IsRun(c, s, run) && ChangeRun(c, s, run, loc, w) && Final(c, s, run) == t;
  }

  /**
   * From any settled state, the interleavings of the changes up to map `w` without creates and rebuilds of
   * the piece can lose it if and only if those maps move it twice. No rule about acks, rejections or
   * losses saves it then: the version check tells old senders from new ones, not old acks from new ones.
   */
  lemma CanLoseIffMovesTwice(c: Config, s: State, loc: Loc, v: nat, w: nat, a: Uri)
    requires Ordered(c, s) && Settled(c, s, loc, v, a) && v <= w
    ensures CanLose(c, s, loc, w) <==> MovesTwice(c, loc, v, w, a)
  {
    if MovesTwice(c, loc, v, w, a) {
      var j: nat, k: nat :| MovesAt(c, loc, v, j, k, w, a);
      TwoMovesLose(c, s, loc, v, j, k, w, a);
    } else {
      var m, b := OneMoveOtherwise(c, loc, v, w, a);
      forall run | IsRun(c, s, run) && ChangeRun(c, s, run, loc, w) ensures Held(Final(c, s, run), loc) {
        OneMoveConserves(c, s, run, Move(loc, v, m, w, a, b));
      }
    }
  }
}
