/**
 * What requests for a piece lead to: the piece is rebuilt without any client writing it, and that is enough
 * for the protocol to lose it again.
 */
module Rebuilding {
  import opened Types
  import opened Codec
  import opened Protocol
  import opened Conservation
  import opened Simulation
  import opened Healing
  import M = Moves
  import W = Writes
  import H = SelfHealing

  // ----- an accepted request is not forgotten -----

  /** The piece will be rebuilt on the node, is being rebuilt there, or is there. */
  ghost predicate Attended(s: State, p: Place) {
    || p in s.rebuildQueue
    || (exists r :: r in s.rebuilds && s.rebuilds[r].node == p.node && s.rebuilds[r].loc == p.loc)
    || p in s.store
  }

  /** The node hands the piece on. */
  ghost predicate Deletes(s: State, step: Step, p: Place) {
    && step.Sending? && step.s.Delete? && step.s.handoff in s.handoffs
    && s.handoffs[step.s.handoff].from == p.node && s.handoffs[step.s.handoff].loc == p.loc
  }

  /** Rebuilds have ids of their own. */
  ghost predicate RebuildIds(s: State) {
    forall r | r in s.rebuilds :: r < s.clock
  }

  lemma AttendedWrite(c: Config, s: State, step: WriteStep, p: Place)
    requires CanWrite(c, s, step) && RebuildIds(s) && Attended(s, p)
    ensures Attended(WriteAfter(c, s, step), p)
  {
    var t := WriteAfter(c, s, step);
    assert p == Place(p.node, p.loc);
    if r :| r in s.rebuilds && s.rebuilds[r].node == p.node && s.rebuilds[r].loc == p.loc {
      assert r != s.clock;
      assert r in t.rebuilds ==> t.rebuilds[r].node == p.node && t.rebuilds[r].loc == p.loc;
    } else if p in s.rebuildQueue && p !in t.rebuildQueue {
      assert s.clock in t.rebuilds && t.rebuilds[s.clock].node == p.node && t.rebuilds[s.clock].loc == p.loc;
    }
  }

  lemma AttendedSend(c: Config, s: State, step: SendStep, p: Place)
    requires CanSend(c, s, step) && Attended(s, p) && !Deletes(s, Sending(step), p)
    ensures Attended(SendAfter(c, s, step), p)
  {
    var t := SendAfter(c, s, step);
    assert p == Place(p.node, p.loc);
    assert t.rebuilds == s.rebuilds && s.rebuildQueue <= t.rebuildQueue;
  }

  lemma AttendedStep(c: Config, s: State, step: Step, p: Place)
    requires Enabled(c, s, step) && RebuildIds(s) && Attended(s, p) && !Deletes(s, step, p)
    ensures Attended(After(c, s, step), p)
  {
    match step
    case Map(m) => W.SameRebuilds(s, m);
    case Flushing(f) => W.FlushRebuilds(c, s, f);
    case Sending(d) => AttendedSend(c, s, d, p);
    case Writing(w) => AttendedWrite(c, s, w, p);
  }

  lemma IdsStep(c: Config, s: State, step: Step)
    requires Enabled(c, s, step) && RebuildIds(s)
    ensures RebuildIds(After(c, s, step))
  {
    hide MapAfter, FlushAfter, SendAfter, CanMap, CanFlush, CanSend;
    match step
    case Map(m) => assert MapAfter(s, m).rebuilds == s.rebuilds;
    case Flushing(f) => assert FlushAfter(c, s, f).rebuilds == s.rebuilds;
    case Sending(d) => assert SendAfter(c, s, d).rebuilds == s.rebuilds;
    case Writing(w) => IdsWrite(c, s, w);
  }

  lemma IdsWrite(c: Config, s: State, step: WriteStep)
    requires CanWrite(c, s, step) && RebuildIds(s)
    ensures RebuildIds(WriteAfter(c, s, step))
  {
  }

  /** No step of the run hands the piece on from the node. */
  ghost predicate NotHandedOn(c: Config, s: State, run: seq<Step>, p: Place)
    requires IsRun(c, s, run)
    decreases |run|
  {
    run == [] || (!Deletes(s, run[0], p) && NotHandedOn(c, After(c, s, run[0]), run[1..], p))
  }

  lemma {:induction false} AttendedRun(c: Config, s: State, run: seq<Step>, p: Place)
    requires IsRun(c, s, run) && RebuildIds(s) && Attended(s, p) && NotHandedOn(c, s, run, p)
    ensures Attended(Final(c, s, run), p)
    decreases |run|
  {
    if run != [] {
      AttendedStep(c, s, run[0], p);
      IdsStep(c, s, run[0]);
      AttendedRun(c, After(c, s, run[0]), run[1..], p);
    }
  }

  lemma {:induction false} IdsRun(c: Config, s: State, run: seq<Step>)
    requires IsRun(c, s, run) && RebuildIds(s)
    ensures RebuildIds(Final(c, s, run))
    decreases |run|
  {
    if run != [] {
      IdsStep(c, s, run[0]);
      IdsRun(c, After(c, s, run[0]), run[1..]);
    }
  }

  /** In every run: once a node has accepted a request for a piece, the piece is queued to be rebuilt there, being
      rebuilt, or stored, at least until the node hands it on. */
  lemma RequestIsAttended(c: Config, before: seq<Step>, h: nat, after: seq<Step>)
    requires IsRun(c, START, before) && CanSend(c, Final(c, START, before), QueueRebuild(h))
    requires IsRun(c, After(c, Final(c, START, before), Sending(QueueRebuild(h))), after)
    requires var s := Final(c, START, before);
             NotHandedOn(c, After(c, s, Sending(QueueRebuild(h))), after, Place(s.handoffs[h].to, s.handoffs[h].loc))
    ensures var s := Final(c, START, before);
            Attended(Final(c, After(c, s, Sending(QueueRebuild(h))), after), Place(s.handoffs[h].to, s.handoffs[h].loc))
  {
    var s := Final(c, START, before);
    IdsRun(c, START, before);
    IdsStep(c, s, Sending(QueueRebuild(h)));
    var t := After(c, s, Sending(QueueRebuild(h)));
    var p := Place(s.handoffs[h].to, s.handoffs[h].loc);
    assert p in t.rebuildQueue;
    AttendedRun(c, t, after, p);
  }

  // ----- a cluster that knows map `v` and stores some pieces -----

  /** The given nodes know map `v`; nothing is stored yet, and nothing is under way. */
  ghost predicate Blank(c: Config, s: State, known: set<Uri>, v: nat) {
    && Ordered(c, s) && s.store == map[] && s.queue == {} && s.rebuildQueue == {} && s.resets == map[]
    && forall u :: At(s.peer, u) == At(s.stab, u) == if u in known then v else 0
  }

  lemma SwitchRun(c: Config, s0: State, s: State, u: Uri, v: nat, quiet: Loc) returns (t: State)
    requires Leads(c, s0, s, quiet) && At(s.peer, u) <= v && At(s.stab, u) <= v && u !in s.resets
    ensures Leads(c, s0, t, quiet)
    ensures t == s.(clock := s.clock + 2, peer := s.peer[u := v], stab := s.stab[u := v],
                    resets := s.resets[u := KeysUnread])
  {
    hide Leads, FlushAfter, SendAfter, WriteAfter, CanFlush, CanSend, CanWrite;
    var t1 := LeadsOn(c, s0, s, Map(LearnPeer(u, v)), quiet);
    t := LeadsOn(c, s0, t1, Map(SwitchStab(u, v)), quiet);
  }

  lemma ReplaceRun(c: Config, s0: State, s: State, u: Uri, quiet: Loc) returns (t: State)
    requires Leads(c, s0, s, quiet) && u in s.resets && s.resets[u] == KeysUnread
    ensures Leads(c, s0, t, quiet)
    ensures t == s.(clock := s.clock + 2, resets := s.resets - {u},
                    queue := s.queue - TasksOf(s.queue, u) + StoredTasks(s.store, u), lapses := t.lapses)
  {
    hide Leads, FlushAfter, SendAfter, WriteAfter, CanFlush, CanSend, CanWrite, AsOverwritten, Overwrites, Without;
    var t1 := LeadsOn(c, s0, s, Map(ReadKeys(u)), quiet);
    t := LeadsOn(c, s0, t1, Map(ReplaceQueue(u)), quiet);
    StoredAgain(s.store, u);
    assert t.resets == s.resets - {u};
  }

  /** A node learns map `v`, reads the keys it stores and queues them. */
  lemma LearnRun(c: Config, s0: State, s: State, u: Uri, v: nat, quiet: Loc) returns (t: State)
    requires Leads(c, s0, s, quiet) && At(s.peer, u) <= v && At(s.stab, u) <= v && u !in s.resets
    ensures Leads(c, s0, t, quiet)
    ensures t == s.(clock := s.clock + 4, peer := s.peer[u := v], stab := s.stab[u := v],
                    queue := s.queue - TasksOf(s.queue, u) + StoredTasks(s.store, u), lapses := t.lapses)
  {
    hide Leads;
    var t1 := SwitchRun(c, s0, s, u, v, quiet);
    t := ReplaceRun(c, s0, t1, u, quiet);
    assert t.resets == s.resets;
  }

  lemma StoredAgain(store: map<Place, Bytes>, u: Uri)
    ensures AsTasks(u, KeysOf(StoredTasks(store, u))) == StoredTasks(store, u)
  {
    forall task | task in StoredTasks(store, u) ensures task in AsTasks(u, KeysOf(StoredTasks(store, u))) {
      assert task.key in KeysOf(StoredTasks(store, u)) && task == Task(u, task.key);
    }
  }

  lemma LearnOne(c: Config, s0: State, s: State, known: set<Uri>, u: Uri, v: nat, quiet: Loc) returns (t: State)
    requires Ordered(c, s0) && Leads(c, s0, s, quiet) && Blank(c, s, known, v) && u !in known
    ensures Leads(c, s0, t, quiet) && Blank(c, t, known + {u}, v)
  {
    hide Leads, Ordered;
    assert At(s.peer, u) == At(s.stab, u) == 0;
    t := LearnRun(c, s0, s, u, v, quiet);
    LeadsOrdered(c, s0, t, quiet);
    assert StoredTasks(map[], u) == {};
    forall w ensures At(t.peer, w) == At(t.stab, w) == if w in known + {u} then v else 0 {
      assert At(s.peer, w) == At(s.stab, w) == if w in known then v else 0;
    }
  }

  lemma {:induction false} LearnNodes(
    c: Config, s0: State, s: State, known: set<Uri>, more: set<Uri>, v: nat, quiet: Loc) returns (t: State)
    requires Ordered(c, s0) && Leads(c, s0, s, quiet) && Blank(c, s, known, v)
    ensures Leads(c, s0, t, quiet) && Blank(c, t, known + more, v)
    decreases more
  {
    hide Leads, Blank;
    if more == {} {
      t := s;
      assert known + {} == known;
    } else {
      var u :| u in more;
      var t1, now := s, known;
      if u !in known {
        t1 := LearnOne(c, s0, s, known, u, v, quiet);
        now := known + {u};
      }
      t := LearnNodes(c, s0, t1, now, more - {u}, v, quiet);
      assert now + (more - {u}) == known + more;
    }
  }

  /** Of the key exactly the given pieces are stored, each on its holder, who has it queued. */
  ghost predicate Written(
    c: Config, s: State, key: Key, v: nat, fc: H.Cluster, nodes: set<Uri>, pieces: set<nat>)
  {
    && Ordered(c, s) && Shape(c, key, v, fc) && s.rebuildQueue == {} && s.resets == map[]
    && (forall u :: At(s.peer, u) <= v) && (forall u | u in nodes :: At(s.stab, u) == v)
    && (forall i | i in pieces :: i < c.n)
    && (forall p :: p in s.store <==> p.loc.key == key && p.loc.index in pieces && p.node == fc.holders[p.loc.index])
    && (forall task :: task in s.queue <==> task.key == key && exists i :: i in pieces && fc.holders[i] == task.node)
  }

  /** A client's piece is stored on its holder, which queues the key. */
  lemma CreateRun(c: Config, s0: State, s: State, u: Uri, loc: Loc, v: nat, quiet: Loc) returns (t: State)
    requires Leads(c, s0, s, quiet) && quiet != loc
    requires loc.index < c.n && c.holder(v, loc) == Some(u) && At(s.peer, u) <= v
    ensures Leads(c, s0, t, quiet)
    ensures t == s.(clock := s.clock + 2, store := s.store[Place(u, loc) := c.Genuine(loc)],
                    queue := s.queue + {Task(u, loc.key)}, lapses := t.lapses)
  {
    hide Leads, MapAfter, SendAfter, CanMap, CanSend;
    assert c.Names(u, loc, v);
    var t1 := LeadsOn(c, s0, s, Writing(Create(u, loc, v)), quiet);
    t := LeadsOn(c, s0, t1, Flushing(QueueCall(Task(u, loc.key))), quiet);
    assert t.calls == s.calls;
  }

  lemma WriteOne(
    c: Config, s0: State, s: State, key: Key, v: nat, fc: H.Cluster, nodes: set<Uri>, pieces: set<nat>,
    i: nat, quiet: Loc) returns (t: State)
    requires Ordered(c, s0) && Leads(c, s0, s, quiet) && Written(c, s, key, v, fc, nodes, pieces)
    requires i < c.n && quiet != Loc(key, i)
    ensures Leads(c, s0, t, quiet) && Written(c, t, key, v, fc, nodes, pieces + {i})
  {
    hide Leads, Ordered;
    var u, loc := fc.holders[i], Loc(key, i);
    t := CreateRun(c, s0, s, u, loc, v, quiet);
    LeadsOrdered(c, s0, t, quiet);
    forall p ensures p in t.store <==>
        p.loc.key == key && p.loc.index in pieces + {i} && p.node == fc.holders[p.loc.index]
    {
      assert p.loc == Loc(p.loc.key, p.loc.index);
    }
    forall task ensures task in t.queue <==>
        task.key == key && exists j :: j in pieces + {i} && fc.holders[j] == task.node
    {
      if task == Task(u, key) {
        assert i in pieces + {i} && fc.holders[i] == task.node;
      } else if task in s.queue {
        var j :| j in pieces && fc.holders[j] == task.node;
        assert j in pieces + {i};
      }
    }
  }

  lemma {:induction false} WriteAll(
    c: Config, s0: State, s: State, key: Key, v: nat, fc: H.Cluster, nodes: set<Uri>, pieces: set<nat>,
    more: set<nat>, quiet: Loc) returns (t: State)
    requires Ordered(c, s0) && Leads(c, s0, s, quiet) && Written(c, s, key, v, fc, nodes, pieces)
    requires forall i | i in more :: i < c.n && quiet != Loc(key, i)
    ensures Leads(c, s0, t, quiet) && Written(c, t, key, v, fc, nodes, pieces + more)
    decreases more
  {
    hide Leads, Written;
    if more == {} {
      t := s;
      assert pieces + {} == pieces;
    } else {
      var i :| i in more;
      var t1 := WriteOne(c, s0, s, key, v, fc, nodes, pieces, i, quiet);
      t := WriteAll(c, s0, t1, key, v, fc, nodes, pieces + {i}, more - {i}, quiet);
      assert pieces + {i} + (more - {i}) == pieces + more;
    }
  }

  lemma WrittenMayStart(
    c: Config, s: State, key: Key, v: nat, fc: H.Cluster, nodes: set<Uri>, pieces: set<nat>)
    requires Written(c, s, key, v, fc, nodes, pieces) && fc.members <= nodes && c.codec.k <= |pieces|
    ensures Steady(c, s, key, v, fc, nodes) && H.MayStart(fc, FleetIn(s, key))
  {
    hide FleetIn, Ordered;
    var f := FleetIn(s, key);
    forall p | p in f.has
      ensures p.index < c.n && p.index in pieces && p.node == fc.holders[p.index] && p.node in f.queued
    {
      InFleet(s, key, p, p.node);
    }
    forall p ensures p !in f.asked {
      InFleet(s, key, p, p.node);
    }
    forall i | i in pieces ensures i in H.Available(fc, f) {
      InFleet(s, key, H.Copy(fc.holders[i], i), fc.holders[i]);
      assert H.Copy(fc.holders[i], i).index == i;
    }
    SubsetSize(pieces, H.Available(fc, f));
  }

  /** The pieces that a client writes besides `loc`, and what map `v` says of the key. */
  ghost predicate Enough(c: Config, loc: Loc, v: nat, fc: H.Cluster, pieces: set<nat>) {
    && Shape(c, loc.key, v, fc) && loc.index < c.n && loc.index !in pieces
    && (forall i | i in pieces :: i < c.n) && c.codec.k <= |pieces|
  }

  /** The key is healed under map `v`: each piece is on its holder and nowhere else, and nobody has it queued. */
  ghost predicate Healed(c: Config, s: State, key: Key, v: nat, fc: H.Cluster) {
    && Steady(c, s, key, v, fc, fc.members) && s.resets == map[]
    && forall u, i: nat :: Place(u, Loc(key, i)) in s.store <==> i < c.n && fc.holders[i] == u
  }

  lemma WrittenFromStart(c: Config, key: Key, v: nat, fc: H.Cluster, pieces: set<nat>, quiet: Loc)
    returns (t: State)
    requires Shape(c, key, v, fc) && forall i | i in pieces :: i < c.n && quiet != Loc(key, i)
    ensures Leads(c, START, t, quiet) && Written(c, t, key, v, fc, fc.members, pieces)
  {
    LeadsNowhere(c, START, quiet);
    OrderedStart(c);
    assert Blank(c, START, {}, v);
    hide Leads, Ordered, Blank, Written;
    var t1 := LearnNodes(c, START, START, {}, fc.members, v, quiet);
    assert {} + fc.members == fc.members;
    BlankIsWritten(c, t1, key, v, fc);
    t := WriteAll(c, START, t1, key, v, fc, fc.members, {}, pieces, quiet);
    assert {} + pieces == pieces;
  }

  lemma HealedWhen(c: Config, s: State, key: Key, v: nat, fc: H.Cluster)
    requires Steady(c, s, key, v, fc, fc.members) && s.resets == map[]
    requires forall u, i: nat :: HomeIff(c, s, key, v, u, i)
    ensures Healed(c, s, key, v, fc)
  {
    hide Ordered;
    forall u, i: nat ensures Place(u, Loc(key, i)) in s.store <==> i < c.n && fc.holders[i] == u {
      assert HomeIff(c, s, key, v, u, i);
      if i < c.n {
        assert c.holder(v, Loc(key, i)) == Some(fc.holders[i]);
      }
    }
  }

  /** With any `k` other pieces created, and two holders, the protocol runs from the empty cluster to a state in
      which the key is healed, piece `loc` included, although no client has created it. */
  lemma RebuiltUnwritten(c: Config, loc: Loc, v: nat, fc: H.Cluster, pieces: set<nat>, j: nat) returns (t: State)
    requires Enough(c, loc, v, fc, pieces) && j < c.n && fc.holders[j] != fc.holders[loc.index]
    ensures Leads(c, START, t, loc) && Healed(c, t, loc.key, v, fc)
    ensures Place(fc.holders[loc.index], loc) in t.store
  {
    hide Leads, Steady, Written, FleetIn, H.Alive, H.MayStart;
    var key := loc.key;
    var t1 := WrittenFromStart(c, key, v, fc, pieces, loc);
    WrittenMayStart(c, t1, key, v, fc, fc.members, pieces);
    WrittenResets(c, t1, key, v, fc, pieces);
    H.TwoHoldersAreAlive(fc, FleetIn(t1, key), j, loc.index);
    t := CanHeal(c, t1, key, v, fc, fc.members, loc);
    LeadsTo(c, START, t1, t, loc);
    HealedWhen(c, t, key, v, fc);
    assert loc == Loc(key, loc.index);
  }

  lemma OrderedStart(c: Config)
    ensures Ordered(c, START)
  {
  }

  lemma BlankIsWritten(c: Config, s: State, key: Key, v: nat, fc: H.Cluster)
    requires Blank(c, s, fc.members, v) && Shape(c, key, v, fc)
    ensures Written(c, s, key, v, fc, fc.members, {})
  {
    hide Ordered;
    assert forall u :: At(s.peer, u) == At(s.stab, u);
  }

  lemma WrittenResets(c: Config, s: State, key: Key, v: nat, fc: H.Cluster, pieces: set<nat>)
    requires Written(c, s, key, v, fc, fc.members, pieces)
    ensures s.resets == map[]
  {
  }

  // ----- and is lost again -----

  /** A node that stores another piece of the key learns the later map `k` and asks the new holder for `loc`. */
  lemma AskForIt(c: Config, s: State, loc: Loc, v: nat, k: nat, fc: H.Cluster, j: nat, b: Uri) returns (t: State)
    requires Healed(c, s, loc.key, v, fc) && loc.index < c.n && j < c.n && v < k && c.holder(k, loc) == Some(b)
    requires fc.holders[j] != fc.holders[loc.index] && fc.holders[j] != b
    ensures Leads(c, s, t, loc) && Place(b, loc) in t.rebuildQueue && t.store == s.store
    ensures forall u | u != fc.holders[j] :: At(t.peer, u) <= v
  {
    var u := fc.holders[j];
    var t1 := LearnLater(c, s, loc, v, k, fc, j);
    LeadsOrdered(c, s, t1, loc);
    var t2 := BeginFlush(c, t1, u, loc);
    InBegun(c, t1, u, loc);
    assert loc == Loc(loc.key, loc.index);
    LeadsTo(c, s, t1, t2, loc);
    hide Leads, Ordered, Healed, MapAfter, WriteAfter, FlushAfter, CanMap, CanWrite, CanFlush, Sends;
    var f, h := t1.clock, t2.clock;
    NewId(c, t1);
    var t3 := LeadsOn(c, s, t2, Sending(Ask(f, loc)), loc);
    t := LeadsOn(c, s, t3, Sending(QueueRebuild(h)), loc);
  }

  lemma LearnLater(c: Config, s: State, loc: Loc, v: nat, k: nat, fc: H.Cluster, j: nat) returns (t: State)
    requires Healed(c, s, loc.key, v, fc) && j < c.n && v < k && loc.index < c.n
    requires fc.holders[j] != fc.holders[loc.index]
    ensures var u := fc.holders[j];
            && Leads(c, s, t, loc) && t.store == s.store && At(t.stab, u) == k && Task(u, loc.key) in t.queue
            && Place(u, loc) !in t.store
            && forall w :: At(t.peer, w) <= if w == u then k else v
  {
    hide Leads, Ordered;
    var u, other := fc.holders[j], Loc(loc.key, j);
    assert loc == Loc(loc.key, loc.index);
    assert Place(u, other) in s.store && Place(u, loc) !in s.store;
    assert At(s.stab, u) == v && At(s.peer, u) <= v;
    LeadsNowhere(c, s, loc);
    t := LearnRun(c, s, s, u, k, loc);
    assert Task(u, loc.key) in StoredTasks(s.store, u);
    forall w ensures At(t.peer, w) <= if w == u then k else v {
      assert At(s.peer, w) <= v;
    }
  }

  /** A rebuild on the new holder hears enough from the others. */
  lemma HearsEnough(c: Config, s: State, t: State, p: Place, v: nat, fc: H.Cluster, pieces: set<nat>)
    requires Shape(c, p.loc.key, v, fc) && Heard(c, s, t, p, fc.members)
    requires forall i | 0 <= i < c.n :: Place(fc.holders[i], Loc(p.loc.key, i)) in s.store
    requires (forall i | i in pieces :: i < c.n) && c.codec.k <= |pieces|
    ensures c.codec.k <= Filled(t.rebuilds[s.clock].slots)
  {
    var slots := t.rebuilds[s.clock].slots;
    forall i | i in pieces ensures i in FilledSet(slots) {
      assert fc.holders[i] in fc.members;
      assert OnSome(s, fc.members, Loc(p.loc.key, i));
    }
    SubsetSize(pieces, FilledSet(slots));
  }

  lemma ChangeUntouched(c: Config, s: State, run: seq<Step>, loc: Loc, w: nat)
    requires IsRun(c, s, run) && M.ChangeRun(c, s, run, loc, w)
    ensures Untouched(run, loc)
    decreases |run|
  {
    if run != [] {
      ChangeUntouched(c, After(c, s, run[0]), run[1..], loc, w);
      forall i | 0 <= i < |run| ensures LeavesAlone(run[i], loc) {
        assert i > 0 ==> run[i] == run[1..][i - 1];
      }
    }
  }

  lemma CanLoseLeads(c: Config, s: State, loc: Loc, w: nat) returns (t: State)
    requires M.CanLose(c, s, loc, w)
    ensures Leads(c, s, t, loc) && !Held(t, loc)
  {
    var run :| IsRun(c, s, run) && M.ChangeRun(c, s, run, loc, w) && !Held(Final(c, s, run), loc);
    ChangeUntouched(c, s, run, loc, w);
    t := Final(c, s, run);
  }

  /** The rebuild that the request leads to puts the piece on its new holder while the old map still sends it
      away from there. */
  lemma LostOnceAsked(
    c: Config, s: State, loc: Loc, v: nat, k: nat, fc: H.Cluster, pieces: set<nat>, b: Uri) returns (t: State)
    requires Ordered(c, s) && Enough(c, loc, v, fc, pieces) && v < k && Place(b, loc) in s.rebuildQueue
    requires c.holder(k, loc) == Some(b) && b != fc.holders[loc.index]
    requires At(s.peer, fc.holders[loc.index]) <= v && At(s.peer, b) <= v
    requires forall u, i: nat :: Place(u, Loc(loc.key, i)) in s.store <==> i < c.n && fc.holders[i] == u
    ensures Leads(c, s, t, loc) && !Held(t, loc)
  {
    hide Leads, M.CanLose;
    var a, p := fc.holders[loc.index], Place(b, loc);
    LeadsNowhere(c, s, loc);
    var t1 := GatherRun(c, s, s, p, fc.members, loc);
    HearsEnough(c, s, t1, p, v, fc, pieces);
    LeadsOrdered(c, s, t1, loc);
    forall q | q in t1.store && q.loc == loc ensures q.node == a || q.node == b {
      assert q == Place(q.node, Loc(loc.key, loc.index));
    }
    assert loc == Loc(loc.key, loc.index);
    W.RebuildLoses(c, t1, s.clock, loc, v, k, k, a, b);
    hide Ordered, Heard, MapAfter, FlushAfter, SendAfter, WriteAfter;
    var t2 := LeadsOn(c, s, t1, Writing(FinishRebuild(s.clock)), loc);
    t := CanLoseLeads(c, t2, loc, k);
    LeadsTo(c, s, t2, t, loc);
  }

  /**
   * A piece that no client ever creates is rebuilt from `k` others, and then one move of it is enough to lose
   * it: another node asks the new holder for it under the later map, and the rebuild there does the rest.
   */
  lemma LostUnwritten(
    c: Config, loc: Loc, v: nat, k: nat, fc: H.Cluster, pieces: set<nat>, j: nat, b: Uri)
    returns (healed: State, lost: State)
    requires Enough(c, loc, v, fc, pieces) && v < k && c.holder(k, loc) == Some(b)
    requires b != fc.holders[loc.index] && j < c.n && fc.holders[j] != fc.holders[loc.index] && fc.holders[j] != b
    ensures Leads(c, START, healed, loc) && Held(healed, loc)
    ensures Leads(c, healed, lost, loc) && !Held(lost, loc)
  {
    hide Leads, Ordered, Steady;
    healed := RebuiltUnwritten(c, loc, v, fc, pieces, j);
    var asked := AskForIt(c, healed, loc, v, k, fc, j, b);
    OrderedStart(c);
    LeadsTo(c, START, healed, asked, loc);
    LeadsOrdered(c, START, asked, loc);
    lost := LostOnceAsked(c, asked, loc, v, k, fc, pieces, b);
    LeadsTo(c, healed, asked, lost, loc);
  }
}
