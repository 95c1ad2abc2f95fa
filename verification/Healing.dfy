/** The protocol heals a key by itself: the fleet's steps are runs of its flushes and rebuilds. */
module Healing {
  import opened Types
  import opened Codec
  import opened Protocol
  import opened Simulation
  import H = SelfHealing
  import F = FleetRefinement

  // ----- the fleet of a state -----

  /** One key in a state of the protocol, seen as the fleet sees it. */
  function FleetIn(s: State, key: Key): H.Fleet {
    H.Fleet(
      set p | p in s.store && p.loc.key == key :: H.Copy(p.node, p.loc.index),
      set task | task in s.queue && task.key == key :: task.node,
      set p | p in s.rebuildQueue && p.loc.key == key :: H.Copy(p.node, p.loc.index))
  }

  lemma InFleet(s: State, key: Key, p: H.Copy, u: Uri)
    ensures p in FleetIn(s, key).has <==> Place(p.node, Loc(key, p.index)) in s.store
    ensures p in FleetIn(s, key).asked <==> Place(p.node, Loc(key, p.index)) in s.rebuildQueue
    ensures u in FleetIn(s, key).queued <==> Task(u, key) in s.queue
  {
    assert p == H.Copy(p.node, p.index);
    forall q: Place | q.loc.key == key && q.node == p.node && q.loc.index == p.index
      ensures q == Place(p.node, Loc(key, p.index))
    {
      assert q.loc == Loc(q.loc.key, q.loc.index);
    }
    var q := Place(p.node, Loc(key, p.index));
    assert H.Copy(q.node, q.loc.index) == p && q.loc.key == key;
    var task := Task(u, key);
    assert task.node == u && task.key == key;
  }

  /** The fleet's cluster is what map `v` says of the key. */
  ghost predicate Shape(c: Config, key: Key, v: nat, fc: H.Cluster) {
    && fc.Valid() && fc.n == c.n && fc.k == c.codec.k
    && forall i | 0 <= i < c.n :: c.holder(v, Loc(key, i)) == Some(fc.holders[i])
  }

  // ----- flushes -----

  lemma OutIs(c: Config, s: State, u: Uri, v: nat, key: Key, fc: H.Cluster, i: nat)
    requires Shape(c, key, v, fc)
    ensures Out(c, s, u, v, {}, Loc(key, i)) <==> Task(u, key) in s.queue && i < c.n && fc.holders[i] != u
  {
  }

  lemma FlushedCopy(
    c: Config, s: State, t: State, u: Uri, v: nat, key: Key, fc: H.Cluster, p: H.Copy)
    requires Shape(c, key, v, fc) && FlushedInto(c, s, t, u, v, {})
    ensures var f := FleetIn(s, key);
            var g := if Task(u, key) in s.queue then H.Stabilize(fc, f, u) else f;
            && (p in FleetIn(t, key).has <==> p in g.has)
            && (p in FleetIn(t, key).asked <==> p in g.asked)
  {
    hide FleetIn, Out, H.Stabilize;
    var f, at := FleetIn(s, key), Place(p.node, Loc(key, p.index));
    InFleet(s, key, p, u);
    InFleet(t, key, p, u);
    InFleet(s, key, H.Copy(u, p.index), u);
    OutIs(c, s, u, v, key, fc, p.index);
    F.InStabilized(fc, f, u, p);
    assert at in t.store <==> (at in s.store && !(at.node == u && Out(c, s, u, v, {}, at.loc)))
                              || GoesTo(c, s, u, v, {}, at.loc, at.node);
    assert p.index < c.n ==> c.holder(v, at.loc) == Some(fc.holders[p.index]);
  }

  lemma FlushedQueue(
    c: Config, s: State, t: State, u: Uri, v: nat, key: Key, fc: H.Cluster, w: Uri)
    requires Shape(c, key, v, fc) && FlushedInto(c, s, t, u, v, {})
    ensures var f := FleetIn(s, key);
            var g := if Task(u, key) in s.queue then H.Stabilize(fc, f, u) else f;
            w in FleetIn(t, key).queued <==> w in g.queued
  {
    hide FleetIn, Out;
    var f := FleetIn(s, key);
    InFleet(s, key, H.Copy(u, 0), w);
    InFleet(t, key, H.Copy(u, 0), w);
    var task := Task(w, key);
    assert task in t.queue <==>
      (task in s.queue && task.node != u) || exists i: nat :: GoesTo(c, s, u, v, {}, Loc(task.key, i), task.node);
    forall i: nat
      ensures GoesTo(c, s, u, v, {}, Loc(key, i), w) <==>
              Task(u, key) in s.queue && i in H.Moved(fc, f, u) && fc.holders[i] == w
    {
      OutIs(c, s, u, v, key, fc, i);
      InFleet(s, key, H.Copy(u, i), w);
    }
    if Task(u, key) in s.queue {
      assert w in H.Stabilize(fc, f, u).queued <==>
        (w in f.queued && w != u) || exists i :: i in H.Moved(fc, f, u) && fc.holders[i] == w;
    } else if w == u {
      assert task !in s.queue;
    }
  }

  /** A flush in which nothing fails is a step of the fleet for every key that was queued, and none for others. */
  lemma FlushedIsStabilize(c: Config, s: State, t: State, u: Uri, v: nat, key: Key, fc: H.Cluster)
    requires Shape(c, key, v, fc) && FlushedInto(c, s, t, u, v, {})
    ensures FleetIn(t, key) ==
            if Task(u, key) in s.queue then H.Stabilize(fc, FleetIn(s, key), u) else FleetIn(s, key)
  {
    hide FleetIn, H.Stabilize, FlushedInto;
    var f := FleetIn(s, key);
    var g, h := FleetIn(t, key), if Task(u, key) in s.queue then H.Stabilize(fc, f, u) else f;
    forall p: H.Copy ensures (p in g.has <==> p in h.has) && (p in g.asked <==> p in h.asked) {
      FlushedCopy(c, s, t, u, v, key, fc, p);
    }
    forall w ensures w in g.queued <==> w in h.queued {
      FlushedQueue(c, s, t, u, v, key, fc, w);
    }
  }

  // ----- rebuilds -----

  /** Some of the nodes stores the piece. */
  ghost predicate OnSome(s: State, nodes: set<Uri>, loc: Loc) {
    exists m :: m in nodes && Place(m, loc) in s.store
  }

  /** `t` is `s` but for the slots of rebuild `r`, which hold what the nodes store as well. */
  ghost predicate Gathered(s: State, t: State, r: nat, nodes: set<Uri>) {
    && r in s.rebuilds && r in t.rebuilds
    && t == s.(clock := t.clock, rebuilds := s.rebuilds[r := t.rebuilds[r]])
    && t.rebuilds[r] == s.rebuilds[r].(slots := t.rebuilds[r].slots)
    && |t.rebuilds[r].slots| == |s.rebuilds[r].slots|
    && forall i: nat | i < |s.rebuilds[r].slots| ::
         t.rebuilds[r].slots[i].Some? <==>
         s.rebuilds[r].slots[i].Some? || OnSome(s, nodes, Loc(s.rebuilds[r].loc.key, i))
  }

  lemma GatheredMore(c: Config, s: State, t: State, r: nat, nodes: set<Uri>, m: Uri)
    requires Gathered(s, t, r, nodes) && CanWrite(c, t, Collect(r, m))
    ensures Gathered(s, WriteAfter(c, t, Collect(r, m)), r, nodes + {m})
  {
    var e := WriteAfter(c, t, Collect(r, m));
    var key := s.rebuilds[r].loc.key;
    assert e.rebuilds == s.rebuilds[r := e.rebuilds[r]];
    forall i: nat | i < |s.rebuilds[r].slots|
      ensures e.rebuilds[r].slots[i].Some? <==>
              s.rebuilds[r].slots[i].Some? || OnSome(s, nodes + {m}, Loc(key, i))
    {
      assert t.rebuilds[r].slots[i].Some? <==> s.rebuilds[r].slots[i].Some? || OnSome(s, nodes, Loc(key, i));
      if Place(m, Loc(key, i)) in s.store {
        assert m in nodes + {m};
      }
      if OnSome(s, nodes, Loc(key, i)) {
        var x :| x in nodes && Place(x, Loc(key, i)) in s.store;
        assert x in nodes + {m};
      }
    }
  }

  lemma {:induction false} CollectAll(
    c: Config, s0: State, s: State, t: State, r: nat, done: set<Uri>, nodes: set<Uri>, quiet: Loc)
    returns (t': State)
    requires Leads(c, s0, t, quiet) && Gathered(s, t, r, done) && done <= nodes
    ensures Leads(c, s0, t', quiet) && Gathered(s, t', r, nodes)
    decreases nodes - done
  {
    hide Leads, Gathered;
    t' := t;
    assert done + (nodes - done) == nodes;
    if nodes - done != {} {
      var m :| m in nodes - done;
      assert CanWrite(c, t, Collect(r, m)) by {
        HasRebuild(s, t, r, done);
      }
      var t1 := LeadsOn(c, s0, t, Writing(Collect(r, m)), quiet);
      GatheredMore(c, s, t, r, done, m);
      t' := CollectAll(c, s0, s, t1, r, done + {m}, nodes, quiet);
    } else {
      assert done == nodes;
    }
  }

  lemma HasRebuild(s: State, t: State, r: nat, done: set<Uri>)
    requires Gathered(s, t, r, done)
    ensures r in t.rebuilds
  {
  }

  /** Rebuild `r` of the piece at `p` has heard from all the nodes. */
  ghost predicate Heard(c: Config, s: State, t: State, p: Place, nodes: set<Uri>) {
    && s.clock in t.rebuilds
    && t == s.(clock := t.clock, rebuildQueue := s.rebuildQueue - {p},
               rebuilds := s.rebuilds[s.clock := t.rebuilds[s.clock]])
    && var re := t.rebuilds[s.clock];
       && re.node == p.node && re.loc == p.loc && |re.slots| == c.n
       && forall i: nat | i < c.n :: re.slots[i].Some? <==> OnSome(s, nodes, Loc(p.loc.key, i))
  }

  /** A rebuild is taken from the queue and hears from all the given nodes. */
  lemma GatherRun(c: Config, s0: State, s: State, p: Place, nodes: set<Uri>, quiet: Loc) returns (t: State)
    requires Leads(c, s0, s, quiet) && p in s.rebuildQueue
    ensures Leads(c, s0, t, quiet) && Heard(c, s, t, p, nodes)
  {
    hide Leads;
    assert p == Place(p.node, p.loc);
    var t1 := LeadsOn(c, s0, s, Writing(StartRebuild(p.node, p.loc)), quiet);
    var r := s.clock;
    assert t1.rebuilds[r := t1.rebuilds[r]] == t1.rebuilds;
    assert Gathered(t1, t1, r, {});
    t := CollectAll(c, s0, t1, t1, r, {}, nodes, quiet);
    assert t.rebuilds == s.rebuilds[r := t.rebuilds[r]];
    forall i: nat | i < c.n
      ensures t.rebuilds[r].slots[i].Some? <==> OnSome(s, nodes, Loc(p.loc.key, i))
    {
      assert OnSome(t1, nodes, Loc(p.loc.key, i)) <==> OnSome(s, nodes, Loc(p.loc.key, i)) by {
        assert t1.store == s.store;
      }
    }
  }

  lemma HeardFills(c: Config, s: State, t: State, p: Place, fc: H.Cluster)
    requires Heard(c, s, t, p, fc.members) && FleetIn(s, p.loc.key).Fits(fc) && fc.n == c.n
    ensures FilledSet(t.rebuilds[s.clock].slots) == H.Available(fc, FleetIn(s, p.loc.key))
  {
    hide FleetIn;
    var slots, f := t.rebuilds[s.clock].slots, FleetIn(s, p.loc.key);
    forall i: nat ensures i in FilledSet(slots) <==> i in H.Available(fc, f) {
      if i in FilledSet(slots) {
        var m :| m in fc.members && Place(m, Loc(p.loc.key, i)) in s.store;
        InFleet(s, p.loc.key, H.Copy(m, i), m);
        assert H.Copy(m, i).index == i;
      }
      if i in H.Available(fc, f) {
        var q :| q in f.has && q.node in fc.members && q.index == i;
        InFleet(s, p.loc.key, q, q.node);
        assert OnSome(s, fc.members, Loc(p.loc.key, i));
      }
    }
  }

  /** What a rebuild comes to: the piece is here already, or is put here and its key queued, or the task is
      queued again. */
  ghost predicate RebuiltInto(s: State, t: State, p: Place, enough: bool) {
    && t.peer == s.peer && t.stab == s.stab && t.flushes == s.flushes && t.handoffs == s.handoffs
    && t.calls == s.calls && t.resets == s.resets && t.rebuilds == s.rebuilds - {s.clock}
    && t.store.Keys == s.store.Keys + (if enough then {p} else {})
    && t.queue == s.queue + (if p !in s.store && enough then {Task(p.node, p.loc.key)} else {})
    && t.rebuildQueue == if p in s.store || enough then s.rebuildQueue - {p} else s.rebuildQueue
  }

  lemma SkipRun(c: Config, s: State, p: Place, quiet: Loc) returns (t: State)
    requires p in s.rebuildQueue && p in s.store
    ensures Leads(c, s, t, quiet) && RebuiltInto(s, t, p, true)
  {
    hide Leads, MapAfter, FlushAfter, SendAfter, CanMap, CanFlush, CanSend;
    assert p == Place(p.node, p.loc);
    LeadsNowhere(c, s, quiet);
    var t1 := LeadsOn(c, s, s, Writing(StartRebuild(p.node, p.loc)), quiet);
    t := LeadsOn(c, s, t1, Writing(SkipRebuild(s.clock)), quiet);
    assert t.store.Keys == s.store.Keys + {p};
    assert t.rebuilds == s.rebuilds - {s.clock};
  }

  lemma RetryRun(c: Config, s: State, p: Place, quiet: Loc) returns (t: State)
    requires p in s.rebuildQueue && p !in s.store
    ensures Leads(c, s, t, quiet) && RebuiltInto(s, t, p, false)
  {
    hide Leads, MapAfter, FlushAfter, SendAfter, CanMap, CanFlush, CanSend;
    assert p == Place(p.node, p.loc);
    LeadsNowhere(c, s, quiet);
    var t1 := LeadsOn(c, s, s, Writing(StartRebuild(p.node, p.loc)), quiet);
    t := LeadsOn(c, s, t1, Writing(RetryRebuild(s.clock)), quiet);
    assert s.rebuildQueue - {p} + {p} == s.rebuildQueue;
    assert t.rebuilds == s.rebuilds - {s.clock};
  }

  lemma RebuildRun(c: Config, s: State, p: Place, fc: H.Cluster, quiet: Loc) returns (t: State)
    requires p in s.rebuildQueue && p.loc.index < c.n && fc.n == c.n && fc.k == c.codec.k
    requires FleetIn(s, p.loc.key).Fits(fc)
    ensures Leads(c, s, t, quiet)
    ensures RebuiltInto(s, t, p, p in s.store || fc.k <= |H.Available(fc, FleetIn(s, p.loc.key))|)
  {
    hide Leads, H.Available, FleetIn, RebuiltInto;
    if p in s.store {
      t := SkipRun(c, s, p, quiet);
    } else if fc.k <= |H.Available(fc, FleetIn(s, p.loc.key))| {
      LeadsNowhere(c, s, quiet);
      var t1 := GatherRun(c, s, s, p, fc.members, quiet);
      HeardFills(c, s, t1, p, fc);
      assert t1.rebuilds - {s.clock} == s.rebuilds - {s.clock};
      t := FinishRun(c, s, s, t1, p, quiet);
    } else {
      t := RetryRun(c, s, p, quiet);
    }
  }

  lemma FinishIs(c: Config, t: State, r: nat, p: Place)
    requires CanWrite(c, t, FinishRebuild(r)) && t.rebuilds[r].node == p.node && t.rebuilds[r].loc == p.loc
    ensures WriteAfter(c, t, FinishRebuild(r)) ==
            t.(clock := t.clock + 1, store := t.store[p := Rebuilt(c, t.rebuilds[r])],
               rebuilds := t.rebuilds - {r}, calls := t.calls + multiset{Task(p.node, p.loc.key)})
  {
    assert p == Place(p.node, p.loc);
  }

  lemma FinishRun(c: Config, s0: State, s: State, t: State, p: Place, quiet: Loc) returns (t': State)
    requires Leads(c, s0, t, quiet) && p !in s.store && p.loc.index < c.n
    requires s.clock in t.rebuilds && t.rebuilds[s.clock].node == p.node && t.rebuilds[s.clock].loc == p.loc
    requires c.codec.k <= Filled(t.rebuilds[s.clock].slots)
    requires t == s.(clock := t.clock, rebuildQueue := s.rebuildQueue - {p}, rebuilds := t.rebuilds)
    requires t.rebuilds - {s.clock} == s.rebuilds - {s.clock}
    ensures Leads(c, s0, t', quiet) && RebuiltInto(s, t', p, true)
  {
    hide Leads, Filled, Rebuilt, MapAfter, SendAfter, CanMap, CanSend;
    assert p == Place(p.node, p.loc);
    FinishIs(c, t, s.clock, p);
    hide WriteAfter;
    var t1 := LeadsOn(c, s0, t, Writing(FinishRebuild(s.clock)), quiet);
    t' := LeadsOn(c, s0, t1, Flushing(QueueCall(Task(p.node, p.loc.key))), quiet);
    assert t'.calls == s.calls;
  }

  /** A rebuild that hears from all members is a step of the fleet. */
  lemma RebuiltIsRebuild(s: State, t: State, p: Place, fc: H.Cluster)
    requires p in s.rebuildQueue
    requires RebuiltInto(s, t, p, p in s.store || fc.k <= |H.Available(fc, FleetIn(s, p.loc.key))|)
    ensures FleetIn(t, p.loc.key) == H.Rebuild(fc, FleetIn(s, p.loc.key), H.Copy(p.node, p.loc.index))
  {
    hide FleetIn, H.Available;
    var key, at := p.loc.key, H.Copy(p.node, p.loc.index);
    assert p == Place(p.node, Loc(key, p.loc.index));
    var f, g := FleetIn(s, key), FleetIn(t, key);
    var h := H.Rebuild(fc, f, at);
    InFleet(s, key, at, p.node);
    forall q: H.Copy ensures (q in g.has <==> q in h.has) && (q in g.asked <==> q in h.asked) {
      InFleet(s, key, q, q.node);
      InFleet(t, key, q, q.node);
      assert Place(q.node, Loc(key, q.index)) == p <==> q == at;
      assert Place(q.node, Loc(key, q.index)) in t.store <==> Place(q.node, Loc(key, q.index)) in t.store.Keys;
    }
    forall w ensures w in g.queued <==> w in h.queued {
      InFleet(s, key, at, w);
      InFleet(t, key, at, w);
    }
  }

  // ----- healing -----

  /** Everyone who has to do with the key goes by map `v`, and nobody has a newer one. */
  ghost predicate Steady(c: Config, s: State, key: Key, v: nat, fc: H.Cluster, nodes: set<Uri>) {
    && Ordered(c, s) && Shape(c, key, v, fc) && fc.members <= nodes
    && (forall w :: At(s.peer, w) <= v)
    && (forall u | u in nodes :: At(s.stab, u) == v)
    && (forall u | Task(u, key) in s.queue :: u in nodes)
    && (forall p | p in s.rebuildQueue && p.loc.key == key :: p.node in nodes)
  }

  lemma SteadyFlush(
    c: Config, s: State, t: State, u: Uri, key: Key, v: nat, fc: H.Cluster, nodes: set<Uri>)
    requires Steady(c, s, key, v, fc, nodes) && FlushedInto(c, s, t, u, v, {}) && Ordered(c, t)
    ensures Steady(c, t, key, v, fc, nodes)
  {
    hide Ordered, Out;
    assert forall i | 0 <= i < c.n :: fc.holders[i] in nodes;
    forall w | Task(w, key) in t.queue ensures w in nodes {
      if !(Task(w, key) in s.queue) {
        var i: nat :| GoesTo(c, s, u, v, {}, Loc(key, i), w);
        OutIs(c, s, u, v, key, fc, i);
      }
    }
    forall p | p in t.rebuildQueue && p.loc.key == key ensures p.node in nodes {
      if p !in s.rebuildQueue {
        assert p.loc == Loc(key, p.loc.index);
        OutIs(c, s, u, v, key, fc, p.loc.index);
      }
    }
  }

  lemma FlushStep(
    c: Config, s: State, u: Uri, key: Key, v: nat, fc: H.Cluster, nodes: set<Uri>, quiet: Loc) returns (t: State)
    requires Steady(c, s, key, v, fc, nodes) && Task(u, key) in s.queue
    ensures Leads(c, s, t, quiet) && Steady(c, t, key, v, fc, nodes) && t.resets == s.resets
    ensures FleetIn(t, key) == H.Stabilize(fc, FleetIn(s, key), u)
  {
    hide Leads, Ordered, FlushedInto, FleetIn, H.Stabilize;
    assert MayFlush(c, s, u, v, {});
    t := FlushRun(c, s, u, v, {}, quiet);
    assert t.resets == s.resets by {
      FlushedKeeps(c, s, t, u, v);
    }
    LeadsOrdered(c, s, t, quiet);
    FlushedIsStabilize(c, s, t, u, v, key, fc);
    SteadyFlush(c, s, t, u, key, v, fc, nodes);
  }

  lemma FlushedKeeps(c: Config, s: State, t: State, u: Uri, v: nat)
    requires FlushedInto(c, s, t, u, v, {})
    ensures t.resets == s.resets
  {
  }

  lemma RebuildStep(
    c: Config, s: State, p: Place, v: nat, fc: H.Cluster, nodes: set<Uri>, quiet: Loc) returns (t: State)
    requires Steady(c, s, p.loc.key, v, fc, nodes) && p in s.rebuildQueue && FleetIn(s, p.loc.key).Fits(fc)
    requires p.loc.index < c.n
    ensures Leads(c, s, t, quiet) && Steady(c, t, p.loc.key, v, fc, nodes) && t.resets == s.resets
    ensures FleetIn(t, p.loc.key) == H.Rebuild(fc, FleetIn(s, p.loc.key), H.Copy(p.node, p.loc.index))
  {
    hide Leads, Ordered, FleetIn, H.Rebuild, H.Available;
    t := RebuildRun(c, s, p, fc, quiet);
    LeadsOrdered(c, s, t, quiet);
    RebuiltIsRebuild(s, t, p, fc);
  }

  lemma LeadsTo(c: Config, s: State, t: State, u: State, loc: Loc)
    requires Leads(c, s, t, loc) && Leads(c, t, u, loc)
    ensures Leads(c, s, u, loc)
  {
    var first :| IsRun(c, s, first) && Untouched(first, loc) && Final(c, s, first) == t;
    var second :| IsRun(c, t, second) && Untouched(second, loc) && Final(c, t, second) == u;
    Joined(c, s, first, second);
    assert Untouched(first + second, loc);
  }

  lemma {:induction false} Joined(c: Config, s: State, first: seq<Step>, second: seq<Step>)
    requires IsRun(c, s, first) && IsRun(c, Final(c, s, first), second)
    ensures IsRun(c, s, first + second)
    ensures Final(c, s, first + second) == Final(c, Final(c, s, first), second)
    decreases |first|
  {
    hide After, Enabled;
    if first == [] {
      assert first + second == second;
    } else {
      Joined(c, After(c, s, first[0]), first[1..], second);
      assert (first + second)[1..] == first[1..] + second;
    }
  }

  /** Some step of the fleet, run by the protocol. */
  lemma HealStep(
    c: Config, s: State, key: Key, v: nat, fc: H.Cluster, nodes: set<Uri>, start: H.Fleet, quiet: Loc)
    returns (t: State)
    requires Steady(c, s, key, v, fc, nodes) && H.Repairing(fc, start, FleetIn(s, key))
    requires H.Busy(FleetIn(s, key))
    ensures Leads(c, s, t, quiet) && Steady(c, t, key, v, fc, nodes) && t.resets == s.resets
    ensures H.Repairing(fc, start, FleetIn(t, key)) && H.Less(fc, FleetIn(t, key), FleetIn(s, key))
  {
    hide Leads, Steady, FleetIn, H.Less, H.Stabilize, H.Rebuild, H.Tended, H.Available, H.Alive;
    var f := FleetIn(s, key);
    if u :| u in f.queued {
      InFleet(s, key, H.Copy(u, 0), u);
      t := FlushStep(c, s, u, key, v, fc, nodes, quiet);
      H.StabilizeRepairs(fc, start, f, u);
    } else {
      var at :| at in f.asked;
      InFleet(s, key, at, at.node);
      var p := Place(at.node, Loc(key, at.index));
      assert p.loc.index < c.n by {
        SteadySize(c, s, key, v, fc, nodes);
      }
      t := RebuildStep(c, s, p, v, fc, nodes, quiet);
      H.RebuildRepairs(fc, start, f, at);
    }
  }

  lemma SteadySize(c: Config, s: State, key: Key, v: nat, fc: H.Cluster, nodes: set<Uri>)
    requires Steady(c, s, key, v, fc, nodes)
    ensures fc.n == c.n
  {
  }

  lemma {:induction false} HealRun(
    c: Config, s: State, key: Key, v: nat, fc: H.Cluster, nodes: set<Uri>, start: H.Fleet, quiet: Loc)
    returns (t: State)
    requires Steady(c, s, key, v, fc, nodes) && H.Repairing(fc, start, FleetIn(s, key))
    ensures Leads(c, s, t, quiet) && Steady(c, t, key, v, fc, nodes) && t.resets == s.resets
    ensures H.Repairing(fc, start, FleetIn(t, key)) && !H.Busy(FleetIn(t, key))
    decreases |H.Stale(fc, FleetIn(s, key))|, |H.Missing(fc, FleetIn(s, key))|, |H.Misplaced(fc, FleetIn(s, key))|,
              H.Pending(fc, FleetIn(s, key))
  {
    hide Leads, Steady, FleetIn, H.Repairing, H.Stale, H.Missing, H.Misplaced, H.Pending;
    if H.Busy(FleetIn(s, key)) {
      var t1 := HealStep(c, s, key, v, fc, nodes, start, quiet);
      t := HealRun(c, t1, key, v, fc, nodes, start, quiet);
      LeadsTo(c, s, t1, t, quiet);
    } else {
      t := s;
      LeadsNowhere(c, s, quiet);
    }
  }

  /** The node stores the piece exactly if it is its holder. */
  ghost predicate HomeIff(c: Config, s: State, key: Key, v: nat, u: Uri, i: nat) {
    Place(u, Loc(key, i)) in s.store <==> i < c.n && c.holder(v, Loc(key, i)) == Some(u)
  }

  /** Once a key is queued wherever it is stored, with `k` distinct pieces of it on members, the protocol can run
      on to a state in which every piece of it is on its holder and nowhere else, if the fleet is alive; and no
      client has to write anything for it. */
  lemma CanHeal(c: Config, s: State, key: Key, v: nat, fc: H.Cluster, nodes: set<Uri>, quiet: Loc)
    returns (t: State)
    requires Steady(c, s, key, v, fc, nodes) && H.MayStart(fc, FleetIn(s, key)) && H.Alive(fc, FleetIn(s, key))
    ensures Leads(c, s, t, quiet) && Steady(c, t, key, v, fc, nodes) && t.resets == s.resets
    ensures forall u, i: nat :: HomeIff(c, t, key, v, u, i)
    ensures forall u :: Task(u, key) !in t.queue
    ensures forall p | p in t.rebuildQueue :: p.loc.key != key
  {
    hide Leads, FleetIn, H.Alive, H.Available;
    t := HealRun(c, s, key, v, fc, nodes, FleetIn(s, key), quiet);
    H.QuietIsHealed(fc, FleetIn(t, key));
    forall u, i: nat ensures HomeIff(c, t, key, v, u, i) {
      InFleet(t, key, H.Copy(u, i), u);
      assert i < c.n ==> c.holder(v, Loc(key, i)) == Some(fc.holders[i]);
      if i < c.n && fc.holders[i] == u {
        assert H.Home(fc, i) in FleetIn(t, key).has;
      }
      if H.Copy(u, i) in FleetIn(t, key).has {
        assert H.AtHome(fc, H.Copy(u, i));
      }
    }
    forall u ensures Task(u, key) !in t.queue {
      InFleet(t, key, H.Copy(u, 0), u);
    }
    forall p | p in t.rebuildQueue ensures p.loc.key != key {
      InFleet(t, p.loc.key, H.Copy(p.node, p.loc.index), p.node);
      assert p == Place(p.node, Loc(p.loc.key, p.loc.index));
    }
  }
}
