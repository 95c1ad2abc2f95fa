/**
 * The steps of the self-healing fleet are runs of the protocol, so the protocol can heal by itself what it
 * has not lost; and it can lose what it has healed, with no client at work.
 */
module Simulation {
  import opened Types
  import opened Codec
  import opened Protocol
  import opened Conservation
  import opened Moves
  import opened Writes
  import H = SelfHealing
  import F = FleetRefinement

  // ----- runs in which nobody creates the piece -----

  ghost predicate Untouched(run: seq<Step>, loc: Loc) {
    forall i | 0 <= i < |run| :: LeavesAlone(run[i], loc)
  }

  ghost predicate LeavesAlone(step: Step, loc: Loc) {
    step.Writing? && step.w.Create? ==> step.w.loc != loc
  }

  /** Some run, in which no client creates piece `loc`, leads from `s` to `t`. */
  ghost predicate Leads(c: Config, s: State, t: State, loc: Loc) {
    exists run :: IsRun(c, s, run) && Untouched(run, loc) && Final(c, s, run) == t
  }

  lemma LeadsNowhere(c: Config, s: State, loc: Loc)
    ensures Leads(c, s, s, loc)
  {
    assert IsRun(c, s, []) && Untouched([], loc) && Final(c, s, []) == s;
  }

  /** One more step. */
  lemma LeadsOn(c: Config, s: State, t: State, step: Step, loc: Loc) returns (t': State)
    requires Leads(c, s, t, loc) && Enabled(c, t, step) && LeavesAlone(step, loc)
    ensures t' == After(c, t, step) && Leads(c, s, t', loc)
  {
    t' := After(c, t, step);
    var run :| IsRun(c, s, run) && Untouched(run, loc) && Final(c, s, run) == t;
    Appended(c, s, run, step);
    assert Untouched(run + [step], loc);
  }

  lemma LeadsOrdered(c: Config, s: State, t: State, loc: Loc)
    requires Leads(c, s, t, loc) && Ordered(c, s)
    ensures Ordered(c, t)
  {
    var run :| IsRun(c, s, run) && Untouched(run, loc) && Final(c, s, run) == t;
    OrderedRun(c, s, run);
  }

  // ----- one send -----

  /** A flush that may send `loc`, and a receiver that will accept it. */
  ghost predicate MaySend(c: Config, s: State, f: nat, loc: Loc) {
    && Ordered(c, s) && f in s.flushes && Ready(c, s.flushes[f], loc)
    && s.flushes[f].moving == {} == s.flushes[f].asking
    && At(s.peer, c.holder(s.flushes[f].snapshot.version, loc).value) <= s.flushes[f].snapshot.version
  }

  function SentFrom(s: State, f: nat, loc: Loc): map<nat, Flush>
    requires f in s.flushes
  {
    s.flushes[f := s.flushes[f].(todo := s.flushes[f].todo - {loc})]
  }

  /** The hand-off of a piece that its holder has just stored. */
  function AcceptedSend(c: Config, s: State, f: nat, loc: Loc): Handoff
    requires f in s.flushes && Ready(c, s.flushes[f], loc) && Place(s.flushes[f].node, loc) in s.store
  {
    SendOf(c, f, s.flushes[f], loc, Some(s.store[Place(s.flushes[f].node, loc)])).(phase := Stored(s.clock + 1))
  }

  /** Sent and stored, with the answer and the call that queues the key still on the way. */
  lemma AcceptOne(c: Config, s0: State, s: State, f: nat, loc: Loc, quiet: Loc) returns (t: State)
    requires Leads(c, s0, s, quiet) && MaySend(c, s, f, loc) && Place(s.flushes[f].node, loc) in s.store
    ensures Leads(c, s0, t, quiet)
    ensures var to := c.holder(s.flushes[f].snapshot.version, loc).value;
            t == s.(clock := s.clock + 2,
                    store := s.store[Place(to, loc) := s.store[Place(s.flushes[f].node, loc)]],
                    handoffs := s.handoffs[s.clock := AcceptedSend(c, s, f, loc)],
                    flushes := s.flushes[f := s.flushes[f].(todo := s.flushes[f].todo - {loc}, moving := {loc})],
                    calls := s.calls + multiset{Task(to, loc.key)})
  {
    hide Leads, Ordered, MapAfter, WriteAfter, FlushAfter, CanMap, CanWrite, CanFlush;
    var fl := s.flushes[f];
    NewId(c, s);
    assert fl.moving + {loc} == {loc};
    var t1 := LeadsOn(c, s0, s, Sending(Offer(f, loc)), quiet);
    t := LeadsOn(c, s0, t1, Sending(StorePiece(s.clock)), quiet);
    assert t.handoffs == s.handoffs[s.clock := AcceptedSend(c, s, f, loc)];
  }

  /** A piece that is here moves: it is stored and queued at its holder and deleted here, and nothing is left
      on the way. */
  lemma MoveOne(c: Config, s0: State, s: State, f: nat, loc: Loc, quiet: Loc) returns (t: State)
    requires Leads(c, s0, s, quiet) && MaySend(c, s, f, loc) && Place(s.flushes[f].node, loc) in s.store
    ensures Leads(c, s0, t, quiet)
    ensures var from := s.flushes[f].node;
            var to := c.holder(s.flushes[f].snapshot.version, loc).value;
            t == s.(clock := s.clock + 4,
                    store := s.store[Place(to, loc) := s.store[Place(from, loc)]] - {Place(from, loc)},
                    queue := s.queue + {Task(to, loc.key)},
                    flushes := SentFrom(s, f, loc),
                    lapses := Without(s.lapses, {Task(to, loc.key)}))
  {
    hide Leads, Ordered, MapAfter, WriteAfter, CanMap, CanWrite;
    var to := c.holder(s.flushes[f].snapshot.version, loc).value;
    NewId(c, s);
    var t1 := AcceptOne(c, s0, s, f, loc, quiet);
    var t2 := LeadsOn(c, s0, t1, Sending(Delete(s.clock)), quiet);
    t := LeadsOn(c, s0, t2, Flushing(QueueCall(Task(to, loc.key))), quiet);
    assert t.handoffs == s.handoffs;
    assert t.flushes == SentFrom(s, f, loc) by {
      assert {loc} - {loc} == s.flushes[f].moving;
    }
    assert t.calls == s.calls;
  }

  lemma NewId(c: Config, s: State)
    requires Ordered(c, s)
    ensures s.clock !in s.handoffs && s.clock !in s.flushes
  {
  }

  /** A piece that is not here is asked for: its holder will rebuild it, and nothing else changes. */
  lemma AskOne(c: Config, s0: State, s: State, f: nat, loc: Loc, quiet: Loc) returns (t: State)
    requires Leads(c, s0, s, quiet) && MaySend(c, s, f, loc) && Place(s.flushes[f].node, loc) !in s.store
    ensures Leads(c, s0, t, quiet)
    ensures var to := c.holder(s.flushes[f].snapshot.version, loc).value;
            t == s.(clock := s.clock + 3,
                    rebuildQueue := s.rebuildQueue + {Place(to, loc)},
                    flushes := SentFrom(s, f, loc))
  {
    hide Leads, Ordered, MapAfter, WriteAfter, FlushAfter, CanMap, CanWrite, CanFlush;
    var fl := s.flushes[f];
    var h := s.clock;
    NewId(c, s);
    var t1 := LeadsOn(c, s0, s, Sending(Ask(f, loc)), quiet);
    var t2 := LeadsOn(c, s0, t1, Sending(QueueRebuild(h)), quiet);
    t := LeadsOn(c, s0, t2, Sending(Settle(h)), quiet);
    assert t.handoffs == s.handoffs;
    assert t.flushes == SentFrom(s, f, loc) by {
      assert fl.asking + {loc} - {loc} == fl.asking;
    }
  }

  // ----- sends that go wrong -----

  /** A rejection ends the flush: nothing was stored, and nothing is queued again. */
  lemma RejectedOne(c: Config, s: State, f: nat, loc: Loc, quiet: Loc) returns (t: State)
    requires Ordered(c, s) && f in s.flushes && Ready(c, s.flushes[f], loc)
    requires Place(s.flushes[f].node, loc) in s.store
    requires s.flushes[f].snapshot.version < At(s.peer, c.holder(s.flushes[f].snapshot.version, loc).value)
    ensures Leads(c, s, t, quiet)
    ensures t.store == s.store && t.queue == s.queue && t.rebuildQueue == s.rebuildQueue && t.calls == s.calls
    ensures t.handoffs == s.handoffs && t.flushes == s.flushes - {f}
  {
    hide Leads, Ordered, MapAfter, WriteAfter, FlushAfter, CanMap, CanWrite, CanFlush;
    LeadsNowhere(c, s, quiet);
    NewId(c, s);
    var t1 := LeadsOn(c, s, s, Sending(Offer(f, loc)), quiet);
    t := LeadsOn(c, s, t1, Sending(Reject(s.clock)), quiet);
  }

  /** When its deletion fails, the piece stays where it was as well. */
  lemma UndeletedOne(c: Config, s: State, f: nat, loc: Loc, quiet: Loc) returns (t: State)
    requires MaySend(c, s, f, loc) && Place(s.flushes[f].node, loc) in s.store
    ensures Leads(c, s, t, quiet)
    ensures var to := c.holder(s.flushes[f].snapshot.version, loc).value;
            && t.store == s.store[Place(to, loc) := s.store[Place(s.flushes[f].node, loc)]]
            && t.calls == s.calls + multiset{Task(to, loc.key)}
    ensures t.queue == s.queue && t.rebuildQueue == s.rebuildQueue
    ensures t.handoffs == s.handoffs && t.flushes == SentFrom(s, f, loc)
  {
    hide Leads, Ordered, MapAfter, WriteAfter, FlushAfter, CanMap, CanWrite, CanFlush;
    LeadsNowhere(c, s, quiet);
    NewId(c, s);
    var t1 := AcceptOne(c, s, s, f, loc, quiet);
    t := LeadsOn(c, s, t1, Sending(FailDelete(s.clock)), quiet);
    assert t.handoffs == s.handoffs;
    assert t.flushes == SentFrom(s, f, loc) by {
      assert {loc} - {loc} == s.flushes[f].moving;
    }
  }

  /** When the answer is lost, the flush keeps waiting for it until it fails the key. */
  lemma UnansweredMove(c: Config, s: State, f: nat, loc: Loc, quiet: Loc) returns (t: State)
    requires MaySend(c, s, f, loc) && Place(s.flushes[f].node, loc) in s.store
    ensures Leads(c, s, t, quiet)
    ensures t == s.(clock := s.clock + 2,
                    flushes := s.flushes[f := s.flushes[f].(todo := s.flushes[f].todo - {loc}, moving := {loc})])
    ensures !CanFlush(t, EndFlush(f)) && CanFlush(t, FailKey(f, loc))
  {
    hide Leads, Ordered, MapAfter, WriteAfter, FlushAfter, CanMap, CanWrite;
    LeadsNowhere(c, s, quiet);
    NewId(c, s);
    assert s.flushes[f].moving + {loc} == {loc};
    var t1 := LeadsOn(c, s, s, Sending(Offer(f, loc)), quiet);
    t := LeadsOn(c, s, t1, Sending(Lose(s.clock)), quiet);
    assert t.handoffs == s.handoffs;
  }

  /** And so it does for a request. */
  lemma UnansweredAsk(c: Config, s: State, f: nat, loc: Loc, quiet: Loc) returns (t: State)
    requires MaySend(c, s, f, loc) && Place(s.flushes[f].node, loc) !in s.store
    ensures Leads(c, s, t, quiet)
    ensures t == s.(clock := s.clock + 2,
                    flushes := s.flushes[f := s.flushes[f].(todo := s.flushes[f].todo - {loc}, asking := {loc})])
    ensures !CanFlush(t, EndFlush(f)) && CanFlush(t, FailKey(f, loc))
  {
    hide Leads, Ordered, MapAfter, WriteAfter, FlushAfter, CanMap, CanWrite;
    LeadsNowhere(c, s, quiet);
    NewId(c, s);
    assert s.flushes[f].asking + {loc} == {loc};
    var t1 := LeadsOn(c, s, s, Sending(Ask(f, loc)), quiet);
    t := LeadsOn(c, s, t1, Sending(Lose(s.clock)), quiet);
    assert t.handoffs == s.handoffs;
  }

  // ----- all sends of a flush -----

  /** The piece belongs to `to` under the map of the flush, and was there to be moved. */
  ghost predicate MovedTo(c: Config, s: State, f: nat, done: set<Loc>, loc: Loc, to: Uri)
    requires f in s.flushes && s.flushes[f].snapshot.Taken?
  {
    && loc in done && c.holder(s.flushes[f].snapshot.version, loc) == Some(to)
    && Place(s.flushes[f].node, loc) in s.store
  }

  ghost predicate AskedOf(c: Config, s: State, f: nat, done: set<Loc>, loc: Loc, to: Uri)
    requires f in s.flushes && s.flushes[f].snapshot.Taken?
  {
    && loc in done && c.holder(s.flushes[f].snapshot.version, loc) == Some(to)
    && Place(s.flushes[f].node, loc) !in s.store
  }

  /** `t` is `s` after the flush has made the sends of `done`. */
  ghost predicate Sent(c: Config, s: State, t: State, f: nat, done: set<Loc>)
    requires f in s.flushes && s.flushes[f].snapshot.Taken?
  {
    var fl := s.flushes[f];
    && SameBut(s, t)
    && t.flushes == s.flushes[f := fl.(todo := fl.todo - done)]
    && (forall p :: p in t.store <==>
          (p in s.store && !(p.node == fl.node && p.loc in done)) || MovedTo(c, s, f, done, p.loc, p.node))
    && (forall task :: task in t.queue <==>
          task in s.queue || exists i: nat :: MovedTo(c, s, f, done, Loc(task.key, i), task.node))
    && (forall p :: p in t.rebuildQueue <==> p in s.rebuildQueue || AskedOf(c, s, f, done, p.loc, p.node))
  }

  /** What sends, once they are over, leave as it was. */
  ghost predicate SameBut(s: State, t: State) {
    && t.peer == s.peer && t.stab == s.stab && t.handoffs == s.handoffs
    && t.calls == s.calls && t.resets == s.resets && t.rebuilds == s.rebuilds
  }

  lemma NothingSent(c: Config, s: State, f: nat)
    requires f in s.flushes && s.flushes[f].snapshot.Taken?
    ensures Sent(c, s, s, f, {})
  {
    assert s.flushes[f].todo - {} == s.flushes[f].todo;
    assert s.flushes == s.flushes[f := s.flushes[f]];
  }

  lemma SentMoved(c: Config, s: State, t: State, t': State, f: nat, done: set<Loc>, loc: Loc)
    requires f in s.flushes && s.flushes[f].snapshot.Taken? && Sent(c, s, t, f, done)
    requires loc !in done && loc in s.flushes[f].todo
    requires c.Misplaced(s.flushes[f].snapshot.version, s.flushes[f].node, loc)
    requires Place(s.flushes[f].node, loc) in t.store
    requires var to := c.holder(s.flushes[f].snapshot.version, loc).value;
             && SameBut(t, t') && t'.flushes == SentFrom(t, f, loc) && t'.rebuildQueue == t.rebuildQueue
             && t'.queue == t.queue + {Task(to, loc.key)}
             && t'.store.Keys == t.store.Keys + {Place(to, loc)} - {Place(s.flushes[f].node, loc)}
    ensures Sent(c, s, t', f, done + {loc})
  {
    var fl := s.flushes[f];
    var to := c.holder(fl.snapshot.version, loc).value;
    assert fl.todo - (done + {loc}) == fl.todo - done - {loc};
    assert Place(fl.node, loc) in s.store;
    assert forall p :: p in t'.store <==> p in t'.store.Keys;
    assert forall p :: p in t.store <==> p in t.store.Keys;
    forall task ensures task in t'.queue <==>
        task in s.queue || exists i: nat :: MovedTo(c, s, f, done + {loc}, Loc(task.key, i), task.node)
    {
      if task == Task(to, loc.key) {
        assert loc == Loc(task.key, loc.index);
        assert MovedTo(c, s, f, done + {loc}, Loc(task.key, loc.index), task.node);
      } else if i: nat :| MovedTo(c, s, f, done, Loc(task.key, i), task.node) {
        assert MovedTo(c, s, f, done + {loc}, Loc(task.key, i), task.node);
      }
    }
  }

  lemma SentAsked(c: Config, s: State, t: State, t': State, f: nat, done: set<Loc>, loc: Loc)
    requires f in s.flushes && s.flushes[f].snapshot.Taken? && Sent(c, s, t, f, done)
    requires loc !in done && loc in s.flushes[f].todo
    requires c.Misplaced(s.flushes[f].snapshot.version, s.flushes[f].node, loc)
    requires Place(s.flushes[f].node, loc) !in t.store
    requires var to := c.holder(s.flushes[f].snapshot.version, loc).value;
             && SameBut(t, t') && t'.flushes == SentFrom(t, f, loc) && t'.store == t.store && t'.queue == t.queue
             && t'.rebuildQueue == t.rebuildQueue + {Place(to, loc)}
    ensures Sent(c, s, t', f, done + {loc})
  {
    var fl := s.flushes[f];
    var to := c.holder(fl.snapshot.version, loc).value;
    assert fl.todo - (done + {loc}) == fl.todo - done - {loc};
    assert Place(fl.node, loc) !in s.store;
    forall task ensures task in t'.queue <==>
        task in s.queue || exists i: nat :: MovedTo(c, s, f, done + {loc}, Loc(task.key, i), task.node)
    {
      if i: nat :| MovedTo(c, s, f, done, Loc(task.key, i), task.node) {
        assert MovedTo(c, s, f, done + {loc}, Loc(task.key, i), task.node);
      }
    }
  }

  /** A flush that can make all its sends, to receivers that accept them. */
  ghost predicate MaySendAll(c: Config, s: State, f: nat) {
    && f in s.flushes && s.flushes[f].snapshot.Taken?
    && s.flushes[f].moving == {} == s.flushes[f].asking
    && (forall loc | loc in s.flushes[f].todo :: c.Misplaced(s.flushes[f].snapshot.version, s.flushes[f].node, loc))
    && (forall u :: At(s.peer, u) <= s.flushes[f].snapshot.version)
  }

  lemma SendNext(c: Config, s0: State, s: State, t: State, f: nat, done: set<Loc>, loc: Loc, quiet: Loc)
    returns (t': State)
    requires Leads(c, s0, t, quiet) && Ordered(c, t) && MaySendAll(c, s, f) && Sent(c, s, t, f, done)
    requires loc in s.flushes[f].todo - done
    ensures Leads(c, s0, t', quiet) && Sent(c, s, t', f, done + {loc})
  {
    hide Leads, Ordered;
    assert MaySend(c, t, f, loc);
    hide Sent;
    if Place(s.flushes[f].node, loc) in t.store {
      t' := MoveOne(c, s0, t, f, loc, quiet);
      assert t.flushes[f].node == s.flushes[f].node && t.flushes[f].snapshot == s.flushes[f].snapshot;
      SentMoved(c, s, t, t', f, done, loc);
    } else {
      t' := AskOne(c, s0, t, f, loc, quiet);
      SentAsked(c, s, t, t', f, done, loc);
    }
  }

  lemma {:induction false} SendRest(c: Config, s0: State, s: State, t: State, f: nat, done: set<Loc>, quiet: Loc)
    returns (t': State)
    requires Ordered(c, s0) && Leads(c, s0, t, quiet) && MaySendAll(c, s, f) && Sent(c, s, t, f, done)
    requires done <= s.flushes[f].todo
    ensures Leads(c, s0, t', quiet) && Sent(c, s, t', f, s.flushes[f].todo)
    decreases s.flushes[f].todo - done
  {
    hide Leads, Sent;
    t' := t;
    assert done + (s.flushes[f].todo - done) == s.flushes[f].todo;
    if s.flushes[f].todo - done != {} {
      var loc :| loc in s.flushes[f].todo - done;
      LeadsOrdered(c, s0, t, quiet);
      var t1 := SendNext(c, s0, s, t, f, done, loc, quiet);
      t' := SendRest(c, s0, s, t1, f, done + {loc}, quiet);
    } else {
      assert done == s.flushes[f].todo;
    }
  }

  // ----- a whole flush -----

  /** The sends that a flush of `u` under map `v` makes when the keys of `fails` fail at once. */
  ghost predicate Out(c: Config, s: State, u: Uri, v: nat, fails: set<Key>, loc: Loc) {
    Task(u, loc.key) in s.queue && loc.key !in fails && c.Misplaced(v, u, loc)
  }

  ghost predicate GoesTo(c: Config, s: State, u: Uri, v: nat, fails: set<Key>, loc: Loc, to: Uri) {
    Out(c, s, u, v, fails, loc) && Place(u, loc) in s.store && c.holder(v, loc) == Some(to)
  }

  /** What a flush comes to: its pieces are with their holders, who have them queued; its other pieces were asked
      for; the keys that failed are queued again; and nothing is left under way. */
  ghost predicate FlushedInto(c: Config, s: State, t: State, u: Uri, v: nat, fails: set<Key>) {
    && SameBut(s, t) && t.flushes == s.flushes
    && (forall p :: p in t.store <==>
          (p in s.store && !(p.node == u && Out(c, s, u, v, fails, p.loc))) || GoesTo(c, s, u, v, fails, p.loc, p.node))
    && (forall task :: task in t.queue <==>
          || (task in s.queue && task.node != u) || (task.node == u && task.key in fails)
          || exists i: nat :: GoesTo(c, s, u, v, fails, Loc(task.key, i), task.node))
    && (forall p :: p in t.rebuildQueue <==>
          || p in s.rebuildQueue
          || (Out(c, s, u, v, fails, p.loc) && Place(u, p.loc) !in s.store && c.holder(v, p.loc) == Some(p.node)))
  }

  ghost predicate MayFlush(c: Config, s: State, u: Uri, v: nat, fails: set<Key>) {
    && Ordered(c, s) && At(s.stab, u) == v && (forall w :: At(s.peer, w) <= v)
    && (forall key | key in fails :: Fails(c, s, u, v, key))
  }

  /** A queued key of which some piece belongs elsewhere, so that one of its sends can fail. */
  ghost predicate Fails(c: Config, s: State, u: Uri, v: nat, key: Key) {
    Task(u, key) in s.queue && exists i: nat :: c.Misplaced(v, u, Loc(key, i))
  }

  /** The flush once its tasks are drained and its map is read. */
  function Begun(c: Config, s: State, u: Uri): Flush {
    var keys := KeysOf(TasksOf(s.queue, u));
    var v := At(s.stab, u);
    Flush(u, keys, Taken(v, s.clock + 1), Sends(c, v, u, keys), {}, {}, {})
  }

  lemma BeginFlush(c: Config, s: State, u: Uri, quiet: Loc) returns (t: State)
    ensures Leads(c, s, t, quiet)
    ensures t == s.(clock := s.clock + 2, queue := s.queue - TasksOf(s.queue, u),
                    flushes := s.flushes[s.clock := Begun(c, s, u)])
  {
    hide Leads, MapAfter, WriteAfter, SendAfter, CanMap, CanWrite, CanSend;
    LeadsNowhere(c, s, quiet);
    var t1 := LeadsOn(c, s, s, Flushing(Drain(u)), quiet);
    t := LeadsOn(c, s, t1, Flushing(ReadMap(s.clock)), quiet);
  }

  lemma InBegun(c: Config, s: State, u: Uri, loc: Loc)
    ensures loc in Begun(c, s, u).todo <==> Out(c, s, u, At(s.stab, u), {}, loc)
  {
    var keys := KeysOf(TasksOf(s.queue, u));
    assert loc.key in keys <==> Task(u, loc.key) in s.queue by {
      if Task(u, loc.key) in s.queue {
        assert Task(u, loc.key) in TasksOf(s.queue, u);
      }
    }
    assert loc == Loc(loc.key, loc.index);
  }

  function WithoutKeys(locs: set<Loc>, keys: set<Key>): set<Loc> {
    set loc | loc in locs && loc.key !in keys
  }

  /** The state once the given keys of a flush have failed. */
  function WithFailed(s: State, f: nat, fails: set<Key>): State
    requires f in s.flushes
  {
    var fl := s.flushes[f];
    s.(clock := s.clock + |fails|,
       flushes := s.flushes[f := fl.(todo := WithoutKeys(fl.todo, fails), moving := WithoutKeys(fl.moving, fails),
                                     asking := WithoutKeys(fl.asking, fails), failed := fl.failed + fails)])
  }

  lemma FailOne(c: Config, s: State, f: nat, loc: Loc)
    requires f in s.flushes
    requires loc in s.flushes[f].todo + s.flushes[f].moving + s.flushes[f].asking
    ensures CanFlush(s, FailKey(f, loc)) && FlushAfter(c, s, FailKey(f, loc)) == WithFailed(s, f, {loc.key})
  {
    var fl := s.flushes[f];
    assert WithoutKey(fl.todo, loc.key) == WithoutKeys(fl.todo, {loc.key});
    assert WithoutKey(fl.moving, loc.key) == WithoutKeys(fl.moving, {loc.key});
    assert WithoutKey(fl.asking, loc.key) == WithoutKeys(fl.asking, {loc.key});
  }

  lemma FailMore(s: State, f: nat, key: Key, rest: set<Key>)
    requires f in s.flushes && key !in rest
    ensures WithFailed(WithFailed(s, f, {key}), f, rest) == WithFailed(s, f, rest + {key})
  {
    var fl := s.flushes[f];
    assert WithoutKeys(WithoutKeys(fl.todo, {key}), rest) == WithoutKeys(fl.todo, rest + {key});
    assert WithoutKeys(WithoutKeys(fl.moving, {key}), rest) == WithoutKeys(fl.moving, rest + {key});
    assert WithoutKeys(WithoutKeys(fl.asking, {key}), rest) == WithoutKeys(fl.asking, rest + {key});
    assert fl.failed + {key} + rest == fl.failed + (rest + {key});
  }

  lemma FailNone(s: State, f: nat)
    requires f in s.flushes
    ensures WithFailed(s, f, {}) == s
  {
    var fl := s.flushes[f];
    assert WithoutKeys(fl.todo, {}) == fl.todo && fl.failed + {} == fl.failed;
    assert WithoutKeys(fl.moving, {}) == fl.moving && WithoutKeys(fl.asking, {}) == fl.asking;
    assert s.flushes[f := fl] == s.flushes;
  }

  /** Each of the keys fails with one of its sends. */
  lemma {:induction false} FailAll(c: Config, s0: State, s: State, f: nat, fails: set<Key>, quiet: Loc)
    returns (t: State)
    requires Leads(c, s0, s, quiet) && f in s.flushes && s.flushes[f].moving == {} == s.flushes[f].asking
    requires forall key | key in fails :: exists loc :: loc in s.flushes[f].todo && loc.key == key
    ensures Leads(c, s0, t, quiet) && t == WithFailed(s, f, fails)
    decreases fails
  {
    hide Leads, FlushAfter, CanFlush;
    if fails == {} {
      t := s;
      FailNone(s, f);
    } else {
      var key :| key in fails;
      var loc :| loc in s.flushes[f].todo && loc.key == key;
      FailOne(c, s, f, loc);
      var t1 := LeadsOn(c, s0, s, Flushing(FailKey(f, loc)), quiet);
      forall k | k in fails - {key} ensures exists l :: l in t1.flushes[f].todo && l.key == k {
        var l :| l in s.flushes[f].todo && l.key == k;
        assert l in t1.flushes[f].todo;
      }
      assert WithoutKeys({}, {key}) == {};
      hide WithFailed;
      t := FailAll(c, s0, t1, f, fails - {key}, quiet);
      FailMore(s, f, key, fails - {key});
      assert fails - {key} + {key} == fails;
    }
  }

  /** Drained, map read, some keys failed, ready to send the rest. */
  ghost predicate ReadyToSend(c: Config, s: State, t: State, u: Uri, fails: set<Key>) {
    && t.store == s.store && t.rebuildQueue == s.rebuildQueue && SameBut(s, t)
    && t.queue == s.queue - TasksOf(s.queue, u)
    && s.clock in t.flushes && t.flushes - {s.clock} == s.flushes
    && var fl := t.flushes[s.clock];
       && fl.node == u && fl.snapshot.Taken? && fl.snapshot.version == At(s.stab, u)
       && fl.moving == {} == fl.asking && fl.failed == fails
       && fl.todo == WithoutKeys(Begun(c, s, u).todo, fails)
  }

  lemma PrepareFlush(c: Config, s: State, u: Uri, v: nat, fails: set<Key>, quiet: Loc) returns (t: State)
    requires MayFlush(c, s, u, v, fails)
    ensures Leads(c, s, t, quiet) && ReadyToSend(c, s, t, u, fails)
  {
    hide Leads, Ordered;
    NewId(c, s);
    var t1 := BeginFlush(c, s, u, quiet);
    forall key | key in fails ensures exists loc :: loc in t1.flushes[s.clock].todo && loc.key == key {
      assert Fails(c, s, u, v, key);
      var i: nat :| c.Misplaced(v, u, Loc(key, i));
      InBegun(c, s, u, Loc(key, i));
    }
    t := FailAll(c, s, t1, s.clock, fails, quiet);
    assert {} + fails == fails && WithoutKeys({}, fails) == {};
  }

  lemma InTodo(c: Config, s: State, t: State, u: Uri, fails: set<Key>, loc: Loc)
    requires ReadyToSend(c, s, t, u, fails)
    ensures loc in t.flushes[s.clock].todo <==> Out(c, s, u, At(s.stab, u), fails, loc)
  {
    InBegun(c, s, u, loc);
  }

  lemma StoredIn(c: Config, s: State, t: State, t': State, u: Uri, v: nat, fails: set<Key>, p: Place)
    requires ReadyToSend(c, s, t, u, fails) && v == At(s.stab, u)
    requires Sent(c, t, t', s.clock, t.flushes[s.clock].todo)
    ensures p in t'.store <==>
            || (p in s.store && !(p.node == u && Out(c, s, u, v, fails, p.loc)))
            || GoesTo(c, s, u, v, fails, p.loc, p.node)
    ensures p in t'.rebuildQueue <==>
            || p in s.rebuildQueue
            || (Out(c, s, u, v, fails, p.loc) && Place(u, p.loc) !in s.store && c.holder(v, p.loc) == Some(p.node))
  {
    hide Out;
    InTodo(c, s, t, u, fails, p.loc);
  }

  lemma EndIs(c: Config, t: State, f: nat)
    requires CanFlush(t, EndFlush(f))
    ensures var e := FlushAfter(c, t, EndFlush(f));
            && SameBut(t, e) && e.store == t.store && e.rebuildQueue == t.rebuildQueue
            && e.flushes == t.flushes - {f} && e.queue == t.queue + AsTasks(t.flushes[f].node, t.flushes[f].failed)
  {
  }

  /** The last step queues what failed. */
  lemma EndOfFlush(c: Config, s: State, t: State, t': State, u: Uri, v: nat, fails: set<Key>)
    requires ReadyToSend(c, s, t, u, fails) && v == At(s.stab, u)
    requires Sent(c, t, t', s.clock, t.flushes[s.clock].todo)
    requires CanFlush(t', EndFlush(s.clock))
    ensures FlushedInto(c, s, FlushAfter(c, t', EndFlush(s.clock)), u, v, fails)
  {
    hide FlushAfter, CanFlush, AsTasks, Out, GoesTo, MovedTo;
    var e := FlushAfter(c, t', EndFlush(s.clock));
    EndIs(c, t', s.clock);
    assert t'.flushes - {s.clock} == s.flushes;
    forall p {:trigger p in e.store} {:trigger p in e.rebuildQueue}
      ensures p in e.store <==>
              || (p in s.store && !(p.node == u && Out(c, s, u, v, fails, p.loc)))
              || GoesTo(c, s, u, v, fails, p.loc, p.node)
      ensures p in e.rebuildQueue <==>
              || p in s.rebuildQueue
              || (Out(c, s, u, v, fails, p.loc) && Place(u, p.loc) !in s.store && c.holder(v, p.loc) == Some(p.node))
    {
      StoredIn(c, s, t, t', u, v, fails, p);
    }
    forall task ensures task in e.queue <==>
        || (task in s.queue && task.node != u) || (task.node == u && task.key in fails)
        || exists i: nat :: GoesTo(c, s, u, v, fails, Loc(task.key, i), task.node)
    {
      QueuedIn(c, s, t, u, v, fails, task);
      assert task in t'.queue <==>
        || task in t.queue
        || exists i: nat :: MovedTo(c, t, s.clock, t.flushes[s.clock].todo, Loc(task.key, i), task.node);
    }
  }

  lemma QueuedIn(c: Config, s: State, t: State, u: Uri, v: nat, fails: set<Key>, task: Task)
    requires ReadyToSend(c, s, t, u, fails) && v == At(s.stab, u)
    ensures (exists i: nat :: MovedTo(c, t, s.clock, t.flushes[s.clock].todo, Loc(task.key, i), task.node)) <==>
            exists i: nat :: GoesTo(c, s, u, v, fails, Loc(task.key, i), task.node)
    ensures task in AsTasks(u, fails) <==> task.node == u && task.key in fails
    ensures task in t.queue <==> task in s.queue && task.node != u
  {
    assert task == Task(task.node, task.key);
    if i: nat :| MovedTo(c, t, s.clock, t.flushes[s.clock].todo, Loc(task.key, i), task.node) {
      InTodo(c, s, t, u, fails, Loc(task.key, i));
      assert GoesTo(c, s, u, v, fails, Loc(task.key, i), task.node);
    }
    if i: nat :| GoesTo(c, s, u, v, fails, Loc(task.key, i), task.node) {
      InTodo(c, s, t, u, fails, Loc(task.key, i));
      assert MovedTo(c, t, s.clock, t.flushes[s.clock].todo, Loc(task.key, i), task.node);
    }
  }

  /** The protocol can run a whole flush of a stabilizer, in which the given keys fail and all else succeeds. */
  lemma FlushRun(c: Config, s: State, u: Uri, v: nat, fails: set<Key>, quiet: Loc) returns (t: State)
    requires MayFlush(c, s, u, v, fails)
    ensures Leads(c, s, t, quiet) && FlushedInto(c, s, t, u, v, fails)
  {
    hide Leads, Ordered, FlushedInto;
    var t1 := PrepareFlush(c, s, u, v, fails, quiet);
    forall loc | loc in t1.flushes[s.clock].todo ensures c.Misplaced(v, u, loc) {
      InTodo(c, s, t1, u, fails, loc);
    }
    NothingSent(c, t1, s.clock);
    var t2 := SendRest(c, s, t1, t1, s.clock, {}, quiet);
    assert t1.flushes[s.clock].todo - t1.flushes[s.clock].todo == {};
    t := LeadsOn(c, s, t2, Flushing(EndFlush(s.clock)), quiet);
    EndOfFlush(c, s, t1, t2, u, v, fails);
  }
}
