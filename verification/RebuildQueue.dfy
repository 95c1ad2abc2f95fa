/** The queue of pieces that other nodes asked this one to rebuild. */
module RebuildQueue {
  import opened Types
  import opened Codec
  import R = Rebuild
  import S = Stabilizer
  import PieceStore

  /** How far an execution has come when the flush ends without it. */
  datatype Cut = BeforePut | AfterPut | AfterQueue

  /** What goes wrong around one piece, which replies its rebuild gets, and where it is cut short if another
      execution ends the flush. */
  datatype Luck = Luck(
    existsFails: bool, fromHolders: seq<R.Reply>, fromMembers: seq<R.Reply>, putFails: bool, cut: Cut)

  type World = Loc -> Luck

  /** Enough distinct pieces were heard of, in one round or the other. */
  function Enough(c: Codec, luck: Luck): bool {
    c.k <= |R.IndicesOf(luck.fromHolders)| || c.k <= |R.IndicesOf(luck.fromMembers)|
  }

  /** How an execution ends; it panics when the rebuilt shards do not have the index asked for. */
  datatype Ending = Fine | Retry | Panicked

  function EndingOf(c: Codec, world: World, pieces: PieceStore.Contents, loc: Loc): Ending {
    var luck := world(loc);
    if luck.existsFails then Retry
    else if loc in pieces then Fine
    else if !Enough(c, luck) then Retry
    else if c.n <= loc.index then Panicked
    else if luck.putFails then Retry
    else Fine
  }

  /** The pieces that working through `tasks` adds to the store: the genuine ones. */
  ghost function Restored(
    c: Codec, data: Key -> seq<Bytes>, world: World, pieces: PieceStore.Contents, tasks: set<Loc>)
    : PieceStore.Contents
  {
    map loc |
      && loc in tasks && loc !in pieces && EndingOf(c, world, pieces, loc) == Fine
      && loc.index < |c.encode(data(loc.key))| ::
      c.encode(data(loc.key))[loc.index]
  }

  function Failing(c: Codec, world: World, pieces: PieceStore.Contents, tasks: set<Loc>): set<Loc> {
    set loc | loc in tasks && EndingOf(c, world, pieces, loc) == Retry
  }

  /** Of the executions that are cut short, those that came as far as storing the piece. */
  function Putting(world: World, cut: set<Loc>): set<Loc> {
    set loc | loc in cut && world(loc).cut != BeforePut
  }

  /** Of the executions that are cut short, those that queued the key as well. */
  function Queueing(world: World, cut: set<Loc>): set<Loc> {
    set loc | loc in cut && world(loc).cut == AfterQueue
  }

  /** The replies to come carry genuine shards of each key's data. */
  ghost predicate Honest(c: Codec, data: Key -> seq<Bytes>, world: World) {
    && c.Valid()
    && forall loc: Loc ::
      && c.IsData(data(loc.key))
      && R.GenuineReplies(c, world(loc).fromHolders, data(loc.key))
      && R.GenuineReplies(c, world(loc).fromMembers, data(loc.key))
  }

  class RebuildQueue {
    const codec: Codec
    const store: PieceStore.PieceMap
    const stabilizer: S.Stabilizer
    var cluster: S.View
    var queue: set<Loc>

    constructor (codec: Codec, store: PieceStore.PieceMap, stabilizer: S.Stabilizer, cluster: S.View)
      ensures queue == {} && this.codec == codec && this.store == store
      ensures this.stabilizer == stabilizer && this.cluster == cluster
    {
      this.codec, this.store, this.stabilizer, this.cluster := codec, store, stabilizer, cluster;
      queue := {};
    }

    method QueueTask(loc: Loc)
      modifies this`queue
      ensures queue == old(queue) + {loc}
    {
      queue := queue + {loc};
    }

    method SetNewCluster(cluster: S.View)
      modifies this`cluster
      ensures this.cluster == cluster
    {
      this.cluster := cluster;
    }

    /** A piece that is here is left alone. One that is not is rebuilt and stored. */
    method Store(loc: Loc, world: World, ghost data: Key -> seq<Bytes>) returns (r: Ending, isNew: bool)
      requires Honest(codec, data, world)
      modifies store
      ensures r == EndingOf(codec, world, old(store.pieces), loc)
      ensures store.pieces == old(store.pieces) + Restored(codec, data, world, old(store.pieces), {loc})
      ensures PieceStore.KeysOf(Restored(codec, data, world, old(store.pieces), {loc})) ==
              if isNew then {loc.key} else {}
    {
      var luck := world(loc);
      ghost var d := data(loc.key);
      assert |codec.encode(d)| == codec.n;
      isNew := false;
      if luck.existsFails {
        return Retry, false;
      }
      if loc in store.pieces {
        return Fine, false;
      }
      var pieces := R.Rebuild(codec, luck.fromHolders, luck.fromMembers, true, true, d);
      if pieces.Err? {
        return Retry, false;
      }
      if |pieces.value| <= loc.index {
        return Panicked, false;
      }
      ghost var added := Restored(codec, data, world, old(store.pieces), {loc});
      store.Put(loc, pieces.value[loc.index], luck.putFails);
      if luck.putFails {
        return Retry, false;
      }
      assert added == map[loc := pieces.value[loc.index]];
      OneKey(loc, pieces.value[loc.index]);
      return Fine, true;
    }

    /** A piece that is rebuilt also has its key queued, to be looked at. */
    method Exec(loc: Loc, world: World, ghost data: Key -> seq<Bytes>) returns (r: Ending)
      requires Honest(codec, data, world)
      modifies store, stabilizer`queue
      ensures r == EndingOf(codec, world, old(store.pieces), loc)
      ensures store.pieces == old(store.pieces) + Restored(codec, data, world, old(store.pieces), {loc})
      ensures stabilizer.queue ==
              old(stabilizer.queue) +
              PieceStore.KeysOf(Restored(codec, data, world, old(store.pieces), {loc}))
    {
      hide Honest, Restored, EndingOf, PieceStore.KeysOf;
      var isNew;
      r, isNew := Store(loc, world, data);
      if isNew {
        stabilizer.QueueTask(loc.key);
      }
    }

    /** What executions that are not waited for have done by then. */
    method CutShort(tasks: set<Loc>, world: World, ghost data: Key -> seq<Bytes>)
      requires Honest(codec, data, world)
      modifies store, stabilizer`queue
      ensures store.pieces ==
              old(store.pieces) + Restored(codec, data, world, old(store.pieces), Putting(world, tasks))
      ensures stabilizer.queue ==
              old(stabilizer.queue) +
              PieceStore.KeysOf(Restored(codec, data, world, old(store.pieces), Queueing(world, tasks)))
    {
      hide Restored, Honest, EndingOf, PieceStore.KeysOf, Failing, Putting, Queueing;
      var left := tasks;
      ghost var over: set<Loc>, before := {}, store.pieces;
      NothingCut(codec, data, world, before);
      while left != {}
        invariant left <= tasks && over == tasks - left
        invariant store.pieces == before + Restored(codec, data, world, before, Putting(world, over))
        invariant stabilizer.queue ==
                  old(stabilizer.queue) +
                  PieceStore.KeysOf(Restored(codec, data, world, before, Queueing(world, over)))
      {
        var loc :| loc in left;
        left := left - {loc};
        CutOneMore(codec, data, world, before, over, loc);
        over := over + {loc};
        match world(loc).cut {
          case BeforePut =>
          case AfterPut =>
            var r, isNew := Store(loc, world, data);
          case AfterQueue =>
            var r := Exec(loc, world, data);
        }
      }
      assert over == tasks;
    }

    /** Works through tasks in any order, up to the first execution that panics. */
    method WorkOn(tasks: set<Loc>, world: World, ghost data: Key -> seq<Bytes>)
      returns (panicked: bool, failed: set<Loc>, left: set<Loc>)
      requires Honest(codec, data, world)
      modifies store, stabilizer`queue
      ensures left <= tasks && (panicked || left == {})
      ensures panicked <==>
              exists loc | loc in tasks - left :: EndingOf(codec, world, old(store.pieces), loc) == Panicked
      ensures failed == Failing(codec, world, old(store.pieces), tasks - left)
      ensures store.pieces == old(store.pieces) + Restored(codec, data, world, old(store.pieces), tasks - left)
      ensures stabilizer.queue ==
              old(stabilizer.queue) + PieceStore.KeysOf(Restored(codec, data, world, old(store.pieces), tasks - left))
    {
      hide Restored, Failing, EndingOf, Honest, PieceStore.KeysOf;
      ghost var before := store.pieces;
      ghost var done: set<Loc> := {};
      NothingRestored(codec, data, world, before);
      panicked, failed, left := false, {}, tasks;
      while left != {} && !panicked
        invariant left <= tasks && done == tasks - left
        invariant store.pieces == before + Restored(codec, data, world, before, done)
        invariant stabilizer.queue ==
                  old(stabilizer.queue) + PieceStore.KeysOf(Restored(codec, data, world, before, done))
        invariant failed == Failing(codec, world, before, done)
        invariant panicked <==> exists loc | loc in done :: EndingOf(codec, world, before, loc) == Panicked
        decreases left
      {
        var loc :| loc in left;
        left := left - {loc};
        RestoreOneMore(codec, data, world, before, done, loc);
        var r := Exec(loc, world, data);
        done := done + {loc};
        match r {
          case Fine =>
          case Retry => failed := failed + {loc};
          case Panicked => panicked := true;
        }
      }
    }

    /** Works through the queue in any order. `meanwhile` is what others queue while it is at work. A panic in
        one execution ends the flush and cuts the others short, and nothing is queued again. */
    method FlushQueue(world: World, meanwhile: set<Loc>, ghost data: Key -> seq<Bytes>)
      returns (panicked: bool, ghost done: set<Loc>, ghost cut: set<Loc>)
      requires Honest(codec, data, world)
      modifies this`queue, store, stabilizer`queue
      ensures panicked <==>
              exists loc | loc in old(queue) :: EndingOf(codec, world, old(store.pieces), loc) == Panicked
      ensures done !! cut && done + cut == old(queue) && (panicked || cut == {})
      ensures store.pieces ==
              old(store.pieces) + Restored(codec, data, world, old(store.pieces), done + Putting(world, cut))
      ensures stabilizer.queue ==
              old(stabilizer.queue) +
              PieceStore.KeysOf(Restored(codec, data, world, old(store.pieces), done + Queueing(world, cut)))
      ensures queue ==
              meanwhile + if panicked then {} else Failing(codec, world, old(store.pieces), old(queue))
    {
      hide Restored, Failing, EndingOf, Honest, PieceStore.KeysOf, Putting, Queueing;
      var tasks := queue;
      queue := {};
      queue := queue + meanwhile;
      ghost var before := store.pieces;
      var failed, left;
      panicked, failed, left := WorkOn(tasks, world, data);
      done, cut := tasks - left, left;
      if panicked {
        CutAfter(codec, data, world, before, done, cut);
        CutShort(left, world, data);
      } else {
        assert cut == {} && done == tasks;
        NoneCut(world, done);
        queue := queue + failed;
      }
    }
  }

  lemma OneKey(loc: Loc, data: Bytes)
    ensures PieceStore.KeysOf(map[loc := data]) == {loc.key}
  {
    assert loc in map[loc := data];
  }

  lemma NothingRestored(c: Codec, data: Key -> seq<Bytes>, world: World, pieces: PieceStore.Contents)
    ensures Restored(c, data, world, pieces, {}) == map[] && Failing(c, world, pieces, {}) == {}
    ensures PieceStore.KeysOf(map[]) == {}
  {
  }

  lemma RestoredIn(
    c: Codec, data: Key -> seq<Bytes>, world: World, pieces: PieceStore.Contents, tasks: set<Loc>, loc: Loc)
    ensures var r := Restored(c, data, world, pieces, tasks);
            && (loc in r <==>
                && loc in tasks && loc !in pieces && EndingOf(c, world, pieces, loc) == Fine
                && loc.index < |c.encode(data(loc.key))|)
            && (loc in r ==> r[loc] == c.encode(data(loc.key))[loc.index])
  {
    hide EndingOf;
  }

  lemma RestoredJoin(
    c: Codec, data: Key -> seq<Bytes>, world: World, pieces: PieceStore.Contents, a: set<Loc>, b: set<Loc>)
    ensures Restored(c, data, world, pieces, a + b) ==
            Restored(c, data, world, pieces, a) + Restored(c, data, world, pieces, b)
  {
    hide Restored, EndingOf;
    var x, y := Restored(c, data, world, pieces, a), Restored(c, data, world, pieces, b);
    var z := Restored(c, data, world, pieces, a + b);
    forall loc
      ensures loc in z <==> loc in x + y
      ensures loc in z ==> z[loc] == (x + y)[loc]
    {
      RestoredIn(c, data, world, pieces, a, loc);
      RestoredIn(c, data, world, pieces, b, loc);
      RestoredIn(c, data, world, pieces, a + b, loc);
    }
  }

  lemma EndsAlone(
    c: Codec, data: Key -> seq<Bytes>, world: World, pieces: PieceStore.Contents, done: set<Loc>, loc: Loc)
    requires loc !in done
    ensures EndingOf(c, world, pieces + Restored(c, data, world, pieces, done), loc) == EndingOf(c, world, pieces, loc)
  {
    hide Restored;
    RestoredIn(c, data, world, pieces, done, loc);
  }

  lemma RestoredAlone(
    c: Codec, data: Key -> seq<Bytes>, world: World, pieces: PieceStore.Contents, done: set<Loc>, now: set<Loc>)
    requires done !! now
    ensures Restored(c, data, world, pieces + Restored(c, data, world, pieces, done), now) ==
            Restored(c, data, world, pieces, now)
  {
    hide Restored, EndingOf;
    var before := pieces + Restored(c, data, world, pieces, done);
    var x, y := Restored(c, data, world, before, now), Restored(c, data, world, pieces, now);
    forall at
      ensures at in x <==> at in y
      ensures at in x ==> x[at] == y[at]
    {
      if at in now {
        EndsAlone(c, data, world, pieces, done, at);
        RestoredIn(c, data, world, pieces, done, at);
      }
      RestoredIn(c, data, world, before, now, at);
      RestoredIn(c, data, world, pieces, now, at);
    }
  }

  /** What is restored now, after the pieces of `done`, adds to what was. */
  lemma RestoredMore(
    c: Codec, data: Key -> seq<Bytes>, world: World, pieces: PieceStore.Contents, done: set<Loc>, now: set<Loc>)
    requires done !! now
    ensures var sofar := Restored(c, data, world, pieces, done);
            pieces + Restored(c, data, world, pieces, done + now) ==
            pieces + sofar + Restored(c, data, world, pieces + sofar, now)
  {
    hide Restored, EndingOf;
    RestoredAlone(c, data, world, pieces, done, now);
    RestoredJoin(c, data, world, pieces, done, now);
  }

  /** So do the keys, of which perhaps fewer are queued than are stored. */
  lemma QueuedMore(
    c: Codec, data: Key -> seq<Bytes>, world: World, pieces: PieceStore.Contents,
    done: set<Loc>, queued: set<Loc>, now: set<Loc>)
    requires done !! now
    ensures PieceStore.KeysOf(Restored(c, data, world, pieces, queued + now)) ==
            PieceStore.KeysOf(Restored(c, data, world, pieces, queued)) +
            PieceStore.KeysOf(Restored(c, data, world, pieces + Restored(c, data, world, pieces, done), now))
  {
    hide Restored, EndingOf, PieceStore.KeysOf;
    RestoredAlone(c, data, world, pieces, done, now);
    RestoredJoin(c, data, world, pieces, queued, now);
    KeysOfSum(Restored(c, data, world, pieces, queued), Restored(c, data, world, pieces, now));
  }

  lemma NothingCut(c: Codec, data: Key -> seq<Bytes>, world: World, pieces: PieceStore.Contents)
    ensures Restored(c, data, world, pieces, Putting(world, {})) == map[]
    ensures Restored(c, data, world, pieces, Queueing(world, {})) == map[] && PieceStore.KeysOf(map[]) == {}
  {
  }

  lemma NoneCut(world: World, done: set<Loc>)
    ensures done + Putting(world, {}) == done && done + Queueing(world, {}) == done
  {
  }

  lemma CutOneMore(
    c: Codec, data: Key -> seq<Bytes>, world: World, pieces: PieceStore.Contents, over: set<Loc>, loc: Loc)
    requires loc !in over
    ensures var sofar := Restored(c, data, world, pieces, Putting(world, over));
            var now := Restored(c, data, world, pieces + sofar, {loc});
            && pieces + Restored(c, data, world, pieces, Putting(world, over + {loc})) ==
               (if world(loc).cut == BeforePut then pieces + sofar else pieces + sofar + now)
            && PieceStore.KeysOf(Restored(c, data, world, pieces, Queueing(world, over + {loc}))) ==
               PieceStore.KeysOf(Restored(c, data, world, pieces, Queueing(world, over))) +
               (if world(loc).cut == AfterQueue then PieceStore.KeysOf(now) else {})
  {
    hide Restored, EndingOf, PieceStore.KeysOf;
    assert Putting(world, over + {loc}) == Putting(world, over) + if world(loc).cut == BeforePut then {} else {loc};
    assert Queueing(world, over + {loc}) == Queueing(world, over) + if world(loc).cut == AfterQueue then {loc} else {};
    if world(loc).cut == BeforePut {
      assert Putting(world, over + {loc}) == Putting(world, over);
    } else {
      RestoredMore(c, data, world, pieces, Putting(world, over), {loc});
    }
    if world(loc).cut == AfterQueue {
      QueuedMore(c, data, world, pieces, Putting(world, over), Queueing(world, over), {loc});
    } else {
      assert Queueing(world, over + {loc}) == Queueing(world, over);
    }
  }

  lemma CutAfter(
    c: Codec, data: Key -> seq<Bytes>, world: World, pieces: PieceStore.Contents, done: set<Loc>, cut: set<Loc>)
    requires done !! cut
    ensures var sofar := Restored(c, data, world, pieces, done);
            && pieces + Restored(c, data, world, pieces, done + Putting(world, cut)) ==
               pieces + sofar + Restored(c, data, world, pieces + sofar, Putting(world, cut))
            && PieceStore.KeysOf(Restored(c, data, world, pieces, done + Queueing(world, cut))) ==
               PieceStore.KeysOf(sofar) +
               PieceStore.KeysOf(Restored(c, data, world, pieces + sofar, Queueing(world, cut)))
  {
    hide Restored, EndingOf, PieceStore.KeysOf;
    RestoredMore(c, data, world, pieces, done, Putting(world, cut));
    QueuedMore(c, data, world, pieces, done, done, Queueing(world, cut));
  }

  lemma FailingOneMore(c: Codec, world: World, pieces: PieceStore.Contents, done: set<Loc>, loc: Loc)
    ensures Failing(c, world, pieces, done + {loc}) ==
            Failing(c, world, pieces, done) + if EndingOf(c, world, pieces, loc) == Retry then {loc} else {}
  {
    hide EndingOf;
  }

  /** Rebuilding other pieces first makes no difference to a piece. */
  lemma RestoreOneMore(
    c: Codec, data: Key -> seq<Bytes>, world: World, pieces: PieceStore.Contents, done: set<Loc>, loc: Loc)
    requires loc !in done
    ensures var sofar := Restored(c, data, world, pieces, done);
            var now := Restored(c, data, world, pieces + sofar, {loc});
            && Restored(c, data, world, pieces, done + {loc}) == sofar + now
            && pieces + (sofar + now) == pieces + sofar + now
            && PieceStore.KeysOf(sofar + now) == PieceStore.KeysOf(sofar) + PieceStore.KeysOf(now)
            && EndingOf(c, world, pieces + sofar, loc) == EndingOf(c, world, pieces, loc)
            && Failing(c, world, pieces, done + {loc}) ==
               Failing(c, world, pieces, done) + if EndingOf(c, world, pieces, loc) == Retry then {loc} else {}
  {
    hide Restored, EndingOf, Failing, PieceStore.KeysOf;
    var sofar := Restored(c, data, world, pieces, done);
    var now := Restored(c, data, world, pieces, {loc});
    EndsAlone(c, data, world, pieces, done, loc);
    RestoredAlone(c, data, world, pieces, done, {loc});
    RestoredJoin(c, data, world, pieces, done, {loc});
    FailingOneMore(c, world, pieces, done, loc);
    KeysOfSum(sofar, now);
  }

  lemma KeysOfSum(a: PieceStore.Contents, b: PieceStore.Contents)
    ensures PieceStore.KeysOf(a + b) == PieceStore.KeysOf(a) + PieceStore.KeysOf(b)
  {
    forall loc | loc in a ensures loc in a + b {
    }
    forall loc | loc in b ensures loc in a + b {
    }
  }

  /** A task of one of the code's pieces stays queued exactly if the store fails to say whether the piece is
      here, or the piece is not here and either cannot be put, or the nodes that answer hold too few pieces of
      its key, in the round of holders and in the round of members alike. Unless the store fails to answer, the
      genuine piece is otherwise here after the flush. */
  lemma StaysQueuedIff(
    c: Codec, data: Key -> seq<Bytes>, world: World, pieces: PieceStore.Contents, tasks: set<Loc>, loc: Loc,
    stores: R.Stores, holders: set<Uri>, members: set<Uri>)
    requires loc in tasks && loc.index < c.n == |c.encode(data(loc.key))|
    requires R.RepliesFrom(stores, holders, world(loc).fromHolders)
    requires R.RepliesFrom(stores, members, world(loc).fromMembers)
    requires loc in pieces ==> pieces[loc] == c.encode(data(loc.key))[loc.index]
    ensures loc in Failing(c, world, pieces, tasks) <==>
            || world(loc).existsFails
            || (&& loc !in pieces
                && (|| world(loc).putFails
                    || (|R.Supplied(stores, holders)| < c.k && |R.Supplied(stores, members)| < c.k)))
    ensures var after := pieces + Restored(c, data, world, pieces, tasks);
            && (loc in after <==> loc in pieces || loc !in Failing(c, world, pieces, tasks))
            && (loc in after ==> after[loc] == c.encode(data(loc.key))[loc.index])
  {
    hide R.RepliesFrom, R.IndicesOf, R.Supplied;
    R.RepliesSupply(stores, holders, world(loc).fromHolders);
    R.RepliesSupply(stores, members, world(loc).fromMembers);
  }

  /** A task panics exactly if it names no piece of the code, its store answers that the piece is not here, and
      the nodes that answer hold enough pieces of its key. */
  lemma PanicsIff(
    c: Codec, world: World, pieces: PieceStore.Contents, loc: Loc,
    stores: R.Stores, holders: set<Uri>, members: set<Uri>)
    requires R.RepliesFrom(stores, holders, world(loc).fromHolders)
    requires R.RepliesFrom(stores, members, world(loc).fromMembers)
    ensures EndingOf(c, world, pieces, loc) == Panicked <==>
            && c.n <= loc.index && !world(loc).existsFails && loc !in pieces
            && (c.k <= |R.Supplied(stores, holders)| || c.k <= |R.Supplied(stores, members)|)
  {
    hide R.RepliesFrom, R.IndicesOf, R.Supplied;
    R.RepliesSupply(stores, holders, world(loc).fromHolders);
    R.RepliesSupply(stores, members, world(loc).fromMembers);
  }

  /** What a flush that panicked has stored and queued of the executions it cut short. */
  lemma CutLeaves(
    c: Codec, data: Key -> seq<Bytes>, world: World, pieces: PieceStore.Contents, done: set<Loc>, cut: set<Loc>,
    loc: Loc)
    requires done !! cut && loc in cut && |c.encode(data(loc.key))| == c.n
    ensures loc in Restored(c, data, world, pieces, done + Putting(world, cut)) <==>
            && loc !in pieces && loc.index < c.n && EndingOf(c, world, pieces, loc) == Fine
            && (world(loc).cut == AfterPut || world(loc).cut == AfterQueue)
    ensures loc in Restored(c, data, world, pieces, done + Queueing(world, cut)) <==>
            && loc !in pieces && loc.index < c.n && EndingOf(c, world, pieces, loc) == Fine
            && world(loc).cut == AfterQueue
  {
  }

  /** A flush keeps the stabilizer's watch: whatever it adds has its key queued there. */
  lemma RestoringKeepsWatch(
    view: S.View, me: Uri, pieces: PieceStore.Contents, queue: set<Key>, added: PieceStore.Contents)
    requires S.Watched(view, me, pieces, queue)
    ensures S.Watched(view, me, pieces + added, queue + PieceStore.KeysOf(added))
  {
  }
}
