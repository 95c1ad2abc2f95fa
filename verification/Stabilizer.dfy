/** The stabilizer: moves every piece that belongs elsewhere to its holder. */
module Stabilizer {
  import opened Types
  import PieceStore

  /** A cluster map as the services use it: its version, the members, and the holder of every piece. */
  datatype View = View(version: nat, members: set<Uri>, holder: Loc -> Option<Uri>)

  /** How far a move has come when the others are no longer waited for. */
  datatype Cut = BeforeSend | AfterSend | AfterDelete

  /** What happens around one piece: the store fails to read or delete it, the answer to its send, and
      where it is cut short if another move ends the execution first. */
  datatype Luck = Luck(getFails: bool, reply: SendReply, deleteFails: bool, cut: Cut)

  type World = Loc -> Luck

  /** How one move ends. */
  function Answer(luck: Luck): SendReply {
    if luck.getFails then Failed else luck.reply
  }

  datatype Sent = Sent(to: Uri, message: SendPiece)

  predicate BelongsElsewhere(view: View, me: Uri, loc: Loc) {
    view.holder(loc).Some? && view.holder(loc) != Some(me)
  }

  /** The pieces of a key that belong to other nodes. */
  ghost function Elsewhere(view: View, me: Uri, key: Key, n: nat): set<Loc> {
    set i: nat | i < n && BelongsElsewhere(view, me, Loc(key, i)) :: Loc(key, i)
  }

  /** The pieces of several keys that belong to other nodes. */
  ghost function Outgoing(view: View, me: Uri, keys: set<Key>, n: nat): set<Loc> {
    set key, i: nat | key in keys && i < n && BelongsElsewhere(view, me, Loc(key, i)) :: Loc(key, i)
  }

  /** A piece that is here goes with its data, and one that is not goes as a request to rebuild it. */
  function MessageFor(view: View, pieces: PieceStore.Contents, loc: Loc): SendPiece {
    SendPiece(view.version, loc, if loc in pieces then Some(pieces[loc]) else None)
  }

  ghost function SentFor(view: View, pieces: PieceStore.Contents, world: World, moves: set<Loc>): set<Sent> {
    set loc | loc in moves && view.holder(loc).Some? && !world(loc).getFails ::
      Sent(view.holder(loc).value, MessageFor(view, pieces, loc))
  }

  /** The pieces that are gone once the given moves have come to their end: those that were accepted. */
  function Gone(pieces: PieceStore.Contents, world: World, moves: set<Loc>): set<Loc> {
    set loc | loc in moves && loc in pieces && Answer(world(loc)) == Accepted && !world(loc).deleteFails
  }

  /** Of the moves that are cut short, those that came as far as sending. */
  function Sending(world: World, cut: set<Loc>): set<Loc> {
    set loc | loc in cut && world(loc).cut != BeforeSend
  }

  /** Of the moves that are cut short, those whose delete was already under way. */
  function Deleting(world: World, cut: set<Loc>): set<Loc> {
    set loc | loc in cut && world(loc).cut == AfterDelete
  }

  /** How moves end together: all are accepted, or just one is not and the others are not waited for. */
  ghost predicate EndsAs(world: World, done: set<Loc>, r: SendReply) {
    if r == Accepted then forall loc | loc in done :: Answer(world(loc)) == Accepted
    else
      exists at | at in done ::
        && Answer(world(at)) == r
        && forall loc | loc in done && loc != at :: Answer(world(loc)) == Accepted
  }

  /** Which moves a flush of `queue` brings to their end, and which are cut short: those of a key of which a
      move fails, and all that are not finished when a move is rejected. */
  ghost predicate WorkedThrough(
    view: View, me: Uri, n: nat, world: World, queue: set<Key>, done: set<Loc>, cut: set<Loc>, rejected: bool)
  {
    && done !! cut && done + cut == Outgoing(view, me, queue, n)
    && (rejected <==> exists loc | loc in done :: Answer(world(loc)) == Rejected)
    && (rejected || forall loc | loc in cut :: loc.key in FailedKeys(world, done))
  }

  function FailedKeys(world: World, done: set<Loc>): set<Key> {
    set loc | loc in done && Answer(world(loc)) == Failed :: loc.key
  }

  /** What is left of the store when the moves of `done` have ended and those of `cut` were cut short. */
  function Left(pieces: PieceStore.Contents, world: World, done: set<Loc>, cut: set<Loc>): PieceStore.Contents {
    pieces - Gone(pieces, world, done + Deleting(world, cut))
  }

  class Stabilizer {
    const uri: Uri
    const n: nat
    const store: PieceStore.PieceMap
    var cluster: View
    var queue: set<Key>

    constructor (uri: Uri, n: nat, store: PieceStore.PieceMap, cluster: View)
      ensures this.uri == uri && this.n == n && this.store == store
      ensures this.cluster == cluster && queue == {}
    {
      this.uri, this.n, this.store, this.cluster := uri, n, store, cluster;
      queue := {};
    }

    method QueueTask(key: Key)
      modifies this`queue
      ensures queue == old(queue) + {key}
    {
      queue := queue + {key};
    }

    /** One move: get, send, and only when the send is accepted, delete. */
    method MovePiece(view: View, loc: Loc, world: World) returns (r: SendReply, sent: set<Sent>)
      requires BelongsElsewhere(view, uri, loc)
      modifies store
      ensures r == if world(loc).getFails then Failed else world(loc).reply
      ensures sent == SentFor(view, old(store.pieces), world, {loc})
      ensures store.pieces == old(store.pieces) - Gone(old(store.pieces), world, {loc})
    {
      if world(loc).getFails {
        return Failed, {};
      }
      var to := view.holder(loc).value;
      if loc in store.pieces {
        if to != uri {
          sent := {Sent(to, SendPiece(view.version, loc, Some(store.pieces[loc])))};
          r := world(loc).reply;
          if r == Accepted {
            store.Delete(loc, world(loc).deleteFails);
          }
        } else {
          assert false;
        }
      } else {
        sent := {Sent(to, SendPiece(view.version, loc, None))};
        r := world(loc).reply;
      }
    }

    /** What moves that are not waited for have done by then. Nobody hears how they end. */
    method CutShort(view: View, moves: set<Loc>, world: World) returns (sent: set<Sent>)
      requires forall loc | loc in moves :: BelongsElsewhere(view, uri, loc)
      modifies store
      ensures sent == SentFor(view, old(store.pieces), world, Sending(world, moves))
      ensures store.pieces == old(store.pieces) - Gone(old(store.pieces), world, Deleting(world, moves))
    {
      var left := moves;
      ghost var over: set<Loc> := {};
      sent := {};
      while left != {}
        invariant left <= moves && over == moves - left
        invariant sent == SentFor(view, old(store.pieces), world, Sending(world, over))
        invariant store.pieces == old(store.pieces) - Gone(old(store.pieces), world, Deleting(world, over))
      {
        var loc :| loc in left;
        left := left - {loc};
        CutOneMore(view, old(store.pieces), world, over, loc);
        over := over + {loc};
        match world(loc).cut {
          case BeforeSend =>
          case AfterSend =>
            if !world(loc).getFails {
              sent := sent + {Sent(view.holder(loc).value, MessageFor(view, store.pieces, loc))};
            }
          case AfterDelete =>
            var r, one := MovePiece(view, loc, world);
            sent := sent + one;
        }
      }
    }

    method Actions(view: View, key: Key) returns (actions: set<Loc>)
      ensures actions == Elsewhere(view, uri, key, n)
    {
      actions := {};
      for i := 0 to n
        invariant actions == Elsewhere(view, uri, key, i)
      {
        if BelongsElsewhere(view, uri, Loc(key, i)) {
          actions := actions + {Loc(key, i)};
        }
      }
    }

    /** All moves for a key, in any order. The first that is not accepted decides, and the rest are cut short. */
    method Exec(view: View, key: Key, world: World)
      returns (r: SendReply, sent: set<Sent>, ghost done: set<Loc>, ghost cut: set<Loc>)
      modifies store
      ensures done !! cut && done + cut == Elsewhere(view, uri, key, n) && EndsAs(world, done, r)
      ensures r == Accepted ==> cut == {}
      ensures sent == SentFor(view, old(store.pieces), world, done + Sending(world, cut))
      ensures store.pieces == Left(old(store.pieces), world, done, cut)
    {
      var left := Actions(view, key);
      ghost var all := left;
      done, cut, sent := {}, {}, {};
      while left != {}
        invariant left <= all && done == all - left
        invariant EndsAs(world, done, Accepted)
        invariant sent == SentFor(view, old(store.pieces), world, done)
        invariant store.pieces == old(store.pieces) - Gone(old(store.pieces), world, done)
      {
        var loc :| loc in left;
        left := left - {loc};
        MoreMoves(view, old(store.pieces), world, done, done, {loc}, {loc});
        var one;
        r, one := MovePiece(view, loc, world);
        sent := sent + one;
        done := done + {loc};
        if r != Accepted {
          cut := left;
          MoreMoves(view, old(store.pieces), world, done, done, Sending(world, cut), Deleting(world, cut));
          one := CutShort(view, left, world);
          sent := sent + one;
          return;
        }
      }
      r := Accepted;
      NoneCut(world, done);
    }

    /** All moves for several keys at once. */
    method AllActions(view: View, keys: set<Key>) returns (actions: set<Loc>)
      ensures actions == Outgoing(view, uri, keys, n)
    {
      actions := {};
      var left := keys;
      while left != {}
        invariant left <= keys && actions == Outgoing(view, uri, keys - left, n)
      {
        var key :| key in left;
        left := left - {key};
        var more := Actions(view, key);
        OutgoingMore(view, uri, keys - left - {key}, key, n);
        assert keys - left == (keys - left - {key}) + {key};
        actions := actions + more;
      }
      assert keys - left == keys;
    }

    /** Cuts every move for the given keys short. */
    method CutRest(view: View, keys: set<Key>, world: World) returns (sent: set<Sent>, ghost rest: set<Loc>)
      modifies store
      ensures rest == Outgoing(view, uri, keys, n)
      ensures sent == SentFor(view, old(store.pieces), world, {} + Sending(world, rest))
      ensures store.pieces == Left(old(store.pieces), world, {}, rest)
    {
      var moves := AllActions(view, keys);
      rest := moves;
      assert {} + Sending(world, rest) == Sending(world, rest) && {} + Deleting(world, rest) == Deleting(world, rest);
      sent := CutShort(view, moves, world);
    }

    /** Drains the queue and works through it in any order. `meanwhile` is what others queue while the moves
        are under way. A rejection ends the flush, cuts all other moves short, and nothing is queued again. */
    method FlushQueue(world: World, meanwhile: set<Key>)
      returns (rejected: bool, sent: set<Sent>, ghost done: set<Loc>, ghost cut: set<Loc>)
      modifies this`queue, store
      ensures WorkedThrough(cluster, uri, n, world, old(queue), done, cut, rejected)
      ensures sent == SentFor(cluster, old(store.pieces), world, done + Sending(world, cut))
      ensures store.pieces == Left(old(store.pieces), world, done, cut)
      ensures queue == meanwhile + if rejected then {} else FailedKeys(world, done)
    {
      hide Elsewhere, Outgoing, SentFor, Left, Sending, Deleting, FailedKeys, EndsAs, WorkedThrough, Progress;
      var left := queue;
      queue := {};
      var view := cluster;
      queue := queue + meanwhile;
      var failed := {};
      done, cut, sent, rejected := {}, {}, {}, false;
      ghost var keys: set<Key>, before := {}, store.pieces;
      NothingMoved(view, uri, n, before, world);
      while left != {}
        invariant left <= old(queue) && keys == old(queue) - left && queue == meanwhile
        invariant Progress(view, uri, n, world, keys, done, cut, failed)
        invariant sent == SentFor(view, before, world, done + Sending(world, cut))
        invariant store.pieces == Left(before, world, done, cut)
      {
        var key :| key in left;
        left := left - {key};
        var r, one, now, off := Exec(view, key, world);
        KeysAreApart(view, uri, n, world, keys, done, cut, failed, key, now, off);
        MovesAdd(view, before, world, done, cut, now, off);
        OutgoingMore(view, uri, keys, key, n);
        sent := sent + one;
        if r == Rejected {
          var more, rest := CutRest(view, left, world);
          RestIsApart(view, uri, n, keys + {key}, left);
          MovesAdd(view, before, world, done + now, cut + off, {}, rest);
          assert done + now + {} == done + now;
          RejectedEnds(view, uri, n, world, keys, done, cut, failed, key, now, off, left, rest);
          assert keys + {key} + left == old(queue);
          return true, sent + more, done + now, cut + off + rest;
        }
        KeyDone(view, uri, n, world, keys, done, cut, failed, key, now, off, r);
        if r == Failed {
          failed := failed + {key};
        }
        done, cut, keys := done + now, cut + off, keys + {key};
      }
      assert keys == old(queue);
      AllDone(view, uri, n, world, keys, done, cut, failed);
      queue := queue + failed;
    }

    /** The map is replaced at once. Reading the stored keys may fail, and then the queue is left alone.
        `meanwhile` is what is stored and queued after the keys were read and before the queue is overwritten. */
    method SetNewCluster(cluster: View, keysFail: bool, meanwhile: PieceStore.Contents) returns (ok: bool)
      modifies this`cluster, this`queue, store
      ensures this.cluster == cluster && ok == !keysFail
      ensures !ok ==> queue == old(queue) && store.pieces == old(store.pieces)
      ensures ok ==> queue == PieceStore.KeysOf(old(store.pieces)) && store.pieces == old(store.pieces) + meanwhile
    {
      this.cluster := cluster;
      if keysFail {
        return false;
      }
      var keys := PieceStore.KeysOf(store.pieces);
      store.pieces := store.pieces + meanwhile;
      queue := queue + PieceStore.KeysOf(meanwhile);
      queue := keys;
      ok := true;
    }
  }

  // ----- a flush, key by key -----

  /** How far a flush has come that no rejection has ended. */
  ghost predicate Progress(
    view: View, me: Uri, n: nat, world: World, keys: set<Key>, done: set<Loc>, cut: set<Loc>, failed: set<Key>)
  {
    && done !! cut && done + cut == Outgoing(view, me, keys, n)
    && failed == FailedKeys(world, done)
    && (forall loc | loc in done :: Answer(world(loc)) != Rejected)
    && (forall loc | loc in cut :: loc.key in failed)
  }

  lemma NothingMoved(view: View, me: Uri, n: nat, pieces: PieceStore.Contents, world: World)
    ensures Progress(view, me, n, world, {}, {}, {}, {})
    ensures SentFor(view, pieces, world, {} + Sending(world, {})) == {}
    ensures Left(pieces, world, {}, {}) == pieces
  {
  }

  lemma NoneCut(world: World, done: set<Loc>)
    ensures done + Sending(world, {}) == done && done + Deleting(world, {}) == done
  {
  }

  lemma OutgoingMore(view: View, me: Uri, keys: set<Key>, key: Key, n: nat)
    ensures Outgoing(view, me, keys + {key}, n) == Outgoing(view, me, keys, n) + Elsewhere(view, me, key, n)
  {
  }

  lemma RestIsApart(view: View, me: Uri, n: nat, keys: set<Key>, rest: set<Key>)
    requires keys !! rest
    ensures Outgoing(view, me, keys, n) !! Outgoing(view, me, rest, n)
    ensures Outgoing(view, me, keys + rest, n) == Outgoing(view, me, keys, n) + Outgoing(view, me, rest, n)
    ensures forall loc | loc in Outgoing(view, me, rest, n) :: BelongsElsewhere(view, me, loc)
  {
  }

  /** Moves of other pieces first make no difference to what is sent, nor to what goes. */
  lemma MoreMoves(
    view: View, pieces: PieceStore.Contents, world: World,
    sent: set<Loc>, gone: set<Loc>, sendNow: set<Loc>, goNow: set<Loc>)
    requires gone !! sendNow
    ensures var before := pieces - Gone(pieces, world, gone);
            && SentFor(view, pieces, world, sent + sendNow) ==
               SentFor(view, pieces, world, sent) + SentFor(view, before, world, sendNow)
            && pieces - Gone(pieces, world, gone + goNow) == before - Gone(before, world, goNow)
  {
    var before := pieces - Gone(pieces, world, gone);
    assert forall loc | loc in sendNow :: MessageFor(view, pieces, loc) == MessageFor(view, before, loc);
  }

  lemma MovesAdd(
    view: View, pieces: PieceStore.Contents, world: World,
    done: set<Loc>, cut: set<Loc>, now: set<Loc>, off: set<Loc>)
    requires done + cut !! now + off
    ensures var before := Left(pieces, world, done, cut);
            && SentFor(view, pieces, world, (done + now) + Sending(world, cut + off)) ==
               SentFor(view, pieces, world, done + Sending(world, cut)) +
               SentFor(view, before, world, now + Sending(world, off))
            && Left(pieces, world, done + now, cut + off) == Left(before, world, now, off)
  {
    hide SentFor, Gone;
    MoreMoves(view, pieces, world, done + Sending(world, cut), done + Deleting(world, cut),
              now + Sending(world, off), now + Deleting(world, off));
    assert (done + now) + Sending(world, cut + off) == (done + Sending(world, cut)) + (now + Sending(world, off));
    assert (done + now) + Deleting(world, cut + off) == (done + Deleting(world, cut)) + (now + Deleting(world, off));
  }

  lemma CutOneMore(view: View, pieces: PieceStore.Contents, world: World, over: set<Loc>, loc: Loc)
    requires loc !in over && view.holder(loc).Some?
    ensures var before := pieces - Gone(pieces, world, Deleting(world, over));
            var sends := if world(loc).cut != BeforeSend then {loc} else {};
            var deletes := if world(loc).cut == AfterDelete then {loc} else {};
            && SentFor(view, pieces, world, Sending(world, over + {loc})) ==
               SentFor(view, pieces, world, Sending(world, over)) + SentFor(view, before, world, sends)
            && pieces - Gone(pieces, world, Deleting(world, over + {loc})) == before - Gone(before, world, deletes)
    ensures Gone(pieces - Gone(pieces, world, Deleting(world, over)), world, {}) == {}
    ensures SentFor(view, pieces - Gone(pieces, world, Deleting(world, over)), world, {}) == {}
    ensures SentFor(view, pieces - Gone(pieces, world, Deleting(world, over)), world, {loc}) ==
            if world(loc).getFails then {}
            else {Sent(view.holder(loc).value,
                       MessageFor(view, pieces - Gone(pieces, world, Deleting(world, over)), loc))}
  {
    var sends := if world(loc).cut != BeforeSend then {loc} else {};
    var deletes := if world(loc).cut == AfterDelete then {loc} else {};
    MoreMoves(view, pieces, world, Sending(world, over), Deleting(world, over), sends, deletes);
    assert Sending(world, over + {loc}) == Sending(world, over) + sends;
    assert Deleting(world, over + {loc}) == Deleting(world, over) + deletes;
  }

  /** The moves of a key are not among those of the others. */
  lemma KeysAreApart(
    view: View, me: Uri, n: nat, world: World, keys: set<Key>, done: set<Loc>, cut: set<Loc>, failed: set<Key>,
    key: Key, now: set<Loc>, off: set<Loc>)
    requires Progress(view, me, n, world, keys, done, cut, failed) && key !in keys
    requires now + off == Elsewhere(view, me, key, n)
    ensures done + cut == Outgoing(view, me, keys, n) && done + cut !! now + off
    ensures forall loc | loc in now + off :: loc.key == key
  {
  }

  lemma FailedOneMore(world: World, done: set<Loc>, now: set<Loc>, key: Key, r: SendReply)
    requires (forall loc | loc in now :: loc.key == key) && EndsAs(world, now, r)
    ensures FailedKeys(world, done + now) == FailedKeys(world, done) + if r == Failed then {key} else {}
  {
  }

  lemma KeyDone(
    view: View, me: Uri, n: nat, world: World, keys: set<Key>, done: set<Loc>, cut: set<Loc>, failed: set<Key>,
    key: Key, now: set<Loc>, off: set<Loc>, r: SendReply)
    requires Progress(view, me, n, world, keys, done, cut, failed) && key !in keys
    requires now !! off && now + off == Elsewhere(view, me, key, n)
    requires EndsAs(world, now, r) && r != Rejected && (r == Accepted ==> off == {})
    ensures Progress(view, me, n, world, keys + {key}, done + now, cut + off,
                     if r == Failed then failed + {key} else failed)
  {
    hide Outgoing, Elsewhere, FailedKeys;
    KeysAreApart(view, me, n, world, keys, done, cut, failed, key, now, off);
    OutgoingMore(view, me, keys, key, n);
    FailedOneMore(world, done, now, key, r);
    assert r != Failed ==> failed + {} == failed;
  }

  lemma RejectedEnds(
    view: View, me: Uri, n: nat, world: World, keys: set<Key>, done: set<Loc>, cut: set<Loc>, failed: set<Key>,
    key: Key, now: set<Loc>, off: set<Loc>, left: set<Key>, rest: set<Loc>)
    requires Progress(view, me, n, world, keys, done, cut, failed) && key !in keys && keys + {key} !! left
    requires now !! off && now + off == Elsewhere(view, me, key, n) && EndsAs(world, now, Rejected)
    requires rest == Outgoing(view, me, left, n)
    ensures WorkedThrough(view, me, n, world, keys + {key} + left, done + now, cut + off + rest, true)
  {
    hide Outgoing, Elsewhere, FailedKeys;
    KeysAreApart(view, me, n, world, keys, done, cut, failed, key, now, off);
    OutgoingMore(view, me, keys, key, n);
    RestIsApart(view, me, n, keys + {key}, left);
  }

  lemma AllDone(
    view: View, me: Uri, n: nat, world: World, keys: set<Key>, done: set<Loc>, cut: set<Loc>, failed: set<Key>)
    requires Progress(view, me, n, world, keys, done, cut, failed)
    ensures WorkedThrough(view, me, n, world, keys, done, cut, false) && failed == FailedKeys(world, done)
  {
  }

  // ----- what goes -----

  /** A piece goes from the store exactly if it was sent, with its data, to the other node that holds it,
      which accepted, and its deletion was come to and worked. */
  lemma GoesIffAccepted(
    view: View, me: Uri, n: nat, world: World, pieces: PieceStore.Contents,
    queue: set<Key>, done: set<Loc>, cut: set<Loc>, rejected: bool, loc: Loc)
    requires WorkedThrough(view, me, n, world, queue, done, cut, rejected)
    ensures loc in pieces && loc !in Left(pieces, world, done, cut) <==>
            && loc in pieces && view.holder(loc).Some? && view.holder(loc) != Some(me)
            && Sent(view.holder(loc).value, SendPiece(view.version, loc, Some(pieces[loc])))
               in SentFor(view, pieces, world, done + Sending(world, cut))
            && world(loc).reply == Accepted && !world(loc).deleteFails
            && (loc in cut ==> world(loc).cut == AfterDelete)
  {
    forall at | at in done + cut && MessageFor(view, pieces, at).loc == loc ensures at == loc {
    }
  }

  // ----- which pieces are watched -----

  /** Every stored piece that belongs elsewhere has its key queued. */
  ghost predicate Watched(view: View, me: Uri, pieces: PieceStore.Contents, queue: set<Key>) {
    forall loc | loc in pieces && BelongsElsewhere(view, me, loc) :: loc.key in queue
  }

  lemma FailedIff(
    view: View, me: Uri, n: nat, world: World, queue: set<Key>, done: set<Loc>, cut: set<Loc>, key: Key)
    requires WorkedThrough(view, me, n, world, queue, done, cut, false) && key in queue
    ensures key in FailedKeys(world, done) <==>
            exists at :: at in Elsewhere(view, me, key, n) && Answer(world(at)) != Accepted
    ensures key !in FailedKeys(world, done) ==> Elsewhere(view, me, key, n) <= done
  {
    assert forall at | at in Elsewhere(view, me, key, n) :: at in Outgoing(view, me, queue, n) && at.key == key;
    if key in FailedKeys(world, done) {
      var at :| at in done && Answer(world(at)) == Failed && at.key == key;
      assert at in Outgoing(view, me, queue, n);
      assert at == Loc(key, at.index) && at in Elsewhere(view, me, key, n);
    }
  }

  /** A flush that is not rejected stops watching a piece that still belongs elsewhere exactly if every move
      of its key is accepted, the piece's own deletion fails, and nobody queues the key in the meantime. */
  lemma FlushForgetsIff(
    view: View, me: Uri, n: nat, world: World, pieces: PieceStore.Contents,
    queue: set<Key>, meanwhile: set<Key>, done: set<Loc>, cut: set<Loc>, loc: Loc)
    requires WorkedThrough(view, me, n, world, queue, done, cut, false) && Watched(view, me, pieces, queue)
    requires loc in pieces && loc.index < n && BelongsElsewhere(view, me, loc)
    ensures loc in Left(pieces, world, done, cut) && loc.key !in meanwhile + FailedKeys(world, done) <==>
            && loc.key !in meanwhile && world(loc).deleteFails
            && forall at | at in Elsewhere(view, me, loc.key, n) :: Answer(world(at)) == Accepted
  {
    FailedIff(view, me, n, world, queue, done, cut, loc.key);
    assert loc == Loc(loc.key, loc.index) && loc in Elsewhere(view, me, loc.key, n);
  }

  /** So it keeps the whole watch exactly if every misplaced piece has its key queued meanwhile, can be
      deleted, or shares its key with a move that is not accepted; deletes that succeed are enough. */
  lemma FlushKeepsWatchIff(
    view: View, me: Uri, n: nat, world: World, pieces: PieceStore.Contents,
    queue: set<Key>, meanwhile: set<Key>, done: set<Loc>, cut: set<Loc>)
    requires WorkedThrough(view, me, n, world, queue, done, cut, false) && Watched(view, me, pieces, queue)
    requires forall loc | loc in pieces :: loc.index < n
    ensures Watched(view, me, Left(pieces, world, done, cut), meanwhile + FailedKeys(world, done)) <==>
            forall loc | loc in pieces && BelongsElsewhere(view, me, loc) ::
              || loc.key in meanwhile || !world(loc).deleteFails
              || exists at :: at in Elsewhere(view, me, loc.key, n) && Answer(world(at)) != Accepted
  {
    hide WorkedThrough, Left, FailedKeys, Elsewhere, Answer;
    LeftIsPart(pieces, world, done, cut);
    forall loc | loc in pieces && BelongsElsewhere(view, me, loc)
      ensures loc in Left(pieces, world, done, cut) && loc.key !in meanwhile + FailedKeys(world, done) <==>
              !(|| loc.key in meanwhile || !world(loc).deleteFails
                || exists at :: at in Elsewhere(view, me, loc.key, n) && Answer(world(at)) != Accepted)
    {
      FlushForgetsIff(view, me, n, world, pieces, queue, meanwhile, done, cut, loc);
    }
  }

  lemma LeftIsPart(pieces: PieceStore.Contents, world: World, done: set<Loc>, cut: set<Loc>)
    ensures forall loc | loc in Left(pieces, world, done, cut) :: loc in pieces
  {
  }

  ghost predicate MayBeRejected(view: View, me: Uri, n: nat, world: World, queue: set<Key>) {
    exists done, cut :: WorkedThrough(view, me, n, world, queue, done, cut, true)
  }

  /** A flush may end in a rejection exactly if one of its moves is read and then rejected by its receiver. */
  lemma MayBeRejectedIff(view: View, me: Uri, n: nat, world: World, queue: set<Key>)
    ensures MayBeRejected(view, me, n, world, queue) <==>
            exists loc ::
              loc in Outgoing(view, me, queue, n) && !world(loc).getFails && world(loc).reply == Rejected
  {
    hide Outgoing;
    var all := Outgoing(view, me, queue, n);
    if loc :| loc in all && Answer(world(loc)) == Rejected {
      assert {loc} + (all - {loc}) == all;
      assert WorkedThrough(view, me, n, world, queue, {loc}, all - {loc}, true);
    }
  }

  /** When no receiver rejects, exactly those keys are queued again of which a move cannot be read or its send
      fails. */
  lemma QueuedAgainIff(
    view: View, me: Uri, n: nat, world: World, queue: set<Key>, done: set<Loc>, cut: set<Loc>, rejected: bool)
    requires WorkedThrough(view, me, n, world, queue, done, cut, rejected)
    requires forall loc | loc in Outgoing(view, me, queue, n) :: world(loc).getFails || world(loc).reply != Rejected
    ensures !rejected
    ensures forall key :: key in FailedKeys(world, done) <==>
              exists loc ::
                && loc in Outgoing(view, me, queue, n) && loc.key == key
                && (world(loc).getFails || world(loc).reply == Failed)
  {
    forall loc | loc in Outgoing(view, me, queue, n) && (world(loc).getFails || world(loc).reply == Failed)
      ensures loc.key in FailedKeys(world, done)
    {
      assert loc in done || loc in cut;
    }
  }

  /** A message leaves exactly for the pieces of queued keys that belong elsewhere, can be read, and are not cut
      short before they are sent. */
  lemma SentIff(
    view: View, me: Uri, n: nat, world: World, pieces: PieceStore.Contents,
    queue: set<Key>, done: set<Loc>, cut: set<Loc>, rejected: bool, loc: Loc)
    requires WorkedThrough(view, me, n, world, queue, done, cut, rejected)
    ensures (exists s :: s in SentFor(view, pieces, world, done + Sending(world, cut)) && s.message.loc == loc) <==>
            && loc.key in queue && loc.index < n && view.holder(loc).Some? && view.holder(loc) != Some(me)
            && !world(loc).getFails && (loc in cut ==> world(loc).cut == AfterSend || world(loc).cut == AfterDelete)
  {
    assert loc == Loc(loc.key, loc.index);
    if loc in done + Sending(world, cut) && view.holder(loc).Some? && !world(loc).getFails {
      assert Sent(view.holder(loc).value, MessageFor(view, pieces, loc))
             in SentFor(view, pieces, world, done + Sending(world, cut));
    }
  }

  const HERE := Uri("a")
  const THERE := Uri("b")
  const ONE := Loc("k", 0)
  const STORED: PieceStore.Contents := map[ONE := []]
  const AWAY := View(1, {}, _ => Some(THERE))
  const AT_HOME := View(1, {}, _ => Some(HERE))
  const UNDELETED: World := _ => Luck(false, Accepted, true, BeforeSend)

  /** One node holds one piece that belongs to another, whose only move is accepted but cannot be deleted. */
  lemma FlushForgetsOne(done: set<Loc>, cut: set<Loc>, rejected: bool)
    requires WorkedThrough(AWAY, HERE, 1, UNDELETED, {ONE.key}, done, cut, rejected)
    ensures !rejected && Watched(AWAY, HERE, STORED, {ONE.key})
    ensures !Watched(AWAY, HERE, Left(STORED, UNDELETED, done, cut), FailedKeys(UNDELETED, done))
  {
    Apart();
    assert BelongsElsewhere(AWAY, HERE, ONE);
    assert ONE in STORED;
  }

  lemma Apart()
    ensures HERE != THERE
  {
    assert HERE.text[0] != THERE.text[0];
  }

  /** Replacing the queue by the keys that were read keeps the watch under the new map exactly if every piece
      that came in between and belongs elsewhere is of a key that had been read. */
  lemma ReplacingKeepsWatchIff(view: View, me: Uri, pieces: PieceStore.Contents, meanwhile: PieceStore.Contents)
    ensures Watched(view, me, pieces + meanwhile, PieceStore.KeysOf(pieces)) <==>
            forall loc | loc in meanwhile && BelongsElsewhere(view, me, loc) :: loc.key in PieceStore.KeysOf(pieces)
  {
    forall loc | loc in pieces ensures loc.key in PieceStore.KeysOf(pieces) {
    }
    forall loc | loc in meanwhile ensures loc in pieces + meanwhile {
    }
  }

  /** A piece stored between the read and the replacement, the first of its key. */
  lemma ReplacingForgetsOne()
    ensures !Watched(AWAY, HERE, map[] + STORED, PieceStore.KeysOf(map[]))
  {
    Apart();
    assert ONE in STORED && BelongsElsewhere(AWAY, HERE, ONE);
    ReplacingKeepsWatchIff(AWAY, HERE, map[], STORED);
    assert ONE.key !in PieceStore.KeysOf(map[]);
  }

  /** When the keys cannot be read the new map is in force with the old queue. What was watched stays so
      exactly if every piece that only the new map places elsewhere already has its key queued. */
  lemma UnreadKeepsWatchIff(before: View, view: View, me: Uri, pieces: PieceStore.Contents, queue: set<Key>)
    requires Watched(before, me, pieces, queue)
    ensures Watched(view, me, pieces, queue) <==>
            forall loc | loc in pieces && BelongsElsewhere(view, me, loc) && !BelongsElsewhere(before, me, loc) ::
              loc.key in queue
  {
  }

  /** A node whose only piece is moved away by the new map, of which it queues nothing. */
  lemma UnreadForgetsOne()
    ensures Watched(AT_HOME, HERE, STORED, {})
    ensures !Watched(AWAY, HERE, STORED, {})
  {
    Apart();
    assert ONE in STORED && BelongsElsewhere(AWAY, HERE, ONE);
  }
}
