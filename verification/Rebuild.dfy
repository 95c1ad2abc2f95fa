/** Collecting pieces from other nodes until the code can restore the rest. */
module Rebuild {
  import opened Types
  import opened Codec

  /** What one request for any pieces of the key comes back with. */
  datatype Reply = TimedOut | Errored | Pieces(pieces: seq<(nat, Bytes)>)

  datatype RebuildError = NotEnoughWithoutBroadcast | DataIsLost

  /** The distinct indices that a series of replies supplies. */
  function IndicesOf(replies: seq<Reply>): set<nat> {
    set r, p | r in replies && r.Pieces? && p in r.pieces :: p.0
  }

  function PieceIndices(pieces: seq<(nat, Bytes)>): set<nat> {
    set p | p in pieces :: p.0
  }

  /** Every piece in the replies is the shard of `d` that its index names. */
  ghost predicate GenuinePieces(c: Codec, pieces: seq<(nat, Bytes)>, d: seq<Bytes>) {
    |c.encode(d)| == c.n && forall p | p in pieces :: p.0 < c.n && p.1 == c.encode(d)[p.0]
  }

  ghost predicate GenuineReplies(c: Codec, replies: seq<Reply>, d: seq<Bytes>) {
    forall r | r in replies && r.Pieces? :: GenuinePieces(c, r.pieces, d)
  }

  /** The inner loop over one reply: a slot keeps the first piece it gets, and is counted once. */
  method AddPieces(c: Codec, slots: seq<Option<Bytes>>, found: nat, pieces: seq<(nat, Bytes)>, ghost d: seq<Bytes>)
    returns (data: seq<Option<Bytes>>, nFound: nat)
    requires c.Genuine(slots, d) && GenuinePieces(c, pieces, d)
    requires found == Filled(slots)
    ensures c.Genuine(data, d)
    ensures FilledSet(data) == FilledSet(slots) + PieceIndices(pieces)
    ensures nFound == Filled(data)
  {
    hide FilledSet, Filled, PieceIndices;
    data, nFound := slots, found;
    NoPieces(pieces);
    for j := 0 to |pieces|
      invariant c.Genuine(data, d)
      invariant FilledSet(data) == FilledSet(slots) + PieceIndices(pieces[..j])
      invariant nFound == Filled(data)
    {
      var (i, piece) := pieces[j];
      assert pieces[j] in pieces;
      NextPiece(pieces, j);
      FillSlot(data, i, piece);
      if data[i] == None {
        data := data[i := Some(piece)];
        nFound := nFound + 1;
      }
    }
    assert pieces[..|pieces|] == pieces;
  }

  lemma NoPieces(pieces: seq<(nat, Bytes)>)
    ensures PieceIndices(pieces[..0]) == {}
  {
  }

  lemma NextPiece(pieces: seq<(nat, Bytes)>, j: nat)
    requires j < |pieces|
    ensures PieceIndices(pieces[..j + 1]) == PieceIndices(pieces[..j]) + {pieces[j].0}
  {
    assert pieces[..j + 1] == pieces[..j] + [pieces[j]];
  }

  lemma FillSlot(data: seq<Option<Bytes>>, i: nat, piece: Bytes)
    requires i < |data|
    ensures FilledSet(data[i := Some(piece)]) == FilledSet(data) + {i}
    ensures data[i].None? ==> Filled(data[i := Some(piece)]) == Filled(data) + 1
    ensures data[i].Some? ==> FilledSet(data) + {i} == FilledSet(data)
  {
    assert FilledSet(data[i := Some(piece)]) == FilledSet(data) + {i};
  }

  /** Reconstructs in place, drops the parity slots unless they are wanted, and unwraps the rest. */
  method Restore(c: Codec, slots: seq<Option<Bytes>>, withParity: bool, ghost d: seq<Bytes>)
    returns (out: seq<Bytes>)
    requires c.Valid() && c.IsData(d) && c.Genuine(slots, d) && c.k <= Filled(slots)
    ensures out == if withParity then c.encode(d) else d
  {
    var all := c.reconstruct(slots);
    assert all == c.encode(d);
    var data: seq<Option<Bytes>>;
    if withParity {
      data := seq(|all|, i requires 0 <= i < |all| => Some(all[i]));
    } else {
      data := seq(c.k, i requires 0 <= i < |all| => Some(all[i])) + slots[c.k..];
      for t := 0 to c.n - c.k
        invariant |data| == c.n - t
        invariant forall i | 0 <= i < c.k :: data[i] == Some(all[i])
      {
        data := data[..|data| - 1];
      }
    }
    out := [];
    for i := 0 to |data|
      invariant |out| == i
      invariant forall j | 0 <= j < i :: out[j] == all[j]
    {
      out := out + [data[i].value];
    }
    assert withParity ==> out == all;
    assert !withParity ==> out == all[..c.k];
  }

  lemma PrefixIndices(replies: seq<Reply>, j: nat)
    requires j < |replies|
    ensures IndicesOf(replies[..j + 1]) ==
            IndicesOf(replies[..j]) + (if replies[j].Pieces? then PieceIndices(replies[j].pieces) else {})
    ensures IndicesOf(replies[..j + 1]) <= IndicesOf(replies)
  {
    assert replies[..j + 1] == replies[..j] + [replies[j]];
  }

  /** One round of requests: returns at the first reply that makes the pieces suffice. */
  method Collect(c: Codec, replies: seq<Reply>, withParity: bool, ghost d: seq<Bytes>)
    returns (r: Option<seq<Bytes>>)
    requires c.Valid() && c.IsData(d) && GenuineReplies(c, replies, d)
    ensures r.Some? <==> c.k <= |IndicesOf(replies)|
    ensures r.Some? ==> r.value == if withParity then c.encode(d) else d
  {
    var data: seq<Option<Bytes>> := seq(c.n, _ => None);
    var nFound := 0;
    assert FilledSet(data) == {};
    for j := 0 to |replies|
      invariant c.Genuine(data, d)
      invariant nFound == Filled(data) < c.k
      invariant FilledSet(data) == IndicesOf(replies[..j])
    {
      assert replies[j] in replies;
      PrefixIndices(replies, j);
      if replies[j].Pieces? {
        data, nFound := AddPieces(c, data, nFound, replies[j].pieces, d);
        if nFound >= c.k {
          SubsetSize(FilledSet(data), IndicesOf(replies));
          var out := Restore(c, data, withParity, d);
          return Some(out);
        }
      }
    }
    assert replies[..|replies|] == replies;
    r := None;
  }

  /** What a rebuild comes to: it depends on the sets of indices supplied and on nothing else. */
  function Outcome(
    c: Codec, d: seq<Bytes>, fromHolders: seq<Reply>, fromMembers: seq<Reply>, withParity: bool, broadcast: bool)
    : Result<seq<Bytes>, RebuildError>
  {
    if c.k <= |IndicesOf(fromHolders)| || (broadcast && c.k <= |IndicesOf(fromMembers)|) then
      Ok(if withParity then c.encode(d) else d)
    else Err(if broadcast then DataIsLost else NotEnoughWithoutBroadcast)
  }

  /** First the holders, then, if allowed, every member. The replies are in the order they arrived. */
  method Rebuild(
    c: Codec, fromHolders: seq<Reply>, fromMembers: seq<Reply>, withParity: bool, broadcast: bool,
    ghost d: seq<Bytes>)
    returns (r: Result<seq<Bytes>, RebuildError>)
    requires c.Valid() && c.IsData(d)
    requires GenuineReplies(c, fromHolders, d) && GenuineReplies(c, fromMembers, d)
    ensures r == Outcome(c, d, fromHolders, fromMembers, withParity, broadcast)
  {
    var first := Collect(c, fromHolders, withParity, d);
    if first.Some? {
      return Ok(first.value);
    }
    if !broadcast {
      return Err(NotEnoughWithoutBroadcast);
    }
    var second := Collect(c, fromMembers, withParity, d);
    if second.Some? {
      return Ok(second.value);
    }
    r := Err(DataIsLost);
  }

  /** The order in which replies arrive, and repeated replies, change nothing. */
  lemma OrderDoesNotMatter(
    c: Codec, d: seq<Bytes>, h1: seq<Reply>, h2: seq<Reply>, m1: seq<Reply>, m2: seq<Reply>,
    withParity: bool, broadcast: bool)
    requires forall r :: r in h1 <==> r in h2
    requires forall r :: r in m1 <==> r in m2
    ensures Outcome(c, d, h1, m1, withParity, broadcast) == Outcome(c, d, h2, m2, withParity, broadcast)
  {
    assert IndicesOf(h1) == IndicesOf(h2);
    assert IndicesOf(m1) == IndicesOf(m2);
  }

  /** Without broadcast only the holders count, and failing is not a loss of data. */
  lemma WithoutBroadcast(
    c: Codec, d: seq<Bytes>, stores: Stores, holders: set<Uri>, fromHolders: seq<Reply>, fromMembers: seq<Reply>,
    withParity: bool)
    requires RepliesFrom(stores, holders, fromHolders)
    ensures Outcome(c, d, fromHolders, fromMembers, withParity, false) ==
            if |Supplied(stores, holders)| < c.k then Err(NotEnoughWithoutBroadcast)
            else Ok(if withParity then c.encode(d) else d)
  {
    RepliesSupply(stores, holders, fromHolders);
  }

  /** The pieces of one key on every node. */
  type Stores = map<Uri, seq<(nat, Bytes)>>

  function Supplied(stores: Stores, answering: set<Uri>): set<nat> {
    set u, p | u in answering && u in stores && p in stores[u] :: p.0
  }

  /** The replies of a round in which exactly the nodes of `answering` answer, each with all it has. */
  ghost predicate RepliesFrom(stores: Stores, answering: set<Uri>, replies: seq<Reply>) {
    && (forall r | r in replies && r.Pieces? :: exists u :: u in answering && u in stores && stores[u] == r.pieces)
    && (forall u | u in answering && u in stores :: Reply.Pieces(stores[u]) in replies)
  }

  /** Such replies can always come: one from each of the nodes. */
  lemma {:induction false} RepliesExist(stores: Stores, answering: set<Uri>) returns (replies: seq<Reply>)
    ensures RepliesFrom(stores, answering, replies)
    decreases answering
  {
    replies := [];
    if answering != {} {
      var u :| u in answering;
      replies := RepliesExist(stores, answering - {u});
      if u in stores {
        replies := replies + [Reply.Pieces(stores[u])];
      }
    }
  }

  lemma RepliesSupply(stores: Stores, answering: set<Uri>, replies: seq<Reply>)
    requires RepliesFrom(stores, answering, replies)
    ensures IndicesOf(replies) == Supplied(stores, answering)
  {
    forall i | i in Supplied(stores, answering) ensures i in IndicesOf(replies) {
      var u, p :| u in answering && u in stores && p in stores[u] && p.0 == i;
      var r := Reply.Pieces(stores[u]);
      assert r in replies && p in r.pieces;
    }
    forall i | i in IndicesOf(replies) ensures i in Supplied(stores, answering) {
      var r, p :| r in replies && r.Pieces? && p in r.pieces && p.0 == i;
      var u :| u in answering && u in stores && stores[u] == r.pieces;
    }
  }

  /** With broadcast, data is reported lost if and only if neither round supplied `k` distinct pieces; as
      long as the holders that answered answer again, that is: fewer than `k` on answering members. In
      every other case the one true list of shards is returned. */
  lemma LostIffTooFew(
    c: Codec, d: seq<Bytes>, stores: Stores, holders: set<Uri>, members: set<Uri>,
    fromHolders: seq<Reply>, fromMembers: seq<Reply>, withParity: bool)
    requires RepliesFrom(stores, holders, fromHolders) && RepliesFrom(stores, members, fromMembers)
    ensures Outcome(c, d, fromHolders, fromMembers, withParity, true) ==
            if |Supplied(stores, holders)| < c.k && |Supplied(stores, members)| < c.k then Err(DataIsLost)
            else Ok(if withParity then c.encode(d) else d)
    ensures holders <= members ==>
              (Outcome(c, d, fromHolders, fromMembers, withParity, true) == Err(DataIsLost) <==>
               |Supplied(stores, members)| < c.k)
  {
    RepliesSupply(stores, holders, fromHolders);
    RepliesSupply(stores, members, fromMembers);
    if holders <= members {
      SubsetSize(Supplied(stores, holders), Supplied(stores, members));
    }
  }
}
