/** Writing a value as pieces, reading it back, and counting what is missing. */
module IoFront {
  import opened Types
  import opened Codec
  import R = Rebuild

  datatype Envelope = Envelope(to: Uri, piece: SendPiece)

  /** What is sent for index `i`: its shard to its holder, or nothing when there is no holder. */
  function SendFor(
    c: Codec, key: Key, value: Bytes, version: nat, holders: seq<Option<Uri>>, i: nat): Option<Envelope>
    requires 0 < c.k && i < |holders| && i < |Pieces(c, value)|
  {
    if holders[i].None? then None
    else Some(Envelope(holders[i].value, SendPiece(version, Loc(key, i), Some(Pieces(c, value)[i]))))
  }

  function Reversed<A>(s: seq<A>): (r: seq<A>)
    ensures |r| == |s| && forall i | 0 <= i < |s| :: r[i] == s[|s| - 1 - i]
  {
    if s == [] then [] else Reversed(s[1..]) + [s[0]]
  }

  /** The indices whose send was acknowledged. */
  function Acked(holders: seq<Option<Uri>>, acks: seq<bool>): set<nat> {
    set i: nat | i < |holders| && i < |acks| && holders[i].Some? && acks[i]
  }

  /** Cuts the value into its data shards. */
  method Cut(value: Bytes, k: nat) returns (data: seq<Bytes>)
    requires 0 < k
    ensures data == Split(value, k)
  {
    data := [];
    for i := 0 to k
      invariant |data| == i
      invariant forall j | 0 <= j < i :: data[j] == Shard(value, k, j)
    {
      var plen := |value| / k;
      ShardBounds(|value|, k, i);
      data := data + [value[i * plen..(i + 1) * plen]];
    }
  }

  /** Encodes the data shards and lines all pieces up so that they pop in index order. */
  method PieceStack(c: Codec, value: Bytes) returns (stack: seq<Bytes>)
    requires c.Valid()
    ensures |Pieces(c, value)| == c.n && stack == Reversed(Pieces(c, value))
  {
    SplitIsData(c, value);
    var data := Cut(value, c.k);
    var parity := c.encode(data)[c.k..];
    var all := Pieces(c, value);
    stack := [];
    data := Reversed(data);
    for i := 0 to c.k
      invariant data == Reversed(Split(value, c.k))[..c.k - i]
      invariant stack == all[..i]
    {
      assert data[|data| - 1] == Split(value, c.k)[i] == all[i];
      stack := stack + [data[|data| - 1]];
      data := data[..|data| - 1];
    }
    parity := Reversed(parity);
    for i := c.k to c.n
      invariant parity == Reversed(all[c.k..])[..c.n - i]
      invariant stack == all[..i]
    {
      assert parity[|parity| - 1] == all[i];
      stack := stack + [parity[|parity| - 1]];
      parity := parity[..|parity| - 1];
    }
    assert stack == all;
    stack := Reversed(stack);
  }

  /** How a create ends: with an answer for the client, or in a panic before anything is sent, because
      the code's library refuses empty shards. */
  datatype Created = Panicked | Done(ok: bool)

  /**
   * `acks[i]` says whether the send of piece `i` came back without an error, in whatever order. The
   * value is created if at least `k` sends did.
   */
  method Create(
    c: Codec, key: Key, value: Bytes, version: nat, holders: seq<Option<Uri>>, acks: seq<bool>)
    returns (r: Created, sent: seq<Option<Envelope>>)
    requires c.Valid() && |holders| == c.n == |acks|
    ensures r == Panicked <==> |value| < c.k
    ensures r == Panicked ==> sent == []
    ensures r.Done? ==> |sent| == c.n == |Pieces(c, value)|
    ensures r.Done? ==> forall i | 0 <= i < c.n :: sent[i] == SendFor(c, key, value, version, holders, i)
    ensures r.Done? ==> (r.ok <==> c.k <= |set i: nat | i < c.n && holders[i].Some? && acks[i]|)
  {
    sent := [];
    if |value| / c.k == 0 {
      ShortIff(|value|, c.k);
      return Panicked, sent;
    }
    ShortIff(|value|, c.k);
    var stack := PieceStack(c, value);
    var all := Pieces(c, value);
    var nOk := 0;
    assert Acked(holders[..0], acks) == {};
    for i := 0 to c.n
      invariant |sent| == i
      invariant stack == Reversed(all)[..c.n - i]
      invariant forall j | 0 <= j < i :: sent[j] == SendFor(c, key, value, version, holders, j)
      invariant nOk == |Acked(holders[..i], acks)|
    {
      var piece := stack[|stack| - 1];
      stack := stack[..|stack| - 1];
      NextAck(holders, acks, i);
      match holders[i]
      case None => sent := sent + [None];
      case Some(uri) =>
        sent := sent + [Some(Envelope(uri, SendPiece(version, Loc(key, i), Some(piece))))];
        if acks[i] {
          nOk := nOk + 1;
        }
    }
    assert holders[..c.n] == holders;
    assert Acked(holders, acks) == set i: nat | i < c.n && holders[i].Some? && acks[i];
    r := Done(nOk >= c.k);
  }

  /** The data shards are empty exactly if the value has fewer bytes than there are shards. */
  lemma ShortIff(len: nat, k: nat)
    requires 0 < k
    ensures len / k == 0 <==> len < k
  {
    assert len == k * (len / k) + len % k;
  }

  lemma NextAck(holders: seq<Option<Uri>>, acks: seq<bool>, i: nat)
    requires i < |holders| == |acks|
    ensures |Acked(holders[..i + 1], acks)| ==
            |Acked(holders[..i], acks)| + (if holders[i].Some? && acks[i] then 1 else 0)
  {
    assert Acked(holders[..i + 1], acks) ==
      Acked(holders[..i], acks) + (if holders[i].Some? && acks[i] then {i} else {});
  }

  /** The bytes that all `k` data shards cover. */
  function Covered(value: Bytes, k: nat): Bytes
    requires 0 < k
  {
    ShardBounds(|value|, k, k - 1);
    value[..k * (|value| / k)]
  }

  /** What a read comes to, given the replies of the holders and, if they do not suffice, of all members. */
  function ReadBack(c: Codec, value: Bytes, fromHolders: seq<R.Reply>, fromMembers: seq<R.Reply>)
    : Result<Bytes, R.RebuildError>
    requires 0 < c.k
  {
    if c.k <= |R.IndicesOf(fromHolders)| || c.k <= |R.IndicesOf(fromMembers)| then Ok(Covered(value, c.k))
    else Err(R.DataIsLost)
  }

  /** Reading asks for the data shards alone and joins them; the replies carry pieces of `value`. */
  method Read(c: Codec, fromHolders: seq<R.Reply>, fromMembers: seq<R.Reply>, ghost value: Bytes)
    returns (r: Result<Bytes, R.RebuildError>)
    requires c.Valid()
    requires R.GenuineReplies(c, fromHolders, Split(value, c.k))
    requires R.GenuineReplies(c, fromMembers, Split(value, c.k))
    ensures r == ReadBack(c, value, fromHolders, fromMembers)
  {
    ghost var d := Split(value, c.k);
    SplitIsData(c, value);
    var pieces := R.Rebuild(c, fromHolders, fromMembers, false, true, d);
    if pieces.Err? {
      return Err(pieces.error);
    }
    var merged: Bytes := [];
    for i := 0 to c.k
      invariant merged == Concat(d[..i])
    {
      assert d[..i + 1][..i] == d[..i];
      merged := merged + pieces.value[i];
    }
    ConcatSplit(value, c.k, c.k);
    r := Ok(merged);
  }

  /** Reading gives back the whole value exactly if the number of data shards divides its length. */
  lemma WholeIffDivides(value: Bytes, k: nat)
    requires 0 < k
    ensures Covered(value, k) <= value && |value| - |Covered(value, k)| == |value| % k
    ensures Covered(value, k) == value <==> |value| % k == 0
  {
    ShardBounds(|value|, k, k - 1);
    assert |value| == k * (|value| / k) + |value| % k;
  }

  /** What the nodes store after the envelopes were sent and those of `acks` were acknowledged: every
      acknowledged piece is at its address, and every piece stored anywhere came in an envelope. */
  ghost predicate Arrived(sent: seq<Option<Envelope>>, acks: seq<bool>, stores: R.Stores) {
    && (forall i | 0 <= i < |sent| && i < |acks| && sent[i].Some? && acks[i] :: IsIn(stores, sent[i].value))
    && (forall u, p | u in stores && p in stores[u] ::
          exists i :: 0 <= i < |sent| && sent[i].Some? && Carries(sent[i].value, u, p))
  }

  /** The receiver has stored what the envelope carries. */
  ghost predicate IsIn(stores: R.Stores, e: Envelope) {
    && e.to in stores
    && (e.piece.data.Some? ==> (e.piece.loc.index, e.piece.data.value) in stores[e.to])
  }

  ghost predicate Carries(e: Envelope, u: Uri, p: (nat, Bytes)) {
    e.to == u && e.piece.loc.index == p.0 && e.piece.data == Some(p.1)
  }

  /** What a create sends. */
  ghost predicate SentByCreate(
    c: Codec, key: Key, value: Bytes, version: nat, holders: seq<Option<Uri>>, sent: seq<Option<Envelope>>)
  {
    && c.Valid() && |holders| == c.n == |sent| == |Pieces(c, value)|
    && forall i | 0 <= i < c.n :: sent[i] == SendFor(c, key, value, version, holders, i)
  }

  /** Every acknowledged piece is then on the holder of its index with its genuine shard, and no node stores
      anything but genuine shards of the indices it holds. */
  lemma CreatePlaces(
    c: Codec, key: Key, value: Bytes, version: nat, holders: seq<Option<Uri>>, acks: seq<bool>,
    sent: seq<Option<Envelope>>, stores: R.Stores)
    requires SentByCreate(c, key, value, version, holders, sent) && |acks| == c.n
    requires Arrived(sent, acks, stores)
    ensures forall i | 0 <= i < c.n && holders[i].Some? && acks[i] ::
              holders[i].value in stores && (i, Pieces(c, value)[i]) in stores[holders[i].value]
    ensures forall u, p | u in stores && p in stores[u] ::
              p.0 < c.n && holders[p.0] == Some(u) && p.1 == Pieces(c, value)[p.0]
  {
    forall i | 0 <= i < c.n && holders[i].Some? && acks[i]
      ensures holders[i].value in stores && (i, Pieces(c, value)[i]) in stores[holders[i].value]
    {
      assert IsIn(stores, sent[i].value);
    }
    forall u, p | u in stores && p in stores[u]
      ensures p.0 < c.n && holders[p.0] == Some(u) && p.1 == Pieces(c, value)[p.0]
    {
      var i :| 0 <= i < |sent| && sent[i].Some? && Carries(sent[i].value, u, p);
    }
  }

  /** Whether the node that should hold piece `i` has it. */
  ghost predicate Reports(stores: R.Stores, holders: seq<Option<Uri>>, i: nat) {
    i < |holders| && holders[i].Some? && holders[i].value in stores
    && exists p :: p in stores[holders[i].value] && p.0 == i
  }

  /** With all sends acknowledged a sanity check in which every holder answers finds nothing lost. */
  lemma SaneAfterCreate(
    c: Codec, key: Key, value: Bytes, version: nat, holders: seq<Option<Uri>>, acks: seq<bool>,
    sent: seq<Option<Envelope>>, stores: R.Stores, answers: seq<Found>)
    requires SentByCreate(c, key, value, version, holders, sent) && |acks| == c.n == |answers|
    requires Arrived(sent, acks, stores) && forall i | 0 <= i < c.n :: acks[i]
    requires forall i | 0 <= i < c.n :: answers[i] == Present <==> Reports(stores, holders, i)
    ensures Lost(holders, answers) == {}
  {
    CreatePlaces(c, key, value, version, holders, acks, sent, stores);
    forall i: nat | i < c.n && holders[i].Some? ensures answers[i] == Present {
      assert (i, Pieces(c, value)[i]).0 == i;
      assert Reports(stores, holders, i);
    }
  }

  lemma StoredRepliesAreGenuine(
    c: Codec, key: Key, value: Bytes, version: nat, holders: seq<Option<Uri>>, acks: seq<bool>,
    sent: seq<Option<Envelope>>, stores: R.Stores, answering: set<Uri>, replies: seq<R.Reply>)
    requires SentByCreate(c, key, value, version, holders, sent) && |acks| == c.n
    requires Arrived(sent, acks, stores)
    requires R.RepliesFrom(stores, answering, replies)
    ensures R.GenuineReplies(c, replies, Split(value, c.k))
  {
    CreatePlaces(c, key, value, version, holders, acks, sent, stores);
    forall r | r in replies && r.Pieces? ensures R.GenuinePieces(c, r.pieces, Split(value, c.k)) {
      var u :| u in answering && u in stores && stores[u] == r.pieces;
    }
  }

  /** After a create that succeeded, at least `k` distinct pieces are stored; and whichever nodes answer in
      the round of holders and in the round of members, in whatever order, a read gets what the shards
      cover of the value exactly if the nodes of one round hold `k` of them between them. */
  lemma CreateThenRead(
    c: Codec, key: Key, value: Bytes, version: nat, holders: seq<Option<Uri>>, acks: seq<bool>,
    sent: seq<Option<Envelope>>, stores: R.Stores,
    first: set<Uri>, fromHolders: seq<R.Reply>, second: set<Uri>, fromMembers: seq<R.Reply>)
    requires SentByCreate(c, key, value, version, holders, sent) && |acks| == c.n
    requires Arrived(sent, acks, stores)
    requires c.k <= |set i: nat | i < c.n && holders[i].Some? && acks[i]|
    requires R.RepliesFrom(stores, first, fromHolders) && R.RepliesFrom(stores, second, fromMembers)
    ensures c.k <= |R.Supplied(stores, stores.Keys)|
    ensures R.GenuineReplies(c, fromHolders, Split(value, c.k))
    ensures R.GenuineReplies(c, fromMembers, Split(value, c.k))
    ensures ReadBack(c, value, fromHolders, fromMembers) ==
            if c.k <= |R.Supplied(stores, first)| || c.k <= |R.Supplied(stores, second)|
            then Ok(Covered(value, c.k)) else Err(R.DataIsLost)
  {
    R.RepliesSupply(stores, first, fromHolders);
    R.RepliesSupply(stores, second, fromMembers);
    StoredRepliesAreGenuine(c, key, value, version, holders, acks, sent, stores, first, fromHolders);
    StoredRepliesAreGenuine(c, key, value, version, holders, acks, sent, stores, second, fromMembers);
    AckedIsStored(c, key, value, version, holders, acks, sent, stores);
  }

  lemma AckedIsStored(
    c: Codec, key: Key, value: Bytes, version: nat, holders: seq<Option<Uri>>, acks: seq<bool>,
    sent: seq<Option<Envelope>>, stores: R.Stores)
    requires SentByCreate(c, key, value, version, holders, sent) && |acks| == c.n
    requires Arrived(sent, acks, stores)
    ensures |set i: nat | i < c.n && holders[i].Some? && acks[i]| <= |R.Supplied(stores, stores.Keys)|
  {
    CreatePlaces(c, key, value, version, holders, acks, sent, stores);
    var acked := set i: nat | i < c.n && holders[i].Some? && acks[i];
    forall i | i in acked ensures i in R.Supplied(stores, stores.Keys) {
      assert (i, Pieces(c, value)[i]) in stores[holders[i].value];
    }
    SubsetSize(acked, R.Supplied(stores, stores.Keys));
  }

  datatype Found = NoAnswer | Present | Absent

  /** The indices that have a holder from which the piece was not heard. */
  function Lost(holders: seq<Option<Uri>>, answers: seq<Found>): set<nat> {
    set i: nat | i < |holders| && i < |answers| && holders[i].Some? && answers[i] != Present
  }

  /** Counts the holders, then the answers that found the piece, in whatever order these arrive. */
  method SanityCheck(holders: seq<Option<Uri>>, answers: seq<Found>) returns (lost: nat)
    requires |holders| == |answers|
    ensures lost == |Lost(holders, answers)|
    ensures lost == |set i: nat | i < |holders| && holders[i].Some? && answers[i] != Present|
  {
    var should, found := 0, 0;
    assert Lost(holders[..0], answers) == {};
    for i := 0 to |holders|
      invariant found <= should && should - found == |Lost(holders[..i], answers)|
    {
      NextLost(holders, answers, i);
      if holders[i].Some? {
        should := should + 1;
        if answers[i] == Present {
          found := found + 1;
        }
      }
    }
    assert holders[..|holders|] == holders;
    assert Lost(holders, answers) == set i: nat | i < |holders| && holders[i].Some? && answers[i] != Present;
    lost := should - found;
  }

  lemma NextLost(holders: seq<Option<Uri>>, answers: seq<Found>, i: nat)
    requires i < |holders| == |answers|
    ensures |Lost(holders[..i + 1], answers)| ==
            |Lost(holders[..i], answers)| + (if holders[i].Some? && answers[i] != Present then 1 else 0)
  {
    assert Lost(holders[..i + 1], answers) ==
      Lost(holders[..i], answers) + (if holders[i].Some? && answers[i] != Present then {i} else {});
  }
}
