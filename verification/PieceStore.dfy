/** The two piece stores, and when they are one and the same map. */
module PieceStore {
  import opened Types

  type Contents = map<Loc, Bytes>

  // ----- slots -----

  type Slots = map<Key, seq<Option<Bytes>>>

  predicate HasPiece(bucket: seq<Option<Bytes>>) {
    exists i :: 0 <= i < |bucket| && bucket[i].Some?
  }

  predicate NoneEmpty(slots: Slots) {
    forall k | k in slots :: HasPiece(slots[k])
  }

  function PiecesIn(slots: Slots): Contents {
    map k, i | k in slots && 0 <= i < |slots[k]| && slots[k][i].Some? :: Loc(k, i) := slots[k][i].value
  }

  function SlotAt(slots: Slots, loc: Loc): Option<Bytes> {
    if loc.key in slots && loc.index < |slots[loc.key]| then slots[loc.key][loc.index] else None
  }

  lemma InPieces(slots: Slots, loc: Loc)
    ensures loc in PiecesIn(slots) <==> SlotAt(slots, loc).Some?
    ensures loc in PiecesIn(slots) ==> PiecesIn(slots)[loc] == SlotAt(slots, loc).value
  {
    assert loc == Loc(loc.key, loc.index);
  }

  /** Contents that differ from the pieces of `before` in at most one location, judged slot by slot. */
  lemma SlotsDecide(before: Slots, after: Slots, at: Loc, pieces: Contents)
    requires forall loc | loc != at :: SlotAt(after, loc) == SlotAt(before, loc)
    requires match SlotAt(after, at)
      case Some(data) => pieces == PiecesIn(before)[at := data]
      case None => pieces == PiecesIn(before) - {at}
    ensures PiecesIn(after) == pieces
  {
    hide PiecesIn, SlotAt;
    forall loc
      ensures loc in PiecesIn(after) <==> loc in pieces
      ensures loc in pieces ==> PiecesIn(after)[loc] == pieces[loc]
    {
      InPieces(before, loc);
      InPieces(after, loc);
    }
  }

  lemma NothingStored()
    ensures PiecesIn(map[]) == map[] && NoneEmpty(map[])
  {
  }

  /** A bucket made on the spot holds nothing. */
  lemma EntryKeeps(before: Slots, after: Slots, key: Key, n: nat)
    requires after == if key in before then before else before[key := seq(n, _ => None)]
    ensures forall loc :: SlotAt(after, loc) == SlotAt(before, loc)
  {
    hide PiecesIn;
  }

  lemma SlotSet(entered: Slots, loc: Loc, slot: Option<Bytes>)
    requires loc.key in entered && loc.index < |entered[loc.key]|
    ensures var after := entered[loc.key := entered[loc.key][loc.index := slot]];
            && SlotAt(after, loc) == slot
            && (forall l | l != loc :: SlotAt(after, l) == SlotAt(entered, l))
  {
    hide PiecesIn;
  }

  lemma Pruned(before: Slots, after: Slots, key: Key)
    requires key in before && after == if HasPiece(before[key]) then before else before - {key}
    ensures forall loc :: SlotAt(after, loc) == SlotAt(before, loc)
  {
    hide PiecesIn;
  }

  /** Every bucket but the one of `key` is as it was. */
  ghost predicate OthersKept(before: Slots, after: Slots, key: Key) {
    forall k | k in after && k != key :: k in before && after[k] == before[k]
  }

  lemma SlotMakesPiece(bucket: seq<Option<Bytes>>, i: nat)
    requires i < |bucket| && bucket[i].Some?
    ensures HasPiece(bucket)
  {
  }

  lemma OthersHavePieces(before: Slots, after: Slots, key: Key)
    requires NoneEmpty(before) && OthersKept(before, after, key) && (key in after ==> HasPiece(after[key]))
    ensures NoneEmpty(after)
  {
    hide HasPiece, PiecesIn;
  }

  // ----- the store in memory -----

  /** Buckets of `n` slots, one bucket for every key with a piece. */
  class MemStore {
    const n: nat
    var buckets: map<Key, array<Option<Bytes>>>

    /** Buckets are separate and have a slot per index. */
    ghost predicate Shaped()
      reads this, buckets.Values
    {
      && (forall k | k in buckets :: buckets[k].Length == n)
      && (forall j, k | j in buckets && k in buckets && j != k :: buckets[j] != buckets[k])
    }

    ghost function Slots(): Slots
      reads this, buckets.Values
    {
      map k | k in buckets :: buckets[k][..]
    }

    /** No bucket is empty. */
    ghost predicate Valid()
      reads this, buckets.Values
    {
      Shaped() && NoneEmpty(Slots())
    }

    ghost function Pieces(): Contents
      reads this, buckets.Values
    {
      PiecesIn(Slots())
    }

    constructor (n: nat)
      ensures Valid() && this.n == n && Pieces() == map[] && buckets == map[]
    {
      hide PiecesIn, HasPiece, NoneEmpty;
      this.n := n;
      buckets := map[];
      new;
      NothingStored();
      assert Slots() == map[];
    }

    /** The bucket of a key, made on the spot if there is none. */
    method Entry(key: Key) returns (bucket: array<Option<Bytes>>)
      requires Shaped()
      modifies this
      ensures Shaped() && key in buckets && bucket == buckets[key]
      ensures key in old(buckets) ==> buckets == old(buckets)
      ensures key !in old(buckets) ==> fresh(bucket) && buckets == old(buckets)[key := bucket]
      ensures Slots() == if key in old(buckets) then old(Slots()) else old(Slots())[key := seq(n, _ => None)]
    {
      if key !in buckets {
        var made := new Option<Bytes>[n](_ => None);
        assert made[..] == seq(n, _ => None);
        buckets := buckets[key := made];
      }
      bucket := buckets[key];
    }

    /** Writes one slot of the key's bucket. */
    method SetSlot(loc: Loc, slot: Option<Bytes>)
      requires Shaped() && loc.index < n && loc.key in buckets
      modifies buckets[loc.key]
      ensures Shaped()
      ensures Slots() == old(Slots())[loc.key := old(Slots()[loc.key])[loc.index := slot]]
    {
      buckets[loc.key][loc.index] := slot;
    }

    method Put(loc: Loc, data: Bytes)
      requires Valid() && loc.index < n
      modifies this, buckets.Values
      ensures Valid() && fresh(buckets.Values - old(buckets.Values))
      ensures Pieces() == old(Pieces())[loc := data]
    {
      hide PiecesIn, SlotAt, HasPiece, NoneEmpty;
      ghost var before := Slots();
      var bucket := Entry(loc.key);
      ghost var entered := Slots();
      EntryKeeps(before, entered, loc.key, n);
      SetSlot(loc, Some(data));
      SlotSet(entered, loc, Some(data));
      SlotsDecide(before, Slots(), loc, old(Pieces())[loc := data]);
      SlotMakesPiece(Slots()[loc.key], loc.index);
      OthersHavePieces(before, Slots(), loc.key);
    }

    method AllNone(bucket: array<Option<Bytes>>) returns (allNone: bool)
      requires bucket.Length == n
      ensures allNone <==> !HasPiece(bucket[..])
    {
      allNone := true;
      for i := 0 to n
        invariant allNone <==> forall j | 0 <= j < i :: bucket[j].None?
      {
        if bucket[i].Some? {
          allNone := false;
        }
      }
    }

    /** Removes the bucket of a key if it holds nothing. */
    method Prune(key: Key)
      requires Shaped() && key in buckets
      modifies this
      ensures Shaped() && buckets.Values <= old(buckets.Values)
      ensures Slots() == if HasPiece(old(Slots())[key]) then old(Slots()) else old(Slots()) - {key}
    {
      hide HasPiece;
      var allNone := AllNone(buckets[key]);
      assert Slots()[key] == buckets[key][..];
      if allNone {
        buckets := buckets - {key};
      }
    }

    /** Removes the whole bucket with its last piece, and also one made for a key that had none. */
    method Delete(loc: Loc)
      requires Valid() && loc.index < n
      modifies this, buckets.Values
      ensures Valid() && fresh(buckets.Values - old(buckets.Values))
      ensures Pieces() == old(Pieces()) - {loc}
    {
      hide PiecesIn, SlotAt, HasPiece, NoneEmpty;
      ghost var before := Slots();
      var bucket := Entry(loc.key);
      ghost var entered := Slots();
      EntryKeeps(before, entered, loc.key, n);
      SetSlot(loc, None);
      SlotSet(entered, loc, None);
      ghost var cleared := Slots();
      Prune(loc.key);
      Pruned(cleared, Slots(), loc.key);
      SlotsDecide(before, Slots(), loc, old(Pieces()) - {loc});
      OthersHavePieces(before, Slots(), loc.key);
    }

    method Get(loc: Loc) returns (r: Option<Bytes>)
      requires Valid() && loc.index < n
      ensures r == if loc in Pieces() then Some(Pieces()[loc]) else None
    {
      hide PiecesIn, HasPiece, NoneEmpty;
      InPieces(Slots(), loc);
      r := if loc.key in buckets then buckets[loc.key][loc.index] else None;
    }

    method Exists(loc: Loc) returns (r: bool)
      requires Valid() && loc.index < n
      ensures r <==> loc in Pieces()
    {
      hide PiecesIn, HasPiece, NoneEmpty;
      InPieces(Slots(), loc);
      r := loc.key in buckets && buckets[loc.key][loc.index].Some?;
    }

    method GetPieces(key: Key, m: nat) returns (out: seq<(nat, Bytes)>)
      requires Valid() && m <= n
      ensures forall i: nat, d :: (i, d) in out <==> i < m && Loc(key, i) in Pieces() && Pieces()[Loc(key, i)] == d
      ensures forall x, y | 0 <= x < y < |out| :: out[x].0 < out[y].0
    {
      out := [];
      if key in buckets {
        var bucket := buckets[key];
        for i := 0 to m
          invariant forall x | 0 <= x < |out| :: out[x].0 < i
          invariant forall x, y | 0 <= x < y < |out| :: out[x].0 < out[y].0
          invariant forall j: nat, d :: (j, d) in out <==> j < i && bucket[j] == Some(d)
        {
          if bucket[i].Some? {
            out := out + [(i, bucket[i].value)];
          }
        }
      }
    }

    method Keys() returns (out: set<Key>)
      requires Valid()
      ensures out == KeysOf(Pieces())
    {
      out := {};
      var left := buckets.Keys;
      while left != {}
        invariant left <= buckets.Keys && out == buckets.Keys - left
      {
        var k :| k in left;
        out := out + {k};
        left := left - {k};
      }
      SlotKeys(Slots());
    }
  }

  lemma SlotKeys(slots: Slots)
    requires NoneEmpty(slots)
    ensures KeysOf(PiecesIn(slots)) == slots.Keys
  {
    forall k | k in slots ensures k in KeysOf(PiecesIn(slots)) {
      var i :| 0 <= i < |slots[k]| && slots[k][i].Some?;
      assert Loc(k, i) in PiecesIn(slots);
    }
  }

  function KeysOf(pieces: Contents): set<Key> {
    set loc | loc in pieces :: loc.key
  }

  // ----- the store in a table -----

  datatype Row = Row(key: Key, idx: nat, data: Bytes)

  predicate AtLoc(row: Row, loc: Loc) {
    row.key == loc.key && row.idx == loc.index
  }

  function WithoutLoc(rows: seq<Row>, loc: Loc): (r: seq<Row>)
    ensures forall row :: row in r <==> row in rows && !AtLoc(row, loc)
  {
    if rows == [] then []
    else (if AtLoc(rows[0], loc) then [] else [rows[0]]) + WithoutLoc(rows[1..], loc)
  }

  /** The data of all rows at a location; a query for one row may yield any of them. */
  function Answers(rows: seq<Row>, loc: Loc): set<Bytes> {
    set row | row in rows && AtLoc(row, loc) :: row.data
  }

  class SqliteStore {
    var rows: seq<Row>

    constructor ()
      ensures rows == []
    {
      rows := [];
    }

    method Put(loc: Loc, data: Bytes)
      modifies this
      ensures rows == old(rows) + [Row(loc.key, loc.index, data)]
    {
      rows := rows + [Row(loc.key, loc.index, data)];
    }

    method Delete(loc: Loc)
      modifies this
      ensures rows == WithoutLoc(old(rows), loc)
    {
      rows := WithoutLoc(rows, loc);
    }

    method Get(loc: Loc) returns (r: Option<Bytes>)
      ensures r.None? <==> Answers(rows, loc) == {}
      ensures r.Some? ==> r.value in Answers(rows, loc)
    {
      if exists row :: row in rows && AtLoc(row, loc) {
        var row :| row in rows && AtLoc(row, loc);
        r := Some(row.data);
        assert row.data in Answers(rows, loc);
      } else {
        r := None;
      }
    }

    method Exists(loc: Loc) returns (r: bool)
      ensures r <==> Answers(rows, loc) != {}
    {
      var count := 0;
      for i := 0 to |rows|
        invariant 0 < count <==> exists j :: 0 <= j < i && AtLoc(rows[j], loc)
        invariant 0 <= count
      {
        if AtLoc(rows[i], loc) {
          count := count + 1;
        }
      }
      r := count > 0;
      if r {
        var j :| 0 <= j < |rows| && AtLoc(rows[j], loc);
        assert rows[j].data in Answers(rows, loc);
      }
    }

    /** The bound on the index is ignored. */
    method GetPieces(key: Key, m: nat) returns (out: seq<(nat, Bytes)>)
      ensures forall i: nat, d :: (i, d) in out <==> d in Answers(rows, Loc(key, i))
    {
      out := [];
      for x := 0 to |rows|
        invariant forall i: nat, d :: (i, d) in out <==> Row(key, i, d) in rows[..x]
      {
        assert rows[..x + 1] == rows[..x] + [rows[x]];
        if rows[x].key == key {
          out := out + [(rows[x].idx, rows[x].data)];
        }
      }
      assert rows[..|rows|] == rows;
      forall i: nat, d ensures Row(key, i, d) in rows <==> d in Answers(rows, Loc(key, i)) {
        AnswerIsRow(rows, Loc(key, i), d);
      }
    }

    method Keys() returns (out: set<Key>)
      ensures out == set row | row in rows :: row.key
    {
      out := {};
      for x := 0 to |rows|
        invariant out == set row | row in rows[..x] :: row.key
      {
        assert rows[..x + 1] == rows[..x] + [rows[x]];
        out := out + {rows[x].key};
      }
      assert rows[..|rows|] == rows;
    }
  }

  lemma AnswerIsRow(rows: seq<Row>, loc: Loc, d: Bytes)
    ensures d in Answers(rows, loc) <==> Row(loc.key, loc.index, d) in rows
  {
    if d in Answers(rows, loc) {
      var row :| row in rows && AtLoc(row, loc) && row.data == d;
      assert row == Row(loc.key, loc.index, d);
    } else {
      assert Row(loc.key, loc.index, d) in rows ==> Row(loc.key, loc.index, d).data in Answers(rows, loc);
    }
  }

  // ----- a store as the other services see it -----

  /** One map from locations to pieces, whichever store is behind it. A failing call changes nothing. */
  class PieceMap {
    var pieces: Contents

    constructor ()
      ensures pieces == map[]
    {
      pieces := map[];
    }

    method Put(loc: Loc, data: Bytes, fails: bool)
      modifies this
      ensures pieces == if fails then old(pieces) else old(pieces)[loc := data]
    {
      if !fails {
        pieces := pieces[loc := data];
      }
    }

    method Delete(loc: Loc, fails: bool)
      modifies this
      ensures pieces == if fails then old(pieces) else old(pieces) - {loc}
    {
      if !fails {
        pieces := pieces - {loc};
      }
    }
  }

  // ----- the same operations on both -----

  datatype Op = PutOp(loc: Loc, data: Bytes) | DeleteOp(loc: Loc)

  function MapAfter(pieces: Contents, ops: seq<Op>): Contents {
    if ops == [] then pieces
    else
      var before := MapAfter(pieces, ops[..|ops| - 1]);
      match ops[|ops| - 1]
      case PutOp(loc, data) => before[loc := data]
      case DeleteOp(loc) => before - {loc}
  }

  function RowsAfter(rows: seq<Row>, ops: seq<Op>): seq<Row> {
    if ops == [] then rows
    else
      var before := RowsAfter(rows, ops[..|ops| - 1]);
      match ops[|ops| - 1]
      case PutOp(loc, data) => before + [Row(loc.key, loc.index, data)]
      case DeleteOp(loc) => WithoutLoc(before, loc)
  }

  /** What was written to a location since it was last deleted. */
  function Written(ops: seq<Op>, loc: Loc): set<Bytes> {
    if ops == [] then {}
    else
      var before := Written(ops[..|ops| - 1], loc);
      match ops[|ops| - 1]
      case PutOp(at, data) => if at == loc then before + {data} else before
      case DeleteOp(at) => if at == loc then {} else before
  }

  lemma AnswersAfterPut(rows: seq<Row>, at: Loc, data: Bytes, loc: Loc)
    ensures Answers(rows + [Row(at.key, at.index, data)], loc) ==
            Answers(rows, loc) + if at == loc then {data} else {}
  {
    var row := Row(at.key, at.index, data);
    var after := rows + [row];
    assert AtLoc(row, loc) <==> at == loc;
    forall d ensures d in Answers(after, loc) <==> d in Answers(rows, loc) || (at == loc && d == data) {
      AnswerIsRow(after, loc, d);
      AnswerIsRow(rows, loc, d);
    }
  }

  lemma AnswersAfterDelete(rows: seq<Row>, at: Loc, loc: Loc)
    ensures Answers(WithoutLoc(rows, at), loc) == if at == loc then {} else Answers(rows, loc)
  {
    forall d ensures d in Answers(WithoutLoc(rows, at), loc) <==> at != loc && d in Answers(rows, loc) {
      AnswerIsRow(WithoutLoc(rows, at), loc, d);
      AnswerIsRow(rows, loc, d);
    }
  }

  /** The table may answer anything that was written since the last delete. */
  lemma {:induction false} AnswersAreWritten(ops: seq<Op>, loc: Loc)
    ensures Answers(RowsAfter([], ops), loc) == Written(ops, loc)
  {
    if ops != [] {
      var init := ops[..|ops| - 1];
      AnswersAreWritten(init, loc);
      match ops[|ops| - 1]
      case PutOp(at, data) => AnswersAfterPut(RowsAfter([], init), at, data, loc);
      case DeleteOp(at) => AnswersAfterDelete(RowsAfter([], init), at, loc);
    }
  }

  /** The map has a piece exactly where something was written since, and it is one of those writes. */
  lemma {:induction false} MapHasWritten(ops: seq<Op>, loc: Loc)
    ensures loc in MapAfter(map[], ops) <==> Written(ops, loc) != {}
    ensures loc in MapAfter(map[], ops) ==> MapAfter(map[], ops)[loc] in Written(ops, loc)
  {
    if ops != [] {
      MapHasWritten(ops[..|ops| - 1], loc);
    }
  }

  ghost predicate SameAnswer(rows: seq<Row>, pieces: Contents, loc: Loc) {
    && (loc in pieces <==> Answers(rows, loc) != {})
    && (loc in pieces ==> forall d | d in Answers(rows, loc) :: d == pieces[loc])
  }

  /** After any operations on both, the table is bound to answer what the map holds at a location if and
      only if everything written there since the last delete is the same. */
  lemma StoresAgreeIff(ops: seq<Op>, loc: Loc)
    ensures SameAnswer(RowsAfter([], ops), MapAfter(map[], ops), loc) <==>
            forall x, y | x in Written(ops, loc) && y in Written(ops, loc) :: x == y
  {
    AnswersAreWritten(ops, loc);
    MapHasWritten(ops, loc);
  }

  /** A key is never reused for another value, so all writes to a location carry the same bytes. */
  ghost predicate WritesAgree(ops: seq<Op>) {
    forall x, y | x in ops && y in ops && x.PutOp? && y.PutOp? && x.loc == y.loc :: x.data == y.data
  }

  lemma {:induction false} WrittenIsPut(ops: seq<Op>, loc: Loc)
    ensures forall d | d in Written(ops, loc) :: PutOp(loc, d) in ops
  {
    if ops != [] {
      WrittenIsPut(ops[..|ops| - 1], loc);
    }
  }

  /** Then both stores are one map: in presence, in data and in the key set. */
  lemma StoresAreOneMap(ops: seq<Op>)
    requires WritesAgree(ops)
    ensures forall loc :: SameAnswer(RowsAfter([], ops), MapAfter(map[], ops), loc)
    ensures (set row | row in RowsAfter([], ops) :: row.key) == KeysOf(MapAfter(map[], ops))
  {
    var rows, pieces := RowsAfter([], ops), MapAfter(map[], ops);
    forall loc ensures SameAnswer(rows, pieces, loc) {
      WrittenIsPut(ops, loc);
      StoresAgreeIff(ops, loc);
    }
    forall row | row in rows ensures row.key in KeysOf(pieces) {
      var loc := Loc(row.key, row.idx);
      assert row.data in Answers(rows, loc);
      assert SameAnswer(rows, pieces, loc);
    }
    forall loc | loc in pieces ensures exists row :: row in rows && row.key == loc.key {
      assert SameAnswer(rows, pieces, loc);
      var d :| d in Answers(rows, loc);
    }
  }

  /** The pieces of a key, read from both stores after the same operations, are the same. */
  method PiecesFromBoth(n: nat, ops: seq<Op>, key: Key)
    returns (fromMem: seq<(nat, Bytes)>, fromSqlite: seq<(nat, Bytes)>)
    requires WritesAgree(ops) && forall op | op in ops :: op.loc.index < n
    ensures forall i: nat, d :: (i, d) in fromMem <==> (i, d) in fromSqlite
    ensures forall i: nat, d :: (i, d) in fromMem <==>
              Loc(key, i) in MapAfter(map[], ops) && MapAfter(map[], ops)[Loc(key, i)] == d
  {
    hide PiecesIn, HasPiece, NoneEmpty, Answers;
    var mem, sqlite := RunBoth(n, ops);
    fromMem := mem.GetPieces(key, n);
    fromSqlite := sqlite.GetPieces(key, n);
    StoresAreOneMap(ops);
    PiecesBelow(ops, n);
    forall i: nat, d
      ensures (i, d) in fromSqlite <==> Loc(key, i) in MapAfter(map[], ops) && MapAfter(map[], ops)[Loc(key, i)] == d
    {
      OneAnswer(RowsAfter([], ops), MapAfter(map[], ops), Loc(key, i), d);
    }
  }

  lemma OneAnswer(rows: seq<Row>, pieces: Contents, loc: Loc, d: Bytes)
    requires SameAnswer(rows, pieces, loc)
    ensures d in Answers(rows, loc) <==> loc in pieces && pieces[loc] == d
  {
  }

  lemma {:induction false} PiecesBelow(ops: seq<Op>, n: nat)
    requires forall op | op in ops :: op.loc.index < n
    ensures forall loc | loc in MapAfter(map[], ops) :: loc.index < n
  {
    if ops != [] {
      PiecesBelow(ops[..|ops| - 1], n);
      assert ops[|ops| - 1] in ops;
    }
  }

  /** Both stores, given the same operations. */
  method RunBoth(n: nat, ops: seq<Op>) returns (mem: MemStore, sqlite: SqliteStore)
    requires forall op | op in ops :: op.loc.index < n
    ensures mem.Valid() && mem.n == n && mem.Pieces() == MapAfter(map[], ops)
    ensures sqlite.rows == RowsAfter([], ops)
  {
    hide PiecesIn, HasPiece, NoneEmpty;
    mem := new MemStore(n);
    sqlite := new SqliteStore();
    for j := 0 to |ops|
      invariant mem.Valid() && mem.n == n && fresh(mem) && fresh(mem.buckets.Values) && fresh(sqlite)
      invariant mem.Pieces() == MapAfter(map[], ops[..j])
      invariant sqlite.rows == RowsAfter([], ops[..j])
    {
      assert ops[..j + 1][..j] == ops[..j];
      var op := ops[j];
      match op {
        case PutOp(loc, data) =>
          mem.Put(loc, data);
          sqlite.Put(loc, data);
        case DeleteOp(loc) =>
          mem.Delete(loc);
          sqlite.Delete(loc);
      }
    }
    assert ops[..|ops|] == ops;
  }
}
