/** The contract of a systematic erasure code, and how an object is cut into its data shards. */
module Codec {
  import opened Types

  /**
   * A code with `k` data shards and `n` shards in all. The functions are parameters of the model:
   * the arithmetic behind them is not modelled, only the contract `Valid`.
   */
  datatype Codec = Codec(
    k: nat,
    n: nat,
    encode: seq<Bytes> -> seq<Bytes>,
    reconstruct: seq<Option<Bytes>> -> seq<Bytes>)
  {
    /** Any `k` genuine shards determine all `n`, and the first `k` shards are the data itself. */
    ghost predicate Valid() {
      && 1 <= k <= n
      && (forall d | IsData(d) :: |encode(d)| == n && encode(d)[..k] == d)
      && (forall d, slots: seq<Option<Bytes>> | IsData(d) && Genuine(slots, d) && k <= Filled(slots) ::
            reconstruct(slots) == encode(d))
    }

    ghost predicate IsData(d: seq<Bytes>) {
      |d| == k && forall i, j | 0 <= i < j < k :: |d[i]| == |d[j]|
    }

    /** Every filled slot carries the shard of `d` that belongs there. */
    ghost predicate Genuine(slots: seq<Option<Bytes>>, d: seq<Bytes>) {
      && |slots| == n == |encode(d)|
      && forall i | 0 <= i < n && slots[i].Some? :: slots[i].value == encode(d)[i]
    }
  }

  function FilledSet<T>(slots: seq<Option<T>>): set<nat> {
    set i: nat | i < |slots| && slots[i].Some?
  }

  function Filled<T>(slots: seq<Option<T>>): nat {
    |FilledSet(slots)|
  }

  /** The `k` equal data shards of a value. Bytes past the last whole shard are in no shard. */
  function Split(value: Bytes, k: nat): (d: seq<Bytes>)
    requires 0 < k
    ensures |d| == k
  {
    seq(k, i requires 0 <= i < k => Shard(value, k, i))
  }

  lemma ShardBounds(len: nat, k: nat, i: nat)
    requires i < k
    ensures 0 <= i * (len / k) <= (i + 1) * (len / k) <= k * (len / k) <= len
  {
    MulMono(i + 1, k, len / k);
    assert k * (len / k) + len % k == len;
  }

  lemma MulMono(a: nat, b: nat, c: nat)
    requires a <= b
    ensures a * c <= b * c
  {
  }

  function Shard(value: Bytes, k: nat, i: nat): (s: Bytes)
    requires i < k
    ensures |s| == |value| / k
  {
    ShardBounds(|value|, k, i);
    var len := |value| / k;
    value[i * len..(i + 1) * len]
  }

  /** All `n` pieces of a value. */
  function Pieces(c: Codec, value: Bytes): seq<Bytes>
    requires 0 < c.k
  {
    c.encode(Split(value, c.k))
  }

  lemma SplitIsData(c: Codec, value: Bytes)
    requires 0 < c.k
    ensures c.IsData(Split(value, c.k))
  {
  }

  function Concat(ss: seq<Bytes>): Bytes {
    if ss == [] then [] else Concat(ss[..|ss| - 1]) + ss[|ss| - 1]
  }

  /** Joining the data shards gives back the value up to the last whole shard. */
  lemma {:induction false} ConcatSplit(value: Bytes, k: nat, m: nat)
    requires m <= k && 0 < k
    ensures 0 <= m * (|value| / k) <= |value|
    ensures Concat(Split(value, k)[..m]) == value[..m * (|value| / k)]
  {
    var d := Split(value, k);
    if m == 0 {
      assert d[..0] == [];
    } else {
      ConcatSplit(value, k, m - 1);
      ShardBounds(|value|, k, m - 1);
      var len := |value| / k;
      assert d[..m][..m - 1] == d[..m - 1];
      assert d[..m][m - 1] == value[(m - 1) * len..m * len];
      assert value[..(m - 1) * len] + value[(m - 1) * len..m * len] == value[..m * len];
    }
  }

  /** And cutting joined shards gives back the shards. */
  lemma SplitConcat(d: seq<Bytes>, len: nat)
    requires d != [] && forall s | s in d :: |s| == len
    ensures Split(Concat(d), |d|) == d
  {
    var k, value := |d|, Concat(d);
    assert d[..k] == d;
    ConcatLength(d, len, k);
    DivModIs(k * len, k, len, 0);
    forall i | 0 <= i < k ensures Split(value, k)[i] == d[i] {
      ConcatHas(d, len, k, i);
      ShardBounds(|value|, k, i);
    }
  }

  lemma {:induction false} ConcatLength(d: seq<Bytes>, len: nat, m: nat)
    requires m <= |d| && forall s | s in d :: |s| == len
    ensures |Concat(d[..m])| == m * len
  {
    hide Concat;
    if m > 0 {
      ConcatLength(d, len, m - 1);
      ConcatNext(d, m - 1);
      assert |d[m - 1]| == len;
      Multiple(m, len);
    } else {
      NothingJoined();
      assert d[..m] == [];
    }
  }

  lemma NothingJoined()
    ensures Concat([]) == []
  {
  }

  lemma ConcatNext(d: seq<Bytes>, m: nat)
    requires m < |d|
    ensures Concat(d[..m + 1]) == Concat(d[..m]) + d[m]
  {
    assert d[..m + 1][..m] == d[..m];
  }

  lemma Multiple(m: nat, len: nat)
    requires 0 < m
    ensures m * len == (m - 1) * len + len
  {
  }

  lemma {:induction false} ConcatHas(d: seq<Bytes>, len: nat, m: nat, i: nat)
    requires i < m <= |d| && forall s | s in d :: |s| == len
    ensures 0 <= i * len <= (i + 1) * len <= |Concat(d[..m])|
    ensures Concat(d[..m])[i * len..(i + 1) * len] == d[i]
  {
    ConcatLength(d, len, m);
    ConcatLength(d, len, m - 1);
    MulMono(i + 1, m, len);
    MulMono(i, i + 1, len);
    ConcatNext(d, m - 1);
    var init := Concat(d[..m - 1]);
    if i < m - 1 {
      ConcatHas(d, len, m - 1, i);
      SliceOfFirst(init, d[m - 1], i * len, (i + 1) * len);
    } else {
      Multiple(i + 1, len);
      assert (init + d[i])[|init|..] == d[i];
    }
  }

  lemma SliceOfFirst(a: Bytes, b: Bytes, lo: nat, hi: nat)
    requires lo <= hi <= |a|
    ensures (a + b)[lo..hi] == a[lo..hi]
  {
  }

  // ----- the contract can be met -----

  function FirstFilled(slots: seq<Option<Bytes>>): Bytes {
    if slots == [] then [] else if slots[0].Some? then slots[0].value else FirstFilled(slots[1..])
  }

  lemma {:induction false} FirstFilledIs(slots: seq<Option<Bytes>>, x: Bytes)
    requires exists i :: 0 <= i < |slots| && slots[i].Some?
    requires forall i | 0 <= i < |slots| && slots[i].Some? :: slots[i].value == x
    ensures FirstFilled(slots) == x
  {
    if !slots[0].Some? {
      var i :| 0 <= i < |slots| && slots[i].Some?;
      assert slots[1..][i - 1].Some?;
      FirstFilledIs(slots[1..], x);
    }
  }

  /** A wasteful code: every parity shard is all the data. */
  function WholeCopies(k: nat, n: nat): Codec
    requires 1 <= k <= n
  {
    Codec(k, n, (d: seq<Bytes>) => WithCopies(d, k, n),
          (slots: seq<Option<Bytes>>) => WithCopies(Recovered(slots, k), k, n))
  }

  function WithCopies(d: seq<Bytes>, k: nat, n: nat): seq<Bytes> {
    seq(n, i requires 0 <= i < n => if i < k && i < |d| then d[i] else Concat(d))
  }

  function Recovered(slots: seq<Option<Bytes>>, k: nat): seq<Bytes>
    requires 1 <= k
  {
    if |slots| < k then []
    else if forall i | 0 <= i < k :: slots[i].Some? then
      seq(k, i requires 0 <= i < k => slots[i].value)
    else Split(FirstFilled(slots[k..]), k)
  }

  /** Where a data shard is missing, a parity shard is there. */
  lemma ParityIsThere(slots: seq<Option<Bytes>>, k: nat, missing: nat)
    requires missing < k <= |slots| && slots[missing].None? && k <= Filled(slots)
    ensures exists i :: k <= i < |slots| && slots[i].Some?
  {
    if forall i | k <= i < |slots| :: slots[i].None? {
      assert |FilledSet(slots) + {missing}| == Filled(slots) + 1;
      BelowSize(FilledSet(slots) + {missing}, k);
    }
  }

  lemma RecoveredIs(c: Codec, slots: seq<Option<Bytes>>, d: seq<Bytes>)
    requires 1 <= c.k <= c.n && c == WholeCopies(c.k, c.n)
    requires c.IsData(d) && c.Genuine(slots, d) && c.k <= Filled(slots)
    ensures Recovered(slots, c.k) == d
  {
    var k := c.k;
    if missing: nat :| missing < k && slots[missing].None? {
      ParityIsThere(slots, k, missing);
      var i :| k <= i < |slots| && slots[i].Some?;
      assert slots[k..][i - k].Some?;
      FirstFilledIs(slots[k..], Concat(d));
      SplitConcat(d, |d[0]|);
    }
  }

  /** For every number of data and parity shards. */
  lemma ContractCanBeMet(k: nat, n: nat)
    requires 1 <= k <= n
    ensures WholeCopies(k, n).Valid()
  {
    var c := WholeCopies(k, n);
    forall d | c.IsData(d) ensures |c.encode(d)| == n && c.encode(d)[..k] == d {
    }
    forall d, slots: seq<Option<Bytes>> | c.IsData(d) && c.Genuine(slots, d) && c.k <= Filled(slots)
      ensures c.reconstruct(slots) == c.encode(d)
    {
      RecoveredIs(c, slots, d);
    }
  }
}
