/** Values shared by every component: node addresses, keys, piece locations and bytes. */
module Types {

  datatype Option<+T> = None | Some(value: T)

  datatype Result<+T, +E> = Ok(value: T) | Err(error: E)

  newtype Byte = x: int | 0 <= x < 256

  type Bytes = seq<Byte>

  /** The address of a node. */
  datatype Uri = Uri(text: string)

  type Key = string

  /** Names piece `index` of the object stored under `key`. */
  datatype Loc = Loc(key: Key, index: nat)

  /** A piece on the wire. Without data it asks the receiver to rebuild the piece. */
  datatype SendPiece = SendPiece(version: nat, loc: Loc, data: Option<Bytes>)

  datatype SendReply = Accepted | Rejected | Failed

  // ----- small facts about collections -----

  ghost predicate Distinct<A>(s: seq<A>) {
    forall i, j | 0 <= i < j < |s| :: s[i] != s[j]
  }

  lemma SubsetSize<A>(a: set<A>, b: set<A>)
    requires a <= b
    ensures |a| <= |b| && (a != b ==> |a| < |b|)
  {
    assert b == a + (b - a);
  }

  lemma {:induction false} BelowSize(s: set<nat>, n: nat)
    requires forall i | i in s :: i < n
    ensures |s| <= n
  {
    if n == 0 {
      assert s == {};
    } else {
      BelowSize(s - {n - 1}, n - 1);
    }
  }

  // ----- small facts about division -----

  lemma DivModIs(x: nat, m: nat, q: nat, r: nat)
    requires 0 < m && r < m && x == q * m + r
    ensures x / m == q && x % m == r
  {
    var d := x / m - q;
    assert x == (x / m) * m + x % m;
    assert d * m == r - x % m;
    assert 0 - m < d * m < m;
    SmallMultiple(d, m);
  }

  lemma SmallMultiple(d: int, m: nat)
    requires 0 < m && 0 - m < d * m < m
    ensures d == 0
  {
  }
}
