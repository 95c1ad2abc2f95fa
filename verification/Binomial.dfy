/** Binomial coefficients, and the chance of losing few enough of `n` independent pieces. */
module Binomial {

  function Comb(n: nat, k: nat): nat {
    if k == 0 || k == n then 1
    else if k > n then 0
    else Comb(n - 1, k - 1) + Comb(n - 1, k)
  }

  /** The recurrence holds outside the triangle too. */
  lemma Pascal(n: nat, k: nat)
    requires 0 < k
    ensures Comb(n + 1, k) == Comb(n, k - 1) + Comb(n, k)
  {
    if k == n + 1 {
      assert Comb(n, n + 1) == 0;
    }
  }

  lemma {:induction false} CombPositive(n: nat, k: nat)
    requires k <= n
    ensures 1 <= Comb(n, k)
  {
    if 0 < k < n {
      CombPositive(n - 1, k);
    }
  }

  // ----- the sum -----

  function Pow(x: real, k: nat): real {
    if k == 0 then 1.0 else x * Pow(x, k - 1)
  }

  /** The chance that `lost` given pieces are lost and `kept` given pieces survive. */
  function Weight(lost: nat, kept: nat, p: real): real {
    Pow(p, lost) * Pow(1.0 - p, kept)
  }

  /** The chance that exactly `i` of `n` pieces are lost. */
  function Term(n: nat, i: nat, p: real): real {
    if i > n then 0.0 else Comb(n, i) as real * Weight(i, n - i, p)
  }

  /** The chance that fewer than `c` of `n` pieces are lost. */
  function Tail(n: nat, c: nat, p: real): real {
    if c == 0 then 0.0 else Tail(n, c - 1, p) + Term(n, c - 1, p)
  }

  /** One more piece survives with chance `1 - p` and is lost with chance `p`. */
  function Mix(p: real, kept: real, lost: real): real {
    (1.0 - p) * kept + p * lost
  }

  ghost predicate IsChance(p: real) {
    0.0 <= p <= 1.0
  }

  // ----- small facts about products -----

  lemma Scaled(p: real, x: real)
    requires IsChance(p) && 0.0 <= x
    ensures 0.0 <= p * x <= x
    ensures 0.0 < p && 0.0 < x ==> 0.0 < p * x
  {
  }

  lemma MixEnds(a: real, b: real)
    ensures Mix(0.0, a, b) == a && Mix(1.0, a, b) == b
  {
  }

  lemma MixSame(p: real, a: real)
    ensures Mix(p, a, a) == a
  {
  }

  lemma MixAdds(p: real, a: real, t: real, b: real, u: real)
    ensures Mix(p, a, b) + Mix(p, t, u) == Mix(p, a + t, b + u)
  {
  }

  /** More weight on the smaller of two amounts, both smaller than before, gives less. */
  lemma MixFalls(p1: real, p2: real, a1: real, a2: real, b1: real, b2: real)
    requires IsChance(p1) && IsChance(p2) && p1 <= p2
    requires a2 <= a1 && b2 <= b1 && b2 <= a2
    ensures Mix(p2, a2, b2) <= Mix(p1, a1, b1)
    ensures p1 < p2 && (a2 < a1 || b2 < a2) ==> Mix(p2, a2, b2) < Mix(p1, a1, b1)
  {
    var da, db, dp, gap := a1 - a2, b1 - b2, p2 - p1, a2 - b2;
    assert Mix(p1, a1, b1) - Mix(p2, a2, b2) == (1.0 - p1) * da + p1 * db + dp * gap;
    Scaled(1.0 - p1, da);
    Scaled(p1, db);
    Scaled(dp, gap);
  }

  // ----- one more piece -----

  lemma WeightLost(lost: nat, kept: nat, p: real)
    ensures Weight(lost + 1, kept, p) == p * Weight(lost, kept, p)
  {
    var x, y := Pow(p, lost), Pow(1.0 - p, kept);
    assert Pow(p, lost + 1) == p * x;
    assert (p * x) * y == p * (x * y);
  }

  lemma WeightKept(lost: nat, kept: nat, p: real)
    ensures Weight(lost, kept + 1, p) == (1.0 - p) * Weight(lost, kept, p)
  {
    var x, y, q := Pow(p, lost), Pow(1.0 - p, kept), 1.0 - p;
    assert Pow(q, kept + 1) == q * y;
    assert x * (q * y) == q * (x * y);
  }

  lemma Distribute(
    count: real, a: real, b: real, p: real, w: real, w1: real, w2: real, kept: real, lost: real)
    requires count == a + b && w == p * w1 && w == (1.0 - p) * w2
    requires kept == b * w2 && lost == a * w1
    ensures count * w == Mix(p, kept, lost)
  {
    assert a * (p * w1) == p * (a * w1);
    assert b * ((1.0 - p) * w2) == (1.0 - p) * (b * w2);
  }

  lemma TermIs(n: nat, i: nat, p: real)
    requires i <= n
    ensures Term(n, i, p) == Comb(n, i) as real * Weight(i, n - i, p)
  {
  }

  function Previous(n: nat, i: nat, p: real): real {
    if i == 0 then 0.0 else Term(n, i - 1, p)
  }

  lemma TermSplitsInside(n: nat, i: nat, p: real)
    requires 0 < i <= n
    ensures Term(n + 1, i, p) == Mix(p, Term(n, i, p), Term(n, i - 1, p))
  {
    hide Weight, Term, Mix;
    var a, b := Comb(n, i - 1) as real, Comb(n, i) as real;
    var w, w1, w2 := Weight(i, n + 1 - i, p), Weight(i - 1, n + 1 - i, p), Weight(i, n - i, p);
    WeightLost(i - 1, n + 1 - i, p);
    WeightKept(i, n - i, p);
    Pascal(n, i);
    TermIs(n + 1, i, p);
    TermIs(n, i, p);
    TermIs(n, i - 1, p);
    Distribute(Comb(n + 1, i) as real, a, b, p, w, w1, w2, Term(n, i, p), Term(n, i - 1, p));
  }

  /** The chance of `i` losses, from the chances for one piece less. */
  lemma TermSplits(n: nat, i: nat, p: real)
    ensures Term(n + 1, i, p) == Mix(p, Term(n, i, p), Previous(n, i, p))
  {
    if i == 0 {
      WeightKept(0, n, p);
      TermIs(n + 1, 0, p);
      TermIs(n, 0, p);
    } else if i <= n {
      TermSplitsInside(n, i, p);
    } else if i == n + 1 {
      WeightLost(n, 0, p);
      TermIs(n + 1, n + 1, p);
      TermIs(n, n, p);
    }
  }

  lemma {:induction false} TailSplits(n: nat, c: nat, p: real)
    ensures Tail(n + 1, c + 1, p) == Mix(p, Tail(n, c + 1, p), Tail(n, c, p))
  {
    hide Term, Mix;
    TermSplits(n, c, p);
    if c == 0 {
      assert Tail(n, 1, p) == Term(n, 0, p);
      assert Tail(n + 1, 1, p) == Term(n + 1, 0, p);
    } else {
      TailSplits(n, c - 1, p);
      MixAdds(p, Tail(n, c, p), Term(n, c, p), Tail(n, c - 1, p), Term(n, c - 1, p));
    }
  }

  lemma {:induction false} TailOfNone(c: nat, p: real)
    requires 0 < c
    ensures Tail(0, c, p) == 1.0
  {
    if c > 1 {
      TailOfNone(c - 1, p);
    } else {
      TermIs(0, 0, p);
      assert Tail(0, 0, p) == 0.0;
    }
  }

  // ----- what the sum is like -----

  lemma {:induction false} PowBounds(x: real, k: nat)
    requires IsChance(x)
    ensures IsChance(Pow(x, k))
    ensures 0.0 < x ==> 0.0 < Pow(x, k)
  {
    if k == 0 {
      return;
    }
    PowBounds(x, k - 1);
    var y := Pow(x, k - 1);
    Scaled(x, y);
    assert Pow(x, k) == x * y;
  }

  lemma TermPositive(n: nat, i: nat, p: real)
    requires IsChance(p)
    ensures 0.0 <= Term(n, i, p)
    ensures i <= n && 0.0 < p && (p < 1.0 || i == n) ==> 0.0 < Term(n, i, p)
  {
    if i <= n {
      PowBounds(p, i);
      PowBounds(1.0 - p, n - i);
      var a, b := Pow(p, i), Pow(1.0 - p, n - i);
      Scaled(a, b);
      CombPositive(n, i);
      TermIs(n, i, p);
    }
  }

  lemma TailGrows(n: nat, c: nat, p: real)
    requires IsChance(p)
    ensures Tail(n, c, p) <= Tail(n, c + 1, p)
    ensures c <= n && 0.0 < p && (p < 1.0 || c == n) ==> Tail(n, c, p) < Tail(n, c + 1, p)
  {
    hide Term;
    TermPositive(n, c, p);
  }

  /** Losing any number of pieces is certain. */
  lemma {:induction false} TailIsWhole(n: nat, c: nat, p: real)
    requires n < c
    ensures Tail(n, c, p) == 1.0
  {
    hide Term, Mix;
    if n == 0 {
      TailOfNone(c, p);
    } else {
      TailSplits(n - 1, c - 1, p);
      TailIsWhole(n - 1, c, p);
      TailIsWhole(n - 1, c - 1, p);
      MixSame(p, 1.0);
    }
  }

  lemma {:induction false} TailNonNegative(n: nat, c: nat, p: real)
    requires IsChance(p)
    ensures 0.0 <= Tail(n, c, p)
  {
    hide Term;
    if c > 0 {
      TailNonNegative(n, c - 1, p);
      TermPositive(n, c - 1, p);
    }
  }

  lemma {:induction false} TailBounds(n: nat, c: nat, p: real)
    requires IsChance(p)
    ensures 0.0 <= Tail(n, c, p) <= 1.0
    decreases n + 1 - c
  {
    hide Term;
    TailNonNegative(n, c, p);
    if n < c {
      TailIsWhole(n, c, p);
    } else {
      TailBounds(n, c + 1, p);
      TailGrows(n, c, p);
    }
  }

  /** Nothing fails, nothing is lost; everything fails, everything is. */
  lemma {:induction false} TailEnds(n: nat, c: nat)
    ensures 0 < c ==> Tail(n, c, 0.0) == 1.0
    ensures c <= n ==> Tail(n, c, 1.0) == 0.0
  {
    hide Term, Mix;
    if n == 0 {
      if 0 < c {
        TailOfNone(c, 0.0);
      }
    } else if 0 < c {
      TailSplits(n - 1, c - 1, 0.0);
      TailSplits(n - 1, c - 1, 1.0);
      TailEnds(n - 1, c);
      TailEnds(n - 1, c - 1);
      MixEnds(Tail(n - 1, c, 0.0), Tail(n - 1, c - 1, 0.0));
      MixEnds(Tail(n - 1, c, 1.0), Tail(n - 1, c - 1, 1.0));
    }
  }

  /** The larger the chance of losing a piece, the smaller the chance of losing few; and strictly so,
      unless no loss or any loss is allowed. */
  lemma {:induction false} TailFalls(n: nat, c: nat, p1: real, p2: real)
    requires IsChance(p1) && IsChance(p2) && p1 <= p2
    ensures Tail(n, c, p2) <= Tail(n, c, p1)
    ensures p1 < p2 && 1 <= c <= n ==> Tail(n, c, p2) < Tail(n, c, p1)
  {
    hide Term, Mix;
    if c == 0 {
    } else if n == 0 {
      TailOfNone(c, p1);
      TailOfNone(c, p2);
    } else {
      TailFalls(n - 1, c, p1, p2);
      TailFalls(n - 1, c - 1, p1, p2);
      TailGrows(n - 1, c - 1, p2);
      TailSplits(n - 1, c - 1, p1);
      TailSplits(n - 1, c - 1, p2);
      MixFalls(p1, p2, Tail(n - 1, c, p1), Tail(n - 1, c, p2), Tail(n - 1, c - 1, p1), Tail(n - 1, c - 1, p2));
    }
  }
}
