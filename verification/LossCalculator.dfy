/** The table, the sum and the bisection of the data-loss calculator. */
module LossCalculator {
  import opened Types
  import opened Binomial
  import Codec
  import L = LossPatterns

  const I64_MAX := 0x7fff_ffff_ffff_ffff

  // ----- which tables fit -----

  lemma {:induction false} CombAbsorbs(n: nat, k: nat)
    requires k < n
    ensures (k + 1) * Comb(n, k + 1) == (n - k) * Comb(n, k)
  {
    if n == 1 {
      assert Comb(1, 1) == 1 && Comb(1, 0) == 1;
    } else {
      var m := n - 1;
      Pascal(m, k + 1);
      if k < m {
        CombAbsorbs(m, k);
      } else {
        assert Comb(m, k + 1) == 0;
      }
      if k > 0 {
        Pascal(m, k);
        CombAbsorbs(m, k - 1);
        AbsorbStep(m, k, Comb(m, k - 1), Comb(m, k), Comb(m, k + 1));
      }
    }
  }

  lemma AbsorbStep(m: nat, k: nat, a: nat, b: nat, c: nat)
    requires 0 < k <= m && k * b == (m - (k - 1)) * a && (k + 1) * c == (m - k) * b
    ensures (k + 1) * (b + c) == (m + 1 - k) * (a + b)
  {
    assert (k + 1) * (b + c) == (k + 1) * b + (m - k) * b;
    assert (m + 1 - k) * (a + b) == k * b + (m + 1 - k) * b;
  }

  /** The middle coefficient of every even row, two rows apart. */
  lemma CentralStep(m: nat)
    requires 0 < m
    ensures m * Comb(2 * m, m) == (4 * m - 2) * Comb(2 * m - 2, m - 1)
  {
    // C(2m, m) = C(2m-1, m-1) + C(2m-1, m), and both halves are equal.
    Pascal(2 * m - 1, m);
    CombAbsorbs(2 * m - 1, m - 1);
    var half := Comb(2 * m - 1, m - 1);
    EqualFactors(m, Comb(2 * m - 1, m), half);
    if m == 1 {
      assert Comb(1, 0) == 1 && Comb(0, 0) == 1;
    } else {
      Pascal(2 * m - 2, m - 1);
      CombAbsorbs(2 * m - 2, m - 2);
      CentralHalf(m, Comb(2 * m - 2, m - 2), Comb(2 * m - 2, m - 1), half);
    }
  }

  lemma EqualFactors(m: nat, x: nat, y: nat)
    requires 0 < m && (m - 1 + 1) * x == (2 * m - 1 - (m - 1)) * y
    ensures x == y
  {
    assert m * x == m * y;
  }

  lemma CentralHalf(m: nat, a: nat, b: nat, half: nat)
    requires 2 <= m && half == a + b && (m - 2 + 1) * b == (2 * m - 2 - (m - 2)) * a
    ensures m * (2 * half) == (4 * m - 2) * b
  {
    assert m * a == (m - 1) * b;
    assert m * half == m * a + m * b;
  }

  lemma Central(m: nat, before: nat, now: nat)
    requires 0 < m && Comb(2 * m - 2, m - 1) == before && m * now == (4 * m - 2) * before
    ensures Comb(2 * m, m) == now
  {
    CentralStep(m);
    EqualProducts(m, Comb(2 * m, m), now);
  }

  lemma EqualProducts(m: nat, x: nat, y: nat)
    requires 0 < m && m * x == m * y
    ensures x == y
  {
  }

  lemma Central33()
    ensures Comb(66, 33) == 7219428434016265740
  {
    hide Comb;
    CombOfNone();
    Central(1, 1, 2);
    Central(2, 2, 6);
    Central(3, 6, 20);
    Central(4, 20, 70);
    Central(5, 70, 252);
    Central(6, 252, 924);
    Central(7, 924, 3432);
    Central(8, 3432, 12870);
    Central(9, 12870, 48620);
    Central(10, 48620, 184756);
    Central(11, 184756, 705432);
    Central(12, 705432, 2704156);
    Central(13, 2704156, 10400600);
    Central(14, 10400600, 40116600);
    Central(15, 40116600, 155117520);
    Central(16, 155117520, 601080390);
    Central(17, 601080390, 2333606220);
    Central(18, 2333606220, 9075135300);
    Central(19, 9075135300, 35345263800);
    Central(20, 35345263800, 137846528820);
    Central(21, 137846528820, 538257874440);
    Central(22, 538257874440, 2104098963720);
    Central(23, 2104098963720, 8233430727600);
    Central(24, 8233430727600, 32247603683100);
    Central(25, 32247603683100, 126410606437752);
    Central(26, 126410606437752, 495918532948104);
    Central(27, 495918532948104, 1946939425648112);
    Central(28, 1946939425648112, 7648690600760440);
    Central(29, 7648690600760440, 30067266499541040);
    Central(30, 30067266499541040, 118264581564861424);
    Central(31, 118264581564861424, 465428353255261088);
    Central(32, 465428353255261088, 1832624140942590534);
    Central(33, 1832624140942590534, 7219428434016265740);
  }

  lemma CombOfNone()
    ensures Comb(0, 0) == 1
  {
  }

  /** Each row rises up to its middle and falls after it. */
  lemma Neighbours(n: nat, k: nat)
    requires k < n
    ensures 2 * k + 1 <= n ==> Comb(n, k) <= Comb(n, k + 1)
    ensures n <= 2 * k + 1 ==> Comb(n, k + 1) <= Comb(n, k)
  {
    CombAbsorbs(n, k);
    CompareProducts(k + 1, Comb(n, k + 1), n - k, Comb(n, k));
  }

  lemma CompareProducts(a: nat, x: nat, b: nat, y: nat)
    requires 0 < a && 0 < b && a * x == b * y
    ensures a <= b ==> y <= x
    ensures b <= a ==> x <= y
  {
    if a <= b {
      assert a * y <= b * y;
      FactorSign(a, x - y);
    }
    if b <= a {
      assert b * x <= a * x;
      FactorSign(b, y - x);
    }
  }

  lemma FactorSign(a: nat, z: int)
    requires 0 < a && 0 <= a * z
    ensures 0 <= z
  {
  }

  lemma {:induction false} Peak(m: nat, k: nat)
    requires k <= 2 * m
    ensures Comb(2 * m, k) <= Comb(2 * m, m)
    decreases if k <= m then m - k else k - m
  {
    if k < m {
      Neighbours(2 * m, k);
      Peak(m, k + 1);
    } else if m < k {
      Neighbours(2 * m, k - 1);
      Peak(m, k - 1);
    }
  }

  lemma {:induction false} CombGrows(n: nat, more: nat, k: nat)
    ensures Comb(n, k) <= Comb(n + more, k)
  {
    if more > 0 {
      CombGrows(n, more - 1, k);
      if k > 0 {
        Pascal(n + more - 1, k);
      }
    }
  }

  lemma UpTo66Fits(n: nat, k: nat)
    requires n <= 66
    ensures Comb(n, k) <= I64_MAX
  {
    if k <= n {
      CombGrows(n, 66 - n, k);
      Peak(33, k);
      Central33();
    }
  }

  lemma Row67DoesNot()
    ensures Comb(67, 33) > I64_MAX
  {
    hide Comb;
    Central33();
    CombAbsorbs(66, 32);
    Pascal(66, 33);
  }

  lemma Pow2Next(n: nat)
    ensures Pow2(0) == 1 && Pow2(n + 1) == 2 * Pow2(n)
  {
  }

  lemma DoubleRight(x: nat, y: nat)
    ensures x * (2 * y) == 2 * (x * y)
  {
  }

  lemma {:induction false} Pow2Adds(a: nat, b: nat)
    ensures Pow2(a + b) == Pow2(a) * Pow2(b)
  {
    hide Pow2;
    if b == 0 {
      Pow2Next(0);
    } else {
      Pow2Adds(a, b - 1);
      Pow2Next(a + b - 1);
      Pow2Next(b - 1);
      DoubleRight(Pow2(a), Pow2(b - 1));
    }
  }

  lemma Pow2Start()
    ensures Pow2(3) == 8 && Pow2(4) == 16
  {
  }

  lemma WidthOfI64()
    ensures I64_MAX + 1 == Pow2(63)
  {
    hide Pow2;
    Pow2Start();
    Pow2Adds(4, 4);
    Pow2Adds(8, 8);
    Pow2Adds(16, 16);
    Pow2Adds(32, 16);
    Pow2Adds(48, 8);
    Pow2Adds(56, 4);
    Pow2Adds(60, 3);
  }

  ghost predicate AllFit(n: nat) {
    forall i, j | 0 <= j <= i <= n :: Comb(i, j) <= I64_MAX
  }

  /** No entry up to row `n` leaves the range of `i64` exactly up to row 66. */
  lemma FitsIff(n: nat)
    ensures AllFit(n) <==> n <= 66
  {
    if n <= 66 {
      forall i, j | 0 <= j <= i <= n ensures Comb(i, j) <= I64_MAX {
        UpTo66Fits(i, j);
      }
    } else {
      Row67DoesNot();
    }
  }

  ghost function RowSum(n: nat, c: nat): nat {
    if c == 0 then 0 else RowSum(n, c - 1) + Comb(n, c - 1)
  }

  function Pow2(n: nat): nat {
    if n == 0 then 1 else 2 * Pow2(n - 1)
  }

  lemma {:induction false} RowSumDoubles(n: nat, c: nat)
    ensures RowSum(n + 1, c + 1) == RowSum(n, c + 1) + RowSum(n, c)
  {
    if c > 0 {
      RowSumDoubles(n, c - 1);
      Pascal(n, c);
    }
  }

  /** A row sums to a power of two, which therefore bounds each of its entries. */
  lemma {:induction false} RowSumIs(n: nat)
    ensures RowSum(n, n + 1) == RowSum(n, n + 2) == Pow2(n)
  {
    if n > 0 {
      RowSumIs(n - 1);
      RowSumDoubles(n - 1, n);
      assert Comb(n, n + 1) == 0;
    } else {
      assert RowSum(0, 1) == RowSum(0, 0) + Comb(0, 0);
      assert RowSum(0, 2) == RowSum(0, 1) + Comb(0, 1);
    }
  }

  // ----- the table -----

  ghost predicate RowsDone(dp: array2<int>, i: nat)
    requires i <= dp.Length0 <= dp.Length1
    reads dp
  {
    forall x, y | 0 <= x < i && 0 <= y <= x :: dp[x, y] == Comb(x, y)
  }

  ghost predicate IsTable(dp: array2<int>, n: nat)
    reads dp
  {
    dp.Length0 == dp.Length1 == n + 1 && RowsDone(dp, n + 1)
  }

  /** Fills the table row by row; gives up where an addition would leave the range of `i64`. */
  method CombTable(n: nat) returns (ok: bool, dp: array2<int>)
    ensures fresh(dp)
    ensures ok <==> n <= 66
    ensures ok ==> IsTable(dp, n)
  {
    FitsIff(n);
    dp := new int[n + 1, n + 1]((_, _) => 0);
    for i := 0 to n + 1
      invariant RowsDone(dp, i)
      invariant forall x, y | 0 <= x < i && 0 <= y <= x :: Comb(x, y) <= I64_MAX
    {
      for j := 0 to i + 1
        invariant RowsDone(dp, i)
        invariant forall y | 0 <= y < j :: dp[i, y] == Comb(i, y)
        invariant forall y | 0 <= y < j :: Comb(i, y) <= I64_MAX
      {
        if j == 0 || j == i {
          dp[i, j] := 1;
        } else {
          var sum := dp[i - 1, j - 1] + dp[i - 1, j];
          assert sum == Comb(i, j);
          if sum > I64_MAX {
            return false, dp;
          }
          dp[i, j] := sum;
        }
      }
    }
    ok := true;
  }

  // ----- the sum and the bisection -----

  /** The chance of losing at most `n - k` pieces. */
  function Keeps(n: nat, k: nat, p: real): real
    requires k <= n
  {
    Tail(n, n - k + 1, p)
  }

  method SumUp(n: nat, k: nat, comb: array2<int>, p: real) returns (sum: real)
    requires k <= n && IsTable(comb, n)
    ensures sum == Keeps(n, k, p)
  {
    sum := 0.0;
    for i := 0 to n - k + 1
      invariant sum == Tail(n, i, p)
    {
      AsProduct(n, i, p, comb[n, i]);
      sum := sum + comb[n, i] as real * Pow(p, i) * Pow(1.0 - p, n - i);
    }
  }

  lemma AsProduct(n: nat, i: nat, p: real, entry: int)
    requires i <= n && entry == Comb(n, i)
    ensures entry as real * Pow(p, i) * Pow(1.0 - p, n - i) == Term(n, i, p)
  {
    var a, x, y := entry as real, Pow(p, i), Pow(1.0 - p, n - i);
    assert a * x * y == a * (x * y);
  }

  lemma MoreThanOne(x: real, t: real)
    requires 0.0 < t < x * t
    ensures 1.0 < x
  {
  }

  lemma Halves(width: real, tolerance: real)
    requires 0.0 < tolerance < width
    ensures (width / 2.0 / tolerance).Floor < (width / tolerance).Floor
    ensures 0 <= (width / 2.0 / tolerance).Floor
  {
    var x := width / tolerance;
    assert width == x * tolerance;
    MoreThanOne(x, tolerance);
    assert width / 2.0 / tolerance == x / 2.0;
  }

  /** The width of the bracket that is left after a number of halvings. */
  ghost predicate HalvedTo(width: real, turns: nat) {
    width * Pow2(turns) as real == 1.0
  }

  lemma NotHalved()
    ensures HalvedTo(1.0, 0)
  {
  }

  lemma HalvedMeans(width: real, turns: nat)
    requires HalvedTo(width, turns)
    ensures width * Pow2(turns) as real == 1.0
  {
  }

  lemma HalvedAgain(width: real, turns: nat)
    requires HalvedTo(width, turns)
    ensures HalvedTo(width / 2.0, turns + 1)
  {
    var x := Pow2(turns) as real;
    assert Pow2(turns + 1) as real == 2.0 * x;
    assert width / 2.0 * (2.0 * x) == width * x;
  }

  /** `f` has at least the value asked for at the left end, and less at the right end, unless that end
      was never moved. */
  ghost predicate Brackets(n: nat, k: nat, sla: real, l: real, r: real)
    requires k <= n
  {
    && 0.0 <= l <= r <= 1.0
    && sla <= Keeps(n, k, l)
    && (Keeps(n, k, r) < sla || r == 1.0)
  }

  lemma AtZero(n: nat, k: nat)
    requires k <= n
    ensures Keeps(n, k, 0.0) == 1.0
  {
    TailEnds(n, n - k + 1);
  }

  /** Halves the bracket, once a turn, until it is no wider than the tolerance. */
  method Bisect(n: nat, k: nat, comb: array2<int>, sla: real, tolerance: real) returns (l: real, r: real, turns: nat)
    requires k <= n && IsTable(comb, n) && sla <= 1.0 && 0.0 < tolerance
    ensures Brackets(n, k, sla, l, r)
    ensures (r - l) * Pow2(turns) as real == 1.0
    ensures r - l <= tolerance && (0 < turns ==> tolerance < 2.0 * (r - l))
  {
    hide HalvedTo, Keeps;
    NotHalved();
    l, r, turns := 0.0, 1.0, 0;
    AtZero(n, k);
    while r - l > tolerance
      invariant Brackets(n, k, sla, l, r)
      invariant HalvedTo(r - l, turns)
      invariant 0 < turns ==> tolerance < 2.0 * (r - l)
      decreases ((r - l) / tolerance).Floor
    {
      var mid := (l + r) / 2.0;
      assert mid - l == (r - l) / 2.0 && r - mid == (r - l) / 2.0;
      Halves(r - l, tolerance);
      HalvedAgain(r - l, turns);
      turns := turns + 1;
      var y := SumUp(n, k, comb, mid);
      if y < sla {
        r := mid;
      } else {
        l := mid;
      }
    }
    HalvedMeans(r - l, turns);
  }

  /** The availability asked for by a number of nines. */
  function Nines(x: nat): real {
    1.0 - Pow(0.1, x)
  }

  /** No nines ask for nothing, and each further one leaves a tenth of what may be lost. */
  lemma NinesAre(x: nat)
    ensures Nines(0) == 0.0
    ensures 10.0 * (1.0 - Nines(x + 1)) == 1.0 - Nines(x)
  {
    var y := Pow(0.1, x);
    assert Pow(0.1, x + 1) == 0.1 * y;
  }

  lemma NinesBelowOne(x: nat)
    ensures 0.0 <= Nines(x) < 1.0
    ensures 0 < x ==> 0.0 < Nines(x)
  {
    PowBounds(0.1, x);
    if x > 0 {
      PowBounds(0.1, x - 1);
      var y := Pow(0.1, x - 1);
      assert Pow(0.1, x) == 0.1 * y;
    }
  }

  /**
   * Every failure chance up to the left end meets the agreement, and every one from the right end on
   * misses it, so the bracket holds the one chance at which the agreement is only just met.
   */
  lemma BracketIsSound(n: nat, k: nat, sla: real, l: real, r: real, p: real)
    requires 1 <= k <= n && 0.0 < sla && Brackets(n, k, sla, l, r) && IsChance(p)
    ensures p <= l ==> sla <= Keeps(n, k, p)
    ensures r <= p ==> Keeps(n, k, p) < sla
  {
    TailEnds(n, n - k + 1);
    if p <= l {
      TailFalls(n, n - k + 1, p, l);
    }
    if r <= p {
      TailFalls(n, n - k + 1, r, p);
    }
  }

  /** Two chances that keep exactly the same share of objects are the same chance. */
  lemma ThresholdIsUnique(n: nat, k: nat, p1: real, p2: real)
    requires 1 <= k <= n && IsChance(p1) && IsChance(p2) && Keeps(n, k, p1) == Keeps(n, k, p2)
    ensures p1 == p2
  {
    if p1 < p2 {
      TailFalls(n, n - k + 1, p1, p2);
    } else if p2 < p1 {
      TailFalls(n, n - k + 1, p2, p1);
    }
  }

  /** What is solved for is the chance that a rebuild succeeds. */
  lemma KeepsIsChanceOfRebuild(c: Codec.Codec, d: seq<Bytes>, after: L.Pattern -> L.Aftermath, p: real)
    requires c.k <= c.n && forall b: L.Pattern | |b| == c.n :: L.Leaves(after(b), b)
    ensures L.ChanceOfRebuild(c, d, L.Patterns(c.n), after, p) == Keeps(c.n, c.k, p)
  {
    hide L.Leaves, L.Patterns, L.ChanceOfRebuild, Tail;
    L.SumIsChanceOfRebuild(c, d, after, p);
  }

  /** From the code's parameters and the number of nines to the failure chance that may be tolerated. */
  method Solve(n: nat, k: nat, nines: nat, tolerance: real) returns (p: Option<real>)
    requires k <= n && 0.0 < tolerance
    ensures p.Some? <==> n <= 66
    ensures p.Some? ==> 0.0 <= p.value <= 1.0
    ensures p.Some? ==> forall x | 0.0 <= x <= p.value :: Nines(nines) <= Keeps(n, k, x)
    ensures p.Some? && 0 < nines && 0 < k ==>
              forall x | p.value + tolerance <= x <= 1.0 :: Keeps(n, k, x) < Nines(nines)
  {
    var ok, comb := CombTable(n);
    if !ok {
      return None;
    }
    NinesBelowOne(nines);
    var l, r, turns := Bisect(n, k, comb, Nines(nines), tolerance);
    forall x | 0.0 <= x <= l ensures Nines(nines) <= Keeps(n, k, x) {
      TailFalls(n, n - k + 1, x, l);
    }
    if 0 < nines && 0 < k {
      forall x | l + tolerance <= x <= 1.0 ensures Keeps(n, k, x) < Nines(nines) {
        BracketIsSound(n, k, Nines(nines), l, r, x);
      }
    }
    p := Some(l);
  }
}
