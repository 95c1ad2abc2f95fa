/** What the sum means: it adds up all the ways to lose pieces from which a rebuild still succeeds. */
module LossPatterns {
  import opened Types
  import opened Codec
  import opened Binomial
  import R = Rebuild

  /** For each piece whether it is lost. */
  type Pattern = seq<bool>

  function LostIn(b: Pattern): (k: nat)
    ensures k <= |b|
  {
    if b == [] then 0 else (if b[0] then 1 else 0) + LostIn(b[1..])
  }

  function Survivors(b: Pattern): set<nat> {
    set i: nat | i < |b| && !b[i]
  }

  /** The chance of exactly this pattern when every piece is lost independently with chance `p`. */
  function Chance(b: Pattern, p: real): real {
    if b == [] then 1.0 else (if b[0] then p else 1.0 - p) * Chance(b[1..], p)
  }

  function Prepend(x: bool, bs: seq<Pattern>): (r: seq<Pattern>)
    ensures |r| == |bs| && forall i | 0 <= i < |bs| :: r[i] == [x] + bs[i]
  {
    seq(|bs|, i requires 0 <= i < |bs| => [x] + bs[i])
  }

  /** All patterns for `n` pieces. */
  function Patterns(n: nat): seq<Pattern> {
    if n == 0 then [[]] else Prepend(false, Patterns(n - 1)) + Prepend(true, Patterns(n - 1))
  }

  lemma PatternsNext(n: nat)
    requires 0 < n
    ensures Patterns(n) == Prepend(false, Patterns(n - 1)) + Prepend(true, Patterns(n - 1))
  {
  }

  lemma {:induction false} PatternsFit(n: nat)
    ensures forall b | b in Patterns(n) :: |b| == n
  {
    if n > 0 {
      PatternsFit(n - 1);
    }
  }

  lemma PrependHas(x: bool, bs: seq<Pattern>, b: Pattern)
    requires b in bs
    ensures [x] + b in Prepend(x, bs)
  {
    var i :| 0 <= i < |bs| && bs[i] == b;
    assert Prepend(x, bs)[i] == [x] + b;
  }

  /** None is missing. */
  lemma {:induction false} PatternsComplete(n: nat, b: Pattern)
    ensures b in Patterns(n) <==> |b| == n
  {
    hide Patterns, Prepend;
    PatternsFit(n);
    if |b| == n {
      if n == 0 {
        FirstPatterns();
        assert b == [];
      } else {
        PatternsComplete(n - 1, b[1..]);
        PrependHas(b[0], Patterns(n - 1), b[1..]);
        assert b == [b[0]] + b[1..];
        PatternsNext(n);
      }
    }
  }

  lemma FirstPatterns()
    ensures Patterns(0) == [[]]
  {
  }

  lemma PrependDistinct(x: bool, bs: seq<Pattern>)
    requires Distinct(bs)
    ensures Distinct(Prepend(x, bs))
  {
    forall i, j | 0 <= i < j < |bs| ensures [x] + bs[i] != [x] + bs[j] {
      assert ([x] + bs[i])[1..] == bs[i] && ([x] + bs[j])[1..] == bs[j];
    }
  }

  /** None is listed twice. */
  lemma {:induction false} PatternsDistinct(n: nat)
    ensures Distinct(Patterns(n))
  {
    if n > 0 {
      PatternsDistinct(n - 1);
      var kept, lost := Prepend(false, Patterns(n - 1)), Prepend(true, Patterns(n - 1));
      PrependDistinct(false, Patterns(n - 1));
      PrependDistinct(true, Patterns(n - 1));
      forall i, j | 0 <= i < |kept| && 0 <= j < |lost| ensures kept[i] != lost[j] {
        assert !kept[i][0] && lost[j][0];
      }
    }
  }

  /** The total chance of the listed patterns that lose fewer than `c` pieces. */
  function Total(bs: seq<Pattern>, c: nat, p: real): real {
    if bs == [] then 0.0
    else (if LostIn(bs[0]) < c then Chance(bs[0], p) else 0.0) + Total(bs[1..], c, p)
  }

  lemma {:induction false} TotalAdds(xs: seq<Pattern>, ys: seq<Pattern>, c: nat, p: real)
    ensures Total(xs + ys, c, p) == Total(xs, c, p) + Total(ys, c, p)
  {
    hide Chance;
    if xs == [] {
      assert xs + ys == ys;
    } else {
      TotalAdds(xs[1..], ys, c, p);
      assert (xs + ys)[1..] == xs[1..] + ys;
    }
  }

  lemma ScaleAdds(q: real, x: real, y: real)
    ensures q * (x + y) == q * x + q * y
  {
  }

  lemma ChanceStep(x: bool, b: Pattern, p: real)
    ensures Chance([x] + b, p) == (if x then p else 1.0 - p) * Chance(b, p)
    ensures LostIn([x] + b) == (if x then 1 else 0) + LostIn(b)
  {
    assert ([x] + b)[1..] == b;
  }

  lemma {:induction false} TotalPrepend(x: bool, bs: seq<Pattern>, c: nat, p: real)
    ensures Total(Prepend(x, bs), c + 1, p) == (if x then p * Total(bs, c, p) else (1.0 - p) * Total(bs, c + 1, p))
  {
    hide Chance, LostIn;
    if bs != [] {
      var q := if x then p else 1.0 - p;
      var c' := if x then c else c + 1;
      assert Prepend(x, bs)[0] == [x] + bs[0];
      assert Prepend(x, bs)[1..] == Prepend(x, bs[1..]);
      TotalPrepend(x, bs[1..], c, p);
      ChanceStep(x, bs[0], p);
      ScaleAdds(q, if LostIn(bs[0]) < c' then Chance(bs[0], p) else 0.0, Total(bs[1..], c', p));
    }
  }

  lemma {:induction false} TotalOfNone(bs: seq<Pattern>, p: real)
    ensures Total(bs, 0, p) == 0.0
  {
    if bs != [] {
      TotalOfNone(bs[1..], p);
    }
  }

  /** Adding up the binomial terms adds up exactly the patterns that lose few enough pieces. */
  lemma {:induction false} TailAddsPatterns(n: nat, c: nat, p: real)
    ensures Total(Patterns(n), c, p) == Tail(n, c, p)
  {
    hide Tail, Mix, Total, Patterns, Prepend;
    if c == 0 {
      TotalOfNone(Patterns(n), p);
      TailIsZero(n, p);
    } else if n == 0 {
      TailOfNone(c, p);
      OnlyPattern(c, p);
    } else {
      TailAddsPatterns(n - 1, c, p);
      TailAddsPatterns(n - 1, c - 1, p);
      TailSplits(n - 1, c - 1, p);
      MixIs(p, Tail(n - 1, c, p), Tail(n - 1, c - 1, p));
      PatternsNext(n);
      TotalAdds(Prepend(false, Patterns(n - 1)), Prepend(true, Patterns(n - 1)), c, p);
      TotalPrepend(false, Patterns(n - 1), c - 1, p);
      TotalPrepend(true, Patterns(n - 1), c - 1, p);
    }
  }

  lemma TailIsZero(n: nat, p: real)
    ensures Tail(n, 0, p) == 0.0
  {
  }

  lemma MixIs(p: real, a: real, b: real)
    ensures Mix(p, a, b) == (1.0 - p) * a + p * b
  {
  }

  lemma OnlyPattern(c: nat, p: real)
    requires 0 < c
    ensures Total(Patterns(0), c, p) == 1.0
  {
    var none: Pattern := [];
    assert Patterns(0) == [none];
    assert [none][1..] == [];
    assert Total([none], c, p) == Chance(none, p) + Total([none][1..], c, p);
  }

  /** A table entry counts the patterns with that many losses. */
  function CountLosing(bs: seq<Pattern>, i: int): nat {
    if bs == [] then 0 else (if LostIn(bs[0]) == i then 1 else 0) + CountLosing(bs[1..], i)
  }

  lemma {:induction false} CountAdds(xs: seq<Pattern>, ys: seq<Pattern>, i: int)
    ensures CountLosing(xs + ys, i) == CountLosing(xs, i) + CountLosing(ys, i)
  {
    if xs == [] {
      assert xs + ys == ys;
    } else {
      CountAdds(xs[1..], ys, i);
      assert (xs + ys)[1..] == xs[1..] + ys;
    }
  }

  lemma {:induction false} CountPrepend(x: bool, bs: seq<Pattern>, i: int)
    ensures CountLosing(Prepend(x, bs), i) == CountLosing(bs, if x then i - 1 else i)
  {
    if bs != [] {
      assert Prepend(x, bs)[1..] == Prepend(x, bs[1..]);
      assert ([x] + bs[0])[1..] == bs[0];
      CountPrepend(x, bs[1..], i);
    }
  }

  lemma {:induction false} CountNegative(bs: seq<Pattern>, i: int)
    requires i < 0
    ensures CountLosing(bs, i) == 0
  {
    if bs != [] {
      CountNegative(bs[1..], i);
    }
  }

  lemma CountFirst(i: int)
    ensures CountLosing(Patterns(0), i) == if i == 0 then 1 else 0
  {
    var none: Pattern := [];
    assert [none][1..] == [];
    assert CountLosing([none], i) == (if LostIn(none) == i then 1 else 0) + CountLosing([none][1..], i);
  }

  lemma {:induction false} CombCountsPatterns(n: nat, i: nat)
    ensures CountLosing(Patterns(n), i) == Comb(n, i)
  {
    hide CountLosing, Patterns, Prepend;
    if n == 0 {
      CountFirst(i);
    } else {
      PatternsNext(n);
      CountAdds(Prepend(false, Patterns(n - 1)), Prepend(true, Patterns(n - 1)), i);
      CountPrepend(false, Patterns(n - 1), i);
      CountPrepend(true, Patterns(n - 1), i);
      CombCountsPatterns(n - 1, i);
      if i > 0 {
        CombCountsPatterns(n - 1, i - 1);
        Pascal(n - 1, i);
      } else {
        CountNegative(Patterns(n - 1), -1);
      }
    }
  }

  // ----- the patterns that count are those a rebuild survives -----

  lemma {:induction false} SurvivorCount(b: Pattern)
    ensures |Survivors(b)| == |b| - LostIn(b)
  {
    if b == [] {
      assert Survivors(b) == {};
    } else {
      var init, last := b[..|b| - 1], b[|b| - 1];
      SurvivorCount(init);
      assert b == init + [last];
      LostAtEnd(init, last);
      assert Survivors(b) == Survivors(init) + (if last then {} else {|b| - 1});
    }
  }

  lemma {:induction false} LostAtEnd(b: Pattern, x: bool)
    ensures LostIn(b + [x]) == LostIn(b) + if x then 1 else 0
  {
    if b == [] {
      assert (b + [x])[1..] == [];
    } else {
      assert (b + [x])[1..] == b[1..] + [x];
      LostAtEnd(b[1..], x);
    }
  }

  /** What a rebuild meets after a loss: the pieces that the nodes still store, and the members' replies. */
  datatype Aftermath = Aftermath(stores: R.Stores, answering: set<Uri>, replies: seq<R.Reply>)

  /** The nodes that answer hold between them exactly the pieces that survive in `b`. */
  ghost predicate Leaves(after: Aftermath, b: Pattern) {
    && R.RepliesFrom(after.stores, after.answering, after.replies)
    && R.Supplied(after.stores, after.answering) == Survivors(b)
  }

  predicate RebuildWorks(c: Codec, d: seq<Bytes>, after: Aftermath) {
    R.Outcome(c, d, after.replies, after.replies, true, true).Ok?
  }

  /** The total chance of the listed patterns after which a rebuild succeeds. */
  function ChanceOfRebuild(c: Codec, d: seq<Bytes>, bs: seq<Pattern>, after: Pattern -> Aftermath, p: real): real {
    if bs == [] then 0.0
    else
      (if RebuildWorks(c, d, after(bs[0])) then Chance(bs[0], p) else 0.0)
      + ChanceOfRebuild(c, d, bs[1..], after, p)
  }

  /** A rebuild, with or without parity, succeeds exactly if at least `k` pieces survive. */
  lemma RebuildSurvives(c: Codec, d: seq<Bytes>, after: Aftermath, b: Pattern, withParity: bool)
    requires |b| == c.n && Leaves(after, b)
    ensures R.Outcome(c, d, after.replies, after.replies, withParity, true).Ok? <==> RebuildWorks(c, d, after)
    ensures RebuildWorks(c, d, after) <==> c.k <= |Survivors(b)|
    ensures RebuildWorks(c, d, after) <==> LostIn(b) + c.k <= c.n
  {
    hide R.RepliesFrom, R.Supplied;
    R.RepliesSupply(after.stores, after.answering, after.replies);
    SurvivorCount(b);
  }

  lemma {:induction false} RebuildIsTotal(
    c: Codec, d: seq<Bytes>, bs: seq<Pattern>, after: Pattern -> Aftermath, p: real)
    requires c.k <= c.n && forall b | b in bs :: |b| == c.n && Leaves(after(b), b)
    ensures ChanceOfRebuild(c, d, bs, after, p) == Total(bs, c.n - c.k + 1, p)
  {
    hide Chance, Leaves, RebuildWorks;
    if bs != [] {
      RebuildSurvives(c, d, after(bs[0]), bs[0], true);
      RebuildIsTotal(c, d, bs[1..], after, p);
    }
  }

  /** The calculator's sum is the chance that a rebuild succeeds. `Patterns` lists every way to lose pieces once,
      and whatever the nodes are left with after each, the patterns after which `Rebuild` succeeds add up to
      the sum. */
  lemma SumIsChanceOfRebuild(c: Codec, d: seq<Bytes>, after: Pattern -> Aftermath, p: real)
    requires c.k <= c.n && forall b: Pattern | |b| == c.n :: Leaves(after(b), b)
    ensures Distinct(Patterns(c.n)) && forall b: Pattern :: b in Patterns(c.n) <==> |b| == c.n
    ensures ChanceOfRebuild(c, d, Patterns(c.n), after, p) == Tail(c.n, c.n - c.k + 1, p)
  {
    hide Patterns, Leaves;
    PatternsDistinct(c.n);
    forall b: Pattern ensures b in Patterns(c.n) <==> |b| == c.n {
      PatternsComplete(c.n, b);
    }
    RebuildIsTotal(c, d, Patterns(c.n), after, p);
    TailAddsPatterns(c.n, c.n - c.k + 1, p);
  }
}
