/** The numbers computed from a list of samples, and how they bound each other. */
module SampleTheory {
  import opened Lists
  import opened RealSums
  import opened Sorting

  function Mean(s: seq<real>): real {
    if s == [] then 0.0 else SumOf(Itself(), s) / (|s| as real)
  }

  /** The middle of a sorted list: one element, or the average of two. */
  function MiddleOf(t: seq<real>): real
    requires t != []
  {
    var n := |t|;
    if n % 2 == 0 then (t[n / 2 - 1] + t[n / 2]) / 2.0 else t[n / 2]
  }

  function Median(s: seq<real>): real {
    if s == [] then 0.0 else SortedOfIsSorted(s); MiddleOf(SortedOf(s))
  }

  /** The sample variance, with denominator n - 1. */
  function Variance(s: seq<real>): real {
    if |s| <= 1 then 0.0 else SumOf(SquareFrom(Mean(s)), s) / ((|s| - 1) as real)
  }

  function MinOf(s: seq<real>): (m: real)
    requires s != []
    ensures exists i | 0 <= i < |s| :: s[i] == m
    ensures forall i | 0 <= i < |s| :: m <= s[i]
  {
    if |s| == 1 then s[0]
    else var m := MinOf(s[..|s| - 1]); if s[|s| - 1] < m then s[|s| - 1] else m
  }

  function MaxOf(s: seq<real>): (m: real)
    requires s != []
    ensures exists i | 0 <= i < |s| :: s[i] == m
    ensures forall i | 0 <= i < |s| :: s[i] <= m
  {
    if |s| == 1 then s[0]
    else var m := MaxOf(s[..|s| - 1]); if s[|s| - 1] > m then s[|s| - 1] else m
  }

  /** Largest minus smallest; zero when there is nothing to compare. */
  function Range(s: seq<real>): (r: real)
    ensures r >= 0.0
  {
    if |s| < 2 then 0.0 else MaxOf(s) - MinOf(s)
  }

  /** r is the non-negative square root of v. */
  predicate IsRoot(r: real, v: real) {
    r >= 0.0 && Square(r) == v
  }

  /** `math.Sqrt`, as far as the statistics rely on it. */
  ghost predicate IsSquareRoot(sqrt: real -> real) {
    forall v: real | v >= 0.0 :: IsRoot(sqrt(v), v)
  }

  // ----- the median minimises the total distance, the mean the total square

  /** Any point between lo and hi has the least total distance to both. */
  lemma EndsMinimiseDistance(lo: real, hi: real, m: real, c: real)
    requires lo <= m <= hi
    ensures DistanceTo(m)(lo) + DistanceTo(m)(hi) <= DistanceTo(c)(lo) + DistanceTo(c)(hi)
  {
    assert DistanceTo(m)(lo) == m - lo && DistanceTo(m)(hi) == hi - m;
    assert DistanceTo(c)(lo) == Abs(lo - c) && DistanceTo(c)(hi) == Abs(hi - c);
  }

  lemma PeelBothEnds(f: real -> real, t: seq<real>)
    requires |t| >= 2
    ensures SumOf(f, t) == f(t[0]) + SumOf(f, t[1..|t| - 1]) + f(t[|t| - 1])
  {
    SumOfFront(f, t);
    SumOfLast(f, t[1..]);
    assert t[1..][..|t| - 2] == t[1..|t| - 1];
  }

  /** A centre between the two ends only has to beat c on what lies between. */
  lemma PeeledDistance(t: seq<real>, m: real, c: real)
    requires |t| >= 2 && t[0] <= m <= t[|t| - 1]
    requires SumOf(DistanceTo(m), t[1..|t| - 1]) <= SumOf(DistanceTo(c), t[1..|t| - 1])
    ensures SumOf(DistanceTo(m), t) <= SumOf(DistanceTo(c), t)
  {
    PeelBothEnds(DistanceTo(m), t);
    PeelBothEnds(DistanceTo(c), t);
    EndsMinimiseDistance(t[0], t[|t| - 1], m, c);
  }

  lemma SingleDistance(t: seq<real>, c: real)
    requires |t| == 1
    ensures SumOf(DistanceTo(t[0]), t) <= SumOf(DistanceTo(c), t)
  {
    SumOfOne(DistanceTo(t[0]), t);
    SumOfOne(DistanceTo(c), t);
    assert SumOf(DistanceTo(t[0]), t) == Abs(t[0] - t[0]) == 0.0;
    assert SumOf(DistanceTo(c), t) == Abs(t[0] - c);
  }

  /** Peeling the smallest and largest element off keeps the middle. */
  lemma {:induction false} MiddleMinimisesDistance(t: seq<real>, c: real)
    requires t != [] && Sorted(t)
    ensures SumOf(DistanceTo(MiddleOf(t)), t) <= SumOf(DistanceTo(c), t)
    decreases |t|
  {
    var n := |t|;
    if n == 1 {
      SingleDistance(t, c);
    } else {
      var inner := t[1..n - 1];
      if n == 2 {
        assert inner == [];
      } else {
        assert forall i | 0 <= i < n - 2 :: inner[i] == t[i + 1];
        assert MiddleOf(inner) == MiddleOf(t);
        MiddleMinimisesDistance(inner, c);
      }
      PeeledDistance(t, MiddleOf(t), c);
    }
  }

  lemma MedianMinimisesDistance(s: seq<real>, c: real)
    ensures SumOf(DistanceTo(Median(s)), s) <= SumOf(DistanceTo(c), s)
  {
    if s == [] {
    } else {
      SortedOfIsSorted(s);
      SumOfPermutation(DistanceTo(c), s, SortedOf(s));
      SumOfPermutation(DistanceTo(Median(s)), s, SortedOf(s));
      MiddleMinimisesDistance(SortedOf(s), c);
    }
  }

  lemma MeanBalances(s: seq<real>)
    ensures SumOf(Itself(), s) == Times(|s|, Mean(s))
  {
  }

  lemma CentreMinimisesSquares(s: seq<real>, m: real, c: real)
    requires SumOf(Itself(), s) == Times(|s|, m)
    ensures SumOf(SquareFrom(m), s) <= SumOf(SquareFrom(c), s)
  {
    SquaresExpanded(s, m);
    SquaresExpanded(s, c);
    ExpandedLeastAtMean(SumOf(SquareFrom(0.0), s), SumOf(Itself(), s), |s|, m, c);
  }

  lemma MeanMinimisesSquares(s: seq<real>, c: real)
    ensures SumOf(SquareFrom(Mean(s)), s) <= SumOf(SquareFrom(c), s)
  {
    MeanBalances(s);
    CentreMinimisesSquares(s, Mean(s), c);
  }

  // ----- mean and median are within one standard deviation of each other

  lemma TimesDistance(n: nat, m: real, d: real)
    ensures Abs(Times(n, m) - Times(n, d)) == Times(n, Abs(m - d))
  {
    TimesSum(n, m, d);
    TimesSum(n, d, m);
    TimesNotNegative(n, Abs(m - d));
  }

  lemma DistanceOfCentres(s: seq<real>, m: real, d: real)
    requires SumOf(Itself(), s) == Times(|s|, m)
    requires SumOf(DistanceTo(d), s) <= SumOf(DistanceTo(m), s)
    ensures Times(|s|, Abs(m - d)) <= SumOf(DistanceTo(m), s)
  {
    TriangleInequality(s, d);
    TimesDistance(|s|, m, d);
  }

  /** n |mean - median| is at most the total distance to the mean. */
  lemma MeanMedianDistance(s: seq<real>)
    ensures Times(|s|, Abs(Mean(s) - Median(s))) <= SumOf(DistanceTo(Mean(s)), s)
  {
    MeanBalances(s);
    MedianMinimisesDistance(s, Mean(s));
    DistanceOfCentres(s, Mean(s), Median(s));
  }

  lemma ScaledSquareBound(n: nat, x: real, a: real, q: real)
    requires n >= 2 && 0.0 <= x && Times(n, x) <= a && Square(a) <= Times(n, q)
    ensures Times(n - 1, Square(x)) <= q
  {
    TimesNotNegative(n, x);
    SquareMonotone(Times(n, x), a);
    assert Square(Times(n, x)) == Times(n, Times(n, Square(x)));
    TimesOrder(n, Times(n, Square(x)), q);
    TimesSuccessor(n - 1, Square(x));
    SquareNotNegative(x);
  }

  lemma VarianceTimes(s: seq<real>)
    requires |s| >= 2
    ensures Times(|s| - 1, Variance(s)) == SumOf(SquareFrom(Mean(s)), s)
  {
  }

  lemma SingleSample(s: seq<real>)
    requires |s| == 1
    ensures Mean(s) == s[0] && Median(s) == s[0]
  {
    SumOfOne(Itself(), s);
    assert s[..0] == [];
    assert SortedOf(s) == Insert(s[0], []) == [s[0]];
  }

  /** (mean - median)^2 <= sample variance, for every list of samples. */
  lemma MeanMedianBound(s: seq<real>)
    ensures Square(Abs(Mean(s) - Median(s))) <= Variance(s)
  {
    if |s| == 0 {
    } else if |s| == 1 {
      SingleSample(s);
    } else {
      var x := Abs(Mean(s) - Median(s));
      MeanMedianDistance(s);
      CauchySchwarz(s, Mean(s));
      ScaledSquareBound(|s|, x, SumOf(DistanceTo(Mean(s)), s), SumOf(SquareFrom(Mean(s)), s));
      VarianceTimes(s);
      TimesOrder(|s| - 1, Square(x), Variance(s));
    }
  }

  /** |mean - median| <= sample standard deviation. */
  lemma MeanMedianWithinDeviation(s: seq<real>, deviation: real)
    requires IsRoot(deviation, Variance(s))
    ensures Abs(Mean(s) - Median(s)) <= deviation
  {
    MeanMedianBound(s);
    RootOrder(Abs(Mean(s) - Median(s)), deviation);
  }

  // ----- range and deviation bound each other

  lemma DeviationsNotNegative(s: seq<real>, m: real)
    ensures forall i | 0 <= i < |s| :: SquareFrom(m)(s[i]) >= 0.0
  {
    forall i | 0 <= i < |s| ensures SquareFrom(m)(s[i]) >= 0.0 {
      SquareNotNegative(s[i] - m);
    }
  }

  lemma PairTotal(s: seq<real>, m: real, i: nat, j: nat)
    requires i < |s| && j < |s| && i != j
    ensures Square(s[i] - m) + Square(s[j] - m) <= SumOf(SquareFrom(m), s)
  {
    DeviationsNotNegative(s, m);
    if i < j {
      TwoTerms(SquareFrom(m), s, i, j);
    } else {
      TwoTerms(SquareFrom(m), s, j, i);
    }
  }

  lemma TwoSquares(x: real, y: real, m: real)
    ensures Square(x - y) <= 2.0 * (Square(x - m) + Square(y - m))
  {
    var u, v := x - m, y - m;
    assert x - y == u - v;
    SquareNotNegative(u + v);
    assert Square(u - v) + Square(u + v) == 2.0 * (Square(u) + Square(v));
  }

  /** range^2 <= 2 (n - 1) variance: the two extremes alone deviate that much. */
  lemma RangeBelowDeviation(s: seq<real>)
    requires |s| >= 2
    ensures Square(Range(s)) <= 2.0 * Times(|s| - 1, Variance(s))
  {
    var m := Mean(s);
    VarianceTimes(s);
    var i :| 0 <= i < |s| && s[i] == MaxOf(s);
    var j :| 0 <= j < |s| && s[j] == MinOf(s);
    if i == j {
      DeviationsNotNegative(s, m);
      SumOfNonNegative(SquareFrom(m), s);
      assert Range(s) == 0.0;
    } else {
      PairTotal(s, m, i, j);
      TwoSquares(s[i], s[j], m);
    }
  }

  lemma SquaresWithin(s: seq<real>, c: real, h: real)
    requires forall i | 0 <= i < |s| :: Abs(s[i] - c) <= h
    ensures SumOf(SquareFrom(c), s) <= Times(|s|, Square(h))
  {
    forall i | 0 <= i < |s| ensures SquareFrom(c)(s[i]) <= Square(h) {
      SquareMonotone(Abs(s[i] - c), h);
      SquareOfAbs(s[i] - c);
    }
    SumOfBounded(SquareFrom(c), s, Square(h));
  }

  lemma SquaresWithinRange(s: seq<real>, lo: real, r: real)
    requires forall i | 0 <= i < |s| :: lo <= s[i] <= lo + r
    ensures SumOf(SquareFrom(lo + r / 2.0), s) <= Times(|s|, Square(r / 2.0))
  {
    SquaresWithin(s, lo + r / 2.0, r / 2.0);
  }

  /** Popoviciu: (n - 1) variance <= n (range / 2)^2. */
  lemma DeviationBelowRange(s: seq<real>)
    requires |s| >= 2
    ensures Times(|s| - 1, Variance(s)) <= Times(|s|, Square(Range(s) / 2.0))
  {
    SquaresWithinRange(s, MinOf(s), Range(s));
    MeanMinimisesSquares(s, MinOf(s) + Range(s) / 2.0);
    VarianceTimes(s);
  }

  lemma VarianceNotNegative(s: seq<real>)
    ensures Variance(s) >= 0.0
  {
    if |s| >= 2 {
      RangeBelowDeviation(s);
      SquareNotNegative(Range(s));
      assert Times(|s| - 1, 0.0) == 0.0;
      TimesOrder(|s| - 1, 0.0, Variance(s));
    }
  }

  lemma DeviationAtMostRange(n: nat, v: real, r: real)
    requires n >= 2 && Times(n - 1, v) <= Times(n, Square(r / 2.0))
    ensures v <= Square(r) / 2.0
  {
    var h := Square(r / 2.0);
    SquareNotNegative(r / 2.0);
    TimesSuccessor(n - 1, h);
    TimesSuccessor(n - 2, h);
    TimesNotNegative(n - 2, h);
    TimesSum(n - 1, h, h);
    TimesOrder(n - 1, v, h + h);
    assert h + h == Square(r) / 2.0;
  }

  /** Both bounds, for the deviation itself. */
  lemma RangeDeviationBounds(s: seq<real>, deviation: real)
    requires |s| >= 2 && IsRoot(deviation, Variance(s))
    ensures Square(Range(s)) <= 2.0 * Times(|s| - 1, Square(deviation))
    ensures Times(|s| - 1, Square(deviation)) <= Times(|s|, Square(Range(s) / 2.0))
  {
    RangeBelowDeviation(s);
    DeviationBelowRange(s);
  }

  /** One is zero exactly when the other is, the deviation is never larger, and
      for two samples both bounds are attained. */
  lemma RangeAgainstDeviation(s: seq<real>, deviation: real)
    requires IsRoot(deviation, Variance(s))
    ensures deviation <= Range(s)
    ensures deviation == 0.0 <==> Range(s) == 0.0
    ensures |s| == 2 ==> Square(Range(s)) == 2.0 * Square(deviation)
  {
    if |s| < 2 {
      ZeroSquare(deviation);
    } else {
      RangeBelowDeviation(s);
      DeviationBelowRange(s);
      DeviationAtMostRange(|s|, Variance(s), Range(s));
      SquareNotNegative(Range(s));
      RootOrder(deviation, Range(s));
      if deviation == 0.0 {
        assert Times(|s| - 1, 0.0) == 0.0;
        ZeroSquare(Range(s));
      }
      TimesSuccessor(0, Variance(s));
    }
  }

  // ----- order does not matter, and a common shift moves only the location

  lemma ExtremesWithin(a: seq<real>, b: seq<real>)
    requires a != [] && b != [] && multiset(a) == multiset(b)
    ensures MinOf(b) <= MinOf(a) && MaxOf(a) <= MaxOf(b)
  {
    var i :| 0 <= i < |a| && a[i] == MinOf(a);
    var j :| 0 <= j < |a| && a[j] == MaxOf(a);
    var i' := PositionOf(b, a[i]);
    var j' := PositionOf(b, a[j]);
  }

  lemma PermutationInvariance(a: seq<real>, b: seq<real>)
    requires multiset(a) == multiset(b)
    ensures |a| == |b| && Mean(a) == Mean(b) && Median(a) == Median(b)
    ensures Variance(a) == Variance(b) && Range(a) == Range(b)
  {
    SameLength(a, b);
    SumOfPermutation(Itself(), a, b);
    SortedOfPermutation(a, b);
    SumOfPermutation(SquareFrom(Mean(a)), a, b);
    if a != [] {
      ExtremesWithin(a, b);
      ExtremesWithin(b, a);
    }
  }

  function Shifted(s: seq<real>, d: real): (t: seq<real>)
    ensures |t| == |s|
    ensures forall i | 0 <= i < |s| :: t[i] == s[i] + d
  {
    seq(|s|, i requires 0 <= i < |s| => s[i] + d)
  }

  lemma ShiftedPrefix(s: seq<real>, d: real)
    requires s != []
    ensures Shifted(s, d)[..|s| - 1] == Shifted(s[..|s| - 1], d)
  {
  }

  lemma {:induction false} ShiftedSum(s: seq<real>, d: real)
    ensures SumOf(Itself(), Shifted(s, d)) == SumOf(Itself(), s) + Times(|s|, d)
  {
    if s == [] {
    } else {
      ShiftedPrefix(s, d);
      ShiftedSum(s[..|s| - 1], d);
      TimesSuccessor(|s| - 1, d);
    }
  }

  lemma ShiftedSquares(s: seq<real>, c: real, d: real)
    ensures SumOf(SquareFrom(c + d), Shifted(s, d)) == SumOf(SquareFrom(c), s)
  {
    var t := Shifted(s, d);
    forall i | 0 <= i < |s| ensures SquareFrom(c + d)(t[i]) == SquareFrom(c)(s[i]) {
      assert t[i] - (c + d) == s[i] - c;
    }
    SumOfCongruent(SquareFrom(c + d), t, SquareFrom(c), s);
  }

  lemma ShiftedAppend(t: seq<real>, y: real, d: real)
    ensures Shifted(t + [y], d) == Shifted(t, d) + [y + d]
  {
  }

  lemma {:induction false} ShiftedInsert(x: real, t: seq<real>, d: real)
    ensures Insert(x + d, Shifted(t, d)) == Shifted(Insert(x, t), d)
  {
    if t == [] || t[|t| - 1] <= x {
      ShiftedAppend(t, x, d);
    } else {
      var front, last := t[..|t| - 1], t[|t| - 1];
      ShiftedPrefix(t, d);
      ShiftedInsert(x, front, d);
      ShiftedAppend(Insert(x, front), last, d);
      assert Insert(x + d, Shifted(t, d)) == Insert(x + d, Shifted(front, d)) + [last + d];
    }
  }

  lemma SortedOfLast(s: seq<real>, front: seq<real>, last: real)
    requires s != [] && front == s[..|s| - 1] && last == s[|s| - 1]
    ensures SortedOf(s) == Insert(last, SortedOf(front))
  {
  }

  lemma {:induction false} ShiftedSort(s: seq<real>, d: real)
    ensures SortedOf(Shifted(s, d)) == Shifted(SortedOf(s), d)
  {
    if s == [] {
    } else {
      var t, front, last := Shifted(s, d), s[..|s| - 1], s[|s| - 1];
      ShiftedPrefix(s, d);
      SortedOfLast(s, front, last);
      SortedOfLast(t, Shifted(front, d), last + d);
      ShiftedSort(front, d);
      ShiftedInsert(last, SortedOf(front), d);
    }
  }

  lemma ShiftedMean(s: seq<real>, d: real)
    requires s != []
    ensures Mean(Shifted(s, d)) == Mean(s) + d
  {
    ShiftedSum(s, d);
    MeanBalances(s);
    MeanBalances(Shifted(s, d));
    TimesSum(|s|, Mean(s), d);
    TimesOrder(|s|, Mean(Shifted(s, d)), Mean(s) + d);
    TimesOrder(|s|, Mean(s) + d, Mean(Shifted(s, d)));
  }

  lemma ShiftedMedian(s: seq<real>, d: real)
    requires s != []
    ensures Median(Shifted(s, d)) == Median(s) + d
  {
    ShiftedSort(s, d);
    SortedOfIsSorted(s);
    var t, u := SortedOf(s), SortedOf(Shifted(s, d));
    assert u[|t| / 2] == t[|t| / 2] + d;
    assert |t| % 2 == 0 ==> u[|t| / 2 - 1] == t[|t| / 2 - 1] + d;
  }

  lemma ShiftedVariance(s: seq<real>, d: real)
    ensures Variance(Shifted(s, d)) == Variance(s)
  {
    if |s| >= 2 {
      ShiftedMean(s, d);
      ShiftedSquares(s, Mean(s), d);
    }
  }
}
