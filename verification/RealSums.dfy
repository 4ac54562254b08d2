/** Finite sums of a real function over a list, as the accumulator loops of the
    statistics code compute them. */
module RealSums {
  import opened Lists

  /** f(s[0]) + ... + f(s[|s|-1]), added from left to right. */
  function SumOf(f: real -> real, s: seq<real>): real {
    if s == [] then 0.0 else SumOf(f, s[..|s| - 1]) + f(s[|s| - 1])
  }

  function Itself(): real -> real { x => x }

  function Abs(x: real): (r: real)
    ensures r >= 0.0 && (r == x || r == -x)
  {
    if x < 0.0 then -x else x
  }

  function Square(x: real): real { x * x }

  /** n copies of x, added up. */
  function Times(n: nat, x: real): real { (n as real) * x }

  /** The distance to c. */
  function DistanceTo(c: real): real -> real { x => Abs(x - c) }

  /** The squared distance to c. */
  function SquareFrom(c: real): real -> real { x => Square(x - c) }

  // ----- squares and multiples

  lemma SquareNotNegative(x: real)
    ensures Square(x) >= 0.0
  {
  }

  lemma SquareOfAbs(x: real)
    ensures Square(Abs(x)) == Square(x)
  {
  }

  lemma SquareMonotone(x: real, y: real)
    requires 0.0 <= x <= y
    ensures Square(x) <= Square(y)
  {
  }

  lemma SquareStrict(x: real, y: real)
    requires 0.0 <= x < y
    ensures Square(x) < Square(y)
  {
    assert y * y - x * x == (y - x) * (y + x);
    ProductPositive(y - x, y + x);
  }

  lemma ProductPositive(x: real, y: real)
    requires 0.0 < x && 0.0 < y
    ensures 0.0 < x * y
  {
  }

  /** Comparing two non-negative numbers by their squares. */
  lemma RootOrder(x: real, r: real)
    requires x >= 0.0 && r >= 0.0 && Square(x) <= Square(r)
    ensures x <= r
  {
    if r < x {
      SquareStrict(r, x);
    }
  }

  lemma ZeroSquare(x: real)
    requires Square(x) <= 0.0
    ensures x == 0.0
  {
    if x > 0.0 {
      SquareStrict(0.0, x);
    } else if x < 0.0 {
      SquareStrict(0.0, -x);
    }
  }

  lemma TimesSuccessor(n: nat, x: real)
    ensures Times(n + 1, x) == Times(n, x) + x
  {
  }

  lemma TimesNotNegative(n: nat, x: real)
    requires x >= 0.0
    ensures Times(n, x) >= 0.0
  {
  }

  lemma TimesSum(n: nat, x: real, y: real)
    ensures Times(n, x + y) == Times(n, x) + Times(n, y)
    ensures Times(n, x - y) == Times(n, x) - Times(n, y)
  {
  }

  lemma TimesOrder(n: nat, x: real, y: real)
    requires n > 0 && Times(n, x) <= Times(n, y)
    ensures x <= y
  {
    if x > y {
      ProductPositive(n as real, x - y);
    }
  }

  // ----- sums in general

  lemma SumOfLast(f: real -> real, s: seq<real>)
    requires s != []
    ensures SumOf(f, s) == SumOf(f, s[..|s| - 1]) + f(s[|s| - 1])
  {
  }

  lemma SumOfOne(f: real -> real, s: seq<real>)
    requires |s| == 1
    ensures SumOf(f, s) == f(s[0])
  {
    assert s[..0] == [];
    SumOfLast(f, s);
  }

  lemma {:induction false} SumOfAppend(f: real -> real, a: seq<real>, b: seq<real>)
    ensures SumOf(f, a + b) == SumOf(f, a) + SumOf(f, b)
  {
    if b == [] {
      assert a + b == a;
    } else {
      var n := |b| - 1;
      assert (a + b)[..|a + b| - 1] == a + b[..n];
      SumOfAppend(f, a, b[..n]);
    }
  }

  lemma SumOfFront(f: real -> real, s: seq<real>)
    requires s != []
    ensures SumOf(f, s) == f(s[0]) + SumOf(f, s[1..])
  {
    assert s == [s[0]] + s[1..];
    SumOfAppend(f, [s[0]], s[1..]);
    SumOfOne(f, [s[0]]);
  }

  /** Taking the element at i out takes its summand away and nothing else. */
  lemma SumOfWithout(f: real -> real, s: seq<real>, i: nat)
    requires i < |s|
    ensures SumOf(f, s) == f(s[i]) + SumOf(f, Without(s, i))
  {
    assert s == s[..i] + s[i..];
    SumOfAppend(f, s[..i], s[i..]);
    SumOfFront(f, s[i..]);
    assert s[i..][1..] == s[i + 1..];
    SumOfAppend(f, s[..i], s[i + 1..]);
  }

  lemma {:induction false} SumOfPermutation(f: real -> real, a: seq<real>, b: seq<real>)
    requires multiset(a) == multiset(b)
    ensures SumOf(f, a) == SumOf(f, b)
    decreases |a|
  {
    if a == [] {
      SameLength(a, b);
    } else {
      var i := MatchFirst(a, b);
      SumOfPermutation(f, Without(a, 0), Without(b, i));
      SumOfWithout(f, a, 0);
      SumOfWithout(f, b, i);
    }
  }

  lemma {:induction false} SumOfCongruent(f: real -> real, s: seq<real>, g: real -> real, t: seq<real>)
    requires |s| == |t| && forall i | 0 <= i < |s| :: f(s[i]) == g(t[i])
    ensures SumOf(f, s) == SumOf(g, t)
  {
    if s == [] {
    } else {
      SumOfCongruent(f, s[..|s| - 1], g, t[..|t| - 1]);
    }
  }

  lemma {:induction false} SumOfNonNegative(f: real -> real, s: seq<real>)
    requires forall i | 0 <= i < |s| :: f(s[i]) >= 0.0
    ensures SumOf(f, s) >= 0.0
  {
    if s == [] {
    } else {
      SumOfNonNegative(f, s[..|s| - 1]);
    }
  }

  lemma OneTerm(f: real -> real, s: seq<real>, i: nat)
    requires i < |s| && forall k | 0 <= k < |s| :: f(s[k]) >= 0.0
    ensures f(s[i]) <= SumOf(f, s)
  {
    SumOfWithout(f, s, i);
    SumOfNonNegative(f, Without(s, i));
  }

  /** Two different positions already account for part of a non-negative sum. */
  lemma TwoTerms(f: real -> real, s: seq<real>, i: nat, j: nat)
    requires i < j < |s| && forall k | 0 <= k < |s| :: f(s[k]) >= 0.0
    ensures f(s[i]) + f(s[j]) <= SumOf(f, s)
  {
    SumOfWithout(f, s, j);
    assert Without(s, j)[i] == s[i];
    OneTerm(f, Without(s, j), i);
  }

  lemma {:induction false} SumOfBounded(f: real -> real, s: seq<real>, bound: real)
    requires forall i | 0 <= i < |s| :: f(s[i]) <= bound
    ensures SumOf(f, s) <= Times(|s|, bound)
  {
    if s == [] {
    } else {
      var n := |s| - 1;
      SumOfBounded(f, s[..n], bound);
      TimesSuccessor(n, bound);
    }
  }

  // ----- sums of distances and of squares

  lemma TriangleStep(sum: real, n: nat, c: real, total: real, x: real)
    requires Abs(sum - Times(n, c)) <= total
    ensures Abs(sum + x - Times(n + 1, c)) <= total + Abs(x - c)
  {
    TimesSuccessor(n, c);
  }

  /** |sum of (x - c)| <= sum of |x - c|. */
  lemma {:induction false} TriangleInequality(s: seq<real>, c: real)
    ensures Abs(SumOf(Itself(), s) - Times(|s|, c)) <= SumOf(DistanceTo(c), s)
  {
    if s == [] {
    } else {
      var n := |s| - 1;
      TriangleInequality(s[..n], c);
      TriangleStep(SumOf(Itself(), s[..n]), n, c, SumOf(DistanceTo(c), s[..n]), s[n]);
    }
  }

  /** A sum of squares around c, expanded: q - 2ca + nc^2. */
  function Expanded(q: real, a: real, n: nat, c: real): real {
    q - 2.0 * (c * a) + Times(n, Square(c))
  }

  lemma ExpandedStep(q: real, a: real, n: nat, c: real, u: real)
    ensures Expanded(q + Square(u), a + u, n + 1, c) == Expanded(q, a, n, c) + Square(u - c)
  {
    assert c * (a + u) == c * a + c * u;
    assert Square(u - c) == Square(u) - 2.0 * (c * u) + Square(c);
    TimesSuccessor(n, Square(c));
  }

  lemma {:induction false} SquaresExpanded(s: seq<real>, c: real)
    ensures SumOf(SquareFrom(c), s) == Expanded(SumOf(SquareFrom(0.0), s), SumOf(Itself(), s), |s|, c)
  {
    if s == [] {
    } else {
      var n := |s| - 1;
      SquaresExpanded(s[..n], c);
      ExpandedStep(SumOf(SquareFrom(0.0), s[..n]), SumOf(Itself(), s[..n]), n, c, s[n]);
      assert s[n] - 0.0 == s[n];
    }
  }

  /** Among all centres the mean gives the least sum of squares. */
  lemma ExpandedLeastAtMean(q: real, a: real, n: nat, m: real, c: real)
    requires a == Times(n, m)
    ensures Expanded(q, a, n, m) <= Expanded(q, a, n, c)
  {
    var k := n as real;
    SquareNotNegative(m - c);
    assert 0.0 <= k * ((m - c) * (m - c));
    assert k * ((m - c) * (m - c)) == k * (m * m) - 2.0 * (k * (m * c)) + k * (c * c);
    assert m * a == k * (m * m) && c * a == k * (m * c);
  }

  /** The squared deviation of a distance from t. */
  function SpreadOf(c: real, t: real): real -> real { x => Square(Abs(x - c) - t) }

  lemma {:induction false} SpreadExpanded(s: seq<real>, c: real, t: real)
    ensures SumOf(SpreadOf(c, t), s) == Expanded(SumOf(SquareFrom(c), s), SumOf(DistanceTo(c), s), |s|, t)
  {
    if s == [] {
    } else {
      var n := |s| - 1;
      SpreadExpanded(s[..n], c, t);
      ExpandedStep(SumOf(SquareFrom(c), s[..n]), SumOf(DistanceTo(c), s[..n]), n, t, Abs(s[n] - c));
      SquareOfAbs(s[n] - c);
    }
  }

  lemma {:induction false} SpreadNotNegative(s: seq<real>, c: real, t: real)
    ensures 0.0 <= SumOf(SpreadOf(c, t), s)
  {
    if s == [] {
    } else {
      SpreadNotNegative(s[..|s| - 1], c, t);
      SquareNotNegative(Abs(s[|s| - 1] - c) - t);
    }
  }

  /** Expanded around t = a/n, a non-negative sum bounds a^2 by n*q. */
  lemma ExpandedAtQuotient(q: real, a: real, n: nat, t: real)
    requires Times(n, t) == a && 0.0 <= Expanded(q, a, n, t)
    ensures Square(a) <= Times(n, q)
  {
    var m := n as real;
    assert m * (t * t) == t * a;
    assert 0.0 <= q - t * a;
    assert 0.0 <= m * (q - t * a);
    assert m * (q - t * a) == m * q - (m * t) * a;
  }

  lemma Quotient(a: real, n: nat) returns (t: real)
    requires n > 0
    ensures Times(n, t) == a
  {
    t := a / (n as real);
  }

  /** Cauchy-Schwarz: (sum of |x - c|)^2 <= n * sum of (x - c)^2. */
  lemma CauchySchwarz(s: seq<real>, c: real)
    ensures Square(SumOf(DistanceTo(c), s)) <= Times(|s|, SumOf(SquareFrom(c), s))
  {
    if s == [] {
    } else {
      var t := Quotient(SumOf(DistanceTo(c), s), |s|);
      SpreadNotNegative(s, c, t);
      SpreadExpanded(s, c, t);
      ExpandedAtQuotient(SumOf(SquareFrom(c), s), SumOf(DistanceTo(c), s), |s|, t);
    }
  }
}
