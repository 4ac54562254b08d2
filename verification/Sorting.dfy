/** Sorting of sample values: what `sort.Float64s` promises, and an in-place
    insertion sort that keeps the promise on a prefix of a larger buffer. */
module Sorting {

  predicate Sorted(s: seq<real>) {
    forall i, j | 0 <= i < j < |s| :: s[i] <= s[j]
  }

  /** x placed after everything in t that is at most x. */
  function Insert(x: real, t: seq<real>): seq<real> {
    if t == [] || t[|t| - 1] <= x then t + [x]
    else Insert(x, t[..|t| - 1]) + [t[|t| - 1]]
  }

  function SortedOf(s: seq<real>): seq<real> {
    if s == [] then [] else Insert(s[|s| - 1], SortedOf(s[..|s| - 1]))
  }

  lemma {:induction false} InsertIsPermutation(x: real, t: seq<real>)
    ensures multiset(Insert(x, t)) == multiset(t) + multiset{x} && |Insert(x, t)| == |t| + 1
  {
    if t == [] || t[|t| - 1] <= x {
    } else {
      InsertIsPermutation(x, t[..|t| - 1]);
      assert t == t[..|t| - 1] + [t[|t| - 1]];
    }
  }

  predicate Below(s: seq<real>, top: real) {
    forall i | 0 <= i < |s| :: s[i] <= top
  }

  lemma {:induction false} InsertStaysBelow(x: real, t: seq<real>, top: real)
    requires Below(t, top) && x <= top
    ensures Below(Insert(x, t), top)
  {
    if t == [] || t[|t| - 1] <= x {
    } else {
      InsertStaysBelow(x, t[..|t| - 1], top);
    }
  }

  lemma {:induction false} InsertKeepsSorted(x: real, t: seq<real>)
    requires Sorted(t)
    ensures Sorted(Insert(x, t))
  {
    if t == [] || t[|t| - 1] <= x {
    } else {
      InsertKeepsSorted(x, t[..|t| - 1]);
      InsertStaysBelow(x, t[..|t| - 1], t[|t| - 1]);
    }
  }

  lemma {:induction false} SortedOfIsSorted(s: seq<real>)
    ensures Sorted(SortedOf(s)) && multiset(SortedOf(s)) == multiset(s) && |SortedOf(s)| == |s|
  {
    if s == [] {
    } else {
      var n := |s| - 1;
      SortedOfIsSorted(s[..n]);
      InsertKeepsSorted(s[n], SortedOf(s[..n]));
      InsertIsPermutation(s[n], SortedOf(s[..n]));
      assert s == s[..n] + [s[n]];
    }
    assert |multiset(SortedOf(s))| == |multiset(s)|;
  }

  lemma LastIsGreatest(s: seq<real>, x: real)
    requires Sorted(s) && x in multiset(s)
    ensures s != [] && x <= s[|s| - 1]
  {
    assert x in s;
    var i :| 0 <= i < |s| && s[i] == x;
  }

  lemma SplitLast(s: seq<real>)
    requires s != []
    ensures multiset(s) == multiset(s[..|s| - 1]) + multiset{s[|s| - 1]}
    ensures s[|s| - 1] in multiset(s)
  {
    assert s == s[..|s| - 1] + [s[|s| - 1]];
  }

  lemma SameGreatest(a: seq<real>, b: seq<real>)
    requires Sorted(a) && Sorted(b) && multiset(a) == multiset(b) && a != []
    ensures b != [] && b[|b| - 1] == a[|a| - 1]
  {
    assert |a| == |multiset(a)| == |multiset(b)| == |b|;
    SplitLast(a);
    SplitLast(b);
    LastIsGreatest(b, a[|a| - 1]);
    LastIsGreatest(a, b[|b| - 1]);
  }

  /** Equal multisets stay equal when an equal last element is dropped. */
  lemma DropLast(a: seq<real>, b: seq<real>)
    requires multiset(a) == multiset(b) && a != [] && b != [] && b[|b| - 1] == a[|a| - 1]
    ensures multiset(a[..|a| - 1]) == multiset(b[..|b| - 1])
  {
    SplitLast(a);
    SplitLast(b);
    var x := multiset{a[|a| - 1]};
    var ma, mb := multiset(a[..|a| - 1]), multiset(b[..|b| - 1]);
    assert (ma + x) - x == ma && (mb + x) - x == mb;
  }

  /** A list has one sorted arrangement. */
  lemma {:induction false} SortedIsUnique(a: seq<real>, b: seq<real>)
    requires Sorted(a) && Sorted(b) && multiset(a) == multiset(b)
    ensures a == b
    decreases |a|
  {
    if a == [] {
      assert |b| == |multiset(b)|;
    } else {
      SameGreatest(a, b);
      DropLast(a, b);
      SortedIsUnique(a[..|a| - 1], b[..|b| - 1]);
      assert a == a[..|a| - 1] + [a[|a| - 1]];
      assert b == b[..|b| - 1] + [b[|b| - 1]];
    }
  }

  lemma SortedOfPermutation(a: seq<real>, b: seq<real>)
    requires multiset(a) == multiset(b)
    ensures SortedOf(a) == SortedOf(b)
  {
    SortedOfIsSorted(a);
    SortedOfIsSorted(b);
    SortedIsUnique(SortedOf(a), SortedOf(b));
  }

  /** Insertion only looks at the tail that is larger than x. */
  lemma {:induction false} InsertIntoFront(x: real, t: seq<real>, j: nat)
    requires j <= |t| && forall k | j <= k < |t| :: x < t[k]
    ensures Insert(x, t) == Insert(x, t[..j]) + t[j..]
    decreases |t| - j
  {
    if j == |t| {
      assert t[..j] == t;
    } else {
      InsertIntoFront(x, t, j + 1);
      assert t[..j + 1][..j] == t[..j];
      assert t[..j + 1] == t[..j] + [t[j]];
      assert t[j..] == [t[j]] + t[j + 1..];
    }
  }

  /** `sortFloat64` on the slice a[..n]: sorts it in place and leaves the rest of
      the backing array alone. */
  method SortPrefix(a: array<real>, n: nat)
    requires n <= a.Length
    modifies a
    ensures a[..n] == SortedOf(old(a[..n]))
    ensures a[n..] == old(a[n..])
  {
    var i := 0;
    while i < n
      invariant 0 <= i <= n
      invariant a[..i] == SortedOf(old(a[..i]))
      invariant a[i..] == old(a[i..])
    {
      ghost var before := a[..];
      SinkInto(a, i);
      assert old(a[..i + 1])[..i] == old(a[..i]);
      assert a[i] == a[..i + 1][i];
      assert before[i] == before[i..][0] == old(a[i..])[0];
      assert a[i + 1..] == before[i..][1..] == old(a[i..])[1..];
      i := i + 1;
    }
  }

  /** One insertion: a[..i] is left with a[i] inserted. */
  method SinkInto(a: array<real>, i: nat)
    requires i < a.Length
    modifies a
    ensures a[..i + 1] == Insert(old(a[i]), old(a[..i]))
    ensures a[i + 1..] == old(a[i + 1..])
  {
    var x := a[i];
    ghost var t := a[..i];
    var j := i;
    while j > 0 && a[j - 1] > x
      invariant 0 <= j <= i
      invariant a[..j] == t[..j]
      invariant a[j + 1..i + 1] == t[j..]
      invariant forall k | j <= k < i :: x < t[k]
      invariant a[i + 1..] == old(a[i + 1..])
    {
      assert t[j - 1..] == [t[j - 1]] + t[j..];
      assert a[j - 1] == a[..j][j - 1] == t[j - 1];
      a[j] := a[j - 1];
      j := j - 1;
    }
    a[j] := x;
    InsertIntoFront(x, t, j);
    assert j > 0 ==> t[..j][j - 1] == a[j - 1];
    assert a[..i + 1] == t[..j] + [x] + t[j..];
  }
}
