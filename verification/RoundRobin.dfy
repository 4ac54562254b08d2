/** The time-based round robin: which servers are ever asked when the pool is
    queried every k seconds. */
module RoundRobin {

  /** The index chosen at Unix time t among n servers. The remainder is Go's, which
      is the same for times since 1970; before, the index would be negative. */
  function IndexAt(t: nat, n: nat): (i: nat)
    requires n > 0
    ensures i < n
  {
    t % n
  }

  /** A product, kept as one term in the proofs below. */
  function Mul(x: int, y: int): int { x * y }

  /** The server asked by query number j, the first one being at t0. */
  function Asked(t0: nat, k: nat, n: nat, j: nat): (i: nat)
    requires n > 0
    ensures i < n
  {
    MulNotNegative(j, k);
    IndexAt(t0 + Mul(j, k), n)
  }

  /** Euclid's algorithm. */
  function Gcd(a: nat, b: nat): (g: nat)
    requires a + b > 0
    ensures g > 0
    decreases b
  {
    if b == 0 then a else Gcd(b, a % b)
  }

  // ----- arithmetic

  lemma MulNotNegative(x: nat, y: nat)
    ensures Mul(x, y) >= 0
  {
  }

  lemma MulSum(x: int, y: int, z: int)
    ensures Mul(x + y, z) == Mul(x, z) + Mul(y, z)
    ensures Mul(x - y, z) == Mul(x, z) - Mul(y, z)
    ensures Mul(z, x + y) == Mul(z, x) + Mul(z, y)
  {
  }

  lemma MulMul(x: int, y: int, z: int)
    ensures Mul(Mul(x, y), z) == Mul(x, Mul(y, z)) == Mul(Mul(x, z), y)
  {
  }

  lemma MulAtLeast(e: int, d: nat)
    requires e >= 1
    ensures Mul(e, d) >= d && Mul(-e, d) <= 0 - d
  {
  }

  /** The only multiple of d closer to zero than d is zero. */
  lemma SmallMultiple(e: int, d: nat)
    requires 0 - d < Mul(e, d) < d
    ensures e == 0
  {
    if e >= 1 {
      MulAtLeast(e, d);
    } else if e <= -1 {
      MulAtLeast(-e, d);
    }
  }

  lemma DivMod(v: int, n: nat)
    requires n > 0
    ensures v == Mul(v / n, n) + v % n
  {
  }

  lemma RemainderIs(v: int, n: nat, i: nat, c: int)
    requires i < n && v == i + Mul(c, n)
    ensures v % n == i && v / n == c
  {
    DivMod(v, n);
    MulSum(c, v / n, n);
    SmallMultiple(c - v / n, n);
  }

  /** x = q*b + r turns a combination of b and r into one of x and b. */
  lemma Combine(a: int, b: int, q: int, r: int, u: int, v: int)
    requires a == Mul(q, b) + r
    ensures Mul(v, a) + Mul(u - Mul(v, q), b) == Mul(u, b) + Mul(v, r)
  {
    MulSum(Mul(q, b), r, v);
    MulMul(v, q, b);
    MulSum(u, Mul(v, q), b);
  }

  /** A divisor of b and r divides q*b + r. */
  lemma Multiples(a: int, b: int, q: nat, r: int, b1: nat, r1: nat, g: int)
    requires a == Mul(q, b) + r && b == Mul(b1, g) && r == Mul(r1, g)
    ensures Mul(q, b1) >= 0 && a == Mul(Mul(q, b1) + r1, g)
  {
    MulMul(q, b1, g);
    MulSum(Mul(q, b1), r1, g);
    MulNotNegative(q, b1);
  }

  /** The greatest common divisor divides both numbers and is a combination of them. */
  lemma {:induction false} Bezout(a: nat, b: nat) returns (x: int, y: int, a': nat, b': nat)
    requires a + b > 0
    ensures Mul(x, a) + Mul(y, b) == Gcd(a, b)
    ensures a == Mul(a', Gcd(a, b)) && b == Mul(b', Gcd(a, b))
    decreases b
  {
    if b == 0 {
      x, y, a', b' := 1, 0, 1, 0;
    } else {
      var u, v, b1, r1 := Bezout(b, a % b);
      var q := a / b;
      DivMod(a, b);
      Combine(a, b, q, a % b, u, v);
      Multiples(a, b, q, a % b, b1, r1, Gcd(a, b));
      x, y, a', b' := v, u - Mul(v, q), Mul(q, b1) + r1, b1;
    }
  }

  // ----- which servers are asked

  /** Only indices congruent to t0 modulo gcd(k, n) are ever asked. */
  lemma AskedAreCongruent(t0: nat, k: nat, n: nat, j: nat)
    requires n > 0
    ensures (Asked(t0, k, n, j) - t0) % Gcd(k, n) == 0
  {
    var g, i := Gcd(k, n), Asked(t0, k, n, j);
    var x, y, k', n' := Bezout(k, n);
    MulNotNegative(j, k);
    var q := (t0 + Mul(j, k)) / n;
    DivMod(t0 + Mul(j, k), n);
    MulMul(j, k', g);
    MulMul(q, n', g);
    MulSum(Mul(j, k'), Mul(q, n'), g);
    RemainderIs(i - t0, g, 0, Mul(j, k') - Mul(q, n'));
  }

  /** If m steps of the combination x*k + y*n lead from t0 to i, so do j = (m*x) mod n
      strides, up to whole turns. */
  lemma StridesTo(k: nat, n: nat, m: int, x: int, y: int, j: nat, p: int)
    requires Mul(m, x) == Mul(p, n) + j
    ensures Mul(m, Mul(x, k) + Mul(y, n)) == Mul(j, k) + Mul(Mul(m, y) + Mul(p, k), n)
  {
    MulSum(Mul(x, k), Mul(y, n), m);
    MulMul(m, x, k);
    MulMul(m, y, n);
    MulSum(Mul(p, n), j, k);
    MulMul(p, n, k);
    MulSum(Mul(m, y), Mul(p, k), n);
  }

  /** Each of them is asked, and already within the first n queries. */
  lemma CongruentAreAsked(t0: nat, k: nat, n: nat, i: nat) returns (j: nat)
    requires i < n && (i - t0) % Gcd(k, n) == 0
    ensures j < n && Asked(t0, k, n, j) == i
  {
    var g := Gcd(k, n);
    var x, y, k', n' := Bezout(k, n);
    var m := (i - t0) / g;
    DivMod(i - t0, g);
    var w := Mul(m, x);
    j := w % n;
    DivMod(w, n);
    StridesTo(k, n, m, x, y, j, w / n);
    var turns := Mul(m, y) + Mul(w / n, k);
    MulSum(0, turns, n);
    MulNotNegative(j, k);
    RemainderIs(t0 + Mul(j, k), n, i, -turns);
  }

  ghost predicate AskedWithin(t0: nat, k: nat, n: nat, i: nat, queries: nat)
    requires n > 0
  {
    exists j: nat :: j < queries && Asked(t0, k, n, j) == i
  }

  /** The indices asked are exactly those congruent to t0 modulo gcd(k, n), and each
      of them is already asked within n queries. */
  lemma AskedExactly(t0: nat, k: nat, n: nat, i: nat)
    requires i < n
    ensures AskedWithin(t0, k, n, i, n) <==> (i - t0) % Gcd(k, n) == 0
    ensures forall j: nat :: Asked(t0, k, n, j) == i ==> AskedWithin(t0, k, n, i, n)
  {
    if (i - t0) % Gcd(k, n) == 0 {
      var j := CongruentAreAsked(t0, k, n, i);
    }
    forall j: nat | Asked(t0, k, n, j) == i ensures (i - t0) % Gcd(k, n) == 0 {
      AskedAreCongruent(t0, k, n, j);
    }
  }

  lemma FactorOfOne(m: int, g: nat)
    requires Mul(m, g) == 1
    ensures g == 1
  {
    if g > 1 {
      SmallMultiple(m, g);
    }
  }

  /** With a common factor, the server after the first one is never asked. */
  lemma SkippedServer(t0: nat, k: nat, n: nat)
    requires n > 0 && Gcd(k, n) > 1
    ensures ((t0 + 1) % n - t0) % Gcd(k, n) != 0
  {
    var g, i := Gcd(k, n), (t0 + 1) % n;
    var x, y, k', n' := Bezout(k, n);
    DivMod(t0 + 1, n);
    var q := (t0 + 1) / n;
    if (i - t0) % g == 0 {
      DivMod(i - t0, g);
      var m := (i - t0) / g;
      MulMul(q, n', g);
      MulSum(m, Mul(q, n'), g);
      FactorOfOne(m + Mul(q, n'), g);
    }
  }

  /** Every server is asked within n queries exactly when the stride and the number
      of servers have no common factor. */
  lemma FairExactlyWhenCoprime(t0: nat, k: nat, n: nat)
    requires n > 0
    ensures (forall i: nat | i < n :: AskedWithin(t0, k, n, i, n)) <==> Gcd(k, n) == 1
  {
    if Gcd(k, n) == 1 {
      forall i: nat | i < n ensures AskedWithin(t0, k, n, i, n) {
        AskedExactly(t0, k, n, i);
      }
    } else {
      SkippedServer(t0, k, n);
      AskedExactly(t0, k, n, (t0 + 1) % n);
      assert !AskedWithin(t0, k, n, (t0 + 1) % n, n);
    }
  }

  /** Queries one second apart reach everybody. */
  lemma EverySecondIsFair(t0: nat, n: nat)
    requires n > 0
    ensures forall i: nat | i < n :: AskedWithin(t0, 1, n, i, n)
  {
    var x, y, one, n' := Bezout(1, n);
    FactorOfOne(one, Gcd(1, n));
    FairExactlyWhenCoprime(t0, 1, n);
  }

  /** Every 30 seconds, out of four servers, only every other one is asked. */
  lemma DefaultsAskHalf(t0: nat, j: nat)
    ensures (Asked(t0, 30, 4, j) - t0) % 2 == 0
    ensures !AskedWithin(t0, 30, 4, (t0 + 1) % 4, 4)
  {
    assert Gcd(30, 4) == Gcd(4, 2) == Gcd(2, 0) == 2;
    AskedAreCongruent(t0, 30, 4, j);
    SkippedServer(t0, 30, 4);
    AskedExactly(t0, 30, 4, (t0 + 1) % 4);
  }
}
