/** `CalculateStatistics` and its helpers, computing in buffers borrowed from the
    slice pool, against the numbers of `SampleTheory`. */
module Statistics {
  import opened Lists
  import opened Types
  import opened RealSums
  import opened Sorting
  import opened SampleTheory
  import opened ObjectPool

  /** Published durations are in nanoseconds, left exact. */
  datatype Statistics = Statistics(
    medianOffset: real, meanOffset: real, stdDevOffset: real,
    jitter: real, asymmetry: real, samplesCount: int, packetLossRatio: real)

  /** `Duration.Seconds()` and its inverse. */
  function Seconds(d: Duration): real { (d as real) / 1000000000.0 }

  function Nanoseconds(x: real): real { x * 1000000000.0 }

  function OffsetsOf(responses: seq<Response>): (s: seq<real>)
    ensures |s| == |responses| && forall i | 0 <= i < |s| :: s[i] == Seconds(responses[i].offset)
  {
    seq(|responses|, i requires 0 <= i < |responses| => Seconds(responses[i].offset))
  }

  function RttsOf(responses: seq<Response>): (s: seq<real>)
    ensures |s| == |responses| && forall i | 0 <= i < |s| :: s[i] == Seconds(responses[i].rtt)
  {
    seq(|responses|, i requires 0 <= i < |responses| => Seconds(responses[i].rtt))
  }

  /** The sample standard deviation, given a square root. */
  function Deviation(sqrt: real -> real, s: seq<real>): real {
    if |s| <= 1 then 0.0 else sqrt(Variance(s))
  }

  /** The share of `total` samples that did not come back. */
  function PacketLoss(received: nat, total: int): (r: real)
    ensures 0.0 <= r <= 1.0
    ensures total > received ==> r * (total as real) == (total - received) as real
    ensures r == 0.0 <==> total <= received
  {
    if total == 0 then 0.0
    else if total - received < 0 then 0.0 / (total as real)
    else Ratio(total - received, total); ((total - received) as real) / (total as real)
  }

  lemma Ratio(lost: nat, total: int)
    requires lost <= total && total > 0
    ensures 0.0 <= (lost as real) / (total as real) <= 1.0
    ensures (lost as real) / (total as real) * (total as real) == lost as real
  {
  }

  /** The record of non-empty samples, both lists in seconds. */
  function RecordOf(sqrt: real -> real, offsets: seq<real>, rtts: seq<real>, loss: real): Statistics {
    Statistics(
      Nanoseconds(Median(offsets)), Nanoseconds(Mean(offsets)), Nanoseconds(Deviation(sqrt, offsets)),
      Nanoseconds(Deviation(sqrt, rtts)), Nanoseconds(Range(rtts)), |offsets|, loss)
  }

  /** What `CalculateStatistics` publishes. */
  function StatisticsOf(sqrt: real -> real, responses: seq<Response>, total: int): Statistics {
    if responses == [] then Statistics(0.0, 0.0, 0.0, 0.0, 0.0, 0, 1.0)
    else RecordOf(sqrt, OffsetsOf(responses), RttsOf(responses), PacketLoss(|responses|, total))
  }

  // ----- the helpers, on the slice values[..n]

  method CalculatePacketLoss(received: nat, total: int) returns (r: real)
    ensures r == PacketLoss(received, total)
  {
    if total == 0 {
      return 0.0;
    }
    var lost := total - received;
    if lost < 0 {
      lost := 0;
    }
    r := (lost as real) / (total as real);
  }

  /** Sorts the scratch slice and picks its middle. */
  method SortedMiddle(sorted: array<real>, n: nat) returns (m: real)
    requires 0 < n <= sorted.Length
    modifies sorted
    ensures m == Median(old(sorted[..n]))
  {
    SortPrefix(sorted, n);
    ghost var t := sorted[..n];
    if n % 2 == 0 {
      assert t[n / 2 - 1] == sorted[n / 2 - 1] && t[n / 2] == sorted[n / 2];
      m := (sorted[n / 2 - 1] + sorted[n / 2]) / 2.0;
    } else {
      assert t[n / 2] == sorted[n / 2];
      m := sorted[n / 2];
    }
  }

  method CopyPrefix(dst: array<real>, src: array<real>, n: nat)
    requires n <= dst.Length && n <= src.Length && dst != src
    modifies dst
    ensures dst[..n] == src[..n]
  {
    for i := 0 to n
      invariant dst[..i] == src[..i]
    {
      dst[i] := src[i];
    }
  }

  /** The values are copied to a pooled buffer and sorted there; the input array
      is outside the frame and keeps its order. */
  method ComputeMedian(pool: SlicePool<real>, values: array<real>, n: nat) returns (m: real)
    requires pool.Valid() && values !in pool.Repr && n <= values.Length
    modifies pool.Repr
    ensures pool.Valid() && fresh(pool.Repr - old(pool.Repr)) && pool.lent == old(pool.lent)
    ensures m == Median(values[..n])
  {
    if n == 0 {
      return 0.0;
    }
    var sortedPtr := GetFloat64Slice(pool, n);
    CopyPrefix(sortedPtr.data, values, n);
    m := SortedMiddle(sortedPtr.data, n);
    PutFloat64Slice(pool, sortedPtr);
  }

  method ComputeMean(values: array<real>, n: nat) returns (m: real)
    requires n <= values.Length
    ensures m == Mean(values[..n])
  {
    if n == 0 {
      return 0.0;
    }
    var sum := 0.0;
    for i := 0 to n
      invariant sum == SumOf(Itself(), values[..i])
    {
      assert values[..i + 1][..i] == values[..i];
      sum := sum + values[i];
    }
    m := sum / (n as real);
  }

  method ComputeDeviation(sqrt: real -> real, values: array<real>, n: nat) returns (r: real)
    requires n <= values.Length
    ensures r == Deviation(sqrt, values[..n])
  {
    if n <= 1 {
      return 0.0;
    }
    var m := ComputeMean(values, n);
    var sumSquaredDiff := 0.0;
    for i := 0 to n
      invariant sumSquaredDiff == SumOf(SquareFrom(m), values[..i])
    {
      assert values[..i + 1][..i] == values[..i];
      var diff := values[i] - m;
      assert SquareFrom(m)(values[i]) == diff * diff;
      sumSquaredDiff := sumSquaredDiff + diff * diff;
    }
    var variance := sumSquaredDiff / ((n - 1) as real);
    r := sqrt(variance);
  }

  method ComputeMin(values: array<real>, n: nat) returns (m: real)
    requires n <= values.Length
    ensures n == 0 ==> m == 0.0
    ensures n > 0 ==> m == MinOf(values[..n])
  {
    if n == 0 {
      return 0.0;
    }
    m := values[0];
    for i := 1 to n
      invariant m == MinOf(values[..i])
    {
      assert values[..i + 1][..i] == values[..i];
      if values[i] < m {
        m := values[i];
      }
    }
  }

  method ComputeMax(values: array<real>, n: nat) returns (m: real)
    requires n <= values.Length
    ensures n == 0 ==> m == 0.0
    ensures n > 0 ==> m == MaxOf(values[..n])
  {
    if n == 0 {
      return 0.0;
    }
    m := values[0];
    for i := 1 to n
      invariant m == MaxOf(values[..i])
    {
      assert values[..i + 1][..i] == values[..i];
      if values[i] > m {
        m := values[i];
      }
    }
  }

  method FillBuffers(offsets: array<real>, rtts: array<real>, responses: seq<Response>)
    requires offsets != rtts && |responses| <= offsets.Length && |responses| <= rtts.Length
    modifies offsets, rtts
    ensures offsets[..|responses|] == OffsetsOf(responses)
    ensures rtts[..|responses|] == RttsOf(responses)
  {
    for i := 0 to |responses|
      invariant offsets[..i] == OffsetsOf(responses)[..i]
      invariant rtts[..i] == RttsOf(responses)[..i]
    {
      offsets[i] := Seconds(responses[i].offset);
      rtts[i] := Seconds(responses[i].rtt);
    }
  }

  method ComputeRecord(pool: SlicePool<real>, sqrt: real -> real, offsets: array<real>, rtts: array<real>, n: nat, loss: real)
    returns (stats: Statistics)
    requires pool.Valid() && offsets !in pool.Repr && rtts !in pool.Repr
    requires 0 < n <= offsets.Length && n <= rtts.Length
    modifies pool.Repr
    ensures pool.Valid() && fresh(pool.Repr - old(pool.Repr)) && pool.lent == old(pool.lent)
    ensures stats == RecordOf(sqrt, offsets[..n], rtts[..n], loss)
  {
    stats := Statistics(0.0, 0.0, 0.0, 0.0, 0.0, n, loss);
    var median := ComputeMedian(pool, offsets, n);
    stats := stats.(medianOffset := Nanoseconds(median));
    var mean := ComputeMean(offsets, n);
    stats := stats.(meanOffset := Nanoseconds(mean));
    var deviation := ComputeDeviation(sqrt, offsets, n);
    stats := stats.(stdDevOffset := Nanoseconds(deviation));
    var jitter := ComputeDeviation(sqrt, rtts, n);
    stats := stats.(jitter := Nanoseconds(jitter));
    if n >= 2 {
      var hi := ComputeMax(rtts, n);
      var lo := ComputeMin(rtts, n);
      stats := stats.(asymmetry := Nanoseconds(hi - lo));
    }
  }

  /** The work between borrowing the two sample buffers and returning them. */
  method MeasureInto(pool: SlicePool<real>, sqrt: real -> real, offsets: array<real>, rtts: array<real>,
                     responses: seq<Response>, totalSamples: int)
    returns (stats: Statistics)
    requires pool.Valid() && offsets !in pool.Repr && rtts !in pool.Repr && offsets != rtts
    requires 0 < |responses| <= offsets.Length && |responses| <= rtts.Length
    modifies pool.Repr, offsets, rtts
    ensures pool.Valid() && fresh(pool.Repr - old(pool.Repr)) && pool.lent == old(pool.lent)
    ensures stats == StatisticsOf(sqrt, responses, totalSamples)
  {
    var loss := CalculatePacketLoss(|responses|, totalSamples);
    FillBuffers(offsets, rtts, responses);
    stats := ComputeRecord(pool, sqrt, offsets, rtts, |responses|, loss);
  }

  method BorrowTwo(pool: SlicePool<real>, n: nat) returns (p: Slice<real>, q: Slice<real>)
    requires pool.Valid()
    modifies pool, pool.free
    ensures pool.Valid() && fresh(pool.Repr - old(pool.Repr))
    ensures p != q && p.data != q.data && n <= p.data.Length && n <= q.data.Length
    ensures {p, q} !! old(pool.lent) && pool.lent == old(pool.lent) + {p, q}
    ensures fresh({p, q, p.data, q.data} - old(pool.Repr))
  {
    p := GetFloat64Slice(pool, n);
    q := GetFloat64Slice(pool, n);
  }

  method ReturnTwo(pool: SlicePool<real>, p: Slice<real>, q: Slice<real>)
    requires pool.Valid() && p != q && {p, q} <= pool.lent
    modifies pool, p, q
    ensures pool.Valid() && pool.lent == old(pool.lent) - {p, q}
    ensures pool.Repr == old(pool.Repr) + {p, q, p.data, q.data}
    ensures p.data == old(p.data) && q.data == old(q.data)
  {
    PutFloat64Slice(pool, q);
    PutFloat64Slice(pool, p);
  }

  /** Three buffers are held at once, come back dirty, and are all returned. */
  method CalculateStatistics(pool: SlicePool<real>, sqrt: real -> real, responses: seq<Response>, totalSamples: int)
    returns (stats: Statistics)
    requires pool.Valid()
    modifies pool.Repr
    ensures pool.Valid() && fresh(pool.Repr - old(pool.Repr)) && pool.lent == old(pool.lent)
    ensures stats == StatisticsOf(sqrt, responses, totalSamples)
  {
    var n := |responses|;
    if n == 0 {
      return Statistics(0.0, 0.0, 0.0, 0.0, 0.0, 0, 1.0);
    }
    var offsetsPtr, rttsPtr := BorrowTwo(pool, n);
    stats := MeasureInto(pool, sqrt, offsetsPtr.data, rttsPtr.data, responses, totalSamples);
    ReturnTwo(pool, offsetsPtr, rttsPtr);
    assert pool.lent == old(pool.lent);
  }

  // ----- what the published record promises

  lemma DeviationIsRoot(sqrt: real -> real, s: seq<real>)
    requires IsSquareRoot(sqrt)
    ensures IsRoot(Deviation(sqrt, s), Variance(s))
  {
    VarianceNotNegative(s);
    if |s| >= 2 {
      assert IsRoot(sqrt(Variance(s)), Variance(s));
    }
  }

  /** For every non-empty list of responses, the published mean and median are
      within one published standard deviation; jitter never exceeds asymmetry and
      vanishes exactly when it does. */
  lemma PublishedBounds(sqrt: real -> real, responses: seq<Response>, total: int)
    requires IsSquareRoot(sqrt)
    ensures var stats := StatisticsOf(sqrt, responses, total);
      && Abs(stats.meanOffset - stats.medianOffset) <= stats.stdDevOffset
      && 0.0 <= stats.jitter <= stats.asymmetry
      && (stats.jitter == 0.0 <==> stats.asymmetry == 0.0)
  {
    if responses == [] {
    } else {
      var offsets, rtts := OffsetsOf(responses), RttsOf(responses);
      DeviationIsRoot(sqrt, offsets);
      DeviationIsRoot(sqrt, rtts);
      MeanMedianWithinDeviation(offsets, Deviation(sqrt, offsets));
      RangeAgainstDeviation(rtts, Deviation(sqrt, rtts));
    }
  }

  lemma ScaledBounds(n: nat, j: real, r: real, k: real)
    requires n >= 2
    requires Square(r) <= 2.0 * Times(n - 1, Square(j))
    requires Times(n - 1, Square(j)) <= Times(n, Square(r / 2.0))
    ensures Square(r * k) <= 2.0 * Times(n - 1, Square(j * k))
    ensures Times(n - 1, Square(j * k)) <= Times(n, Square(r * k / 2.0))
  {
    SquareScaled(j, k);
    SquareScaled(r, k);
    SquareScaled(r / 2.0, k);
    assert r * k / 2.0 == r / 2.0 * k;
    TimesScaled(n - 1, Square(j), Square(k));
    TimesScaled(n, Square(r / 2.0), Square(k));
    SquareNotNegative(k);
    ScaledOrder(Square(r), 2.0 * Times(n - 1, Square(j)), Square(k));
    ScaledOrder(Times(n - 1, Square(j)), Times(n, Square(r / 2.0)), Square(k));
  }

  lemma SquareScaled(x: real, k: real)
    ensures Square(x * k) == Square(x) * Square(k)
  {
    assert (x * k) * (x * k) == x * (k * (x * k)) == x * (x * (k * k));
  }

  lemma TimesScaled(n: nat, x: real, k: real)
    ensures Times(n, x * k) == Times(n, x) * k
  {
  }

  lemma ScaledOrder(x: real, y: real, k: real)
    requires x <= y && 0.0 <= k
    ensures x * k <= y * k
  {
  }

  /** asymmetry^2 <= 2(n-1) jitter^2 and (n-1) jitter^2 <= n/4 asymmetry^2. */
  lemma JitterAsymmetryBounds(sqrt: real -> real, responses: seq<Response>, total: int)
    requires IsSquareRoot(sqrt) && |responses| >= 2
    ensures var stats, n := StatisticsOf(sqrt, responses, total), |responses|;
      && Square(stats.asymmetry) <= 2.0 * Times(n - 1, Square(stats.jitter))
      && Times(n - 1, Square(stats.jitter)) <= Times(n, Square(stats.asymmetry / 2.0))
  {
    var rtts := RttsOf(responses);
    DeviationIsRoot(sqrt, rtts);
    RangeDeviationBounds(rtts, Deviation(sqrt, rtts));
    ScaledBounds(|responses|, Deviation(sqrt, rtts), Range(rtts), 1000000000.0);
  }

  /** Only the multiset of responses matters. */
  lemma OrderDoesNotMatter(sqrt: real -> real, a: seq<Response>, b: seq<Response>, total: int)
    requires multiset(a) == multiset(b)
    ensures StatisticsOf(sqrt, a, total) == StatisticsOf(sqrt, b, total)
  {
    MapPermutation(a, b);
    SameLength(a, b);
    PermutationInvariance(OffsetsOf(a), OffsetsOf(b));
    PermutationInvariance(RttsOf(a), RttsOf(b));
  }

  lemma {:induction false} MapPermutation(a: seq<Response>, b: seq<Response>)
    requires multiset(a) == multiset(b)
    ensures multiset(OffsetsOf(a)) == multiset(OffsetsOf(b))
    ensures multiset(RttsOf(a)) == multiset(RttsOf(b))
    decreases |a|
  {
    if a == [] {
      SameLength(a, b);
    } else {
      var i := MatchFirst(a, b);
      MapPermutation(Without(a, 0), Without(b, i));
      SamplesWithout(a, 0);
      SamplesWithout(b, i);
    }
  }

  lemma SamplesWithout(s: seq<Response>, i: nat)
    requires i < |s|
    ensures multiset(OffsetsOf(s)) == multiset(OffsetsOf(Without(s, i))) + multiset{Seconds(s[i].offset)}
    ensures multiset(RttsOf(s)) == multiset(RttsOf(Without(s, i))) + multiset{Seconds(s[i].rtt)}
  {
    var o, r := OffsetsOf(s), RttsOf(s);
    assert OffsetsOf(Without(s, i)) == Without(o, i);
    assert RttsOf(Without(s, i)) == Without(r, i);
    WithoutMultiset(o, i);
    WithoutMultiset(r, i);
    assert o[i] in multiset(o) && r[i] in multiset(r);
  }

  /** Every offset moved by d moves mean and median by d and nothing else. */
  lemma ClockShift(sqrt: real -> real, a: seq<Response>, b: seq<Response>, d: Duration, total: int)
    requires a != [] && |b| == |a|
    requires forall i | 0 <= i < |a| :: b[i].offset == a[i].offset + d && b[i].rtt == a[i].rtt
    ensures StatisticsOf(sqrt, b, total)
         == var s := StatisticsOf(sqrt, a, total);
            s.(medianOffset := s.medianOffset + d as real, meanOffset := s.meanOffset + d as real)
  {
    var offsets, e := OffsetsOf(a), Seconds(d);
    assert OffsetsOf(b) == Shifted(offsets, e);
    assert RttsOf(b) == RttsOf(a);
    ShiftedMean(offsets, e);
    ShiftedMedian(offsets, e);
    ShiftedVariance(offsets, e);
    assert Nanoseconds(e) == d as real;
  }
}
