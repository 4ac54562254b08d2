/** What each field of the published record is, told from the responses alone. */
module PublishedRecord {
  import opened Lists
  import opened Types
  import opened RealSums
  import opened Sorting
  import opened SampleTheory
  import Stats = Statistics

  /** The offsets in nanoseconds. */
  function Offsets(responses: seq<Response>): (s: seq<real>)
    ensures |s| == |responses| && forall i | 0 <= i < |s| :: s[i] == responses[i].offset as real
  {
    seq(|responses|, i requires 0 <= i < |responses| => responses[i].offset as real)
  }

  /** The round-trip times in nanoseconds. */
  function Rtts(responses: seq<Response>): (s: seq<real>)
    ensures |s| == |responses| && forall i | 0 <= i < |s| :: s[i] == responses[i].rtt as real
  {
    seq(|responses|, i requires 0 <= i < |responses| => responses[i].rtt as real)
  }

  // ----- numbers of samples, without the functions that compute them

  /** n times the mean is the sum. */
  ghost predicate IsMean(m: real, s: seq<real>) {
    Times(|s|, m) == SumOf(Itself(), s)
  }

  /** n - 1 times the square of the deviation is the sum of squares about the mean. */
  ghost predicate IsDeviation(d: real, m: real, s: seq<real>) {
    d >= 0.0 && (if |s| <= 1 then d == 0.0 else Times(|s| - 1, Square(d)) == SumOf(SquareFrom(m), s))
  }

  predicate IsDifference(r: real, s: seq<real>, i: nat, j: nat) {
    i < |s| && j < |s| && r == s[i] - s[j]
  }

  /** The largest difference between two samples. */
  ghost predicate IsSpan(r: real, s: seq<real>) {
    && (exists i, j :: IsDifference(r, s, i, j))
    && (forall i, j | 0 <= i < |s| && 0 <= j < |s| :: s[i] - s[j] <= r)
  }

  /** The middle element of any sorted arrangement, or the midpoint of the two. */
  ghost predicate IsMedian(m: real, s: seq<real>) {
    forall t: seq<real> | Sorted(t) && multiset(t) == multiset(s) :: InMiddle(m, t)
  }

  ghost predicate InMiddle(m: real, t: seq<real>) {
    && t != []
    && (|t| % 2 == 1 ==> m == t[|t| / 2])
    && (|t| % 2 == 0 ==> m - t[|t| / 2 - 1] == t[|t| / 2] - m)
  }

  lemma Midpoint(x: real, y: real, m: real)
    requires m == (x + y) / 2.0
    ensures m - x == y - m
  {
  }

  lemma MidpointIsBetween(t: seq<real>)
    requires t != []
    ensures InMiddle(MiddleOf(t), t)
  {
    if |t| % 2 == 0 {
      Midpoint(t[|t| / 2 - 1], t[|t| / 2], MiddleOf(t));
    }
  }

  lemma MedianIsMedian(s: seq<real>)
    requires s != []
    ensures IsMedian(Median(s), s)
  {
    SortedOfIsSorted(s);
    MidpointIsBetween(SortedOf(s));
    forall t: seq<real> | Sorted(t) && multiset(t) == multiset(s) ensures InMiddle(Median(s), t) {
      SortedIsUnique(t, SortedOf(s));
    }
  }

  lemma MeanIsMean(s: seq<real>)
    requires s != []
    ensures IsMean(Mean(s), s)
  {
    MeanBalances(s);
  }

  lemma DeviationIsDeviation(sqrt: real -> real, s: seq<real>)
    requires IsSquareRoot(sqrt)
    ensures IsDeviation(Stats.Deviation(sqrt, s), Mean(s), s)
  {
    Stats.DeviationIsRoot(sqrt, s);
    if |s| >= 2 {
      VarianceTimes(s);
    }
  }

  lemma RangeIsSpan(s: seq<real>)
    requires s != []
    ensures IsSpan(Range(s), s)
  {
    if |s| == 1 {
      assert IsDifference(Range(s), s, 0, 0);
    } else {
      var i :| 0 <= i < |s| && s[i] == MaxOf(s);
      var j :| 0 <= j < |s| && s[j] == MinOf(s);
      assert IsDifference(Range(s), s, i, j);
    }
  }

  // ----- from seconds to nanoseconds

  const BILLION: real := 1000000000.0

  function Ns(x: real): real { Stats.Nanoseconds(x) }

  function NsOf(s: seq<real>): (t: seq<real>)
    ensures |t| == |s| && forall i | 0 <= i < |s| :: t[i] == Ns(s[i])
  {
    seq(|s|, i requires 0 <= i < |s| => Ns(s[i]))
  }

  lemma NsPrefix(s: seq<real>)
    requires s != []
    ensures NsOf(s)[..|s| - 1] == NsOf(s[..|s| - 1])
  {
  }

  lemma SquareNs(x: real)
    ensures Square(Ns(x)) == Square(x) * Square(BILLION)
  {
    Stats.SquareScaled(x, BILLION);
  }

  lemma {:induction false} NsSum(s: seq<real>)
    ensures SumOf(Itself(), NsOf(s)) == Ns(SumOf(Itself(), s))
  {
    if s == [] {
    } else {
      NsPrefix(s);
      NsSum(s[..|s| - 1]);
    }
  }

  lemma NsSquareFrom(c: real, x: real)
    ensures SquareFrom(Ns(c))(Ns(x)) == SquareFrom(c)(x) * Square(BILLION)
  {
    SquareNs(x - c);
    assert Ns(x) - Ns(c) == Ns(x - c);
  }

  lemma SumBy(x: real, y: real, k: real)
    ensures (x + y) * k == x * k + y * k
  {
  }

  lemma {:induction false} NsSquares(s: seq<real>, c: real)
    ensures SumOf(SquareFrom(Ns(c)), NsOf(s)) == SumOf(SquareFrom(c), s) * Square(BILLION)
  {
    if s == [] {
    } else {
      var front, last := s[..|s| - 1], s[|s| - 1];
      NsPrefix(s);
      NsSquares(front, c);
      NsSquareFrom(c, last);
      SumOfLast(SquareFrom(c), s);
      SumOfLast(SquareFrom(Ns(c)), NsOf(s));
      SumBy(SumOf(SquareFrom(c), front), SquareFrom(c)(last), Square(BILLION));
    }
  }

  lemma NsMean(m: real, s: seq<real>)
    requires IsMean(m, s)
    ensures IsMean(Ns(m), NsOf(s))
  {
    NsSum(s);
    Stats.TimesScaled(|s|, m, BILLION);
  }

  lemma NsDeviation(d: real, m: real, s: seq<real>)
    requires IsDeviation(d, m, s)
    ensures IsDeviation(Ns(d), Ns(m), NsOf(s))
  {
    if |s| >= 2 {
      NsSquares(s, m);
      SquareNs(d);
      Stats.TimesScaled(|s| - 1, Square(d), Square(BILLION));
    }
  }

  lemma NsSpan(r: real, s: seq<real>)
    requires IsSpan(r, s)
    ensures IsSpan(Ns(r), NsOf(s))
  {
    var t := NsOf(s);
    var i, j :| IsDifference(r, s, i, j);
    assert IsDifference(Ns(r), t, i, j);
  }

  lemma NsSorted(t: seq<real>)
    requires Sorted(t)
    ensures Sorted(NsOf(t))
  {
  }

  lemma {:induction false} NsPermutation(a: seq<real>, b: seq<real>)
    requires multiset(a) == multiset(b)
    ensures multiset(NsOf(a)) == multiset(NsOf(b))
    decreases |a|
  {
    if a == [] {
      SameLength(a, b);
    } else {
      var i := MatchFirst(a, b);
      NsPermutation(Without(a, 0), Without(b, i));
      NsWithout(a, 0);
      NsWithout(b, i);
    }
  }

  lemma NsWithout(s: seq<real>, i: nat)
    requires i < |s|
    ensures multiset(NsOf(s)) == multiset(NsOf(Without(s, i))) + multiset{Ns(s[i])}
  {
    var t := NsOf(s);
    assert NsOf(Without(s, i)) == Without(t, i);
    WithoutMultiset(t, i);
    assert t[i] in multiset(t);
  }

  lemma NsMiddle(m: real, t: seq<real>)
    requires InMiddle(m, t)
    ensures InMiddle(Ns(m), NsOf(t))
  {
  }

  lemma NsMedian(m: real, s: seq<real>)
    requires IsMedian(m, s)
    ensures IsMedian(Ns(m), NsOf(s))
  {
    var t := SortedOf(s);
    SortedOfIsSorted(s);
    NsMiddle(m, t);
    NsSorted(t);
    NsPermutation(t, s);
    forall u: seq<real> | Sorted(u) && multiset(u) == multiset(NsOf(s)) ensures InMiddle(Ns(m), u) {
      SortedIsUnique(u, NsOf(t));
    }
  }

  // ----- the record

  ghost predicate OffsetsDescribed(record: Stats.Statistics, offsets: seq<real>) {
    && IsMedian(record.medianOffset, offsets)
    && IsMean(record.meanOffset, offsets)
    && IsDeviation(record.stdDevOffset, record.meanOffset, offsets)
  }

  ghost predicate RttsDescribed(record: Stats.Statistics, rtts: seq<real>) {
    && (exists meanRtt :: IsMean(meanRtt, rtts) && IsDeviation(record.jitter, meanRtt, rtts))
    && IsSpan(record.asymmetry, rtts)
  }

  lemma InNanoseconds(responses: seq<Response>)
    ensures Offsets(responses) == NsOf(Stats.OffsetsOf(responses))
    ensures Rtts(responses) == NsOf(Stats.RttsOf(responses))
  {
    forall i | 0 <= i < |responses|
      ensures Ns(Stats.Seconds(responses[i].offset)) == responses[i].offset as real
      ensures Ns(Stats.Seconds(responses[i].rtt)) == responses[i].rtt as real
    {
    }
  }

  lemma OffsetFields(sqrt: real -> real, responses: seq<Response>, total: int)
    requires IsSquareRoot(sqrt) && responses != []
    ensures OffsetsDescribed(Stats.StatisticsOf(sqrt, responses, total), Offsets(responses))
  {
    var s := Stats.OffsetsOf(responses);
    InNanoseconds(responses);
    MedianIsMedian(s);
    NsMedian(Median(s), s);
    MeanIsMean(s);
    NsMean(Mean(s), s);
    DeviationIsDeviation(sqrt, s);
    NsDeviation(Stats.Deviation(sqrt, s), Mean(s), s);
  }

  lemma RttFields(sqrt: real -> real, responses: seq<Response>, total: int)
    requires IsSquareRoot(sqrt) && responses != []
    ensures RttsDescribed(Stats.StatisticsOf(sqrt, responses, total), Rtts(responses))
  {
    var s := Stats.RttsOf(responses);
    InNanoseconds(responses);
    MeanIsMean(s);
    NsMean(Mean(s), s);
    DeviationIsDeviation(sqrt, s);
    NsDeviation(Stats.Deviation(sqrt, s), Mean(s), s);
    RangeIsSpan(s);
    NsSpan(Range(s), s);
    assert IsMean(Ns(Mean(s)), Rtts(responses));
  }

  /** The share of `total` that is not among n. */
  ghost predicate IsLoss(loss: real, n: nat, total: int) {
    if total <= n then loss == 0.0 else Times(total, loss) == (total - n) as real
  }

  /** Every field of the record of n >= 1 responses, from the responses themselves. */
  ghost predicate Describes(record: Stats.Statistics, responses: seq<Response>, total: int) {
    && OffsetsDescribed(record, Offsets(responses))
    && RttsDescribed(record, Rtts(responses))
    && record.samplesCount == |responses|
    && IsLoss(record.packetLossRatio, |responses|, total)
  }

  /** The record of no responses. */
  predicate IsEmptyRecord(record: Stats.Statistics, loss: real) {
    && record.medianOffset == 0.0 && record.meanOffset == 0.0 && record.stdDevOffset == 0.0
    && record.jitter == 0.0 && record.asymmetry == 0.0
    && record.samplesCount == 0 && record.packetLossRatio == loss
  }

  lemma LossIsLoss(n: nat, total: int)
    ensures IsLoss(Stats.PacketLoss(n, total), n, total)
  {
    if total > n {
      assert Times(total, Stats.PacketLoss(n, total)) == Stats.PacketLoss(n, total) * (total as real);
    }
  }

  lemma OtherFields(sqrt: real -> real, responses: seq<Response>, total: int)
    requires responses != []
    ensures var record := Stats.StatisticsOf(sqrt, responses, total);
      record.samplesCount == |responses| && IsLoss(record.packetLossRatio, |responses|, total)
  {
    LossIsLoss(|responses|, total);
  }

  lemma RecordDescribes(sqrt: real -> real, responses: seq<Response>, total: int)
    requires IsSquareRoot(sqrt)
    ensures var record := Stats.StatisticsOf(sqrt, responses, total);
      if responses == [] then IsEmptyRecord(record, 1.0) else Describes(record, responses, total)
  {
    if responses != [] {
      OffsetFields(sqrt, responses, total);
      RttFields(sqrt, responses, total);
      OtherFields(sqrt, responses, total);
    }
  }

  /** Only one record fits the responses, so the description leaves nothing open. */
  lemma OneRecordFits(a: Stats.Statistics, b: Stats.Statistics, responses: seq<Response>, total: int)
    requires responses != [] && Describes(a, responses, total) && Describes(b, responses, total)
    ensures a == b
  {
    var offsets, rtts, n := Offsets(responses), Rtts(responses), |responses|;
    OneMedian(a.medianOffset, b.medianOffset, offsets);
    OneMean(a.meanOffset, b.meanOffset, offsets);
    OneDeviation(a.stdDevOffset, b.stdDevOffset, a.meanOffset, offsets);
    var p :| IsMean(p, rtts) && IsDeviation(a.jitter, p, rtts);
    var q :| IsMean(q, rtts) && IsDeviation(b.jitter, q, rtts);
    OneMean(p, q, rtts);
    OneDeviation(a.jitter, b.jitter, p, rtts);
    OneLoss(a.packetLossRatio, b.packetLossRatio, n, total);
  }

  lemma OneMedian(x: real, y: real, s: seq<real>)
    requires IsMedian(x, s) && IsMedian(y, s)
    ensures x == y
  {
    SortedOfIsSorted(s);
    assert InMiddle(x, SortedOf(s)) && InMiddle(y, SortedOf(s));
  }

  lemma OneMean(x: real, y: real, s: seq<real>)
    requires s != [] && IsMean(x, s) && IsMean(y, s)
    ensures x == y
  {
    TimesOrder(|s|, x, y);
    TimesOrder(|s|, y, x);
  }

  lemma OneDeviation(x: real, y: real, m: real, s: seq<real>)
    requires IsDeviation(x, m, s) && IsDeviation(y, m, s)
    ensures x == y
  {
    if |s| >= 2 {
      TimesOrder(|s| - 1, Square(x), Square(y));
      TimesOrder(|s| - 1, Square(y), Square(x));
      if x < y {
        SquareStrict(x, y);
      } else if y < x {
        SquareStrict(y, x);
      }
    }
  }

  lemma OneLoss(x: real, y: real, n: nat, total: int)
    requires IsLoss(x, n, total) && IsLoss(y, n, total)
    ensures x == y
  {
    if total > n {
      TimesOrder(total, x, y);
      TimesOrder(total, y, x);
    }
  }
}
