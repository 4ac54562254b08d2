/** The two-phase adaptive sampler. */
module Adaptive {
  import opened Types
  import opened RealSums
  import opened Sorting
  import opened SampleTheory
  import opened ObjectPool
  import Stats = Statistics
  import Client
  import Record = PublishedRecord

  datatype Config = Config(defaultSamples: int, highDriftSamples: int, driftThreshold: Duration, maxDuration: Duration)

  /** The querier: what `QueryMultiple` returns to call number k asking for count. */
  type Querier = (nat, int) -> Outcome

  /** `AbsDuration` of a published duration, left exact: the least one stays negative. */
  function AbsOf(d: real): real {
    if d == MIN_INT64 as real then d else Abs(d)
  }

  lemma AbsOfDuration(d: Duration)
    ensures AbsOf(d as real) == AbsDuration(d) as real
  {
  }

  /** The published median is further from zero than the threshold. */
  predicate IsHighDrift(c: Config, medianOffset: real) {
    AbsOf(medianOffset) > c.driftThreshold as real
  }

  function MedianOf(responses: seq<Response>): real {
    Stats.Nanoseconds(Median(Stats.OffsetsOf(responses)))
  }

  /** The second phase, entered with some responses: more are taken when their median
      is far off and there is time left, and kept when taking them succeeds. */
  function Extended(c: Config, ask: Querier, elapsed: int, first: seq<Response>): seq<Response> {
    var extra := ask(1, c.highDriftSamples - c.defaultSamples);
    if IsHighDrift(c, MedianOf(first)) && elapsed < c.maxDuration && extra.error == NoError then first + extra.responses
    else first
  }

  /** What `Sample` returns when `elapsed` has passed after the first phase. */
  function SampleOf(c: Config, ask: Querier, elapsed: int): Outcome {
    var first := ask(0, c.defaultSamples);
    if first.error != NoError then Outcome([], first.error)
    else if first.responses == [] then Outcome([], NoError)
    else Outcome(Extended(c, ask, elapsed, first.responses), NoError)
  }

  class AdaptiveSampler {
    const config: Config

    /** Zero means the default. */
    constructor (defaultSamples: int, highDriftSamples: int, driftThreshold: Duration, maxDuration: Duration)
      ensures config.defaultSamples == (if defaultSamples == 0 then 3 else defaultSamples)
      ensures config.highDriftSamples == (if highDriftSamples == 0 then 10 else highDriftSamples)
      ensures config.driftThreshold == (if driftThreshold == 0 then 50_000_000 else driftThreshold)
      ensures config.maxDuration == (if maxDuration == 0 then 30_000_000_000 else maxDuration)
    {
      config := Config(if defaultSamples == 0 then 3 else defaultSamples,
                       if highDriftSamples == 0 then 10 else highDriftSamples,
                       if driftThreshold == 0 then 50_000_000 else driftThreshold,
                       if maxDuration == 0 then 30_000_000_000 else maxDuration);
    }

    /** The second phase: more samples if drift is high and time is left. */
    method TakeMore(ask: Querier, elapsed: int, medianOffset: real, first: seq<Response>) returns (all: seq<Response>)
      requires medianOffset == MedianOf(first)
      ensures all == Extended(config, ask, elapsed, first) && |all| >= |first|
      ensures |all| == |first| ==> all == first
    {
      all := first;
      if IsHighDrift(config, medianOffset) {
        if elapsed < config.maxDuration {
          var extra := ask(1, config.highDriftSamples - config.defaultSamples);
          if extra.error == NoError && |extra.responses| > 0 {
            all := first + extra.responses;
          }
        }
      }
    }

    /** Both phases after a first batch that brought something. The statistics are
        always those of the responses returned. */
    method Continue(pool: SlicePool<real>, sqrt: real -> real, ask: Querier, elapsed: int, first: seq<Response>)
      returns (responses: seq<Response>, stats: Stats.Statistics, ghost total: int)
      requires pool.Valid() && first != []
      modifies pool.Repr
      ensures pool.Valid() && fresh(pool.Repr - old(pool.Repr)) && pool.lent == old(pool.lent)
      ensures responses == Extended(config, ask, elapsed, first)
      ensures stats == Stats.StatisticsOf(sqrt, responses, total)
    {
      total := config.defaultSamples;
      stats := Stats.CalculateStatistics(pool, sqrt, first, config.defaultSamples);
      responses := TakeMore(ask, elapsed, stats.medianOffset, first);
      if |responses| > |first| {
        total := |responses|;
        stats := Stats.CalculateStatistics(pool, sqrt, responses, |responses|);
      }
    }

    /** `Sample`; `elapsed` is the clock reading between the phases. */
    method Sample(pool: SlicePool<real>, sqrt: real -> real, ask: Querier, elapsed: int)
      returns (responses: seq<Response>, error: Error)
      requires pool.Valid()
      modifies pool.Repr
      ensures pool.Valid() && fresh(pool.Repr - old(pool.Repr)) && pool.lent == old(pool.lent)
      ensures Outcome(responses, error) == SampleOf(config, ask, elapsed)
    {
      var first := ask(0, config.defaultSamples);
      if first.error != NoError {
        return [], first.error;
      }
      if |first.responses| == 0 {
        return first.responses, NoError;
      }
      ghost var total;
      var stats;
      responses, stats, total := Continue(pool, sqrt, ask, elapsed, first.responses);
      error := NoError;
    }

    /** `GetOptimalSampleCount`. */
    function GetOptimalSampleCount(initialOffset: Duration): int {
      if AbsDuration(initialOffset) > config.driftThreshold then config.highDriftSamples else config.defaultSamples
    }
  }

  /** Both phases, from the two batches alone, m being the median of the first batch:
      an error of the first batch is the result; the second batch is appended exactly
      if m is further from zero than the threshold (the least duration counts as
      negative), time is left, and it has no error; an erroring one changes nothing. */
  lemma BothPhases(c: Config, ask: Querier, elapsed: int, m: real)
    requires Record.IsMedian(m, Record.Offsets(ask(0, c.defaultSamples).responses))
    ensures var first, extra, result := ask(0, c.defaultSamples), ask(1, c.highDriftSamples - c.defaultSamples), SampleOf(c, ask, elapsed);
      var high := m > c.driftThreshold as real || (m != MIN_INT64 as real && -m > c.driftThreshold as real);
      if first.error != NoError then result == Outcome([], first.error)
      else if first.responses != [] && high && elapsed < c.maxDuration && extra.error == NoError
        then result == Outcome(first.responses + extra.responses, NoError)
      else result == Outcome(first.responses, NoError)
  {
    var first := ask(0, c.defaultSamples).responses;
    if first != [] {
      var s := Stats.OffsetsOf(first);
      Record.InNanoseconds(first);
      Record.MedianIsMedian(s);
      Record.NsMedian(Median(s), s);
      Record.OneMedian(m, MedianOf(first), Record.Offsets(first));
    }
  }

  /** For any querier that never returns more than it was asked for: the first batch
      starts the result, which is no longer than the larger sample count. */
  lemma FirstBatchIsKept(c: Config, ask: Querier, elapsed: int)
    requires forall k, count :: |ask(k, count).responses| <= if count < 0 then 0 else count
    requires SampleOf(c, ask, elapsed).error == NoError
    ensures ask(0, c.defaultSamples).responses <= SampleOf(c, ask, elapsed).responses
    ensures var longest := if c.highDriftSamples > c.defaultSamples then c.highDriftSamples else c.defaultSamples;
      |SampleOf(c, ask, elapsed).responses| <= if longest < 0 then 0 else longest
  {
    assert |ask(0, c.defaultSamples).responses| <= if c.defaultSamples < 0 then 0 else c.defaultSamples;
    var more := c.highDriftSamples - c.defaultSamples;
    assert |ask(1, more).responses| <= if more < 0 then 0 else more;
  }

  /** The median of equal samples is their value. */
  lemma ConstantMedian(s: seq<real>, x: real)
    requires s != [] && forall i | 0 <= i < |s| :: s[i] == x
    ensures Median(s) == x
  {
    SortedOfIsSorted(s);
    var t := SortedOf(s);
    forall i | 0 <= i < |t| ensures t[i] == x {
      assert t[i] in multiset(t);
      assert t[i] in s;
    }
  }

  /** A server that always answers alike, as `QueryMultiple` reports it. */
  function Steadily(r: Response): Querier {
    (k: nat, count: int) => if count <= 0 then Outcome([], QueryError) else Outcome(seq(count, _ => r), NoError)
  }

  /** `Steadily` is what `QueryMultiple` gives for a server with one answer. */
  lemma SteadyIsClient(server: string, reply: Client.Reply, done: nat -> bool, replies: nat -> Option<Client.Reply>, k: nat, count: int)
    requires forall i: nat :: replies(i) == Some(reply) && !done(i)
    ensures Client.QueryMultipleOutcome(server, count, done, replies) == Steadily(Client.ResponseOf(server, reply))(k, count)
  {
    Client.SteadyServer(server, count, done, replies, Some(reply));
  }

  lemma SteadyMedian(r: Response, count: int)
    requires count > 0
    ensures MedianOf(Steadily(r)(0, count).responses) == r.offset as real
  {
    ConstantMedian(Stats.OffsetsOf(seq(count, _ => r)), Stats.Seconds(r.offset));
  }

  /** Two phases agree with the one-shot rule, for a server with a steady offset d,
      exactly when d is within the threshold, or both counts are equal, or there is
      time left and the high-drift count is the larger one. */
  lemma TwoPhasesAgree(sampler: AdaptiveSampler, r: Response, elapsed: int)
    requires sampler.config.defaultSamples >= 1
    ensures var c, d, result := sampler.config, r.offset, SampleOf(sampler.config, Steadily(r), elapsed);
      && result.error == NoError
      && (|result.responses| == sampler.GetOptimalSampleCount(d)
          <==> AbsDuration(d) <= c.driftThreshold || c.highDriftSamples == c.defaultSamples
               || (elapsed < c.maxDuration && c.highDriftSamples > c.defaultSamples))
  {
    var c, d := sampler.config, r.offset;
    SteadyMedian(r, c.defaultSamples);
    AbsOfDuration(d);
    assert IsHighDrift(c, d as real) <==> AbsDuration(d) > c.driftThreshold;
  }
}
