/** Runs of `Execute` built step by step: the call under an arbitrary scheduler, a
    cancelled run that loses results, and `QueryAll`. */
module WorkerPools {
  import opened Types
  import opened ObjectPool
  import Client
  import Record = PublishedRecord
  import SampleTheory
  import Stats = Statistics
  import opened ExecuteSteps
  import opened ExecuteInvariant
  import opened ExecuteTheorems

  lemma StartReachable(q: Request, answers: Querier)
    ensures Reachable(q, answers, Start(q))
  {
    var none: seq<Action> := [];
    assert IsRun(q, answers, [Start(q)], none) && [Start(q)][|none|] == Start(q);
  }

  lemma StepReachable(q: Request, answers: Querier, s: State, a: Action)
    requires Reachable(q, answers, s) && Enabled(q, answers, s, a)
    ensures Reachable(q, answers, Next(q, answers, s, a))
  {
    var states, actions :| IsRun(q, answers, states, actions) && states[|actions|] == s;
    var t := Next(q, answers, s, a);
    var states', actions' := states + [t], actions + [a];
    forall i | 0 <= i < |actions'| ensures Step(q, answers, states'[i], actions'[i], states'[i + 1]) {
      if i < |actions| {
        assert Step(q, answers, states[i], actions[i], states[i + 1]);
      }
    }
    assert IsRun(q, answers, states', actions') && states'[|actions'|] == t;
  }

  datatype ExecuteReply = NoServers | Busy | Replied(reply: Reply)

  /** A return value of `Execute` once past the gate: the reply of some run, and
      whether the context was cancelled on the way. */
  ghost predicate MayReturn(q: Request, answers: Querier, reply: Reply, cancelled: bool) {
    exists s :: Reachable(q, answers, s) && s.caller == Returned(reply) && s.cancelled == cancelled
  }

  /** `Execute` past the gate. `schedule` picks who steps next, and when the context
      is cancelled; where it picks a step that is not possible, some other goroutine
      goes on. */
  method RunBatch(q: Request, answers: Querier, fallback: string -> Outcome, schedule: State -> Action)
    returns (reply: Reply, cancelled: bool)
    requires q.servers != [] && Returns(q, answers, fallback)
    ensures MayReturn(q, answers, reply, cancelled)
  {
    var s := Start(q);
    StartReachable(q, answers);
    StartInv(q, answers);
    while !s.caller.Returned?
      invariant Reachable(q, answers, s) && Inv(q, answers, s)
      decreases Measure(q, s)
    {
      var a := schedule(s);
      if !Enabled(q, answers, s, a) {
        ProgressFrom(q, answers, fallback, s);
        a := SomeAction(q, fallback, s);
      }
      StepReachable(q, answers, s, a);
      InvStep(q, answers, s, a);
      StepDecreases(q, answers, s, a);
      s := Next(q, answers, s, a);
    }
    return s.caller.reply, s.cancelled;
  }

  /** The pool object, as one of its callers sees it: what other callers do to the
      flag meanwhile is the subject of `Gate`. */
  class WorkerPool {
    const size: int
    var running: bool

    constructor (size: int)
      ensures this.size == (if size <= 0 then 1 else size) && !running
    {
      this.size := if size <= 0 then 1 else size;
      running := false;
    }

    method Execute(servers: seq<string>, answers: Querier, fallback: string -> Outcome, schedule: State -> Action)
      returns (r: ExecuteReply, ghost cancelled: bool)
      requires Returns(Request(servers, size), answers, fallback)
      modifies this
      ensures running == old(running)
      ensures servers == [] ==> r == NoServers
      ensures servers != [] && old(running) ==> r == Busy
      ensures servers != [] && !old(running) ==>
                r.Replied? && MayReturn(Request(servers, size), answers, r.reply, cancelled)
    {
      cancelled := false;
      if servers == [] {
        return NoServers, cancelled;
      }
      if running {
        return Busy, cancelled;
      }
      running := true;
      var reply, c := RunBatch(Request(servers, size), answers, fallback, schedule);
      running := false;
      return Replied(reply), c;
    }
  }

  /** A state does not come back: what is left to do only shrinks. */
  lemma {:induction false} MeasureFalls(q: Request, answers: Querier, states: seq<State>, actions: seq<Action>, i: nat, j: nat)
    requires q.servers != [] && IsRun(q, answers, states, actions) && i < j < |states|
    ensures Measure(q, states[j]) < Measure(q, states[i])
  {
    RunInv(q, answers, states, actions, j - 1);
    assert Step(q, answers, states[j - 1], actions[j - 1], states[j - 1 + 1]);
    StepDecreases(q, answers, states[j - 1], actions[j - 1]);
    if i < j - 1 {
      MeasureFalls(q, answers, states, actions, i, j - 1);
    }
  }

  /** The schedule picks, at each state of the run, the step the run takes. */
  ghost predicate Follows(schedule: State -> Action, states: seq<State>, actions: seq<Action>) {
    |actions| <= |states| && forall i | 0 <= i < |actions| :: schedule(states[i]) == actions[i]
  }

  /** Schedulers that look only at the current state already produce every run. */
  lemma EveryRunIsScheduled(q: Request, answers: Querier, states: seq<State>, actions: seq<Action>)
    returns (schedule: State -> Action)
    requires q.servers != [] && IsRun(q, answers, states, actions)
    ensures Follows(schedule, states, actions)
  {
    forall i, j | 0 <= i < |actions| && 0 <= j < |actions| && states[i] == states[j] ensures i == j {
      if i < j {
        MeasureFalls(q, answers, states, actions, i, j);
      } else if j < i {
        MeasureFalls(q, answers, states, actions, j, i);
      }
    }
    var steps := map i | 0 <= i < |actions| :: states[i] := actions[i];
    schedule := (t: State) => if t in steps then steps[t] else Cancel;
    forall i | 0 <= i < |actions| ensures schedule(states[i]) == actions[i] {
      assert states[i] in steps;
    }
  }

  // ----- QueryAll

  /** What `QueryAll` reports for a result: the zero record for a failed server. */
  function ReportOf(sqrt: real -> real, r: JobResult, samples: int): Stats.Statistics {
    if r.outcome.error != NoError then Stats.Statistics(0.0, 0.0, 0.0, 0.0, 0.0, 0, 0.0)
    else Stats.StatisticsOf(sqrt, r.outcome.responses, samples)
  }

  /** The reported packet loss is that of the responses exactly when there was no
      error, or at least as many responses came in as were asked for. */
  lemma LossReported(sqrt: real -> real, r: JobResult, samples: int)
    ensures ReportOf(sqrt, r, samples).packetLossRatio == Stats.StatisticsOf(sqrt, r.outcome.responses, samples).packetLossRatio
        <==> r.outcome.error == NoError || (r.outcome.responses != [] && samples <= |r.outcome.responses|)
  {
    assert Stats.PacketLoss(|r.outcome.responses|, samples) == 0.0 <==> samples <= |r.outcome.responses|;
  }

  /** For what `QueryMultiple` returns that means: exactly when there was no error. */
  lemma LossOfQuery(sqrt: real -> real, r: JobResult, samples: int, done: nat -> bool, replies: nat -> Option<Client.Reply>)
    requires r.outcome == Client.QueryMultipleOutcome(r.server, samples, done, replies)
    ensures ReportOf(sqrt, r, samples).packetLossRatio == Stats.StatisticsOf(sqrt, r.outcome.responses, samples).packetLossRatio
        <==> r.outcome.error == NoError
  {
    LossReported(sqrt, r, samples);
    Client.GatheredLength(r.server, replies, Client.StopsAt(done, 0, samples));
  }

  /** A server that never answered is reported with no loss at all. */
  lemma FailedServerReportsNoLoss(sqrt: real -> real, server: string, samples: int)
    ensures var r := JobResult(0, server, Client.QueryMultipleOutcome(server, samples, (k: nat) => false, (k: nat) => None));
      && ReportOf(sqrt, r, samples).packetLossRatio == 0.0
      && Stats.StatisticsOf(sqrt, r.outcome.responses, samples).packetLossRatio == 1.0
  {
    Client.SteadyServer(server, samples, (k: nat) => false, (k: nat) => None, None);
  }

  /** Every field of a report: a failed server gets zeros throughout, any other one the
      record of its responses. */
  lemma ReportDescribes(sqrt: real -> real, r: JobResult, samples: int)
    requires SampleTheory.IsSquareRoot(sqrt)
    ensures var report, responses := ReportOf(sqrt, r, samples), r.outcome.responses;
      if r.outcome.error != NoError then Record.IsEmptyRecord(report, 0.0)
      else if responses == [] then Record.IsEmptyRecord(report, 1.0)
      else Record.Describes(report, responses, samples)
  {
    Record.RecordDescribes(sqrt, r.outcome.responses, samples);
  }

  /** The loop of `QueryAll` over the results map, in whatever order. */
  method Summarise(pool: SlicePool<real>, sqrt: real -> real, entries: map<string, JobResult>, samples: int)
    returns (stats: map<string, Stats.Statistics>)
    requires pool.Valid()
    modifies pool.Repr
    ensures pool.Valid() && fresh(pool.Repr - old(pool.Repr)) && pool.lent == old(pool.lent)
    ensures stats == map server | server in entries :: ReportOf(sqrt, entries[server], samples)
  {
    stats := map[];
    var todo := entries.Keys;
    while todo != {}
      invariant todo <= entries.Keys
      invariant pool.Valid() && fresh(pool.Repr - old(pool.Repr)) && pool.lent == old(pool.lent)
      invariant stats == map server | server in entries && server !in todo :: ReportOf(sqrt, entries[server], samples)
      decreases todo
    {
      var server :| server in todo;
      todo := todo - {server};
      var result := entries[server];
      if result.outcome.error != NoError {
        stats := stats[server := Stats.Statistics(0.0, 0.0, 0.0, 0.0, 0.0, 0, 0.0)];
      } else {
        var serverStats := Stats.CalculateStatistics(pool, sqrt, result.outcome.responses, samples);
        stats := stats[server := serverStats];
      }
    }
  }

  method QueryAll(workers: WorkerPool, pool: SlicePool<real>, sqrt: real -> real, servers: seq<string>, samples: int,
                  answers: Querier, fallback: string -> Outcome, schedule: State -> Action)
    returns (stats: Option<map<string, Stats.Statistics>>, ghost r: ExecuteReply, ghost cancelled: bool)
    requires Returns(Request(servers, workers.size), answers, fallback) && pool.Valid() && workers !in pool.Repr
    modifies workers, pool.Repr
    ensures pool.Valid() && fresh(pool.Repr - old(pool.Repr)) && pool.lent == old(pool.lent)
    ensures r.Replied? <==> servers != [] && !old(workers.running)
    ensures r.Replied? ==> MayReturn(Request(servers, workers.size), answers, r.reply, cancelled)
    ensures stats == if r.Replied? && r.reply.Results?
                     then Some(map server | server in r.reply.entries :: ReportOf(sqrt, r.reply.entries[server], samples))
                     else None
  {
    var reply, c := workers.Execute(servers, answers, fallback, schedule);
    r, cancelled := reply, c;
    stats := None;
    if reply.Replied? && reply.reply.Results? {
      var summary := Summarise(pool, sqrt, reply.reply.entries, samples);
      stats := Some(summary);
    }
  }

  // ----- a cancelled call can lose results without saying so

  const GOOD := Outcome([ZERO_RESPONSE], NoError)

  function Pair(): Request { Request(["a", "b"], 1) }

  function Good(): Querier { (server: string, o: Outcome) => o == GOOD }

  /** Goes one step on from a reachable state to the expected one. */
  lemma Advance(s: State, a: Action, t: State)
    requires Reachable(Pair(), Good(), s) && Step(Pair(), Good(), s, a, t)
    ensures Reachable(Pair(), Good(), t)
  {
    StepReachable(Pair(), Good(), s, a);
  }

  /** Both jobs submitted, nobody has taken one. */
  function AllSubmitted(): State {
    State(Collecting, false, 2, [0, 1], true, [], false, [Receiving], 1, Waiting, map[], [], [], false)
  }

  lemma SubmitBoth()
    ensures Reachable(Pair(), Good(), AllSubmitted())
  {
    var s0 := Start(Pair());
    StartReachable(Pair(), Good());
    assert s0.workers == [NotStarted];
    var s1 := s0.(caller := Submitting, workers := [Receiving]);
    Advance(s0, ByCaller(Spawn), s1);
    var s2 := s1.(jobs := [0], submitted := 1);
    Advance(s1, ByCaller(Submit), s2);
    var s3 := s2.(jobs := [0, 1], submitted := 2);
    Advance(s2, ByCaller(Submit), s3);
    var s4 := s3.(jobsClosed := true, caller := Launching);
    Advance(s3, ByCaller(CloseJobs), s4);
    Advance(s4, ByCaller(Launch), AllSubmitted());
  }

  /** The worker takes the next job, finds the context alive and gets an answer. */
  lemma AnswerNext(s: State)
    requires Reachable(Pair(), Good(), s) && s.workers == [Receiving] && !s.cancelled
    requires s.jobs != [] && s.jobs[0] < 2
    ensures Reachable(Pair(), Good(),
              s.(jobs := s.jobs[1..], workers := [Sending(JobResult(s.jobs[0], Pair().servers[s.jobs[0]], GOOD))]))
  {
    var job := s.jobs[0];
    var s1 := s.(jobs := s.jobs[1..], workers := [Holding(job)]);
    Advance(s, ByWorker(0, Take), s1);
    var s2 := s1.(workers := [Processing(job)]);
    Advance(s1, ByWorker(0, Inspect), s2);
    Advance(s2, ByWorker(0, Answer(GOOD)), s2.(workers := [Sending(JobResult(job, Pair().servers[job], GOOD))]));
  }

  const FIRST := JobResult(0, "a", GOOD)

  const SECOND := JobResult(1, "b", GOOD)

  /** The first answer is delivered, the second one waits to be. */
  function SecondPending(): State {
    AllSubmitted().(jobs := [], results := [FIRST], workers := [Sending(SECOND)])
  }

  lemma AnswerBoth()
    ensures Reachable(Pair(), Good(), SecondPending())
  {
    SubmitBoth();
    var s0 := AllSubmitted();
    AnswerNext(s0);
    assert s0.jobs[1..] == [1];
    var s1 := s0.(jobs := [1], workers := [Sending(FIRST)]);
    var s2 := s1.(results := [FIRST], workers := [Receiving]);
    assert s1.results + [FIRST] == [FIRST];
    Advance(s1, ByWorker(0, Deliver), s2);
    AnswerNext(s2);
    assert s2.jobs[1..] == [];
  }

  /** The second answer is dropped and everybody is gone but the collector. */
  function SecondLost(): State {
    SecondPending().(cancelled := true, dropped := [1], workers := [Exited], wg := 0, closer := Done, resultsClosed := true)
  }

  lemma LoseSecond()
    ensures Reachable(Pair(), Good(), SecondLost())
  {
    AnswerBoth();
    var s3 := SecondPending();
    var s4 := s3.(cancelled := true);
    Advance(s3, Cancel, s4);
    var s5 := s4.(workers := [Leaving], dropped := [1]);
    Advance(s4, ByWorker(0, Drop), s5);
    var s6 := s5.(workers := [Exited], wg := 0);
    Advance(s5, ByWorker(0, Leave), s6);
    Advance(s6, CloseResults, SecondLost());
  }

  /** One worker answers for the first server and delivers; the context is cancelled
      while it waits to deliver the second answer, which it drops. The call returns
      a map without the second server, and no error. */
  lemma CancelledCallLosesAServer() returns (s: State)
    ensures Reachable(Pair(), Good(), s) && s.cancelled
    ensures s.caller.Returned? && s.caller.reply.Results?
    ensures "b" in Pair().servers && "b" !in s.caller.reply.entries
  {
    LoseSecond();
    var table := map["a" := FIRST];
    var s8 := SecondLost().(results := [], table := table, collected := [FIRST]);
    Advance(SecondLost(), ByCaller(Collect), s8);
    assert "a" in table;
    s := s8.(caller := Returned(Results(table)));
    Advance(s8, ByCaller(Finish), s);
    assert Pair().servers[1] == "b" && "b" != "a";
  }
}
