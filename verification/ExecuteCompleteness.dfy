/** For which requests a map returned by `Execute` has every requested server. */
module ExecuteCompleteness {
  import opened Types
  import opened ExecuteSteps
  import opened ExecuteInvariant
  import opened ExecuteTheorems
  import Runs = WorkerPools

  ghost predicate Live(q: Request, answers: Querier, s: State) {
    q.servers != [] && Reachable(q, answers, s) && Inv(q, answers, s)
  }

  lemma Move(q: Request, answers: Querier, s: State, a: Action) returns (t: State)
    requires Live(q, answers, s) && Enabled(q, answers, s, a)
    ensures t == Next(q, answers, s, a) && Live(q, answers, t) && Measure(q, t) < Measure(q, s)
  {
    t := Next(q, answers, s, a);
    Runs.StepReachable(q, answers, s, a);
    InvStep(q, answers, s, a);
    StepDecreases(q, answers, s, a);
  }

  // ----- all jobs are submitted before any worker moves

  ghost predicate Idle(s: State) {
    && !s.cancelled && s.results == [] && s.collected == [] && s.dropped == []
    && (s.caller.Spawning? || s.caller.Submitting? || s.caller.Launching? || s.caller.Collecting?)
    && (forall w | 0 <= w < |s.workers| :: s.workers[w].NotStarted? || s.workers[w].Receiving?)
  }

  function CallerChoice(q: Request, s: State): Action {
    if s.caller.Spawning? then ByCaller(Spawn)
    else if s.caller.Submitting? then ByCaller(if s.submitted < q.Count() then Submit else CloseJobs)
    else ByCaller(Launch)
  }

  lemma NobodyBusy(ws: seq<Worker>)
    requires forall w | 0 <= w < |ws| :: ws[w].NotStarted? || ws[w].Receiving?
    ensures Total(Busy(), ws) == 0
  {
    assert forall w | 0 <= w < |ws| :: Busy()(ws[w]) == BusyBy(ws[w]) == 0;
    TotalZero(Busy(), ws);
  }

  lemma {:induction false} Submitted(q: Request, answers: Querier, s: State) returns (t: State)
    requires Live(q, answers, s) && Idle(s)
    ensures Live(q, answers, t) && Idle(t) && t.caller.Collecting? && |t.jobs| == q.Count()
    decreases Measure(q, s)
  {
    NobodyBusy(s.workers);
    if s.caller.Collecting? {
      t := s;
    } else {
      var u := Move(q, answers, s, CallerChoice(q, s));
      t := Submitted(q, answers, u);
    }
  }

  // ----- workers get an answer and are about to deliver it

  function Worked(q: Request, ask: string -> Outcome, s: State, w: nat): State
    requires s.jobs != [] && s.jobs[0] < q.Count() && w < |s.workers|
  {
    var server := q.servers[s.jobs[0]];
    s.(jobs := s.jobs[1..], workers := s.workers[w := Sending(JobResult(s.jobs[0], server, ask(server)))])
  }

  lemma TakeJob(q: Request, answers: Querier, s: State, w: nat) returns (t: State)
    requires Live(q, answers, s) && !s.cancelled && w < |s.workers| && s.workers[w].Receiving? && s.jobs != []
    ensures t == s.(jobs := s.jobs[1..], workers := s.workers[w := Processing(s.jobs[0])]) && Live(q, answers, t)
  {
    var job := s.jobs[0];
    var s1 := Move(q, answers, s, ByWorker(w, Take));
    t := Move(q, answers, s1, ByWorker(w, Inspect));
    assert s.workers[w := Holding(job)][w := Processing(job)] == s.workers[w := Processing(job)];
  }

  /** A worker takes a job, finds the context alive and gets an answer. */
  lemma Work(q: Request, answers: Querier, ask: string -> Outcome, s: State, w: nat) returns (t: State)
    requires Live(q, answers, s) && Returns(q, answers, ask) && !s.cancelled
    requires w < |s.workers| && s.workers[w].Receiving? && s.jobs != []
    ensures s.jobs[0] < q.Count() && t == Worked(q, ask, s, w) && Live(q, answers, t)
  {
    var job := s.jobs[0];
    assert job < q.Count();
    var server := q.servers[job];
    assert server in q.servers;
    var u := TakeJob(q, answers, s, w);
    t := Move(q, answers, u, ByWorker(w, Answer(ask(server))));
    assert s.workers[w := Processing(job)][w := t.workers[w]] == s.workers[w := t.workers[w]];
  }

  /** One result is sent and not collected; every worker waits for jobs or to deliver. */
  ghost predicate OneSent(s: State, r: JobResult) {
    && !s.cancelled && s.caller.Collecting? && s.results == [r] && s.collected == []
    && (forall w | 0 <= w < |s.workers| :: s.workers[w].Receiving? || s.workers[w].Sending?)
  }

  /** The first job is done and its result sent. */
  lemma SendFirst(q: Request, answers: Querier, ask: string -> Outcome, s: State) returns (t: State, r: JobResult)
    requires Live(q, answers, s) && Returns(q, answers, ask) && Idle(s) && s.caller.Collecting? && |s.jobs| == q.Count()
    ensures Live(q, answers, t) && OneSent(t, r)
  {
    var s1 := Work(q, answers, ask, s, 0);
    r := s1.workers[0].result;
    t := Move(q, answers, s1, ByWorker(0, Deliver));
  }

  /** Every worker that can still get a job takes one and gets an answer. */
  lemma {:induction false} LoadAll(q: Request, answers: Querier, ask: string -> Outcome, s: State, r: JobResult) returns (t: State)
    requires Live(q, answers, s) && Returns(q, answers, ask) && OneSent(s, r)
    ensures Live(q, answers, t) && OneSent(t, r)
    ensures t.jobs == [] || forall w | 0 <= w < |t.workers| :: t.workers[w].Sending?
    decreases |s.jobs|
  {
    if w :| 0 <= w < |s.workers| && s.workers[w].Receiving? && s.jobs != [] {
      var u := Work(q, answers, ask, s, w);
      t := LoadAll(q, answers, ask, u, r);
    } else {
      t := s;
    }
  }

  // ----- after cancellation they all drop their results

  ghost predicate Winding(s: State, server: string) {
    && s.cancelled && s.caller.Collecting?
    && (forall w | 0 <= w < |s.workers| ::
          || s.workers[w].Sending? || s.workers[w].Leaving? || s.workers[w].Exited?
          || (s.workers[w].Receiving? && s.jobs == []))
    && (forall i | 0 <= i < |s.results| :: s.results[i].server == server)
    && (forall i | 0 <= i < |s.collected| :: s.collected[i].server == server)
    && |s.results| + |s.collected| > 0
  }

  function WindChoice(s: State): Action {
    var w := FirstAlive(s.workers);
    if w < |s.workers| then
      ByWorker(w, if s.workers[w].Sending? then Drop else if s.workers[w].Leaving? then Leave else Quit)
    else if s.closer.Waiting? then CloseResults
    else ByCaller(Collect)
  }

  lemma WindCan(q: Request, answers: Querier, s: State, server: string)
    requires Live(q, answers, s) && Winding(s, server) && !(CallerCan(q, s, Finish))
    ensures Enabled(q, answers, s, WindChoice(s))
  {
    NoneAlive(s.workers);
  }

  lemma WindStep(q: Request, answers: Querier, s: State, server: string)
    requires Live(q, answers, s) && Winding(s, server) && !(CallerCan(q, s, Finish)) && Enabled(q, answers, s, WindChoice(s))
    ensures Winding(Next(q, answers, s, WindChoice(s)), server)
  {
  }

  /** The call ends with the results of one server only. */
  lemma {:induction false} WindUp(q: Request, answers: Querier, s: State, server: string) returns (t: State)
    requires Live(q, answers, s) && Winding(s, server)
    ensures Reachable(q, answers, t) && t.cancelled && t.caller.Returned? && t.caller.reply.Results?
    ensures t.caller.reply.entries.Keys == {server}
    decreases Measure(q, s)
  {
    if CallerCan(q, s, Finish) {
      TabulateEntries(s.collected);
      assert Mentions(s.collected, server) by {
        assert s.collected[0].server == server;
      }
      t := Move(q, answers, s, ByCaller(Finish));
      assert s.table.Keys == {server};
    } else {
      WindCan(q, answers, s, server);
      WindStep(q, answers, s, server);
      var u := Move(q, answers, s, WindChoice(s));
      t := WindUp(q, answers, u, server);
    }
  }

  /** For every request there is a run, cancelled on the way, that returns the results
      of a single server and no error. */
  lemma SingleServerRun(q: Request, answers: Querier, ask: string -> Outcome) returns (s: State, server: string)
    requires q.servers != [] && Returns(q, answers, ask)
    ensures Reachable(q, answers, s) && s.cancelled && s.caller.Returned? && s.caller.reply.Results?
    ensures s.caller.reply.entries.Keys == {server}
  {
    Runs.StartReachable(q, answers);
    StartInv(q, answers);
    var s1 := Submitted(q, answers, Start(q));
    var s2, r := SendFirst(q, answers, ask, s1);
    var s3 := LoadAll(q, answers, ask, s2, r);
    var s4 := Move(q, answers, s3, Cancel);
    s := WindUp(q, answers, s4, r.server);
    server := r.server;
  }

  ghost predicate IsComplete(q: Request, reply: Reply)
    requires reply.Results?
  {
    reply.entries.Keys == set server | server in q.servers
  }

  /** If all requested servers are the same one, a returned map has it. */
  lemma SameServerIsThere(q: Request, answers: Querier, s: State)
    requires q.servers != [] && Reachable(q, answers, s) && s.caller.Returned? && s.caller.reply.Results?
    requires forall i | 0 <= i < |q.servers| :: q.servers[i] == q.servers[0]
    ensures IsComplete(q, s.caller.reply)
  {
    ReachableInv(q, answers, s);
    ResultsAreGenuine(q, answers, s);
    var entries := s.caller.reply.entries;
    assert entries != map[];
    var server :| server in entries;
    assert server == q.servers[0];
    assert entries.Keys == {q.servers[0]} == set server | server in q.servers;
  }

  /** Every map that any run of `Execute` returns is complete if and only if all the
      requested servers are equal; otherwise a cancelled run returns, without error,
      a map that lacks one. (A run that is not cancelled is complete in any case.) */
  lemma MapsAreComplete(q: Request, answers: Querier, ask: string -> Outcome)
    requires q.servers != [] && Returns(q, answers, ask)
    ensures (forall s | Reachable(q, answers, s) && s.caller.Returned? && s.caller.reply.Results? :: IsComplete(q, s.caller.reply))
        <==> forall i | 0 <= i < |q.servers| :: q.servers[i] == q.servers[0]
    ensures forall s | Reachable(q, answers, s) && s.caller.Returned? && !s.cancelled ::
              s.caller.reply.Results? && IsComplete(q, s.caller.reply)
  {
    forall s | Reachable(q, answers, s) && s.caller.Returned? && !s.cancelled
      ensures s.caller.reply.Results? && IsComplete(q, s.caller.reply)
    {
      CompleteWithoutCancellation(q, answers, s);
    }
    if forall i | 0 <= i < |q.servers| :: q.servers[i] == q.servers[0] {
      forall s | Reachable(q, answers, s) && s.caller.Returned? && s.caller.reply.Results? ensures IsComplete(q, s.caller.reply) {
        SameServerIsThere(q, answers, s);
      }
    } else {
      var s, server := SingleServerRun(q, answers, ask);
      var i :| 0 <= i < |q.servers| && q.servers[i] != q.servers[0];
      assert q.servers[0] in q.servers && q.servers[i] in q.servers;
      var all := set server | server in q.servers;
      assert q.servers[0] in all && q.servers[i] in all;
      assert s.caller.reply.entries.Keys == {server} != all;
      assert !IsComplete(q, s.caller.reply);
    }
  }
}
