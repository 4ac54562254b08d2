/** What every run of `Execute` guarantees: channel safety, no deadlock,
    termination, no goroutine left behind, and genuine, accounted-for results. */
module ExecuteTheorems {
  import opened Types
  import opened ExecuteSteps
  import opened ExecuteInvariant

  // ----- safety

  /** Conservation, and with it: nothing panics, no channel exceeds its capacity,
      and no more jobs are in flight than there are workers. */
  lemma ChannelSafety(q: Request, answers: Querier, s: State)
    requires q.servers != [] && Reachable(q, answers, s)
    ensures !s.panicked
    ensures InSystem(s) == s.submitted <= q.Count()
    ensures forall j: nat :: Places(s, j) == if j < s.submitted then 1 else 0
    ensures |s.jobs| <= q.Count() && |s.results| <= q.Count()
    ensures |s.workers| == q.Workers() && Total(Busy(), s.workers) <= q.Workers()
    ensures q.size > 0 ==> Total(Busy(), s.workers) <= q.size
  {
    ReachableInv(q, answers, s);
    BusyAtMost(s.workers);
    WorkersIsMinimum(q);
  }

  lemma {:induction false} BusyAtMost(ws: seq<Worker>)
    ensures Total(Busy(), ws) <= |ws|
  {
    if ws != [] {
      BusyAtMost(ws[1..]);
    }
  }

  lemma {:induction false} BusyOne(ws: seq<Worker>, w: nat)
    requires w < |ws| && BusyBy(ws[w]) == 1
    ensures Total(Busy(), ws) > 0
  {
    TotalZero(Busy(), ws);
    assert Busy()(ws[w]) == BusyBy(ws[w]);
  }

  /** No send ever blocks, not even when nobody drains the results: a worker that
      has a result to send finds room, and so does the submitter. */
  lemma SendsNeverBlock(q: Request, answers: Querier, s: State)
    requires q.servers != [] && Reachable(q, answers, s)
    ensures forall w | 0 <= w < |s.workers| ::
              s.workers[w].Sending? || s.workers[w].Refusing? ==> |s.results| < q.Count()
    ensures s.caller.Submitting? && s.submitted < q.Count() ==> |s.jobs| < q.Count()
  {
    ReachableInv(q, answers, s);
    forall w | 0 <= w < |s.workers| && (s.workers[w].Sending? || s.workers[w].Refusing?)
      ensures |s.results| < q.Count()
    {
      BusyOne(s.workers, w);
    }
  }

  // ----- progress

  /** `ask` is an answer the querier can give for each server: it always returns. */
  ghost predicate Returns(q: Request, answers: Querier, ask: string -> Outcome) {
    forall server | server in q.servers :: answers(server, ask(server))
  }

  /** What a worker does next, if it is not waiting for jobs. */
  function WorkerChoice(q: Request, ask: string -> Outcome, s: State, pc: Worker): WorkerMove {
    match pc
    case Receiving => if s.jobs != [] then Take else Quit
    case Holding(_) => Inspect
    case Refusing(_) => Refuse
    case Processing(job) => if job < q.Count() then Answer(ask(q.servers[job])) else Quit
    case Sending(_) => Deliver
    case Leaving => Leave
    case _ => Leave
  }

  /** The first worker that has not exited. */
  function FirstAlive(ws: seq<Worker>): (w: nat)
    ensures w <= |ws| && (forall i | 0 <= i < w :: ws[i].Exited?) && (w < |ws| ==> !ws[w].Exited?)
  {
    if ws == [] || !ws[0].Exited? then 0
    else
      var w := FirstAlive(ws[1..]);
      assert forall i | 0 < i < w + 1 :: ws[i] == ws[1..][i - 1];
      w + 1
  }

  /** Some step that can be taken whenever the call has not returned. */
  function SomeAction(q: Request, ask: string -> Outcome, s: State): Action {
    var w := FirstAlive(s.workers);
    if s.caller.Spawning? then ByCaller(Spawn)
    else if s.caller.Submitting? then ByCaller(if s.submitted < q.Count() then Submit else CloseJobs)
    else if s.caller.Launching? then ByCaller(Launch)
    else if s.caller.Collecting? && s.results != [] then ByCaller(Collect)
    else if s.caller.Collecting? && s.resultsClosed then ByCaller(Finish)
    else if w < |s.workers| then ByWorker(w, WorkerChoice(q, ask, s, s.workers[w]))
    else if s.caller.Abandoning? then ByCaller(WaitAbandoned)
    else CloseResults
  }

  /** Once the jobs channel is closed, every worker that has not exited can move. */
  lemma WorkerCanMove(q: Request, answers: Querier, ask: string -> Outcome, s: State, w: nat)
    requires Inv(q, answers, s) && Returns(q, answers, ask)
    requires s.jobsClosed && w < |s.workers| && !s.workers[w].Exited? && !s.caller.Spawning?
    ensures WorkerCan(q, answers, s, s.workers[w], WorkerChoice(q, ask, s, s.workers[w]))
  {
    var pc := s.workers[w];
    assert WorkerGenuine(q, answers, s.cancelled, pc);
    if BusyBy(pc) == 1 {
      BusyOne(s.workers, w);
    }
    if pc.Processing? {
      assert q.servers[pc.job] in q.servers;
    }
  }

  lemma ProgressFrom(q: Request, answers: Querier, ask: string -> Outcome, s: State)
    requires Inv(q, answers, s) && Returns(q, answers, ask) && !s.caller.Returned?
    ensures Enabled(q, answers, s, SomeAction(q, ask, s)) && SomeAction(q, ask, s) != Cancel
  {
    var w := FirstAlive(s.workers);
    if !s.caller.Spawning? && s.jobsClosed && w < |s.workers| {
      WorkerCanMove(q, answers, ask, s, w);
    }
    NoneAlive(s.workers);
  }

  /** No deadlock: until the call returns, some goroutine of it can step. */
  lemma Progress(q: Request, answers: Querier, ask: string -> Outcome, s: State)
    requires q.servers != [] && Reachable(q, answers, s) && Returns(q, answers, ask) && !s.caller.Returned?
    ensures exists a :: a != Cancel && Enabled(q, answers, s, a)
  {
    ReachableInv(q, answers, s);
    ProgressFrom(q, answers, ask, s);
  }

  /** Nothing of the call is left when it has returned: the workers have exited,
      the closer is done or was never started, and no step is possible. */
  lemma NothingLeftBehind(q: Request, answers: Querier, s: State)
    requires q.servers != [] && Reachable(q, answers, s) && s.caller.Returned?
    ensures forall w | 0 <= w < |s.workers| :: s.workers[w].Exited?
    ensures !s.closer.Waiting?
    ensures forall a :: !Enabled(q, answers, s, a)
  {
    ReachableInv(q, answers, s);
    NoneAlive(s.workers);
  }

  // ----- termination

  function WeightBy(pc: Worker): nat {
    match pc
    case NotStarted => 3
    case Receiving => 2
    case Holding(_) => 7
    case Refusing(_) => 6
    case Processing(_) => 6
    case Sending(_) => 5
    case Leaving => 1
    case Exited => 0
  }

  function Weight(): Worker -> nat { pc => WeightBy(pc) }

  function CallerWeight(q: Request, s: State): nat {
    match s.caller
    case Spawning(_) => 7 * (if s.submitted <= q.Count() then q.Count() - s.submitted else 0) + 6
    case Submitting => 7 * (if s.submitted <= q.Count() then q.Count() - s.submitted else 0) + 6
    case Launching => 4
    case Collecting => 2
    case Abandoning => 1
    case Returned(_) => 0
  }

  /** What is left to do: jobs not submitted, queued or with a worker, positions of
      workers, caller and closer, results not collected, and one cancellation. */
  function Measure(q: Request, s: State): nat {
    CallerWeight(q, s) + 6 * |s.jobs| + |s.results| + Total(Weight(), s.workers)
    + (if s.closer.Waiting? then 1 else 0) + (if s.cancelled then 0 else 1)
  }

  lemma CallerDecreases(q: Request, s: State, m: CallerMove)
    requires Control(q, s) && CallerCan(q, s, m)
    ensures Measure(q, CallerNext(q, s, m)) < Measure(q, s)
  {
    if m.Spawn? {
      TotalUpdate(Weight(), s.workers, s.caller.started, Receiving);
    }
  }

  /** A worker's move gives up more weight than it puts on a channel. */
  lemma MoveWeight(q: Request, answers: Querier, s: State, pc: Worker, m: WorkerMove)
    requires WorkerCan(q, answers, s, pc, m)
    ensures var t := WorkerEffect(q, answers, s, pc, m);
      6 * |t.jobs| + |t.results| + WeightBy(WorkerAfter(q, answers, s, pc, m)) < 6 * |s.jobs| + |s.results| + WeightBy(pc)
  {
  }

  lemma WorkerDecreases(q: Request, answers: Querier, s: State, w: nat, m: WorkerMove)
    requires w < |s.workers| && WorkerCan(q, answers, s, s.workers[w], m)
    ensures Measure(q, Next(q, answers, s, ByWorker(w, m))) < Measure(q, s)
  {
    var pc := s.workers[w];
    MoveWeight(q, answers, s, pc, m);
    var after, t := WorkerAfter(q, answers, s, pc, m), WorkerEffect(q, answers, s, pc, m);
    TotalUpdate(Weight(), s.workers, w, after);
    assert CallerWeight(q, t.(workers := s.workers[w := after])) == CallerWeight(q, s);
  }

  lemma StepDecreases(q: Request, answers: Querier, s: State, a: Action)
    requires Control(q, s) && Enabled(q, answers, s, a)
    ensures Measure(q, Next(q, answers, s, a)) < Measure(q, s)
  {
    match a
    case ByCaller(m) => CallerDecreases(q, s, m);
    case ByWorker(w, m) => WorkerDecreases(q, answers, s, w, m);
    case _ =>
  }

  lemma {:induction false} RunShrinks(q: Request, answers: Querier, states: seq<State>, actions: seq<Action>, i: nat)
    requires q.servers != [] && IsRun(q, answers, states, actions) && i <= |actions|
    ensures Measure(q, states[i]) + i <= Measure(q, Start(q))
  {
    if i > 0 {
      RunShrinks(q, answers, states, actions, i - 1);
      RunInv(q, answers, states, actions, i - 1);
      assert Step(q, answers, states[i - 1], actions[i - 1], states[i - 1 + 1]);
      StepDecreases(q, answers, states[i - 1], actions[i - 1]);
    }
  }

  /** Every run ends: none has more than 7n + 3w + 7 steps. */
  lemma RunsAreBounded(q: Request, answers: Querier, states: seq<State>, actions: seq<Action>)
    requires q.servers != [] && IsRun(q, answers, states, actions)
    ensures |actions| <= 7 * q.Count() + 3 * q.Workers() + 7
  {
    RunShrinks(q, answers, states, actions, |actions|);
    StartWeight(Start(q).workers);
  }

  lemma {:induction false} StartWeight(ws: seq<Worker>)
    requires forall i | 0 <= i < |ws| :: ws[i].NotStarted?
    ensures Total(Weight(), ws) == 3 * |ws|
  {
    if ws != [] {
      StartWeight(ws[1..]);
    }
  }

  // ----- results

  ghost predicate Mentions(rs: seq<JobResult>, server: string) {
    exists i :: 0 <= i < |rs| && rs[i].server == server
  }

  lemma MentionsLast(rs: seq<JobResult>, server: string)
    requires rs != []
    ensures Mentions(rs, server) <==> Mentions(rs[..|rs| - 1], server) || rs[|rs| - 1].server == server
  {
    var front := rs[..|rs| - 1];
    if Mentions(front, server) {
      var i :| 0 <= i < |front| && front[i].server == server;
      assert rs[i].server == server;
    }
    if Mentions(rs, server) && rs[|rs| - 1].server != server {
      var i :| 0 <= i < |rs| && rs[i].server == server;
      assert front[i].server == server;
    }
  }

  lemma {:induction false} TabulateEntries(rs: seq<JobResult>)
    ensures forall server :: server in Tabulate(rs) <==> Mentions(rs, server)
    ensures forall server | server in Tabulate(rs) :: Tabulate(rs)[server] in rs && Tabulate(rs)[server].server == server
  {
    if rs == [] {
    } else {
      TabulateEntries(rs[..|rs| - 1]);
      forall server ensures server in Tabulate(rs) <==> Mentions(rs, server) {
        MentionsLast(rs, server);
      }
    }
  }

  /** Every returned entry is keyed by a requested server and is what the querier
      gave for it, or the context error of a cancelled call. */
  lemma ResultsAreGenuine(q: Request, answers: Querier, s: State)
    requires q.servers != [] && Reachable(q, answers, s) && s.caller.Returned? && s.caller.reply.Results?
    ensures forall server | server in s.caller.reply.entries ::
              && server in q.servers && s.caller.reply.entries[server].server == server
              && MayAnswer(answers, s.cancelled, server, s.caller.reply.entries[server].outcome)
  {
    ReachableInv(q, answers, s);
    TabulateEntries(s.collected);
    forall server | server in s.table
      ensures server in q.servers && s.table[server].server == server && MayAnswer(answers, s.cancelled, server, s.table[server].outcome)
    {
      assert s.table[server] in s.collected;
      var i :| 0 <= i < |s.collected| && s.collected[i] == s.table[server];
      assert Genuine(q, answers, s.cancelled, s.collected[i]);
    }
  }

  lemma {:induction false} OccursIn(js: seq<nat>, j: nat)
    ensures Occurrences(js, j) > 0 <==> j in js
  {
    if js == [] {
    } else {
      OccursIn(js[..|js| - 1], j);
      assert js == js[..|js| - 1] + [js[|js| - 1]];
    }
  }

  lemma NothingHeld(s: State, j: nat)
    requires Total(Alive(), s.workers) == 0
    ensures Total(Carrying(j), s.workers) == 0
  {
    NoneAlive(s.workers);
    TotalZero(Carrying(j), s.workers);
    assert forall i | 0 <= i < |s.workers| :: Carrying(j)(s.workers[i]) == CarriesBy(s.workers[i], j);
  }

  /** When the call has returned its map, each job of the request was either
      collected, dropped by a worker after cancellation, or left in the queue, and
      only one of the three. */
  lemma ReturnAccountsForAllJobs(q: Request, answers: Querier, s: State, j: nat)
    requires q.servers != [] && Reachable(q, answers, s) && s.caller.Returned? && !s.caller.reply.Cancelled? && j < q.Count()
    ensures Occurrences(JobsOf(s.collected), j) + Occurrences(s.dropped, j) + Occurrences(s.jobs, j) == 1
    ensures !s.cancelled ==> Occurrences(JobsOf(s.collected), j) == 1
  {
    ReachableInv(q, answers, s);
    NothingHeld(s, j);
    assert Places(s, j) == 1;
    if !s.cancelled {
      NoneAlive(s.workers);
      assert s.workers[0].Exited?;
    }
  }

  lemma CollectedJob(q: Request, answers: Querier, s: State, j: nat)
    requires Inv(q, answers, s) && j < q.Count() && Occurrences(JobsOf(s.collected), j) > 0
    ensures q.servers[j] in s.table
  {
    OccursIn(JobsOf(s.collected), j);
    var i :| 0 <= i < |s.collected| && JobsOf(s.collected)[i] == j;
    assert Genuine(q, answers, s.cancelled, s.collected[i]);
    TabulateEntries(s.collected);
    assert s.collected[i].server == q.servers[j];
  }

  /** A server is missing from the returned map exactly when all of its jobs were
      dropped or left in the queue. */
  lemma MissingServers(q: Request, answers: Querier, s: State, server: string)
    requires q.servers != [] && Reachable(q, answers, s) && s.caller.Returned? && !s.caller.reply.Cancelled?
    requires server in q.servers
    ensures server !in s.table <==>
            forall j | 0 <= j < q.Count() && q.servers[j] == server :: j in s.dropped || j in s.jobs
  {
    ReachableInv(q, answers, s);
    TabulateEntries(s.collected);
    if server in s.table {
      var i :| 0 <= i < |s.collected| && s.collected[i].server == server;
      assert Genuine(q, answers, s.cancelled, s.collected[i]);
      var j := s.collected[i].job;
      assert JobsOf(s.collected)[i] == j;
      OccursIn(JobsOf(s.collected), j);
      ReturnAccountsForAllJobs(q, answers, s, j);
      OccursIn(s.dropped, j);
      OccursIn(s.jobs, j);
    } else {
      forall j | 0 <= j < q.Count() && q.servers[j] == server ensures j in s.dropped || j in s.jobs {
        ReturnAccountsForAllJobs(q, answers, s, j);
        OccursIn(s.dropped, j);
        OccursIn(s.jobs, j);
        if Occurrences(JobsOf(s.collected), j) > 0 {
          CollectedJob(q, answers, s, j);
        }
      }
    }
  }

  /** Without cancellation the call succeeds, and its map has exactly the requested
      servers, each with an answer of the querier. */
  lemma CompleteWithoutCancellation(q: Request, answers: Querier, s: State)
    requires q.servers != [] && Reachable(q, answers, s) && s.caller.Returned? && !s.cancelled
    ensures s.caller.reply == Results(s.table)
    ensures s.table.Keys == set server | server in q.servers
    ensures forall server | server in s.table :: s.table[server].server == server && answers(server, s.table[server].outcome)
  {
    ReachableInv(q, answers, s);
    forall j | 0 <= j < q.Count() ensures q.servers[j] in s.table {
      ReturnAccountsForAllJobs(q, answers, s, j);
      CollectedJob(q, answers, s, j);
    }
    assert q.servers[0] in s.table;
    ResultsAreGenuine(q, answers, s);
  }

  /** What the kind of the reply tells: the context error only after cancellation with
      jobs left to submit, "no results" exactly when nothing was collected from a
      complete submission, and otherwise a map. */
  lemma ReplyTells(q: Request, answers: Querier, s: State)
    requires q.servers != [] && Reachable(q, answers, s) && s.caller.Returned?
    ensures match s.caller.reply
            case Cancelled => s.cancelled && s.closer.Absent?
            case NoResults => s.cancelled && s.submitted == q.Count() && s.collected == []
            case Results(entries) => s.submitted == q.Count() && s.collected != [] && entries != map[]
  {
    ReachableInv(q, answers, s);
    if s.caller.reply.NoResults? && s.collected != [] {
      TabulateEntries(s.collected);
      assert Mentions(s.collected, s.collected[0].server);
    }
    if !s.cancelled {
      CompleteWithoutCancellation(q, answers, s);
    }
  }

  /** r is the last of rs for its server. */
  ghost predicate IsLast(rs: seq<JobResult>, k: nat, server: string) {
    k < |rs| && rs[k].server == server && forall m | k < m < |rs| :: rs[m].server != server
  }

  lemma {:induction false} TabulateLast(rs: seq<JobResult>, server: string) returns (k: nat)
    requires server in Tabulate(rs)
    ensures IsLast(rs, k, server) && Tabulate(rs)[server] == rs[k]
  {
    var n := |rs| - 1;
    if rs[n].server == server {
      k := n;
    } else {
      k := TabulateLast(rs[..n], server);
    }
  }

  /** Of several results for one server the one collected last is returned. */
  lemma LastResultWins(q: Request, answers: Querier, s: State, server: string) returns (k: nat)
    requires q.servers != [] && Reachable(q, answers, s) && s.caller.Returned? && s.caller.reply.Results?
    requires server in s.caller.reply.entries
    ensures IsLast(s.collected, k, server) && s.caller.reply.entries[server] == s.collected[k]
  {
    ReachableInv(q, answers, s);
    k := TabulateLast(s.collected, server);
  }

  // ----- order

  /** The queue holds the jobs submitted last, in the order of submission: jobs are
      taken in that order too. */
  ghost predicate InOrder(s: State) {
    |s.jobs| <= s.submitted && forall i | 0 <= i < |s.jobs| :: s.jobs[i] == s.submitted - |s.jobs| + i
  }

  lemma OrderByCaller(q: Request, s: State, m: CallerMove)
    requires InOrder(s) && CallerCan(q, s, m)
    ensures InOrder(CallerNext(q, s, m))
  {
  }

  lemma OrderByWorker(q: Request, answers: Querier, s: State, pc: Worker, m: WorkerMove)
    requires InOrder(s) && WorkerCan(q, answers, s, pc, m)
    ensures InOrder(WorkerEffect(q, answers, s, pc, m))
  {
  }

  lemma OrderKept(q: Request, answers: Querier, s: State, a: Action)
    requires InOrder(s) && Enabled(q, answers, s, a)
    ensures InOrder(Next(q, answers, s, a))
  {
    match a
    case ByCaller(m) => OrderByCaller(q, s, m);
    case ByWorker(w, m) => OrderByWorker(q, answers, s, s.workers[w], m);
    case _ =>
  }

  lemma {:induction false} JobsInOrder(q: Request, answers: Querier, states: seq<State>, actions: seq<Action>, i: nat)
    requires IsRun(q, answers, states, actions) && i < |states|
    ensures InOrder(states[i])
  {
    if i > 0 {
      JobsInOrder(q, answers, states, actions, i - 1);
      assert Step(q, answers, states[i - 1], actions[i - 1], states[i - 1 + 1]);
      OrderKept(q, answers, states[i - 1], actions[i - 1]);
    }
  }

  // ----- cancellation

  /** The job has not been put to the querier. */
  ghost predicate NotAsked(s: State, job: nat) {
    && (forall w | 0 <= w < |s.workers| ::
          s.workers[w] != Processing(job) && (s.workers[w].Sending? ==> s.workers[w].result.job != job))
    && (forall i | 0 <= i < |s.results| :: s.results[i].job != job)
    && (forall i | 0 <= i < |s.collected| :: s.collected[i].job != job)
  }

  /** Nor is it any more: whatever is reported for it is the bare context error. */
  ghost predicate Declined(s: State, job: nat) {
    && s.cancelled
    && (forall w | 0 <= w < |s.workers| ::
          s.workers[w] != Processing(job) && (s.workers[w].Sending? ==> s.workers[w].result.job != job))
    && (forall i | 0 <= i < |s.results| && s.results[i].job == job :: s.results[i].outcome == Outcome([], ContextError))
    && (forall i | 0 <= i < |s.collected| && s.collected[i].job == job :: s.collected[i].outcome == Outcome([], ContextError))
  }

  lemma DeclinedByCaller(q: Request, s: State, m: CallerMove, job: nat)
    requires Declined(s, job) && CallerCan(q, s, m)
    ensures Declined(CallerNext(q, s, m), job)
  {
  }

  lemma DeclinedByWorker(q: Request, answers: Querier, s: State, w: nat, m: WorkerMove, job: nat)
    requires Declined(s, job) && w < |s.workers| && WorkerCan(q, answers, s, s.workers[w], m)
    ensures Declined(Next(q, answers, s, ByWorker(w, m)), job)
  {
    var pc := s.workers[w];
    var t := Next(q, answers, s, ByWorker(w, m));
    forall v | 0 <= v < |t.workers|
      ensures t.workers[v] != Processing(job) && (t.workers[v].Sending? ==> t.workers[v].result.job != job)
    {
      assert v != w ==> t.workers[v] == s.workers[v];
    }
  }

  /** Cancellation stops the querying: a job that no worker has put to the querier when
      the context is cancelled never is, in no continuation of the run. */
  lemma {:induction false} NobodyAskedAfterCancel(q: Request, answers: Querier, states: seq<State>, actions: seq<Action>, i: nat, j: nat, job: nat)
    requires IsRun(q, answers, states, actions) && i <= j < |states|
    requires states[i].cancelled && NotAsked(states[i], job)
    ensures Declined(states[j], job)
  {
    if i < j {
      NobodyAskedAfterCancel(q, answers, states, actions, i, j - 1, job);
      assert Step(q, answers, states[j - 1], actions[j - 1], states[j - 1 + 1]);
      match actions[j - 1]
      case ByCaller(m) => DeclinedByCaller(q, states[j - 1], m, job);
      case ByWorker(w, m) => DeclinedByWorker(q, answers, states[j - 1], w, m, job);
      case _ =>
    }
  }

  /** Whether a worker can still take a job once the context is cancelled. */
  function MayTakeBy(pc: Worker): nat {
    if pc.NotStarted? || pc.Receiving? || pc.Processing? || pc.Sending? then 1 else 0
  }

  function MayTake(): Worker -> nat { pc => MayTakeBy(pc) }

  /** Whether a worker is past its loop. */
  function GoneBy(pc: Worker): nat { if pc.Leaving? || pc.Exited? then 1 else 0 }

  function Gone(): Worker -> nat { pc => GoneBy(pc) }

  lemma {:induction false} TotalAtMost(f: Worker -> nat, ws: seq<Worker>)
    requires forall pc :: f(pc) <= 1
    ensures Total(f, ws) <= |ws|
  {
    if ws != [] {
      TotalAtMost(f, ws[1..]);
    }
  }

  /** Jobs that workers have taken. */
  function Taken(s: State): int { s.submitted - |s.jobs| }

  lemma TakesByWorker(q: Request, answers: Querier, s: State, pc: Worker, m: WorkerMove)
    requires WorkerCan(q, answers, s, pc, m) && s.cancelled
    ensures var t := WorkerEffect(q, answers, s, pc, m);
      Taken(t) + MayTakeBy(WorkerAfter(q, answers, s, pc, m)) <= Taken(s) + MayTakeBy(pc)
  {
  }

  lemma TakesByStep(q: Request, answers: Querier, s: State, a: Action)
    requires Enabled(q, answers, s, a) && s.cancelled
    ensures var t := Next(q, answers, s, a);
      t.cancelled && Taken(t) + Total(MayTake(), t.workers) <= Taken(s) + Total(MayTake(), s.workers)
  {
    match a
    case ByCaller(Spawn) => TotalUpdate(MayTake(), s.workers, s.caller.started, Receiving);
    case ByWorker(w, m) =>
      TakesByWorker(q, answers, s, s.workers[w], m);
      TotalUpdate(MayTake(), s.workers, w, WorkerAfter(q, answers, s, s.workers[w], m));
    case _ =>
  }

  lemma {:induction false} TakesAfterCancel(q: Request, answers: Querier, states: seq<State>, actions: seq<Action>, i: nat, j: nat)
    requires IsRun(q, answers, states, actions) && i <= j < |states| && states[i].cancelled
    ensures states[j].cancelled
    ensures Taken(states[j]) + Total(MayTake(), states[j].workers) <= Taken(states[i]) + Total(MayTake(), states[i].workers)
  {
    if i < j {
      TakesAfterCancel(q, answers, states, actions, i, j - 1);
      assert Step(q, answers, states[j - 1], actions[j - 1], states[j - 1 + 1]);
      TakesByStep(q, answers, states[j - 1], actions[j - 1]);
    }
  }

  /** Once the context is cancelled, each worker takes at most one job more, in every
      continuation of the run. */
  lemma CancelledCallTakesFew(q: Request, answers: Querier, states: seq<State>, actions: seq<Action>, i: nat, j: nat)
    requires q.servers != [] && IsRun(q, answers, states, actions) && i <= j < |states| && states[i].cancelled
    ensures Taken(states[j]) - Taken(states[i]) <= q.Workers()
  {
    TakesAfterCancel(q, answers, states, actions, i, j);
    TotalAtMost(MayTake(), states[i].workers);
    RunInv(q, answers, states, actions, i);
  }

  lemma DropsByWorker(q: Request, answers: Querier, s: State, pc: Worker, m: WorkerMove)
    requires WorkerCan(q, answers, s, pc, m)
    ensures var t := WorkerEffect(q, answers, s, pc, m);
      |t.dropped| - |s.dropped| <= GoneBy(WorkerAfter(q, answers, s, pc, m)) - GoneBy(pc)
  {
  }

  lemma DropsByStep(q: Request, answers: Querier, s: State, a: Action)
    requires Enabled(q, answers, s, a) && |s.dropped| <= Total(Gone(), s.workers)
    ensures |Next(q, answers, s, a).dropped| <= Total(Gone(), Next(q, answers, s, a).workers)
  {
    match a
    case ByCaller(Spawn) => TotalUpdate(Gone(), s.workers, s.caller.started, Receiving);
    case ByWorker(w, m) =>
      DropsByWorker(q, answers, s, s.workers[w], m);
      TotalUpdate(Gone(), s.workers, w, WorkerAfter(q, answers, s, s.workers[w], m));
    case _ =>
  }

  /** A worker that drops a result is gone: no run drops more results than there are
      workers that have left their loop. */
  lemma {:induction false} OneDropPerWorker(q: Request, answers: Querier, states: seq<State>, actions: seq<Action>, i: nat)
    requires q.servers != [] && IsRun(q, answers, states, actions) && i < |states|
    ensures |states[i].dropped| <= Total(Gone(), states[i].workers) <= q.Workers()
  {
    RunInv(q, answers, states, actions, i);
    TotalAtMost(Gone(), states[i].workers);
    if i > 0 {
      OneDropPerWorker(q, answers, states, actions, i - 1);
      assert Step(q, answers, states[i - 1], actions[i - 1], states[i - 1 + 1]);
      DropsByStep(q, answers, states[i - 1], actions[i - 1]);
    }
  }
}
