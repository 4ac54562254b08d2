/** `WorkerPool.Execute` as a system of goroutines: a submitter that also collects,
    up to `size` workers, and a closer, sharing two buffered channels, a wait group
    and a context. One action is one atomic step of one goroutine; any order in
    which enabled actions can follow each other is a run. */
module ExecuteSteps {
  import opened Types

  /** A batch: the servers asked for and the configured pool size. */
  datatype Request = Request(servers: seq<string>, size: int) {
    function Count(): nat { |servers| }

    /** A configured size below one counts as one; no more workers than servers. */
    function Workers(): (w: nat)
      ensures w <= |servers| && (|servers| > 0 ==> w > 0)
    {
      var s := if size <= 0 then 1 else size;
      if s > |servers| then |servers| else s
    }
  }

  /** The smaller of the configured size and the number of servers. */
  lemma WorkersIsMinimum(q: Request)
    ensures q.size > 0 ==> q.Workers() == if q.size < |q.servers| then q.size else |q.servers|
    ensures q.size <= 0 ==> q.Workers() == if |q.servers| > 0 then 1 else 0
  {
  }

  /** A job is known by its place in the request; its server is servers[job]. */
  datatype JobResult = JobResult(job: nat, server: string, outcome: Outcome)

  /** Where a worker is. */
  datatype Worker =
    | NotStarted
    | Receiving                    // at the range over the jobs channel
    | Holding(job: nat)            // at the select on ctx.Done with a default
    | Refusing(job: nat)           // at the unconditional send of the context error
    | Processing(job: nat)         // inside QueryMultiple
    | Sending(result: JobResult)   // at the select of send and ctx.Done
    | Leaving                      // at the deferred wg.Done
    | Exited

  datatype Reply = Results(entries: map<string, JobResult>) | NoResults | Cancelled

  /** Where the calling goroutine is. */
  datatype Caller =
    | Spawning(started: nat)   // starting workers
    | Submitting               // at the select of send and ctx.Done
    | Launching                // jobs closed, closer not started
    | Collecting               // at the range over the results channel
    | Abandoning               // submission given up: jobs closed, at wg.Wait
    | Returned(reply: Reply)

  datatype Closer = Absent | Waiting | Done

  /** `submitted` is the submitter's loop index; `collected` and `dropped` record
      what left the system, and `panicked` whether some step did what makes Go
      panic: a second close, a send on a closed channel, a negative wait group. */
  datatype State = State(
    caller: Caller, cancelled: bool,
    submitted: nat, jobs: seq<nat>, jobsClosed: bool,
    results: seq<JobResult>, resultsClosed: bool,
    workers: seq<Worker>, wg: int, closer: Closer,
    table: map<string, JobResult>,
    collected: seq<JobResult>, dropped: seq<nat>, panicked: bool)

  function Start(q: Request): State {
    State(Spawning(0), false, 0, [], false, [], false,
          seq(q.Workers(), _ => NotStarted), q.Workers(), Absent, map[], [], [], false)
  }

  /** What the querier may return: an answer it can give for the server, or once
      the context is cancelled the context error with what came in before. */
  type Querier = (string, Outcome) -> bool

  predicate MayAnswer(answers: Querier, cancelled: bool, server: string, o: Outcome) {
    answers(server, o) || (cancelled && o.error == ContextError)
  }

  datatype CallerMove = Spawn | Submit | GiveUp | CloseJobs | Launch | Collect | Finish | WaitAbandoned

  datatype WorkerMove = Take | Quit | Inspect | Answer(outcome: Outcome) | Deliver | Drop | Refuse | Leave

  /** One atomic step: the environment cancels the context, the closer gets past
      its wait, or the caller or worker w makes a move. */
  datatype Action = Cancel | CloseResults | ByCaller(move: CallerMove) | ByWorker(w: nat, step: WorkerMove)

  predicate CallerCan(q: Request, s: State, m: CallerMove) {
    match m
    case Spawn => s.caller.Spawning? && s.caller.started < |s.workers| && s.workers[s.caller.started].NotStarted?
    case Submit => s.caller.Submitting? && s.submitted < q.Count() && |s.jobs| < q.Count()
    case GiveUp => s.caller.Submitting? && s.submitted < q.Count() && s.cancelled
    case CloseJobs => s.caller.Submitting? && s.submitted == q.Count()
    case Launch => s.caller.Launching?
    case Collect => s.caller.Collecting? && s.results != []
    case Finish => s.caller.Collecting? && s.results == [] && s.resultsClosed
    case WaitAbandoned => s.caller.Abandoning? && s.wg == 0
  }

  function CloseJobsCh(s: State): State {
    s.(jobsClosed := true, panicked := s.panicked || s.jobsClosed)
  }

  function CallerNext(q: Request, s: State, m: CallerMove): State
    requires CallerCan(q, s, m)
  {
    match m
    case Spawn =>
      var k := s.caller.started;
      s.(workers := s.workers[k := Receiving],
         caller := if k + 1 == |s.workers| then Submitting else Spawning(k + 1))
    case Submit =>
      s.(jobs := s.jobs + [s.submitted], submitted := s.submitted + 1, panicked := s.panicked || s.jobsClosed)
    case GiveUp => CloseJobsCh(s).(caller := Abandoning)
    case CloseJobs => CloseJobsCh(s).(caller := Launching)
    case Launch => s.(caller := Collecting, closer := Waiting)
    case Collect =>
      var r := s.results[0];
      s.(results := s.results[1..], table := s.table[r.server := r], collected := s.collected + [r])
    case Finish => s.(caller := Returned(if s.table == map[] then NoResults else Results(s.table)))
    case WaitAbandoned => s.(caller := Returned(Cancelled))
  }

  /** Whether a worker at pc can make the move. */
  predicate WorkerCan(q: Request, answers: Querier, s: State, pc: Worker, m: WorkerMove) {
    match m
    case Take => pc.Receiving? && s.jobs != []
    case Quit => pc.Receiving? && s.jobs == [] && s.jobsClosed
    case Inspect => pc.Holding?
    case Answer(o) => pc.Processing? && pc.job < q.Count() && MayAnswer(answers, s.cancelled, q.servers[pc.job], o)
    case Deliver => pc.Sending? && |s.results| < q.Count()
    case Drop => pc.Sending? && s.cancelled
    case Refuse => pc.Refusing? && pc.job < q.Count() && |s.results| < q.Count()
    case Leave => pc.Leaving?
  }

  /** Where the worker is afterwards. */
  function WorkerAfter(q: Request, answers: Querier, s: State, pc: Worker, m: WorkerMove): Worker
    requires WorkerCan(q, answers, s, pc, m)
  {
    match m
    case Take => Holding(s.jobs[0])
    case Quit => Leaving
    case Inspect => if s.cancelled then Refusing(pc.job) else Processing(pc.job)
    case Answer(o) => Sending(JobResult(pc.job, q.servers[pc.job], o))
    case Deliver => Receiving
    case Drop => Leaving
    case Refuse => Leaving
    case Leave => Exited
  }

  function Send(s: State, r: JobResult): State {
    s.(results := s.results + [r], panicked := s.panicked || s.resultsClosed)
  }

  /** What the move does to everything but the worker. */
  function WorkerEffect(q: Request, answers: Querier, s: State, pc: Worker, m: WorkerMove): (t: State)
    requires WorkerCan(q, answers, s, pc, m)
    ensures t.workers == s.workers && t.caller == s.caller && t.cancelled == s.cancelled && t.submitted == s.submitted
    ensures t.closer == s.closer && t.jobsClosed == s.jobsClosed && t.resultsClosed == s.resultsClosed
    ensures t.collected == s.collected && t.table == s.table
  {
    match m
    case Take => s.(jobs := s.jobs[1..])
    case Quit => s
    case Inspect => s
    case Answer(_) => s
    case Deliver => Send(s, pc.result)
    case Drop => s.(dropped := s.dropped + [pc.result.job])
    case Refuse => Send(s, JobResult(pc.job, q.servers[pc.job], Outcome([], ContextError)))
    case Leave => s.(wg := s.wg - 1, panicked := s.panicked || s.wg <= 0)
  }

  predicate Enabled(q: Request, answers: Querier, s: State, a: Action) {
    match a
    case Cancel => !s.cancelled && !s.caller.Returned?
    case CloseResults => s.closer.Waiting? && s.wg == 0
    case ByCaller(m) => CallerCan(q, s, m)
    case ByWorker(w, m) => w < |s.workers| && WorkerCan(q, answers, s, s.workers[w], m)
  }

  function Next(q: Request, answers: Querier, s: State, a: Action): State
    requires Enabled(q, answers, s, a)
  {
    match a
    case Cancel => s.(cancelled := true)
    case CloseResults => s.(closer := Done, resultsClosed := true, panicked := s.panicked || s.resultsClosed)
    case ByCaller(m) => CallerNext(q, s, m)
    case ByWorker(w, m) =>
      var pc := s.workers[w];
      WorkerEffect(q, answers, s, pc, m).(workers := s.workers[w := WorkerAfter(q, answers, s, pc, m)])
  }

  predicate Step(q: Request, answers: Querier, s: State, a: Action, t: State) {
    Enabled(q, answers, s, a) && t == Next(q, answers, s, a)
  }

  /** A run from the start of the call: states[i+1] follows states[i] by actions[i]. */
  ghost predicate IsRun(q: Request, answers: Querier, states: seq<State>, actions: seq<Action>) {
    && |states| == |actions| + 1
    && states[0] == Start(q)
    && forall i | 0 <= i < |actions| :: Step(q, answers, states[i], actions[i], states[i + 1])
  }

  ghost predicate Reachable(q: Request, answers: Querier, s: State) {
    exists states, actions :: IsRun(q, answers, states, actions) && states[|actions|] == s
  }

  // ----- counting

  function Total(f: Worker -> nat, ws: seq<Worker>): nat {
    if ws == [] then 0 else f(ws[0]) + Total(f, ws[1..])
  }

  function JobInHand(pc: Worker): Option<nat> {
    match pc
    case Holding(job) => Some(job)
    case Refusing(job) => Some(job)
    case Processing(job) => Some(job)
    case Sending(r) => Some(r.job)
    case _ => None
  }

  function BusyBy(pc: Worker): nat { if JobInHand(pc).Some? then 1 else 0 }

  function CarriesBy(pc: Worker, j: nat): nat { if JobInHand(pc) == Some(j) then 1 else 0 }

  function AliveBy(pc: Worker): nat { if pc.Exited? then 0 else 1 }

  function Busy(): Worker -> nat { pc => BusyBy(pc) }

  function Carrying(j: nat): Worker -> nat { pc => CarriesBy(pc, j) }

  function Alive(): Worker -> nat { pc => AliveBy(pc) }

  /** How often j is in js. */
  function Occurrences(js: seq<nat>, j: nat): nat {
    if js == [] then 0 else Occurrences(js[..|js| - 1], j) + if js[|js| - 1] == j then 1 else 0
  }

  function JobsOf(rs: seq<JobResult>): (js: seq<nat>)
    ensures |js| == |rs| && forall i | 0 <= i < |rs| :: js[i] == rs[i].job
  {
    seq(|rs|, i requires 0 <= i < |rs| => rs[i].job)
  }

  /** In how many places job j is: queued, with a worker, sent, collected or dropped. */
  function Places(s: State, j: nat): nat {
    Occurrences(s.jobs, j) + Total(Carrying(j), s.workers) + Occurrences(JobsOf(s.results), j)
    + Occurrences(JobsOf(s.collected), j) + Occurrences(s.dropped, j)
  }

  /** How many jobs are anywhere. */
  function InSystem(s: State): nat {
    |s.jobs| + Total(Busy(), s.workers) + |s.results| + |s.collected| + |s.dropped|
  }

  /** The results map after entering rs one after another. */
  function Tabulate(rs: seq<JobResult>): map<string, JobResult> {
    if rs == [] then map[] else Tabulate(rs[..|rs| - 1])[rs[|rs| - 1].server := rs[|rs| - 1]]
  }
}
