/** What every reachable state of `Execute` satisfies. */
module ExecuteInvariant {
  import opened Types
  import opened ExecuteSteps

  /** Where the caller is fixes what is open, and who can still be running. */
  ghost predicate PhaseOk(q: Request, s: State) {
    match s.caller
    case Spawning(k) =>
      && k < |s.workers| && s.submitted == 0 && s.jobs == [] && !s.jobsClosed && s.closer.Absent?
      && (forall i | 0 <= i < |s.workers| :: if i < k then s.workers[i].Receiving? else s.workers[i].NotStarted?)
    case Submitting => !s.jobsClosed && s.closer.Absent?
    case Launching => s.jobsClosed && s.closer.Absent? && s.submitted == q.Count()
    case Collecting => s.jobsClosed && !s.closer.Absent? && s.submitted == q.Count()
    case Abandoning => s.jobsClosed && s.closer.Absent? && s.cancelled
    case Returned(reply) =>
      && s.jobsClosed && Total(Alive(), s.workers) == 0
      && match reply
         case Cancelled => s.closer.Absent? && s.cancelled
         case Results(t) => s.closer.Done? && s.results == [] && t == s.table && s.table != map[] && s.submitted == q.Count()
         case NoResults => s.closer.Done? && s.results == [] && s.table == map[] && s.submitted == q.Count()
  }

  ghost predicate WorkersOk(s: State) {
    && (!s.caller.Spawning? ==> forall i | 0 <= i < |s.workers| :: !s.workers[i].NotStarted?)
    && (forall i | 0 <= i < |s.workers| :: s.workers[i].Refusing? ==> s.cancelled)
    && (forall i | 0 <= i < |s.workers| ::
          s.workers[i].Leaving? || s.workers[i].Exited? ==> s.cancelled || (s.jobsClosed && s.jobs == []))
  }

  /** Channels, wait group and goroutines agree with each other. */
  ghost predicate Control(q: Request, s: State) {
    && q.Count() > 0 && |s.workers| == q.Workers() && s.submitted <= q.Count()
    && s.wg == Total(Alive(), s.workers) && !s.panicked
    && PhaseOk(q, s) && WorkersOk(s)
    && s.resultsClosed == s.closer.Done? && (s.closer.Done? ==> Total(Alive(), s.workers) == 0)
    && (s.dropped != [] ==> s.cancelled)
  }

  /** Nothing is lost or duplicated: each submitted job is in exactly one place,
      and no other job is anywhere. */
  ghost predicate Conserved(s: State) {
    && InSystem(s) == s.submitted
    && forall j: nat :: Places(s, j) == if j < s.submitted then 1 else 0
  }

  ghost predicate Genuine(q: Request, answers: Querier, cancelled: bool, r: JobResult) {
    r.job < q.Count() && r.server == q.servers[r.job] && MayAnswer(answers, cancelled, r.server, r.outcome)
  }

  ghost predicate WorkerGenuine(q: Request, answers: Querier, cancelled: bool, pc: Worker) {
    match pc
    case Holding(job) => job < q.Count()
    case Refusing(job) => job < q.Count()
    case Processing(job) => job < q.Count()
    case Sending(r) => Genuine(q, answers, cancelled, r)
    case _ => true
  }

  ghost predicate AllGenuine(q: Request, answers: Querier, cancelled: bool, rs: seq<JobResult>) {
    forall i | 0 <= i < |rs| :: Genuine(q, answers, cancelled, rs[i])
  }

  ghost predicate WorkersGenuine(q: Request, answers: Querier, cancelled: bool, ws: seq<Worker>) {
    forall i | 0 <= i < |ws| :: WorkerGenuine(q, answers, cancelled, ws[i])
  }

  /** Every result belongs to a requested server and is an answer it may give. */
  ghost predicate Provenance(q: Request, answers: Querier, s: State) {
    && (forall i | 0 <= i < |s.jobs| :: s.jobs[i] < q.Count())
    && WorkersGenuine(q, answers, s.cancelled, s.workers)
    && AllGenuine(q, answers, s.cancelled, s.results)
    && AllGenuine(q, answers, s.cancelled, s.collected)
    && s.table == Tabulate(s.collected)
  }

  ghost predicate Inv(q: Request, answers: Querier, s: State) {
    Control(q, s) && Conserved(s) && Provenance(q, answers, s)
  }

  // ----- counting over the workers and over jobs

  lemma {:induction false} TotalUpdate(f: Worker -> nat, ws: seq<Worker>, i: nat, pc: Worker)
    requires i < |ws|
    ensures Total(f, ws[i := pc]) + f(ws[i]) == Total(f, ws) + f(pc)
  {
    if i == 0 {
      assert ws[i := pc][1..] == ws[1..];
    } else {
      assert ws[i := pc][1..] == ws[1..][i - 1 := pc];
      TotalUpdate(f, ws[1..], i - 1, pc);
    }
  }

  lemma {:induction false} TotalZero(f: Worker -> nat, ws: seq<Worker>)
    ensures Total(f, ws) == 0 <==> forall i | 0 <= i < |ws| :: f(ws[i]) == 0
  {
    if ws == [] {
    } else {
      TotalZero(f, ws[1..]);
      assert forall i | 0 < i < |ws| :: ws[i] == ws[1..][i - 1];
      assert forall i | 0 <= i < |ws[1..]| :: ws[1..][i] == ws[i + 1];
    }
  }

  lemma {:induction false} TotalUniform(f: Worker -> nat, ws: seq<Worker>, k: nat)
    requires k <= 1 && forall i | 0 <= i < |ws| :: f(ws[i]) == k
    ensures Total(f, ws) == if k == 1 then |ws| else 0
  {
    if ws != [] {
      TotalUniform(f, ws[1..], k);
    }
  }

  /** A wait group at zero means every worker has exited. */
  lemma NoneAlive(ws: seq<Worker>)
    ensures Total(Alive(), ws) == 0 <==> forall i | 0 <= i < |ws| :: ws[i].Exited?
  {
    TotalZero(Alive(), ws);
    assert forall i | 0 <= i < |ws| :: Alive()(ws[i]) == AliveBy(ws[i]);
  }

  lemma OccurrencesAppend(js: seq<nat>, x: nat, j: nat)
    ensures Occurrences(js + [x], j) == Occurrences(js, j) + if x == j then 1 else 0
  {
    assert (js + [x])[..|js|] == js;
  }

  lemma {:induction false} OccurrencesFront(js: seq<nat>, j: nat)
    requires js != []
    ensures Occurrences(js, j) == Occurrences(js[1..], j) + if js[0] == j then 1 else 0
  {
    var n := |js| - 1;
    if n == 0 {
      assert js[..0] == [] && js[1..] == [];
    } else {
      OccurrencesFront(js[..n], j);
      assert js[..n][1..] == js[1..][..n - 1];
    }
  }

  lemma JobsOfAppend(rs: seq<JobResult>, r: JobResult)
    ensures JobsOf(rs + [r]) == JobsOf(rs) + [r.job]
  {
  }

  lemma JobsOfFront(rs: seq<JobResult>)
    requires rs != []
    ensures JobsOf(rs)[1..] == JobsOf(rs[1..])
  {
  }

  lemma TabulateAppend(rs: seq<JobResult>, r: JobResult)
    ensures Tabulate(rs + [r]) == Tabulate(rs)[r.server := r]
  {
    assert (rs + [r])[..|rs|] == rs;
  }

  // ----- the start, and each step

  lemma StartInv(q: Request, answers: Querier)
    requires q.servers != []
    ensures Inv(q, answers, Start(q))
  {
    var ws := Start(q).workers;
    TotalUniform(Alive(), ws, 1);
    TotalUniform(Busy(), ws, 0);
    forall j: nat ensures Total(Carrying(j), ws) == 0 {
      TotalUniform(Carrying(j), ws, 0);
    }
  }

  lemma MoveCounts(ws: seq<Worker>, w: nat, pc: Worker, j: nat)
    requires w < |ws|
    ensures Total(Alive(), ws[w := pc]) + AliveBy(ws[w]) == Total(Alive(), ws) + AliveBy(pc)
    ensures Total(Busy(), ws[w := pc]) + BusyBy(ws[w]) == Total(Busy(), ws) + BusyBy(pc)
    ensures Total(Carrying(j), ws[w := pc]) + CarriesBy(ws[w], j) == Total(Carrying(j), ws) + CarriesBy(pc, j)
  {
    TotalUpdate(Alive(), ws, w, pc);
    TotalUpdate(Busy(), ws, w, pc);
    TotalUpdate(Carrying(j), ws, w, pc);
  }

  // one job on its way

  lemma SendPlaces(s: State, r: JobResult, j: nat)
    ensures Places(Send(s, r), j) == Places(s, j) + if r.job == j then 1 else 0
    ensures InSystem(Send(s, r)) == InSystem(s) + 1
  {
    JobsOfAppend(s.results, r);
    OccurrencesAppend(JobsOf(s.results), r.job, j);
  }

  lemma TakePlaces(s: State, j: nat)
    requires s.jobs != []
    ensures Places(s, j) == Places(s.(jobs := s.jobs[1..]), j) + if s.jobs[0] == j then 1 else 0
    ensures InSystem(s) == InSystem(s.(jobs := s.jobs[1..])) + 1
  {
    OccurrencesFront(s.jobs, j);
  }

  lemma DropPlaces(s: State, job: nat, j: nat)
    ensures Places(s.(dropped := s.dropped + [job]), j) == Places(s, j) + if job == j then 1 else 0
    ensures InSystem(s.(dropped := s.dropped + [job])) == InSystem(s) + 1
  {
    OccurrencesAppend(s.dropped, job, j);
  }

  lemma SubmitPlaces(s: State, job: nat, j: nat)
    ensures Places(s.(jobs := s.jobs + [job]), j) == Places(s, j) + if job == j then 1 else 0
    ensures InSystem(s.(jobs := s.jobs + [job])) == InSystem(s) + 1
  {
    OccurrencesAppend(s.jobs, job, j);
  }

  lemma CollectPlaces(s: State, j: nat)
    requires s.results != []
    ensures Places(s.(results := s.results[1..], collected := s.collected + [s.results[0]]), j) == Places(s, j)
  {
    OccurrencesFront(JobsOf(s.results), j);
    JobsOfFront(s.results);
    JobsOfAppend(s.collected, s.results[0]);
    OccurrencesAppend(JobsOf(s.collected), s.results[0].job, j);
  }

  lemma ReplaceWorker(u: State, w: nat, pc: Worker, j: nat)
    requires w < |u.workers|
    ensures var t := u.(workers := u.workers[w := pc]);
      && Places(t, j) + CarriesBy(u.workers[w], j) == Places(u, j) + CarriesBy(pc, j)
      && InSystem(t) + BusyBy(u.workers[w]) == InSystem(u) + BusyBy(pc)
  {
    MoveCounts(u.workers, w, pc, j);
  }

  // the caller's moves

  lemma CallerControl(q: Request, s: State, m: CallerMove)
    requires Control(q, s) && CallerCan(q, s, m)
    ensures Control(q, CallerNext(q, s, m))
  {
    if m.Spawn? {
      MoveCounts(s.workers, s.caller.started, Receiving, 0);
    }
  }

  lemma CallerPlaces(q: Request, s: State, m: CallerMove, j: nat)
    requires CallerCan(q, s, m)
    ensures Places(CallerNext(q, s, m), j) == Places(s, j) + if m.Submit? && s.submitted == j then 1 else 0
    ensures InSystem(CallerNext(q, s, m)) == InSystem(s) + if m.Submit? then 1 else 0
  {
    match m
    case Spawn => ReplaceWorker(s, s.caller.started, Receiving, j);
    case Submit => SubmitPlaces(s, s.submitted, j);
    case Collect => CollectPlaces(s, j);
    case _ =>
  }

  lemma CallerConserved(q: Request, s: State, m: CallerMove)
    requires Conserved(s) && CallerCan(q, s, m)
    ensures Conserved(CallerNext(q, s, m))
  {
    var t := CallerNext(q, s, m);
    forall j: nat ensures Places(t, j) == if j < t.submitted then 1 else 0 {
      CallerPlaces(q, s, m, j);
    }
    CallerPlaces(q, s, m, 0);
  }

  lemma CallerProvenance(q: Request, answers: Querier, s: State, m: CallerMove)
    requires Provenance(q, answers, s) && CallerCan(q, s, m)
    ensures Provenance(q, answers, CallerNext(q, s, m))
  {
    if m.Collect? {
      TabulateAppend(s.collected, s.results[0]);
    }
  }

  // the workers' moves

  lemma WorkerPhase(q: Request, answers: Querier, s: State, w: nat, m: WorkerMove)
    requires Control(q, s) && w < |s.workers| && WorkerCan(q, answers, s, s.workers[w], m)
    ensures Total(Alive(), s.workers) > 0 && !s.caller.Returned? && !s.closer.Done?
    ensures s.caller.Spawning? ==> false
  {
    NoneAlive(s.workers);
  }

  lemma WorkerControl(q: Request, answers: Querier, s: State, w: nat, m: WorkerMove)
    requires Control(q, s) && w < |s.workers| && WorkerCan(q, answers, s, s.workers[w], m)
    ensures Control(q, Next(q, answers, s, ByWorker(w, m)))
  {
    WorkerPhase(q, answers, s, w, m);
    MoveCounts(s.workers, w, WorkerAfter(q, answers, s, s.workers[w], m), 0);
  }

  ghost predicate Handover(s: State, t: State, before: Worker, after: Worker, j: nat) {
    && Places(t, j) + CarriesBy(after, j) == Places(s, j) + CarriesBy(before, j)
    && InSystem(t) + BusyBy(after) == InSystem(s) + BusyBy(before)
  }

  lemma LocalMove(q: Request, answers: Querier, s: State, pc: Worker, m: WorkerMove, j: nat)
    requires WorkerCan(q, answers, s, pc, m) && (m.Quit? || m.Inspect? || m.Answer? || m.Leave?)
    ensures Handover(s, WorkerEffect(q, answers, s, pc, m), pc, WorkerAfter(q, answers, s, pc, m), j)
  {
  }

  /** What leaves or enters the channels is what the worker takes or hands over. */
  lemma ChannelMove(q: Request, answers: Querier, s: State, pc: Worker, m: WorkerMove, j: nat)
    requires WorkerCan(q, answers, s, pc, m) && (m.Take? || m.Deliver? || m.Drop? || m.Refuse?)
    ensures Handover(s, WorkerEffect(q, answers, s, pc, m), pc, WorkerAfter(q, answers, s, pc, m), j)
  {
    match m
    case Take => TakePlaces(s, j);
    case Deliver => SendPlaces(s, pc.result, j);
    case Drop => DropPlaces(s, pc.result.job, j);
    case Refuse => SendPlaces(s, JobResult(pc.job, q.servers[pc.job], Outcome([], ContextError)), j);
  }

  lemma WorkerMoveHandover(q: Request, answers: Querier, s: State, pc: Worker, m: WorkerMove, j: nat)
    requires WorkerCan(q, answers, s, pc, m)
    ensures Handover(s, WorkerEffect(q, answers, s, pc, m), pc, WorkerAfter(q, answers, s, pc, m), j)
  {
    if m.Quit? || m.Inspect? || m.Answer? || m.Leave? {
      LocalMove(q, answers, s, pc, m, j);
    } else {
      ChannelMove(q, answers, s, pc, m, j);
    }
  }

  lemma WorkerPlaces(q: Request, answers: Querier, s: State, w: nat, m: WorkerMove, j: nat)
    requires w < |s.workers| && WorkerCan(q, answers, s, s.workers[w], m)
    ensures Places(Next(q, answers, s, ByWorker(w, m)), j) == Places(s, j)
    ensures InSystem(Next(q, answers, s, ByWorker(w, m))) == InSystem(s)
  {
    var pc := s.workers[w];
    WorkerMoveHandover(q, answers, s, pc, m, j);
    ReplaceWorker(WorkerEffect(q, answers, s, pc, m), w, WorkerAfter(q, answers, s, pc, m), j);
  }

  lemma WorkerConserved(q: Request, answers: Querier, s: State, w: nat, m: WorkerMove)
    requires Conserved(s) && w < |s.workers| && WorkerCan(q, answers, s, s.workers[w], m)
    ensures Conserved(Next(q, answers, s, ByWorker(w, m)))
  {
    var t := Next(q, answers, s, ByWorker(w, m));
    forall j: nat ensures Places(t, j) == if j < t.submitted then 1 else 0 {
      WorkerPlaces(q, answers, s, w, m, j);
    }
    WorkerPlaces(q, answers, s, w, m, 0);
  }

  lemma WorkerProvenance(q: Request, answers: Querier, s: State, w: nat, m: WorkerMove)
    requires Provenance(q, answers, s) && w < |s.workers| && WorkerCan(q, answers, s, s.workers[w], m)
    requires s.workers[w].Refusing? ==> s.cancelled
    ensures Provenance(q, answers, Next(q, answers, s, ByWorker(w, m)))
  {
    var pc := s.workers[w];
    assert WorkerGenuine(q, answers, s.cancelled, pc);
    assert WorkerGenuine(q, answers, s.cancelled, WorkerAfter(q, answers, s, pc, m));
  }

  // all steps

  lemma InvStep(q: Request, answers: Querier, s: State, a: Action)
    requires Inv(q, answers, s) && Enabled(q, answers, s, a)
    ensures Inv(q, answers, Next(q, answers, s, a))
  {
    match a
    case Cancel => CancelStep(q, answers, s);
    case CloseResults =>
      assert forall j: nat :: Places(Next(q, answers, s, a), j) == Places(s, j);
    case ByCaller(m) =>
      CallerControl(q, s, m);
      CallerConserved(q, s, m);
      CallerProvenance(q, answers, s, m);
    case ByWorker(w, m) =>
      WorkerControl(q, answers, s, w, m);
      WorkerConserved(q, answers, s, w, m);
      WorkerProvenance(q, answers, s, w, m);
  }

  lemma CancelStep(q: Request, answers: Querier, s: State)
    requires Inv(q, answers, s) && Enabled(q, answers, s, Cancel)
    ensures Inv(q, answers, Next(q, answers, s, Cancel))
  {
    var t := Next(q, answers, s, Cancel);
    assert forall j: nat :: Places(t, j) == Places(s, j);
    forall i | 0 <= i < |s.workers| ensures WorkerGenuine(q, answers, true, s.workers[i]) {
      assert WorkerGenuine(q, answers, s.cancelled, s.workers[i]);
    }
  }

  lemma {:induction false} RunInv(q: Request, answers: Querier, states: seq<State>, actions: seq<Action>, i: nat)
    requires q.servers != [] && IsRun(q, answers, states, actions) && i < |states|
    ensures Inv(q, answers, states[i])
  {
    if i == 0 {
      StartInv(q, answers);
    } else {
      RunInv(q, answers, states, actions, i - 1);
      assert Step(q, answers, states[i - 1], actions[i - 1], states[i - 1 + 1]);
      InvStep(q, answers, states[i - 1], actions[i - 1]);
    }
  }

  lemma ReachableInv(q: Request, answers: Querier, s: State)
    requires q.servers != [] && Reachable(q, answers, s)
    ensures Inv(q, answers, s)
  {
    var states, actions :| IsRun(q, answers, states, actions) && states[|actions|] == s;
    RunInv(q, answers, states, actions, |actions|);
  }
}
