/** The `running` gate in front of `Execute`: many goroutines call the same worker
    pool; a mutex guards the flag, and the deferred function clears it. */
module Gate {
  import opened Types
  import opened ExecuteSteps
  import opened ExecuteInvariant
  import opened ExecuteTheorems
  import opened WorkerPools

  /** Where one call is. `Testing` to `Releasing` and `Clearing` to `Cleared` hold
      the mutex. */
  datatype Call =
    | Arriving
    | AtLock                    // at the first Lock
    | Testing                   // holds the mutex, about to test running
    | Rejecting                 // found it set, about to unlock
    | Admitting                 // set it, about to unlock
    | Inside(exec: State)       // past the gate
    | AtDeferredLock(reply: Reply)
    | Clearing(reply: Reply)    // holds the mutex, about to clear running
    | Cleared(reply: Reply)     // cleared it, about to unlock
    | Refused                   // returned "already running"
    | Empty                     // returned "no servers"
    | Finished(reply: Reply)

  /** The pool: its flag, its mutex (the call that holds it), and all calls. */
  datatype World = World(running: bool, mutex: Option<nat>, calls: seq<Call>)

  datatype Move = Enter | Acquire | Test | Release | Run(a: Action) | Defer | Clear

  /** The world with call c somewhere else. */
  function At(v: World, c: nat, pc: Call): World
    requires c < |v.calls|
  {
    v.(calls := v.calls[c := pc])
  }

  predicate Can(q: Request, answers: Querier, v: World, c: nat, m: Move) {
    && c < |v.calls|
    && var pc := v.calls[c];
       match m
       case Enter => pc.Arriving?
       case Acquire => (pc.AtLock? || pc.AtDeferredLock?) && v.mutex == None
       case Test => pc.Testing?
       case Release => pc.Rejecting? || pc.Admitting? || pc.Cleared?
       case Run(a) => pc.Inside? && Enabled(q, answers, pc.exec, a)
       case Defer => pc.Inside? && pc.exec.caller.Returned?
       case Clear => pc.Clearing?
  }

  function After(q: Request, answers: Querier, v: World, c: nat, m: Move): World
    requires Can(q, answers, v, c, m)
  {
    var pc := v.calls[c];
    match m
    case Enter => At(v, c, if q.servers == [] then Empty else AtLock)
    case Acquire => At(v, c, if pc.AtLock? then Testing else Clearing(pc.reply)).(mutex := Some(c))
    case Test => if v.running then At(v, c, Rejecting) else At(v, c, Admitting).(running := true)
    case Release =>
      At(v, c, if pc.Rejecting? then Refused else if pc.Admitting? then Inside(Start(q)) else Finished(pc.reply)).(mutex := None)
    case Run(a) => At(v, c, Inside(Next(q, answers, pc.exec, a)))
    case Defer => At(v, c, AtDeferredLock(pc.exec.caller.reply))
    case Clear => At(v, c, Cleared(pc.reply)).(running := false)
  }

  /** Each call has its own request; `qs[c]` is that of call c. */
  ghost predicate Step(qs: seq<Request>, answers: Querier, v: World, c: nat, m: Move, v': World) {
    c < |qs| && Can(qs[c], answers, v, c, m) && v' == After(qs[c], answers, v, c, m)
  }

  function Begin(qs: seq<Request>): World {
    World(false, None, seq(|qs|, _ => Arriving))
  }

  ghost predicate IsRun(qs: seq<Request>, answers: Querier, worlds: seq<World>, who: seq<nat>, moves: seq<Move>) {
    && |worlds| == |moves| + 1 && |who| == |moves|
    && worlds[0] == Begin(qs)
    && forall i | 0 <= i < |moves| :: Step(qs, answers, worlds[i], who[i], moves[i], worlds[i + 1])
  }

  /** Admitted and not yet through clearing the flag. */
  predicate PastGate(pc: Call) {
    pc.Admitting? || pc.Inside? || pc.AtDeferredLock? || pc.Clearing?
  }

  predicate HoldsMutex(pc: Call) {
    pc.Testing? || pc.Rejecting? || pc.Admitting? || pc.Clearing? || pc.Cleared?
  }

  /** The reply a call carries out of the gate comes from a run of `Execute`. */
  ghost predicate ReplyOk(q: Request, answers: Querier, reply: Reply) {
    exists cancelled :: MayReturn(q, answers, reply, cancelled)
  }

  ghost predicate CallOk(q: Request, answers: Querier, pc: Call) {
    match pc
    case Arriving => true
    case Empty => q.servers == []
    case Inside(exec) => q.servers != [] && Reachable(q, answers, exec)
    case AtDeferredLock(reply) => ReplyOk(q, answers, reply)
    case Clearing(reply) => ReplyOk(q, answers, reply)
    case Cleared(reply) => ReplyOk(q, answers, reply)
    case Finished(reply) => ReplyOk(q, answers, reply)
    case _ => q.servers != []
  }

  ghost predicate AtMostOnePast(v: World) {
    forall c, d | 0 <= c < |v.calls| && 0 <= d < |v.calls| && PastGate(v.calls[c]) && PastGate(v.calls[d]) :: c == d
  }

  ghost predicate SomePast(v: World) {
    exists c :: 0 <= c < |v.calls| && PastGate(v.calls[c])
  }

  ghost predicate MutexOk(v: World) {
    && (forall c | 0 <= c < |v.calls| :: HoldsMutex(v.calls[c]) ==> v.mutex == Some(c))
    && (v.mutex.Some? ==> v.mutex.value < |v.calls| && HoldsMutex(v.calls[v.mutex.value]))
  }

  ghost predicate GateInv(qs: seq<Request>, answers: Querier, v: World) {
    && |v.calls| == |qs|
    && (forall c | 0 <= c < |v.calls| :: CallOk(qs[c], answers, v.calls[c]))
    && MutexOk(v)
    && AtMostOnePast(v)
    && v.running == SomePast(v)
  }

  lemma BeginInv(qs: seq<Request>, answers: Querier)
    ensures GateInv(qs, answers, Begin(qs))
  {
  }

  lemma CallOkStep(q: Request, answers: Querier, v: World, c: nat, m: Move)
    requires Can(q, answers, v, c, m) && CallOk(q, answers, v.calls[c])
    ensures CallOk(q, answers, After(q, answers, v, c, m).calls[c])
  {
    match m
    case Release => StartReachable(q, answers);
    case Run(a) => StepReachable(q, answers, v.calls[c].exec, a);
    case Defer =>
      var exec := v.calls[c].exec;
      assert MayReturn(q, answers, exec.caller.reply, exec.cancelled);
    case _ =>
  }

  lemma MutexStep(q: Request, answers: Querier, v: World, c: nat, m: Move)
    requires Can(q, answers, v, c, m) && MutexOk(v)
    ensures MutexOk(After(q, answers, v, c, m))
  {
  }

  /** One call changes; who is past the gate changes only by admitting or clearing. */
  lemma PastStep(q: Request, answers: Querier, v: World, c: nat, m: Move)
    requires Can(q, answers, v, c, m) && AtMostOnePast(v) && v.running == SomePast(v)
    ensures AtMostOnePast(After(q, answers, v, c, m))
    ensures After(q, answers, v, c, m).running == SomePast(After(q, answers, v, c, m))
  {
    var v' := After(q, answers, v, c, m);
    assert forall d | 0 <= d < |v.calls| && d != c :: v'.calls[d] == v.calls[d];
    if PastGate(v'.calls[c]) {
      assert SomePast(v');
    } else if !PastGate(v.calls[c]) && SomePast(v) {
      var d :| 0 <= d < |v.calls| && PastGate(v.calls[d]);
      assert PastGate(v'.calls[d]);
    }
  }

  lemma StepInv(qs: seq<Request>, answers: Querier, v: World, c: nat, m: Move, v': World)
    requires GateInv(qs, answers, v) && Step(qs, answers, v, c, m, v')
    ensures GateInv(qs, answers, v')
  {
    CallOkStep(qs[c], answers, v, c, m);
    MutexStep(qs[c], answers, v, c, m);
    PastStep(qs[c], answers, v, c, m);
    forall d | 0 <= d < |v'.calls| ensures CallOk(qs[d], answers, v'.calls[d]) {
      if d != c {
        assert v'.calls[d] == v.calls[d];
      }
    }
  }

  lemma {:induction false} RunKeepsGate(qs: seq<Request>, answers: Querier, worlds: seq<World>, who: seq<nat>, moves: seq<Move>, i: nat)
    requires IsRun(qs, answers, worlds, who, moves) && i < |worlds|
    ensures GateInv(qs, answers, worlds[i])
  {
    if i == 0 {
      BeginInv(qs, answers);
    } else {
      RunKeepsGate(qs, answers, worlds, who, moves, i - 1);
      assert Step(qs, answers, worlds[i - 1], who[i - 1], moves[i - 1], worlds[i - 1 + 1]);
      StepInv(qs, answers, worlds[i - 1], who[i - 1], moves[i - 1], worlds[i]);
    }
  }

  /** At every point of every run: at most one call is past the gate, the flag is
      set exactly while one is, and whoever is inside is in a state `Execute` can
      reach on its own. */
  lemma MutualExclusion(qs: seq<Request>, answers: Querier, worlds: seq<World>, who: seq<nat>, moves: seq<Move>, i: nat)
    requires IsRun(qs, answers, worlds, who, moves) && i < |worlds|
    ensures AtMostOnePast(worlds[i])
    ensures worlds[i].running <==> SomePast(worlds[i])
    ensures |worlds[i].calls| == |qs|
    ensures forall c | 0 <= c < |qs| && worlds[i].calls[c].Inside? :: Reachable(qs[c], answers, worlds[i].calls[c].exec)
    ensures forall c | 0 <= c < |qs| && worlds[i].calls[c].Finished? :: ReplyOk(qs[c], answers, worlds[i].calls[c].reply)
  {
    RunKeepsGate(qs, answers, worlds, who, moves, i);
    forall c | 0 <= c < |qs| && worlds[i].calls[c].Inside? ensures Reachable(qs[c], answers, worlds[i].calls[c].exec) {
      assert CallOk(qs[c], answers, worlds[i].calls[c]);
    }
    forall c | 0 <= c < |qs| && worlds[i].calls[c].Finished? ensures ReplyOk(qs[c], answers, worlds[i].calls[c].reply) {
      assert CallOk(qs[c], answers, worlds[i].calls[c]);
    }
  }

  /** The flag goes down only by the hand of the one call that is past the gate,
      never by a call that was turned away, and up only by a call being admitted. */
  lemma OnlyTheAdmittedClears(qs: seq<Request>, answers: Querier, v: World, c: nat, m: Move, v': World)
    requires GateInv(qs, answers, v) && Step(qs, answers, v, c, m, v') && v.running != v'.running
    ensures v.running ==> PastGate(v.calls[c]) && !SomePast(v')
    ensures !v.running ==> v'.calls[c].Admitting? && !SomePast(v)
  {
    StepInv(qs, answers, v, c, m, v');
  }

  // ----- who is admitted

  /** Another call than c is past the gate. */
  ghost predicate OtherPast(v: World, c: nat) {
    exists d :: 0 <= d < |v.calls| && d != c && PastGate(v.calls[d])
  }

  /** Step k is the test of call c, which finds the gate taken, or not. */
  ghost predicate TestedAt(worlds: seq<World>, who: seq<nat>, moves: seq<Move>, k: nat, c: nat, taken: bool) {
    && k < |worlds| && k < |who| && k < |moves|
    && who[k] == c && moves[k] == Test && OtherPast(worlds[k], c) == taken
  }

  /** Call c made its test at a step before the i-th, and found that. */
  ghost predicate Found(worlds: seq<World>, who: seq<nat>, moves: seq<Move>, i: nat, c: nat, taken: bool) {
    exists k: nat :: k < i && TestedAt(worlds, who, moves, k, c, taken)
  }

  predicate TurnedAway(pc: Call) { pc.Rejecting? || pc.Refused? }

  predicate Admitted(pc: Call) { PastGate(pc) || pc.Cleared? || pc.Finished? }

  lemma FoundBefore(worlds: seq<World>, who: seq<nat>, moves: seq<Move>, i: nat, c: nat, taken: bool)
    requires i > 0
    ensures Found(worlds, who, moves, i, c, taken)
        <==> Found(worlds, who, moves, i - 1, c, taken) || TestedAt(worlds, who, moves, i - 1, c, taken)
  {
  }

  /** The test itself: turned away exactly if another call is past the gate. */
  lemma TestDecides(qs: seq<Request>, answers: Querier, v: World, c: nat, v': World)
    requires GateInv(qs, answers, v) && Step(qs, answers, v, c, Test, v')
    ensures if OtherPast(v, c) then v'.calls[c].Rejecting? else v'.calls[c].Admitting?
  {
    assert !PastGate(v.calls[c]);
    if SomePast(v) {
      var d :| 0 <= d < |v.calls| && PastGate(v.calls[d]);
      assert OtherPast(v, c);
    }
  }

  /** Steps that are not its test leave a call turned away, admitted or neither. */
  lemma OtherStepsKeepVerdict(qs: seq<Request>, answers: Querier, v: World, w: nat, m: Move, v': World, c: nat)
    requires Step(qs, answers, v, w, m, v') && c < |v.calls| && !(w == c && m == Test)
    ensures c < |v'.calls| && TurnedAway(v'.calls[c]) == TurnedAway(v.calls[c]) && Admitted(v'.calls[c]) == Admitted(v.calls[c])
  {
  }

  lemma VerdictStep(qs: seq<Request>, answers: Querier, v: World, w: nat, m: Move, v': World, c: nat)
    requires GateInv(qs, answers, v) && Step(qs, answers, v, w, m, v') && c < |v.calls|
    ensures c < |v'.calls|
    ensures TurnedAway(v'.calls[c]) <==> TurnedAway(v.calls[c]) || (w == c && m == Test && OtherPast(v, c))
    ensures Admitted(v'.calls[c]) <==> Admitted(v.calls[c]) || (w == c && m == Test && !OtherPast(v, c))
  {
    if w == c && m == Test {
      TestDecides(qs, answers, v, c, v');
    } else {
      OtherStepsKeepVerdict(qs, answers, v, w, m, v', c);
    }
  }

  lemma GateStep(qs: seq<Request>, answers: Querier, worlds: seq<World>, who: seq<nat>, moves: seq<Move>, k: nat)
    requires IsRun(qs, answers, worlds, who, moves) && k < |moves|
    ensures GateInv(qs, answers, worlds[k]) && Step(qs, answers, worlds[k], who[k], moves[k], worlds[k + 1])
  {
    RunKeepsGate(qs, answers, worlds, who, moves, k);
  }

  /** In every run a call is turned away if and only if another call was past the gate
      when it made its test, and admitted if and only if none was. */
  lemma {:induction false} VerdictIsFair(qs: seq<Request>, answers: Querier, worlds: seq<World>, who: seq<nat>, moves: seq<Move>, i: nat, c: nat)
    requires IsRun(qs, answers, worlds, who, moves) && i < |worlds| && c < |qs|
    ensures |worlds[i].calls| == |qs|
    ensures TurnedAway(worlds[i].calls[c]) <==> Found(worlds, who, moves, i, c, true)
    ensures Admitted(worlds[i].calls[c]) <==> Found(worlds, who, moves, i, c, false)
  {
    RunKeepsGate(qs, answers, worlds, who, moves, i);
    if i > 0 {
      VerdictIsFair(qs, answers, worlds, who, moves, i - 1, c);
      GateStep(qs, answers, worlds, who, moves, i - 1);
      FoundBefore(worlds, who, moves, i, c, true);
      FoundBefore(worlds, who, moves, i, c, false);
      VerdictStep(qs, answers, worlds[i - 1], who[i - 1], moves[i - 1], worlds[i], c);
    }
  }

  predicate UnderWay(pc: Call) { !pc.Arriving? && !IsDone(pc) }

  /** At no point are two calls under way. */
  ghost predicate OneAfterAnother(worlds: seq<World>) {
    forall i, c, d | 0 <= i < |worlds| && 0 <= c < |worlds[i].calls| && 0 <= d < |worlds[i].calls|
                     && UnderWay(worlds[i].calls[c]) && UnderWay(worlds[i].calls[d]) :: c == d
  }

  lemma NobodyElsePast(worlds: seq<World>, k: nat, c: nat)
    requires OneAfterAnother(worlds) && k < |worlds| && c < |worlds[k].calls| && UnderWay(worlds[k].calls[c])
    ensures !OtherPast(worlds[k], c)
  {
    var calls := worlds[k].calls;
    forall d | 0 <= d < |calls| && d != c ensures !PastGate(calls[d]) {
      assert !UnderWay(calls[d]);
    }
  }

  /** Calls that do not overlap are all served: each that is done has finished with a
      reply, or had no servers to query. */
  lemma ServedOneAfterAnother(qs: seq<Request>, answers: Querier, worlds: seq<World>, who: seq<nat>, moves: seq<Move>, i: nat, c: nat)
    requires IsRun(qs, answers, worlds, who, moves) && i < |worlds| && c < |qs| && OneAfterAnother(worlds)
    ensures |worlds[i].calls| == |qs| && !TurnedAway(worlds[i].calls[c])
    ensures IsDone(worlds[i].calls[c]) ==> if qs[c].servers == [] then worlds[i].calls[c].Empty? else worlds[i].calls[c].Finished?
  {
    VerdictIsFair(qs, answers, worlds, who, moves, i, c);
    RunKeepsGate(qs, answers, worlds, who, moves, i);
    assert CallOk(qs[c], answers, worlds[i].calls[c]);
    forall k: nat | k < i && who[k] == c && moves[k] == Test ensures !TestedAt(worlds, who, moves, k, c, true) {
      GateStep(qs, answers, worlds, who, moves, k);
      NobodyElsePast(worlds, k, c);
    }
    FinishedHadServers(qs, answers, worlds, who, moves, i, c);
  }

  /** A call with no servers never gets to the lock. */
  lemma {:induction false} FinishedHadServers(qs: seq<Request>, answers: Querier, worlds: seq<World>, who: seq<nat>, moves: seq<Move>, i: nat, c: nat)
    requires IsRun(qs, answers, worlds, who, moves) && i < |worlds| && c < |qs|
    ensures |worlds[i].calls| == |qs|
    ensures qs[c].servers == [] ==> worlds[i].calls[c].Arriving? || worlds[i].calls[c].Empty?
  {
    RunKeepsGate(qs, answers, worlds, who, moves, i);
    if i > 0 {
      FinishedHadServers(qs, answers, worlds, who, moves, i - 1, c);
      assert Step(qs, answers, worlds[i - 1], who[i - 1], moves[i - 1], worlds[i - 1 + 1]);
    }
  }

  // ----- nobody waits for ever

  predicate IsDone(pc: Call) { pc.Refused? || pc.Empty? || pc.Finished? }

  /** The call that can go on while some call is not done: whoever holds the mutex,
      or else any. */
  lemma GateProgress(qs: seq<Request>, answers: Querier, ask: string -> Outcome, v: World, c: nat)
    returns (d: nat, m: Move)
    requires GateInv(qs, answers, v) && c < |qs| && !IsDone(v.calls[c])
    requires forall q | q in qs :: Returns(q, answers, ask)
    ensures d < |qs| && Can(qs[d], answers, v, d, m)
  {
    d := if v.mutex.Some? then v.mutex.value else c;
    var pc := v.calls[d];
    assert CallOk(qs[d], answers, pc);
    if pc.Inside? {
      if pc.exec.caller.Returned? {
        m := Defer;
      } else {
        assert qs[d] in qs;
        ReachableInv(qs[d], answers, pc.exec);
        ProgressFrom(qs[d], answers, ask, pc.exec);
        m := Run(SomeAction(qs[d], ask, pc.exec));
      }
    } else {
      m := match pc
           case Arriving => Enter
           case Testing => Test
           case Clearing(_) => Clear
           case AtLock => Acquire
           case AtDeferredLock(_) => Acquire
           case _ => Release;
    }
  }

  function CallWork(q: Request, pc: Call): nat {
    match pc
    case Arriving => Measure(q, Start(q)) + 9
    case AtLock => Measure(q, Start(q)) + 8
    case Testing => Measure(q, Start(q)) + 7
    case Rejecting => 1
    case Admitting => Measure(q, Start(q)) + 6
    case Inside(exec) => Measure(q, exec) + 5
    case AtDeferredLock(_) => 4
    case Clearing(_) => 3
    case Cleared(_) => 2
    case _ => 0
  }

  function Work(qs: seq<Request>, calls: seq<Call>): nat
    requires |qs| == |calls|
  {
    if qs == [] then 0 else CallWork(qs[0], calls[0]) + Work(qs[1..], calls[1..])
  }

  lemma {:induction false} WorkUpdate(qs: seq<Request>, calls: seq<Call>, c: nat, pc: Call)
    requires |qs| == |calls| && c < |calls|
    ensures Work(qs, calls[c := pc]) + CallWork(qs[c], calls[c]) == Work(qs, calls) + CallWork(qs[c], pc)
  {
    if c == 0 {
      assert calls[c := pc][1..] == calls[1..];
    } else {
      assert calls[c := pc][1..] == calls[1..][c - 1 := pc];
      WorkUpdate(qs[1..], calls[1..], c - 1, pc);
    }
  }

  lemma CallDecreases(q: Request, answers: Querier, v: World, c: nat, m: Move)
    requires Can(q, answers, v, c, m) && CallOk(q, answers, v.calls[c])
    ensures CallWork(q, After(q, answers, v, c, m).calls[c]) < CallWork(q, v.calls[c])
  {
    if m.Run? {
      ReachableInv(q, answers, v.calls[c].exec);
      StepDecreases(q, answers, v.calls[c].exec, m.a);
    }
  }

  /** Every step of every call brings the whole world closer to the end. */
  lemma GateDecreases(qs: seq<Request>, answers: Querier, v: World, c: nat, m: Move, v': World)
    requires GateInv(qs, answers, v) && Step(qs, answers, v, c, m, v')
    ensures |v'.calls| == |qs| && Work(qs, v'.calls) < Work(qs, v.calls)
  {
    CallDecreases(qs[c], answers, v, c, m);
    WorkUpdate(qs, v.calls, c, v'.calls[c]);
    assert v'.calls == v.calls[c := v'.calls[c]];
  }

  /** However the calls interleave, there are only so many steps, and when none is
      left every call has returned and the flag is down. */
  lemma {:induction false} GateRunsAreBounded(qs: seq<Request>, answers: Querier, worlds: seq<World>, who: seq<nat>, moves: seq<Move>, i: nat)
    requires IsRun(qs, answers, worlds, who, moves) && i < |worlds|
    ensures |worlds[i].calls| == |qs| && Work(qs, worlds[i].calls) + i <= Work(qs, Begin(qs).calls)
  {
    if i > 0 {
      GateRunsAreBounded(qs, answers, worlds, who, moves, i - 1);
      GateStep(qs, answers, worlds, who, moves, i - 1);
      GateDecreases(qs, answers, worlds[i - 1], who[i - 1], moves[i - 1], worlds[i]);
    }
  }

  lemma StuckMeansDone(qs: seq<Request>, answers: Querier, ask: string -> Outcome, v: World)
    requires GateInv(qs, answers, v) && forall q | q in qs :: Returns(q, answers, ask)
    requires forall c, m | 0 <= c < |qs| :: !Can(qs[c], answers, v, c, m)
    ensures !v.running && v.mutex == None && forall c | 0 <= c < |qs| :: IsDone(v.calls[c])
  {
    forall c | 0 <= c < |qs| ensures IsDone(v.calls[c]) {
      if !IsDone(v.calls[c]) {
        var d, m := GateProgress(qs, answers, ask, v, c);
      }
    }
  }
}
