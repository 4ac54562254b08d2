/** The DNS cache under concurrent callers. Reading the cache, looking up and
    writing back are separate critical sections, so anything can happen between
    them; entries are shared by pointer, so a caller can still count an error on an
    entry that is no longer in the cache. */
module DnsRaces {
  import opened Types
  import opened DnsCache

  /** A successful answer of the resolver. */
  datatype Lookup = Lookup(host: string, ips: seq<string>, at: int)

  /** An allocated `DNSCacheEntry`, when it was stored and from which lookup. */
  datatype Cell = Cell(host: string, entry: Entry, storedAt: int, source: nat)

  /** How a call came by its answer. */
  datatype How = Literal | Hit(cell: nat, at: int) | Stale(cell: nat, at: int) | Fresh(source: nat) | Failed

  /** Where one call of `Resolve` is; `seen` is the entry pointer it read. */
  datatype Call =
    | Called(host: string)
    | Reading(host: string)
    | Checking(host: string, seen: Option<nat>)
    | LookingUp(host: string, seen: Option<nat>)
    | Counting(host: string, cell: nat)                            // about to count an error
    | Adapting(host: string, seen: Option<nat>, source: nat)       // about to choose a TTL
    | Storing(host: string, source: nat, ttl: int)
    | Returned(host: string, answer: Option<seq<string>>, how: How)

  datatype State = State(
    now: int, cache: map<string, nat>, heap: seq<Cell>, lookups: seq<Lookup>, calls: seq<Call>)

  /** What happens next: time passes, a call makes its next step, or somebody runs
      one of the operations that are a single critical section. `answer` is what
      the resolver says if the step is a lookup. */
  datatype Action =
    | Tick(to: int)
    | Go(c: nat, answer: Option<seq<string>>)
    | NewCall(host: string)
    | Invalidate(host: string)
    | Clear
    | CleanupExpired

  function Pc(s: State, c: nat, pc: Call): State
    requires c < |s.calls|
  {
    s.(calls := s.calls[c := pc])
  }

  /** Pointers held by a call refer to allocated entries for its hostname. */
  predicate PointerOk(s: State, host: string, seen: Option<nat>) {
    seen.Some? ==> seen.value < |s.heap| && s.heap[seen.value].host == host
  }

  /** The cache points to entries for its hostnames. */
  predicate CacheOk(s: State) {
    forall host | host in s.cache :: PointerOk(s, host, Some(s.cache[host]))
  }

  predicate SourceOk(s: State, host: string, source: nat) {
    source < |s.lookups| && s.lookups[source].host == host
  }

  /** The entry a call read had expired when it looked. */
  predicate PastExpiry(s: State, host: string, seen: Option<nat>, at: int) {
    PointerOk(s, host, seen) && at <= s.now && (seen.Some? ==> s.heap[seen.value].entry.expiresAt <= at)
  }

  predicate CallOk(b: Bounds, s: State, pc: Call) {
    match pc
    case Called(_) => true
    case Reading(_) => true
    case Checking(host, seen) => PointerOk(s, host, seen)
    case LookingUp(host, seen) => PastExpiry(s, host, seen, s.now)
    case Counting(host, cell) => PastExpiry(s, host, Some(cell), s.now)
    case Adapting(host, seen, source) => PointerOk(s, host, seen) && SourceOk(s, host, source)
    case Storing(host, source, ttl) => SourceOk(s, host, source) && IsTTL(b, ttl)
    case Returned(host, answer, how) =>
      match how
      case Literal => answer == Some([host])
      case Hit(cell, at) =>
        && PointerOk(s, host, Some(cell)) && answer == Some(s.heap[cell].entry.ips)
        && s.heap[cell].storedAt <= at <= s.now && at < s.heap[cell].entry.expiresAt
      case Stale(cell, at) => PastExpiry(s, host, Some(cell), at) && answer == Some(s.heap[cell].entry.ips)
      case Fresh(source) => SourceOk(s, host, source) && answer == Some(s.lookups[source].ips)
      case Failed => answer == None
  }

  /** An entry holds the answer of a lookup made no later than it was stored, and
      expires one TTL after that. */
  predicate CellOk(b: Bounds, s: State, cell: Cell) {
    && SourceOk(s, cell.host, cell.source)
    && cell.entry.ips == s.lookups[cell.source].ips
    && s.lookups[cell.source].at <= cell.storedAt <= s.now
    && cell.entry.expiresAt == cell.storedAt + cell.entry.ttl
    && IsTTL(b, cell.entry.ttl)
  }

  ghost predicate Inv(b: Bounds, s: State) {
    && (forall i | 0 <= i < |s.heap| :: CellOk(b, s, s.heap[i]))
    && CacheOk(s)
    && (forall c | 0 <= c < |s.calls| :: CallOk(b, s, s.calls[c]))
    && (forall k | 0 <= k < |s.lookups| :: s.lookups[k].at <= s.now)
  }

  /** The entry a pointer refers to. */
  function Deref(s: State, seen: Option<nat>): Option<Entry>
    requires seen.Some? ==> seen.value < |s.heap|
  {
    match seen
    case None => None
    case Some(cell) => Some(s.heap[cell].entry)
  }

  function CountError(cell: Cell): Cell {
    cell.(entry := cell.entry.(errorCount := cell.entry.errorCount + 1))
  }

  predicate Enabled(b: Bounds, s: State, a: Action) {
    match a
    case Tick(to) => s.now <= to
    case Go(c, _) => c < |s.calls| && !s.calls[c].Returned? && CallOk(b, s, s.calls[c])
    case _ => true
  }

  /** The next step of call c. */
  function Advance(b: Bounds, isIP: string -> bool, s: State, c: nat, answer: Option<seq<string>>): State
    requires Enabled(b, s, Go(c, answer))
  {
    match s.calls[c]
    case Called(host) =>
      Pc(s, c, if isIP(host) then Returned(host, Some([host]), Literal) else Reading(host))
    case Reading(host) =>
      Pc(s, c, Checking(host, if host in s.cache then Some(s.cache[host]) else None))
    case Checking(host, seen) =>
      if seen.Some? && seen.value < |s.heap| && s.now < s.heap[seen.value].entry.expiresAt
      then Pc(s, c, Returned(host, Some(s.heap[seen.value].entry.ips), Hit(seen.value, s.now)))
      else Pc(s, c, LookingUp(host, seen))
    case LookingUp(host, seen) =>
      if answer.Some?
      then Pc(s, c, Adapting(host, seen, |s.lookups|)).(lookups := s.lookups + [Lookup(host, answer.value, s.now)])
      else if seen.Some? then Pc(s, c, Counting(host, seen.value))
      else Pc(s, c, Returned(host, None, Failed))
    case Counting(host, cell) =>
      Pc(s, c, Returned(host, Some(s.heap[cell].entry.ips), Stale(cell, s.now))).(heap := s.heap[cell := CountError(s.heap[cell])])
    case Adapting(host, seen, source) =>
      Pc(s, c, Storing(host, source, AdaptiveTTL(b, Deref(s, seen))))
    case Storing(host, source, ttl) =>
      var ips := s.lookups[source].ips;
      Pc(s, c, Returned(host, Some(ips), Fresh(source)))
      .(heap := s.heap + [Cell(host, Entry(ips, s.now + ttl, ttl, 0), s.now, source)],
        cache := s.cache[host := |s.heap|])
    case Returned(_, _, _) => s
  }

  predicate Expired(s: State, host: string)
    requires host in s.cache
  {
    s.cache[host] < |s.heap| && IsExpired(s.heap[s.cache[host]].entry, s.now)
  }

  function Next(b: Bounds, isIP: string -> bool, s: State, a: Action): State
    requires Enabled(b, s, a)
  {
    match a
    case Tick(to) => s.(now := to)
    case Go(c, answer) => Advance(b, isIP, s, c, answer)
    case NewCall(host) => s.(calls := s.calls + [Called(host)])
    case Invalidate(host) => s.(cache := s.cache - {host})
    case Clear => s.(cache := map[])
    case CleanupExpired => s.(cache := map host | host in s.cache && !Expired(s, host) :: s.cache[host])
  }

  /** A run from an empty cache; steps need `CallOk`, which every run keeps. */
  ghost predicate IsRun(b: Bounds, isIP: string -> bool, states: seq<State>, actions: seq<Action>) {
    && |states| == |actions| + 1
    && states[0].cache == map[] && states[0].heap == [] && states[0].lookups == [] && states[0].calls == []
    && forall i | 0 <= i < |actions| :: Enabled(b, states[i], actions[i]) && states[i + 1] == Next(b, isIP, states[i], actions[i])
  }

  // ----- the invariant

  /** What no step undoes: entries change only in their error count, lookups stay on
      record, and time does not go back. */
  ghost predicate Grows(s: State, t: State) {
    && s.now <= t.now
    && |s.lookups| <= |t.lookups| && (forall k | 0 <= k < |s.lookups| :: t.lookups[k] == s.lookups[k])
    && |s.heap| <= |t.heap|
    && (forall i | 0 <= i < |s.heap| ::
          t.heap[i] == s.heap[i].(entry := s.heap[i].entry.(errorCount := t.heap[i].entry.errorCount)))
  }

  lemma StepGrows(b: Bounds, isIP: string -> bool, s: State, a: Action)
    requires Enabled(b, s, a)
    ensures Grows(s, Next(b, isIP, s, a))
  {
  }

  lemma CallStaysOk(b: Bounds, s: State, t: State, pc: Call)
    requires Grows(s, t) && CallOk(b, s, pc)
    ensures CallOk(b, t, pc)
  {
  }

  /** Entries of the old heap, and the one a store adds. */
  lemma HeapStaysOk(b: Bounds, isIP: string -> bool, s: State, a: Action)
    requires Inv(b, s) && Enabled(b, s, a)
    ensures forall i | 0 <= i < |Next(b, isIP, s, a).heap| :: CellOk(b, Next(b, isIP, s, a), Next(b, isIP, s, a).heap[i])
  {
    var t := Next(b, isIP, s, a);
    StepGrows(b, isIP, s, a);
    forall i | 0 <= i < |t.heap| ensures CellOk(b, t, t.heap[i]) {
      if i < |s.heap| {
        assert CellOk(b, s, s.heap[i]);
      } else {
        assert a.Go? && s.calls[a.c].Storing? && CallOk(b, s, s.calls[a.c]);
      }
    }
  }

  lemma CacheStaysOk(b: Bounds, isIP: string -> bool, s: State, a: Action)
    requires Inv(b, s) && Enabled(b, s, a)
    ensures forall host | host in Next(b, isIP, s, a).cache ::
              PointerOk(Next(b, isIP, s, a), host, Some(Next(b, isIP, s, a).cache[host]))
  {
    var t := Next(b, isIP, s, a);
    StepGrows(b, isIP, s, a);
    forall host | host in t.cache ensures PointerOk(t, host, Some(t.cache[host])) {
      if host in s.cache {
        assert PointerOk(s, host, Some(s.cache[host]));
      }
    }
  }

  lemma CallStepOk(b: Bounds, isIP: string -> bool, s: State, c: nat, answer: Option<seq<string>>)
    requires Inv(b, s) && Enabled(b, s, Go(c, answer))
    ensures CallOk(b, Advance(b, isIP, s, c, answer), Advance(b, isIP, s, c, answer).calls[c])
  {
    var pc := s.calls[c];
    if pc.Reading? && pc.host in s.cache {
      assert PointerOk(s, pc.host, Some(s.cache[pc.host]));
    }
    if pc.Checking? && pc.seen.Some? {
      assert CellOk(b, s, s.heap[pc.seen.value]);
    }
  }

  lemma CallsStayOk(b: Bounds, isIP: string -> bool, s: State, a: Action)
    requires Inv(b, s) && Enabled(b, s, a)
    ensures forall c | 0 <= c < |Next(b, isIP, s, a).calls| ::
              CallOk(b, Next(b, isIP, s, a), Next(b, isIP, s, a).calls[c])
  {
    var t := Next(b, isIP, s, a);
    StepGrows(b, isIP, s, a);
    forall c | 0 <= c < |t.calls| ensures CallOk(b, t, t.calls[c]) {
      if a.Go? && c == a.c {
        CallStepOk(b, isIP, s, a.c, a.answer);
      } else if c < |s.calls| {
        CallStaysOk(b, s, t, s.calls[c]);
      }
    }
  }

  lemma StepInv(b: Bounds, isIP: string -> bool, s: State, a: Action)
    requires Inv(b, s) && Enabled(b, s, a)
    ensures Inv(b, Next(b, isIP, s, a))
  {
    HeapStaysOk(b, isIP, s, a);
    CacheStaysOk(b, isIP, s, a);
    CallsStayOk(b, isIP, s, a);
  }

  lemma {:induction false} RunInv(b: Bounds, isIP: string -> bool, states: seq<State>, actions: seq<Action>, i: nat)
    requires IsRun(b, isIP, states, actions) && i < |states|
    ensures Inv(b, states[i])
  {
    if i > 0 {
      RunInv(b, isIP, states, actions, i - 1);
      assert states[i - 1 + 1] == Next(b, isIP, states[i - 1], actions[i - 1]);
      StepInv(b, isIP, states[i - 1], actions[i - 1]);
    }
  }

  // ----- what every run guarantees

  /** A lookup answers for the hostname with these addresses. */
  ghost predicate RealAnswer(s: State, k: nat, host: string, ips: seq<string>, upTo: int) {
    k < |s.lookups| && s.lookups[k].host == host && s.lookups[k].ips == ips && s.lookups[k].at <= upTo
  }

  /** A hit at time `at` returns the answer of a successful lookup for that hostname,
      stored less than its TTL before `at`; the TTL is the minimum, the middle or the
      maximum, hence at most the maximum if the bounds are in order. */
  lemma BoundedStaleness(b: Bounds, isIP: string -> bool, states: seq<State>, actions: seq<Action>, i: nat, c: nat)
    returns (k: nat, storedAt: int, ttl: int)
    requires IsRun(b, isIP, states, actions) && i < |states|
    requires c < |states[i].calls| && states[i].calls[c].Returned? && states[i].calls[c].how.Hit?
    ensures var pc := states[i].calls[c];
      && pc.answer.Some? && RealAnswer(states[i], k, pc.host, pc.answer.value, storedAt)
      && IsTTL(b, ttl) && storedAt <= pc.how.at && pc.how.at - storedAt < ttl
      && (b.minTTL <= b.maxTTL ==> ttl <= b.maxTTL)
  {
    RunInv(b, isIP, states, actions, i);
    var pc := states[i].calls[c];
    assert CallOk(b, states[i], pc);
    var cell := states[i].heap[pc.how.cell];
    assert CellOk(b, states[i], cell);
    if b.minTTL <= b.maxTTL {
      MiddleWithin(b);
    }
    k, storedAt, ttl := cell.source, cell.storedAt, cell.entry.ttl;
  }

  /** An answer from an entry is younger than the entry's TTL exactly when it is a
      hit: the stale answer given after a failed lookup never is. */
  lemma YoungerThanTTL(b: Bounds, isIP: string -> bool, states: seq<State>, actions: seq<Action>, i: nat, c: nat)
    requires IsRun(b, isIP, states, actions) && i < |states|
    requires c < |states[i].calls| && states[i].calls[c].Returned?
    requires states[i].calls[c].how.Hit? || states[i].calls[c].how.Stale?
    ensures var how, s := states[i].calls[c].how, states[i];
      && how.cell < |s.heap|
      && (how.at - s.heap[how.cell].storedAt < s.heap[how.cell].entry.ttl <==> how.Hit?)
  {
    RunInv(b, isIP, states, actions, i);
    var s, pc := states[i], states[i].calls[c];
    assert CallOk(b, s, pc);
    assert CellOk(b, s, s.heap[pc.how.cell]);
  }

  /** No answer is made up: whatever `Resolve` returns for a hostname that is not an
      address is what some lookup for that hostname answered; it fails only without
      an entry to fall back on. */
  lemma AnswersAreReal(b: Bounds, isIP: string -> bool, states: seq<State>, actions: seq<Action>, i: nat, c: nat)
    returns (k: nat)
    requires IsRun(b, isIP, states, actions) && i < |states|
    requires c < |states[i].calls| && states[i].calls[c].Returned?
    ensures var pc := states[i].calls[c];
      match pc.how
      case Literal => pc.answer == Some([pc.host])
      case Failed => pc.answer == None
      case _ => pc.answer.Some? && RealAnswer(states[i], k, pc.host, pc.answer.value, states[i].now)
  {
    RunInv(b, isIP, states, actions, i);
    var s, pc := states[i], states[i].calls[c];
    assert CallOk(b, s, pc);
    k := match pc.how
         case Hit(cell, _) => s.heap[cell].source
         case Stale(cell, _) => s.heap[cell].source
         case Fresh(source) => source
         case _ => 0;
    if pc.how.Hit? || pc.how.Stale? {
      assert CellOk(b, s, s.heap[pc.how.cell]);
    }
  }

  /** No call is ever stuck, whatever the others do. */
  lemma CallsNeverStick(b: Bounds, isIP: string -> bool, states: seq<State>, actions: seq<Action>, i: nat, c: nat, answer: Option<seq<string>>)
    requires IsRun(b, isIP, states, actions) && i < |states|
    requires c < |states[i].calls| && !states[i].calls[c].Returned?
    ensures Enabled(b, states[i], Go(c, answer))
    ensures Next(b, isIP, states[i], Go(c, answer)).calls[c] != states[i].calls[c]
  {
    RunInv(b, isIP, states, actions, i);
  }

  /** In every run cleanup leaves of the cache what `Survivors` says: exactly the
      entries past their expiry go, and no hit on an entry cached then is lost, now or
      later. What it changes for later lookups is the subject of `CleanupAndAnswers`
      and `CleanupAndStores`. */
  lemma CleanupSparesCachedHits(b: Bounds, isIP: string -> bool, states: seq<State>, actions: seq<Action>, i: nat, host: string, at: int)
    requires IsRun(b, isIP, states, actions) && i < |states| && states[i].now <= at
    ensures var s, t := states[i], Next(b, isIP, states[i], CleanupExpired);
      && (host in View(s) <==> host in s.cache)
      && View(t) == Survivors(View(s), {}, s.now)
      && (host in t.cache <==> host in View(s) && !IsExpired(View(s)[host], s.now))
      && (IsHit(View(t), host, at) <==> IsHit(View(s), host, at))
  {
    RunInv(b, isIP, states, actions, i);
    var s, t := states[i], Next(b, isIP, states[i], CleanupExpired);
    forall other | other in s.cache ensures s.cache[other] < |s.heap| {
      assert PointerOk(s, other, Some(s.cache[other]));
    }
    assert View(t) == Survivors(View(s), {}, s.now);
    SurvivorsHit(View(s), s.now, host, at);
  }

  // ----- a call nobody interferes with

  function StepsLeft(pc: Call): nat {
    match pc
    case Called(_) => 6
    case Reading(_) => 5
    case Checking(_, _) => 4
    case LookingUp(_, _) => 3
    case Counting(_, _) => 1
    case Adapting(_, _, _) => 2
    case Storing(_, _, _) => 1
    case Returned(_, _, _) => 0
  }

  /** Call c goes on alone until it returns, at one moment. */
  ghost function Alone(b: Bounds, isIP: string -> bool, s: State, c: nat, answer: Option<seq<string>>): (t: State)
    requires Inv(b, s) && c < |s.calls|
    ensures |t.calls| == |s.calls| && t.calls[c].Returned?
    decreases StepsLeft(s.calls[c])
  {
    if s.calls[c].Returned? then s
    else
      StepInv(b, isIP, s, Go(c, answer));
      Alone(b, isIP, Next(b, isIP, s, Go(c, answer)), c, answer)
  }

  lemma AloneStep(b: Bounds, isIP: string -> bool, s: State, c: nat, answer: Option<seq<string>>) returns (t: State)
    requires Inv(b, s) && c < |s.calls| && !s.calls[c].Returned?
    ensures CallOk(b, s, s.calls[c]) && t == Advance(b, isIP, s, c, answer)
    ensures Inv(b, t) && Alone(b, isIP, s, c, answer) == Alone(b, isIP, t, c, answer)
  {
    t := Next(b, isIP, s, Go(c, answer));
    StepInv(b, isIP, s, Go(c, answer));
  }

  function Pointer(s: State, host: string): Option<nat> {
    if host in s.cache then Some(s.cache[host]) else None
  }

  /** The first look at the cache. */
  lemma AloneLooks(b: Bounds, isIP: string -> bool, s: State, c: nat, answer: Option<seq<string>>) returns (t: State)
    requires Inv(b, s) && c < |s.calls| && s.calls[c].Called? && !isIP(s.calls[c].host)
    ensures t == Pc(s, c, Checking(s.calls[c].host, Pointer(s, s.calls[c].host)))
    ensures Inv(b, t) && Alone(b, isIP, s, c, answer) == Alone(b, isIP, t, c, answer)
  {
    var s1 := AloneStep(b, isIP, s, c, answer);
    t := AloneStep(b, isIP, s1, c, answer);
  }

  /** Where a call ends whose lookup fails. */
  lemma AloneFails(b: Bounds, isIP: string -> bool, s: State, c: nat)
    requires Inv(b, s) && c < |s.calls| && s.calls[c].LookingUp?
    ensures var t := Alone(b, isIP, s, c, None);
      match s.calls[c].seen
      case None => t == Pc(s, c, t.calls[c]) && t.calls[c].answer == None
      case Some(cell) =>
        && cell < |s.heap| && t.calls[c].answer == Some(s.heap[cell].entry.ips)
        && t == Pc(s, c, t.calls[c]).(heap := s.heap[cell := CountError(s.heap[cell])])
  {
    var t := AloneStep(b, isIP, s, c, None);
    if t.calls[c].Counting? {
      var u := AloneStep(b, isIP, t, c, None);
    }
  }

  /** Where a call ends whose lookup succeeds. */
  lemma AloneStores(b: Bounds, isIP: string -> bool, s: State, c: nat, ips: seq<string>)
    requires Inv(b, s) && c < |s.calls| && s.calls[c].LookingUp?
    ensures PointerOk(s, s.calls[c].host, s.calls[c].seen)
    ensures var host, t := s.calls[c].host, Alone(b, isIP, s, c, Some(ips));
      var ttl := AdaptiveTTL(b, Deref(s, s.calls[c].seen));
      && t.calls[c].answer == Some(ips) && t.cache == s.cache[host := |s.heap|]
      && t.heap == s.heap + [Cell(host, Entry(ips, s.now + ttl, ttl, 0), s.now, |s.lookups|)]
  {
    var t := AloneStep(b, isIP, s, c, Some(ips));
    var u := AloneStep(b, isIP, t, c, Some(ips));
    var v := AloneStep(b, isIP, u, c, Some(ips));
  }

  /** The cache as its users see it, without the pointers. */
  function View(s: State): map<string, Entry> {
    map host | host in s.cache && s.cache[host] < |s.heap| :: s.heap[s.cache[host]].entry
  }

  lemma SameView(s: State, t: State)
    requires t.cache == s.cache && t.heap == s.heap
    ensures View(t) == View(s)
  {
  }

  lemma ViewedEntry(s: State, host: string)
    requires CacheOk(s)
    ensures PointerOk(s, host, Pointer(s, host))
    ensures Deref(s, Pointer(s, host)) == if host in View(s) then Some(View(s)[host]) else None
  {
  }

  /** Counting an error on the cached entry of a host changes that entry only. */
  lemma CountedInView(s: State, t: State, host: string)
    requires CacheOk(s) && host in s.cache && s.cache[host] < |s.heap|
    requires t.cache == s.cache && t.heap == s.heap[s.cache[host] := CountError(s.heap[s.cache[host]])]
    ensures View(t) == View(s)[host := CountError(s.heap[s.cache[host]]).entry]
  {
    assert PointerOk(s, host, Some(s.cache[host]));
    forall other | other in s.cache && s.cache[other] == s.cache[host] ensures other == host {
      assert PointerOk(s, other, Some(s.cache[other]));
    }
  }

  /** Storing a new entry for a host replaces that entry only. */
  lemma StoredInView(s: State, t: State, host: string, cell: Cell)
    requires CacheOk(s) && t.cache == s.cache[host := |s.heap|] && t.heap == s.heap + [cell]
    ensures View(t) == View(s)[host := cell.entry]
  {
    forall other | other in s.cache ensures s.cache[other] < |s.heap| {
      assert PointerOk(s, other, Some(s.cache[other]));
    }
  }

  /** The call ends in t as the object's method does on the cache s shows. */
  ghost predicate EndsAs(b: Bounds, s: State, host: string, isIP: bool, answer: Option<seq<string>>, t: State, got: Option<seq<string>>) {
    && got == AnswerOf(View(s), host, isIP, answer, s.now)
    && View(t) == CacheAfter(b, View(s), host, isIP, answer, s.now, s.now)
  }

  lemma FailureEnds(b: Bounds, s: State, host: string, t: State, got: Option<seq<string>>)
    requires CacheOk(s) && !IsHit(View(s), host, s.now) && t.cache == s.cache
    requires host !in s.cache ==> t.heap == s.heap && got == None
    requires host in s.cache ==>
               && s.cache[host] < |s.heap| && got == Some(s.heap[s.cache[host]].entry.ips)
               && t.heap == s.heap[s.cache[host] := CountError(s.heap[s.cache[host]])]
    ensures EndsAs(b, s, host, false, None, t, got)
  {
    if host in s.cache {
      CountedInView(s, t, host);
      assert View(s)[host] == s.heap[s.cache[host]].entry;
    } else {
      SameView(s, t);
    }
  }

  lemma AloneAfterFailure(b: Bounds, isIP: string -> bool, s: State, c: nat)
    requires Inv(b, s) && c < |s.calls| && s.calls[c].LookingUp? && !IsHit(View(s), s.calls[c].host, s.now)
    requires s.calls[c].seen == Pointer(s, s.calls[c].host)
    ensures var t := Alone(b, isIP, s, c, None); EndsAs(b, s, s.calls[c].host, false, None, t, t.calls[c].answer)
  {
    AloneFails(b, isIP, s, c);
    var t := Alone(b, isIP, s, c, None);
    FailureEnds(b, s, s.calls[c].host, t, t.calls[c].answer);
  }

  lemma SuccessEnds(b: Bounds, s: State, host: string, ips: seq<string>, t: State, cell: Cell)
    requires CacheOk(s) && !IsHit(View(s), host, s.now) && PointerOk(s, host, Pointer(s, host))
    requires t.cache == s.cache[host := |s.heap|] && t.heap == s.heap + [cell]
    requires var ttl := AdaptiveTTL(b, Deref(s, Pointer(s, host))); cell.entry == Entry(ips, s.now + ttl, ttl, 0)
    ensures EndsAs(b, s, host, false, Some(ips), t, Some(ips))
  {
    ViewedEntry(s, host);
    StoredInView(s, t, host, cell);
  }

  lemma AloneAfterSuccess(b: Bounds, isIP: string -> bool, s: State, c: nat, ips: seq<string>)
    requires Inv(b, s) && c < |s.calls| && s.calls[c].LookingUp? && !IsHit(View(s), s.calls[c].host, s.now)
    requires s.calls[c].seen == Pointer(s, s.calls[c].host)
    ensures var t := Alone(b, isIP, s, c, Some(ips)); EndsAs(b, s, s.calls[c].host, false, Some(ips), t, t.calls[c].answer)
  {
    AloneStores(b, isIP, s, c, ips);
    var t := Alone(b, isIP, s, c, Some(ips));
    SuccessEnds(b, s, s.calls[c].host, ips, t, t.heap[|s.heap|]);
  }

  /** Having read the cache: a hit, or a lookup. */
  lemma AloneAfterLook(b: Bounds, isIP: string -> bool, s: State, c: nat, answer: Option<seq<string>>)
    requires Inv(b, s) && c < |s.calls| && s.calls[c].Checking? && s.calls[c].seen == Pointer(s, s.calls[c].host)
    ensures var t := Alone(b, isIP, s, c, answer); EndsAs(b, s, s.calls[c].host, false, answer, t, t.calls[c].answer)
  {
    ViewedEntry(s, s.calls[c].host);
    var t := AloneStep(b, isIP, s, c, answer);
    SameView(s, t);
    if t.calls[c].LookingUp? {
      if answer.Some? {
        AloneAfterSuccess(b, isIP, t, c, answer.value);
      } else {
        AloneAfterFailure(b, isIP, t, c);
      }
    }
  }

  /** Without interference a call is `DNSCache.Resolve` run in one go: from any state
      of any run it answers as the object does, and leaves the cache as it does. */
  lemma AloneIsResolve(b: Bounds, isIP: string -> bool, s: State, c: nat, answer: Option<seq<string>>)
    requires Inv(b, s) && c < |s.calls| && s.calls[c].Called?
    ensures var host, t := s.calls[c].host, Alone(b, isIP, s, c, answer);
      EndsAs(b, s, host, isIP(host), answer, t, t.calls[c].answer)
  {
    if isIP(s.calls[c].host) {
      var t := AloneStep(b, isIP, s, c, answer);
      SameView(s, t);
    } else {
      var t := AloneLooks(b, isIP, s, c, answer);
      SameView(s, t);
      AloneAfterLook(b, isIP, t, c, answer);
    }
  }

  /** A failed lookup counts its error on the entry the call read. At any point of any
      run this shows in the cache exactly when that entry is still the cached one.
      Which TTL later stores get is the subject of `DnsStores`: a call that read the
      detached entry still sees the error there. */
  lemma FailureIsNoticed(b: Bounds, isIP: string -> bool, states: seq<State>, actions: seq<Action>, i: nat, c: nat, answer: Option<seq<string>>)
    requires IsRun(b, isIP, states, actions) && i < |states|
    requires c < |states[i].calls| && states[i].calls[c].Counting?
    ensures CallOk(b, states[i], states[i].calls[c])
    ensures View(Advance(b, isIP, states[i], c, answer)) != View(states[i])
        <==> Pointer(states[i], states[i].calls[c].host) == Some(states[i].calls[c].cell)
  {
    RunInv(b, isIP, states, actions, i);
    var s, host, cell := states[i], states[i].calls[c].host, states[i].calls[c].cell;
    assert CallOk(b, s, s.calls[c]);
    var t := Advance(b, isIP, s, c, answer);
    if Pointer(s, host) == Some(cell) {
      CountedInView(s, t, host);
      assert View(t)[host].errorCount == View(s)[host].errorCount + 1;
    } else {
      forall other | other in s.cache ensures s.cache[other] != cell {
        assert PointerOk(s, other, Some(s.cache[other]));
      }
    }
  }
}
