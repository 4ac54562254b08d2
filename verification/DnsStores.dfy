/** Which TTL a store gets when calls of `Resolve` interleave, against the rule that
    one call at a time follows: middle for a host that is not present, minimum after
    a failure since its last store, else maximum. */
module DnsStores {
  import opened Types
  import opened DnsCache
  import opened DnsRaces

  // ----- what a run has done to a host

  /** What a step does to the host: a failed lookup, a store, a removal. */
  function EventsOf(s: State, a: Action, host: string): seq<Event> {
    match a
    case Go(c, answer) =>
      if c >= |s.calls| || s.calls[c].host != host then []
      else if s.calls[c].LookingUp? && answer.None? then [LookupFailed(host)]
      else if s.calls[c].Storing? then [Stored(host)]
      else []
    case Invalidate(h) => if h == host then [Removed(host)] else []
    case Clear => [Cleared]
    case CleanupExpired => if host in s.cache && Expired(s, host) then [Removed(host)] else []
    case _ => []
  }

  /** The history of the host in the first i steps of a run. */
  function HistoryOf(states: seq<State>, actions: seq<Action>, i: nat, host: string): seq<Event>
    requires i <= |actions| <= |states|
  {
    if i == 0 then [] else HistoryOf(states, actions, i - 1, host) + EventsOf(states[i - 1], actions[i - 1], host)
  }

  predicate CountsOn(s: State, a: Action, cell: nat) {
    a.Go? && a.c < |s.calls| && s.calls[a.c].Counting? && s.calls[a.c].cell == cell
  }

  /** How many errors calls have counted on an entry in the first i steps. */
  function ErrorsOn(states: seq<State>, actions: seq<Action>, i: nat, cell: nat): nat
    requires i <= |actions| <= |states|
  {
    if i == 0 then 0
    else ErrorsOn(states, actions, i - 1, cell) + if CountsOn(states[i - 1], actions[i - 1], cell) then 1 else 0
  }

  lemma {:induction false} ErrorsGrow(states: seq<State>, actions: seq<Action>, j: nat, i: nat, cell: nat)
    requires j <= i <= |actions| <= |states|
    ensures ErrorsOn(states, actions, j, cell) <= ErrorsOn(states, actions, i, cell)
  {
    if j < i {
      ErrorsGrow(states, actions, j, i - 1, cell);
    }
  }

  lemma LastStep(b: Bounds, isIP: string -> bool, states: seq<State>, actions: seq<Action>, i: nat)
    requires IsRun(b, isIP, states, actions) && 0 < i < |states|
    ensures Inv(b, states[i - 1]) && Enabled(b, states[i - 1], actions[i - 1])
    ensures states[i] == Next(b, isIP, states[i - 1], actions[i - 1])
  {
    RunInv(b, isIP, states, actions, i - 1);
    assert Enabled(b, states[i - 1], actions[i - 1]) && states[i - 1 + 1] == Next(b, isIP, states[i - 1], actions[i - 1]);
  }

  lemma CountedIsAllocated(b: Bounds, s: State, a: Action, cell: nat)
    requires Inv(b, s) && CountsOn(s, a, cell)
    ensures cell < |s.heap| && s.heap[cell].host == s.calls[a.c].host
  {
    assert CallOk(b, s, s.calls[a.c]);
  }

  lemma CountingStep(b: Bounds, isIP: string -> bool, s: State, a: Action, cell: nat)
    requires Inv(b, s) && Enabled(b, s, a) && cell < |Next(b, isIP, s, a).heap|
    ensures CountsOn(s, a, cell) ==> cell < |s.heap|
    ensures Next(b, isIP, s, a).heap[cell].entry.errorCount
         == (if cell < |s.heap| then s.heap[cell].entry.errorCount else 0) + if CountsOn(s, a, cell) then 1 else 0
  {
    if a.Go? {
      assert CallOk(b, s, s.calls[a.c]);
    }
  }

  /** The error count of an entry is what calls have counted on it. */
  lemma {:induction false} ErrorsAreCounted(b: Bounds, isIP: string -> bool, states: seq<State>, actions: seq<Action>, i: nat, cell: nat)
    requires IsRun(b, isIP, states, actions) && i < |states|
    ensures ErrorsOn(states, actions, i, cell)
         == if cell < |states[i].heap| then states[i].heap[cell].entry.errorCount else 0
  {
    if i > 0 {
      var s, a := states[i - 1], actions[i - 1];
      ErrorsAreCounted(b, isIP, states, actions, i - 1, cell);
      LastStep(b, isIP, states, actions, i);
      if cell < |states[i].heap| {
        CountingStep(b, isIP, s, a, cell);
      } else if CountsOn(s, a, cell) {
        CountedIsAllocated(b, s, a, cell);
      }
    }
  }

  // ----- where the TTL of a store comes from

  /** Call c, which is at pc and about to store, chose its TTL at step j from the
      pointer it had read. */
  ghost predicate ChoseAt(states: seq<State>, actions: seq<Action>, pc: Call, c: nat, j: nat, seen: Option<nat>) {
    && j < |states| && j < |actions| && pc.Storing?
    && actions[j].Go? && actions[j].c == c && c < |states[j].calls|
    && states[j].calls[c] == Adapting(pc.host, seen, pc.source)
  }

  /** A step moves its own call only; a new call is just called. */
  lemma OthersUnmoved(b: Bounds, isIP: string -> bool, s: State, a: Action, c: nat)
    requires Enabled(b, s, a) && c < |Next(b, isIP, s, a).calls| && !(a.Go? && a.c == c)
    ensures var pc := Next(b, isIP, s, a).calls[c];
      if c < |s.calls| then s.calls[c] == pc else pc.Called?
  {
  }

  lemma ChosenByStep(b: Bounds, isIP: string -> bool, s: State, c: nat, answer: Option<seq<string>>)
    requires Enabled(b, s, Go(c, answer)) && Advance(b, isIP, s, c, answer).calls[c].Storing?
    ensures var pc := Advance(b, isIP, s, c, answer).calls[c];
      && s.calls[c].Adapting? && s.calls[c] == Adapting(pc.host, s.calls[c].seen, pc.source)
      && PointerOk(s, pc.host, s.calls[c].seen) && pc.ttl == AdaptiveTTL(b, Deref(s, s.calls[c].seen))
  {
  }

  lemma BeforeStoring(b: Bounds, isIP: string -> bool, s: State, a: Action, c: nat)
    requires Enabled(b, s, a)
    requires c < |Next(b, isIP, s, a).calls| && Next(b, isIP, s, a).calls[c].Storing?
    ensures c < |s.calls|
    ensures var pc := Next(b, isIP, s, a).calls[c];
      s.calls[c] == pc
      || (a.Go? && a.c == c && s.calls[c].Adapting?
          && s.calls[c] == Adapting(pc.host, s.calls[c].seen, pc.source)
          && PointerOk(s, pc.host, s.calls[c].seen) && pc.ttl == AdaptiveTTL(b, Deref(s, s.calls[c].seen)))
  {
    if a.Go? && a.c == c {
      ChosenByStep(b, isIP, s, c, a.answer);
    } else {
      OthersUnmoved(b, isIP, s, a, c);
    }
  }

  lemma {:induction false} Chosen(b: Bounds, isIP: string -> bool, states: seq<State>, actions: seq<Action>, i: nat, c: nat, pc: Call)
    returns (j: nat, seen: Option<nat>)
    requires IsRun(b, isIP, states, actions) && i < |states|
    requires c < |states[i].calls| && states[i].calls[c] == pc && pc.Storing?
    ensures j < i && ChoseAt(states, actions, pc, c, j, seen)
    ensures PointerOk(states[j], pc.host, seen) && pc.ttl == AdaptiveTTL(b, Deref(states[j], seen))
  {
    if i == 0 {
      assert false;
    } else {
      LastStep(b, isIP, states, actions, i);
      BeforeStoring(b, isIP, states[i - 1], actions[i - 1], c);
      if states[i - 1].calls[c] == pc {
        j, seen := Chosen(b, isIP, states, actions, i - 1, c, pc);
      } else {
        j, seen := i - 1, states[i - 1].calls[c].seen;
      }
    }
  }

  /** In every run, the TTL of a store depends on the pointer the storing call read,
      and on that entry as it stands when the call chooses: middle without an entry,
      minimum if an error has been counted on that entry by then, else maximum. */
  lemma StoreTTL(b: Bounds, isIP: string -> bool, states: seq<State>, actions: seq<Action>, i: nat, c: nat)
    returns (j: nat, seen: Option<nat>)
    requires IsRun(b, isIP, states, actions) && i < |states|
    requires c < |states[i].calls| && states[i].calls[c].Storing?
    ensures j < i && ChoseAt(states, actions, states[i].calls[c], c, j, seen)
    ensures states[i].calls[c].ttl
         == if seen.None? then Middle(b)
            else if ErrorsOn(states, actions, j, seen.value) > 0 then b.minTTL
            else b.maxTTL
  {
    j, seen := Chosen(b, isIP, states, actions, i, c, states[i].calls[c]);
    if seen.Some? {
      ErrorsAreCounted(b, isIP, states, actions, j, seen.value);
    }
  }

  // ----- the cache against the history

  predicate SomeCounting(s: State, host: string, cell: nat) {
    exists c :: 0 <= c < |s.calls| && s.calls[c] == Counting(host, cell)
  }

  /** A host is cached exactly when its history says so; and what is counted, or about
      to be, on the cached entry is a failure since that entry was stored. */
  ghost predicate Kept(s: State, h: seq<Event>, host: string) {
    && (host in s.cache <==> Present(h, host))
    && (host in s.cache && s.cache[host] < |s.heap|
        && (s.heap[s.cache[host]].entry.errorCount > 0 || SomeCounting(s, host, s.cache[host]))
        ==> FailedSince(h, host))
  }

  /** History after a step, by the kind of event. */
  lemma HistoryStep(s: State, a: Action, h: seq<Event>, host: string)
    ensures var e := EventsOf(s, a, host);
      && |e| <= 1
      && (e == [] ==> Present(h + e, host) == Present(h, host) && FailedSince(h + e, host) == FailedSince(h, host))
      && (e != [] ==> e[0] == Stored(host) || e[0] == LookupFailed(host) || Ends(e[0], host))
      && (e == [Stored(host)] ==> Present(h + e, host) && !FailedSince(h + e, host))
      && (e == [LookupFailed(host)] ==> Present(h + e, host) == Present(h, host) && FailedSince(h + e, host))
      && (e != [] && Ends(e[0], host) ==> !Present(h + e, host) && !FailedSince(h + e, host))
  {
    var e := EventsOf(s, a, host);
    if e == [] {
      assert h + e == h;
    } else {
      AppendEvent(h, e[0]);
      assert h + e == h + [e[0]];
    }
  }

  /** A host's own call changes whether it is cached only by storing. */
  lemma CachedByCall(b: Bounds, isIP: string -> bool, s: State, c: nat, answer: Option<seq<string>>, host: string)
    requires Inv(b, s) && Enabled(b, s, Go(c, answer))
    ensures var e, t := EventsOf(s, Go(c, answer), host), Advance(b, isIP, s, c, answer);
      && (e == [Stored(host)] ==> host in t.cache)
      && (e == [] || e == [LookupFailed(host)] ==> (host in t.cache <==> host in s.cache))
      && (e == [] || e == [LookupFailed(host)] || e == [Stored(host)])
  {
  }

  lemma CachedByOther(b: Bounds, isIP: string -> bool, s: State, a: Action, host: string)
    requires Inv(b, s) && Enabled(b, s, a) && !a.Go?
    ensures var e, t := EventsOf(s, a, host), Next(b, isIP, s, a);
      if e == [] then (host in t.cache <==> host in s.cache) else Ends(e[0], host) && host !in t.cache
  {
  }

  lemma KeptCached(b: Bounds, isIP: string -> bool, s: State, a: Action, h: seq<Event>, host: string)
    requires Inv(b, s) && Enabled(b, s, a) && (host in s.cache <==> Present(h, host))
    ensures host in Next(b, isIP, s, a).cache <==> Present(h + EventsOf(s, a, host), host)
  {
    HistoryStep(s, a, h, host);
    if a.Go? {
      CachedByCall(b, isIP, s, a.c, a.answer, host);
    } else {
      CachedByOther(b, isIP, s, a, host);
    }
  }

  /** An old entry that is cached after a step was cached before. */
  lemma CachedBefore(b: Bounds, isIP: string -> bool, s: State, a: Action, host: string)
    requires Inv(b, s) && Enabled(b, s, a)
    requires host in Next(b, isIP, s, a).cache && Next(b, isIP, s, a).cache[host] < |s.heap|
    ensures host in s.cache && s.cache[host] == Next(b, isIP, s, a).cache[host]
  {
  }

  /** An error counted on the entry that is cached afterwards is one of the host. */
  lemma KeptErrors(b: Bounds, isIP: string -> bool, s: State, a: Action, h: seq<Event>, host: string)
    requires Inv(b, s) && Enabled(b, s, a) && Kept(s, h, host)
    requires var t := Next(b, isIP, s, a); host in t.cache && t.cache[host] < |t.heap| && t.heap[t.cache[host]].entry.errorCount > 0
    ensures FailedSince(h + EventsOf(s, a, host), host)
  {
    HistoryStep(s, a, h, host);
    var t := Next(b, isIP, s, a);
    var cell := t.cache[host];
    CountingStep(b, isIP, s, a, cell);
    if cell < |s.heap| {
      CachedBefore(b, isIP, s, a, host);
      assert PointerOk(s, host, Some(cell));
      if CountsOn(s, a, cell) {
        CountedIsAllocated(b, s, a, cell);
        assert s.calls[a.c] == Counting(host, cell);
        assert SomeCounting(s, host, cell);
      }
    }
  }

  lemma CountsByStep(b: Bounds, isIP: string -> bool, s: State, c: nat, answer: Option<seq<string>>)
    requires Enabled(b, s, Go(c, answer)) && Advance(b, isIP, s, c, answer).calls[c].Counting?
    ensures var pc := Advance(b, isIP, s, c, answer).calls[c];
      answer.None? && s.calls[c] == LookingUp(pc.host, Some(pc.cell))
  {
  }

  /** A call that counts after a step did before, or its lookup has just failed. */
  lemma StartsCounting(b: Bounds, isIP: string -> bool, s: State, a: Action, c: nat)
    requires Enabled(b, s, a)
    requires c < |Next(b, isIP, s, a).calls| && Next(b, isIP, s, a).calls[c].Counting?
    ensures c < |s.calls|
    ensures var pc := Next(b, isIP, s, a).calls[c];
      s.calls[c] == pc || (a == Go(c, None) && s.calls[c] == LookingUp(pc.host, Some(pc.cell)))
  {
    if a.Go? && a.c == c {
      CountsByStep(b, isIP, s, c, a.answer);
    } else {
      OthersUnmoved(b, isIP, s, a, c);
    }
  }

  lemma StillCounting(b: Bounds, isIP: string -> bool, s: State, a: Action, host: string, c: nat)
    requires Inv(b, s) && Enabled(b, s, a) && c < |s.calls|
    requires host in Next(b, isIP, s, a).cache && s.calls[c] == Counting(host, Next(b, isIP, s, a).cache[host])
    ensures host in s.cache && s.cache[host] == Next(b, isIP, s, a).cache[host] && s.cache[host] < |s.heap|
    ensures SomeCounting(s, host, s.cache[host])
  {
    assert CallOk(b, s, s.calls[c]);
    CachedBefore(b, isIP, s, a, host);
  }

  lemma KeptCounting(b: Bounds, isIP: string -> bool, s: State, a: Action, h: seq<Event>, host: string, c: nat)
    requires Inv(b, s) && Enabled(b, s, a) && Kept(s, h, host)
    requires var t := Next(b, isIP, s, a);
      host in t.cache && c < |t.calls| && t.calls[c] == Counting(host, t.cache[host])
    ensures FailedSince(h + EventsOf(s, a, host), host)
  {
    StartsCounting(b, isIP, s, a, c);
    HistoryStep(s, a, h, host);
    if s.calls[c].Counting? {
      StillCounting(b, isIP, s, a, host, c);
      StillFailed(b, isIP, s, a, h, host);
    }
  }

  /** A failure is not forgotten while the same entry stays cached. */
  lemma StillFailed(b: Bounds, isIP: string -> bool, s: State, a: Action, h: seq<Event>, host: string)
    requires Inv(b, s) && Enabled(b, s, a) && FailedSince(h, host)
    requires host in s.cache && host in Next(b, isIP, s, a).cache && Next(b, isIP, s, a).cache[host] == s.cache[host]
    ensures FailedSince(h + EventsOf(s, a, host), host)
  {
    HistoryStep(s, a, h, host);
    assert PointerOk(s, host, Some(s.cache[host]));
    if a.Go? {
      CachedByCall(b, isIP, s, a.c, a.answer, host);
    } else {
      CachedByOther(b, isIP, s, a, host);
    }
  }

  lemma {:induction false} RunKept(b: Bounds, isIP: string -> bool, states: seq<State>, actions: seq<Action>, i: nat, host: string)
    requires IsRun(b, isIP, states, actions) && i < |states|
    ensures Kept(states[i], HistoryOf(states, actions, i, host), host)
  {
    if i > 0 {
      var s, a, h := states[i - 1], actions[i - 1], HistoryOf(states, actions, i - 1, host);
      RunKept(b, isIP, states, actions, i - 1, host);
      LastStep(b, isIP, states, actions, i);
      KeptCached(b, isIP, s, a, h, host);
      var t := Next(b, isIP, s, a);
      if host in t.cache && t.cache[host] < |t.heap| {
        if t.heap[t.cache[host]].entry.errorCount > 0 {
          KeptErrors(b, isIP, s, a, h, host);
        } else if c :| 0 <= c < |t.calls| && t.calls[c] == Counting(host, t.cache[host]) {
          KeptCounting(b, isIP, s, a, h, host, c);
        }
      }
    }
  }

  // ----- the rule, under every interleaving

  /** When a store follows the rule: a call that read no entry finds none when it
      stores; a call that read one finds one, and
      - if it is still the same, an error had been counted on it when the call chose,
        or no lookup of the host has failed since it was stored;
      - if it was replaced meanwhile, an error had been counted on the old entry
        exactly when a lookup has failed since the new one was stored. */
  ghost predicate Undisturbed(states: seq<State>, actions: seq<Action>, i: nat, c: nat, j: nat, seen: Option<nat>)
    requires |states| == |actions| + 1 && j < i < |states|
    requires c < |states[i].calls| && ChoseAt(states, actions, states[i].calls[c], c, j, seen)
  {
    var s, host := states[i], states[i].calls[c].host;
    var failed := FailedSince(HistoryOf(states, actions, i, host), host);
    match seen
    case None => host !in s.cache
    case Some(cell) =>
      && host in s.cache
      && var noticed := ErrorsOn(states, actions, j, cell) > 0;
         if s.cache[host] == cell then noticed || !failed else noticed == failed
  }

  /** In every run, a store gets the TTL the rule gives for the host's history exactly
      in that case (if the three TTLs differ; in that case always). */
  lemma StoreAgainstRule(b: Bounds, isIP: string -> bool, states: seq<State>, actions: seq<Action>, i: nat, c: nat)
    returns (j: nat, seen: Option<nat>)
    requires IsRun(b, isIP, states, actions) && i < |states|
    requires c < |states[i].calls| && states[i].calls[c].Storing?
    ensures j < i && ChoseAt(states, actions, states[i].calls[c], c, j, seen)
    ensures var host := states[i].calls[c].host;
      var rule := RuleTTL(b, HistoryOf(states, actions, i, host), host);
      && (Undisturbed(states, actions, i, c, j, seen) ==> states[i].calls[c].ttl == rule)
      && (b.minTTL < Middle(b) < b.maxTTL && states[i].calls[c].ttl == rule ==> Undisturbed(states, actions, i, c, j, seen))
  {
    j, seen := StoreTTL(b, isIP, states, actions, i, c);
    var s, host := states[i], states[i].calls[c].host;
    RunKept(b, isIP, states, actions, i, host);
    RunInv(b, isIP, states, actions, i);
    if seen.Some? && host in s.cache && s.cache[host] == seen.value {
      assert PointerOk(s, host, Some(s.cache[host]));
      ErrorsGrow(states, actions, j, i, seen.value);
      ErrorsAreCounted(b, isIP, states, actions, i, seen.value);
    }
  }

  // ----- one call per host at a time

  /** The call has read the cache for the host and not returned. */
  predicate Busy(pc: Call, host: string) {
    pc.host == host && (pc.Checking? || pc.LookingUp? || pc.Counting? || pc.Adapting? || pc.Storing?)
  }

  ghost predicate OneBusy(s: State, host: string) {
    forall c, d | 0 <= c < |s.calls| && 0 <= d < |s.calls| && Busy(s.calls[c], host) && Busy(s.calls[d], host) :: c == d
  }

  predicate Removes(s: State, a: Action, host: string) {
    EventsOf(s, a, host) != [] && Ends(EventsOf(s, a, host)[0], host)
  }

  /** Calls for the host do not overlap, and its entry is not removed during one;
      calls for other hosts come and go as they like. */
  ghost predicate Serial(states: seq<State>, actions: seq<Action>, host: string)
    requires |actions| <= |states|
  {
    && (forall i | 0 <= i < |states| :: OneBusy(states[i], host))
    && (forall i, c | 0 <= i < |actions| && Removes(states[i], actions[i], host) && 0 <= c < |states[i].calls| ::
          !Busy(states[i].calls[c], host))
  }

  /** What a busy call holds is what the cache and the history say. */
  predicate CallAgrees(b: Bounds, s: State, h: seq<Event>, host: string, pc: Call) {
    match pc
    case Checking(_, seen) => seen == Pointer(s, host)
    case LookingUp(_, seen) => seen == Pointer(s, host)
    case Adapting(_, seen, _) => seen == Pointer(s, host)
    case Counting(_, cell) => Some(cell) == Pointer(s, host)
    case Storing(_, _, ttl) => ttl == RuleTTL(b, h, host)
    case _ => true
  }

  ghost predicate Agree(b: Bounds, s: State, h: seq<Event>, host: string) {
    && (forall c | 0 <= c < |s.calls| && Busy(s.calls[c], host) :: CallAgrees(b, s, h, host, s.calls[c]))
    && (host in s.cache && s.cache[host] < |s.heap| && FailedSince(h, host) ==>
          s.heap[s.cache[host]].entry.errorCount > 0 || SomeCounting(s, host, s.cache[host]))
  }

  /** A step of another host's call, or of nobody's, leaves the host's entry alone. */
  lemma OthersLeaveEntry(b: Bounds, isIP: string -> bool, s: State, a: Action, host: string)
    requires Inv(b, s) && Enabled(b, s, a) && !Removes(s, a, host)
    requires a.Go? ==> s.calls[a.c].host != host
    ensures Pointer(Next(b, isIP, s, a), host) == Pointer(s, host)
    ensures host in s.cache ==>
              && s.cache[host] < |s.heap|
              && Next(b, isIP, s, a).heap[s.cache[host]] == s.heap[s.cache[host]]
    ensures EventsOf(s, a, host) == []
  {
    if host in s.cache {
      assert PointerOk(s, host, Some(s.cache[host]));
    }
    if a.Go? {
      assert CallOk(b, s, s.calls[a.c]);
    }
  }

  lemma AgreeOthers(b: Bounds, isIP: string -> bool, s: State, a: Action, h: seq<Event>, host: string)
    requires Inv(b, s) && Enabled(b, s, a) && Agree(b, s, h, host) && !Removes(s, a, host)
    requires a.Go? ==> s.calls[a.c].host != host
    ensures Agree(b, Next(b, isIP, s, a), h + EventsOf(s, a, host), host)
  {
    OthersLeaveEntry(b, isIP, s, a, host);
    var t := Next(b, isIP, s, a);
    assert h + EventsOf(s, a, host) == h;
    forall c | 0 <= c < |t.calls| && Busy(t.calls[c], host) ensures CallAgrees(b, t, h, host, t.calls[c]) {
      assert c < |s.calls| && s.calls[c] == t.calls[c];
    }
    if host in s.cache && SomeCounting(s, host, s.cache[host]) {
      var c :| 0 <= c < |s.calls| && s.calls[c] == Counting(host, s.cache[host]);
      assert t.calls[c] == s.calls[c];
    }
  }

  lemma AgreeRemoval(b: Bounds, isIP: string -> bool, s: State, a: Action, h: seq<Event>, host: string)
    requires Inv(b, s) && Enabled(b, s, a) && Removes(s, a, host)
    requires forall c | 0 <= c < |s.calls| :: !Busy(s.calls[c], host)
    ensures Agree(b, Next(b, isIP, s, a), h + EventsOf(s, a, host), host)
  {
    HistoryStep(s, a, h, host);
    assert Next(b, isIP, s, a).calls == s.calls;
  }

  /** The host's own call: nobody else is busy, before and after. */
  lemma AgreeOwn(b: Bounds, isIP: string -> bool, s: State, c: nat, answer: Option<seq<string>>, h: seq<Event>, host: string)
    requires Inv(b, s) && Enabled(b, s, Go(c, answer)) && Agree(b, s, h, host) && Kept(s, h, host)
    requires s.calls[c].host == host && OneBusy(s, host) && OneBusy(Advance(b, isIP, s, c, answer), host)
    ensures Agree(b, Advance(b, isIP, s, c, answer), h + EventsOf(s, Go(c, answer), host), host)
  {
    var t, pc, h' := Advance(b, isIP, s, c, answer), s.calls[c], h + EventsOf(s, Go(c, answer), host);
    HistoryStep(s, Go(c, answer), h, host);
    if host in s.cache {
      assert PointerOk(s, host, Some(s.cache[host]));
    }
    forall d | 0 <= d < |t.calls| && Busy(t.calls[d], host) ensures d == c || !Busy(pc, host) {
      if d != c {
        assert t.calls[d] == s.calls[d];
      }
    }
    AgreeOwnCall(b, isIP, s, c, answer, h, host);
    AgreeOwnErrors(b, isIP, s, c, answer, h, host);
    forall d | 0 <= d < |t.calls| && Busy(t.calls[d], host) ensures CallAgrees(b, t, h', host, t.calls[d]) {
      if d != c {
        assert t.calls[d] == s.calls[d] && CallAgrees(b, s, h, host, s.calls[d]);
        assert !Busy(pc, host);
        assert t.cache == s.cache && t.heap == s.heap && h' == h;
      }
    }
  }

  lemma NobodyElseCounts(s: State, c: nat, host: string)
    requires OneBusy(s, host) && c < |s.calls| && Busy(s.calls[c], host) && !s.calls[c].Counting?
    ensures forall cell :: !SomeCounting(s, host, cell)
  {
    forall d, cell: nat | 0 <= d < |s.calls| ensures s.calls[d] != Counting(host, cell) {
      if d != c {
        assert !Busy(s.calls[d], host);
      }
    }
  }

  lemma AgreeOwnCall(b: Bounds, isIP: string -> bool, s: State, c: nat, answer: Option<seq<string>>, h: seq<Event>, host: string)
    requires Inv(b, s) && Enabled(b, s, Go(c, answer)) && Agree(b, s, h, host) && Kept(s, h, host)
    requires s.calls[c].host == host && OneBusy(s, host)
    ensures var t := Advance(b, isIP, s, c, answer);
      Busy(t.calls[c], host) ==> CallAgrees(b, t, h + EventsOf(s, Go(c, answer), host), host, t.calls[c])
  {
    var pc := s.calls[c];
    HistoryStep(s, Go(c, answer), h, host);
    if Busy(pc, host) {
      assert CallAgrees(b, s, h, host, pc);
    }
    if pc.Adapting? {
      assert h + EventsOf(s, Go(c, answer), host) == h;
      if host in s.cache {
        assert PointerOk(s, host, Some(s.cache[host]));
        NobodyElseCounts(s, c, host);
      }
    }
  }

  lemma AgreeOwnErrors(b: Bounds, isIP: string -> bool, s: State, c: nat, answer: Option<seq<string>>, h: seq<Event>, host: string)
    requires Inv(b, s) && Enabled(b, s, Go(c, answer)) && Agree(b, s, h, host)
    requires s.calls[c].host == host && OneBusy(s, host)
    ensures var t := Advance(b, isIP, s, c, answer);
      host in t.cache && t.cache[host] < |t.heap| && FailedSince(h + EventsOf(s, Go(c, answer), host), host) ==>
        t.heap[t.cache[host]].entry.errorCount > 0 || SomeCounting(t, host, t.cache[host])
  {
    var t, pc := Advance(b, isIP, s, c, answer), s.calls[c];
    HistoryStep(s, Go(c, answer), h, host);
    if Busy(pc, host) {
      assert CallAgrees(b, s, h, host, pc);
    }
    if host in s.cache {
      assert PointerOk(s, host, Some(s.cache[host]));
      if pc.LookingUp? && answer.None? {
        assert t.calls[c] == Counting(host, s.cache[host]);
        assert SomeCounting(t, host, t.cache[host]);
      } else if SomeCounting(s, host, s.cache[host]) {
        var d :| 0 <= d < |s.calls| && s.calls[d] == Counting(host, s.cache[host]);
        assert d != c ==> t.calls[d] == s.calls[d];
      }
    }
  }

  lemma {:induction false} RunAgrees(b: Bounds, isIP: string -> bool, states: seq<State>, actions: seq<Action>, i: nat, host: string)
    requires IsRun(b, isIP, states, actions) && i < |states| && Serial(states, actions, host)
    ensures Agree(b, states[i], HistoryOf(states, actions, i, host), host)
  {
    if i > 0 {
      var s, a, h := states[i - 1], actions[i - 1], HistoryOf(states, actions, i - 1, host);
      RunAgrees(b, isIP, states, actions, i - 1, host);
      RunKept(b, isIP, states, actions, i - 1, host);
      LastStep(b, isIP, states, actions, i);
      if Removes(s, a, host) {
        AgreeRemoval(b, isIP, s, a, h, host);
      } else if a.Go? && s.calls[a.c].host == host {
        assert OneBusy(states[i], host);
        AgreeOwn(b, isIP, s, a.c, a.answer, h, host);
      } else {
        AgreeOthers(b, isIP, s, a, h, host);
      }
    }
  }

  /** The rule holds for every store of a host whose calls do not overlap and whose
      entry is not removed during a call, whatever happens to other hosts. */
  lemma SerialStoresFollowRule(b: Bounds, isIP: string -> bool, states: seq<State>, actions: seq<Action>, i: nat, c: nat)
    requires IsRun(b, isIP, states, actions) && i < |states|
    requires c < |states[i].calls| && states[i].calls[c].Storing? && Serial(states, actions, states[i].calls[c].host)
    ensures states[i].calls[c].ttl == RuleTTL(b, HistoryOf(states, actions, i, states[i].calls[c].host), states[i].calls[c].host)
  {
    var pc := states[i].calls[c];
    RunAgrees(b, isIP, states, actions, i, pc.host);
    assert Busy(pc, pc.host);
  }

  // ----- how many calls may be busy at once

  /** How many of the calls are busy for the host. */
  function BusyIn(calls: seq<Call>, host: string): nat {
    if calls == [] then 0 else (if Busy(calls[0], host) then 1 else 0) + BusyIn(calls[1..], host)
  }

  lemma {:induction false} BusyUpdate(calls: seq<Call>, c: nat, pc: Call, host: string)
    requires c < |calls|
    ensures BusyIn(calls[c := pc], host) + (if Busy(calls[c], host) then 1 else 0)
         == BusyIn(calls, host) + if Busy(pc, host) then 1 else 0
  {
    if c == 0 {
      assert calls[c := pc][1..] == calls[1..];
    } else {
      assert calls[c := pc][1..] == calls[1..][c - 1 := pc];
      BusyUpdate(calls[1..], c - 1, pc, host);
    }
  }

  lemma {:induction false} BusyAppend(calls: seq<Call>, pc: Call, host: string)
    ensures BusyIn(calls + [pc], host) == BusyIn(calls, host) + if Busy(pc, host) then 1 else 0
  {
    if calls == [] {
      assert [] + [pc] == [pc];
    } else {
      assert (calls + [pc])[1..] == calls[1..] + [pc];
      BusyAppend(calls[1..], pc, host);
    }
  }

  lemma {:induction false} BusyOnes(calls: seq<Call>, c: nat, host: string)
    requires c < |calls| && Busy(calls[c], host)
    ensures BusyIn(calls, host) >= 1
  {
    if c > 0 {
      BusyOnes(calls[1..], c - 1, host);
    }
  }

  lemma {:induction false} BusyTwos(calls: seq<Call>, c: nat, d: nat, host: string)
    requires c < d < |calls| && Busy(calls[c], host) && Busy(calls[d], host)
    ensures BusyIn(calls, host) >= 2
  {
    if c > 0 {
      BusyTwos(calls[1..], c - 1, d - 1, host);
    } else {
      BusyOnes(calls[1..], d - 1, host);
    }
  }

  /** At most so many calls for the host overlap; and its entry may be removed while
      one is busy, or may not. */
  ghost predicate Within(states: seq<State>, actions: seq<Action>, host: string, most: nat, removals: bool)
    requires |actions| <= |states|
  {
    && (forall i | 0 <= i < |states| :: BusyIn(states[i].calls, host) <= most)
    && (!removals ==> forall i | 0 <= i < |actions| :: Removes(states[i], actions[i], host) ==> BusyIn(states[i].calls, host) == 0)
  }

  lemma WithinIsSerial(states: seq<State>, actions: seq<Action>, host: string)
    requires |actions| <= |states| && Within(states, actions, host, 1, false)
    ensures Serial(states, actions, host)
  {
    forall i | 0 <= i < |states| ensures OneBusy(states[i], host) {
      var calls := states[i].calls;
      forall c, d | 0 <= c < |calls| && 0 <= d < |calls| && Busy(calls[c], host) && Busy(calls[d], host) ensures c == d {
        if c < d {
          BusyTwos(calls, c, d, host);
        } else if d < c {
          BusyTwos(calls, d, c, host);
        }
      }
    }
    forall i, c | 0 <= i < |actions| && Removes(states[i], actions[i], host) && 0 <= c < |states[i].calls|
      ensures !Busy(states[i].calls[c], host)
    {
      if Busy(states[i].calls[c], host) {
        BusyOnes(states[i].calls, c, host);
      }
    }
  }

  /** Step i of the run is a store of the host, by call c. */
  predicate StoresAt(states: seq<State>, actions: seq<Action>, i: nat, c: nat, host: string) {
    && i < |actions| && i < |states| && actions[i].Go? && actions[i].c == c
    && c < |states[i].calls| && states[i].calls[c].Storing? && states[i].calls[c].host == host
  }

  /** Every store of the host gets the TTL of the rule. */
  ghost predicate FollowsRule(b: Bounds, states: seq<State>, actions: seq<Action>, host: string)
    requires |actions| <= |states|
  {
    forall i: nat, c: nat | StoresAt(states, actions, i, c, host) ::
      states[i].calls[c].ttl == RuleTTL(b, HistoryOf(states, actions, i, host), host)
  }

  /** Every run within these limits follows the rule. */
  ghost predicate RuleHolds(b: Bounds, isIP: string -> bool, host: string, most: nat, removals: bool) {
    forall states: seq<State>, actions: seq<Action> | IsRun(b, isIP, states, actions) && Within(states, actions, host, most, removals) ::
      FollowsRule(b, states, actions, host)
  }

  lemma RuleHoldsSerially(b: Bounds, isIP: string -> bool, host: string)
    ensures RuleHolds(b, isIP, host, 1, false)
  {
    forall states: seq<State>, actions: seq<Action> | IsRun(b, isIP, states, actions) && Within(states, actions, host, 1, false)
      ensures FollowsRule(b, states, actions, host)
    {
      WithinIsSerial(states, actions, host);
      forall i: nat, c: nat | StoresAt(states, actions, i, c, host)
        ensures states[i].calls[c].ttl == RuleTTL(b, HistoryOf(states, actions, i, host), host)
      {
        SerialStoresFollowRule(b, isIP, states, actions, i, c);
      }
    }
  }
}
