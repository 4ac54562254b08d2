/** Runs of concurrent calls of `Resolve` that one call at a time would not allow,
    for every configuration and every hostname, and with them exactly which overlap
    keeps to the rule for TTLs. */
module DnsAnomalies {
  import opened Types
  import opened DnsCache
  import opened DnsRaces
  import opened DnsStores

  /** A configuration, a hostname, and the limits on how calls for it may overlap. */
  datatype Setting = Setting(b: Bounds, isIP: string -> bool, host: string, most: nat, removals: bool)

  /** How many calls for the host are busy. */
  function Overlap(g: Setting, s: State): nat { BusyIn(s.calls, g.host) }

  /** Some run within the limits ends in s, with history h for the host. */
  ghost predicate Reached(g: Setting, s: State, h: seq<Event>) {
    exists states, actions :: EndsIn(g, states, actions, s, h)
  }

  ghost predicate EndsIn(g: Setting, states: seq<State>, actions: seq<Action>, s: State, h: seq<Event>) {
    && IsRun(g.b, g.isIP, states, actions) && Within(states, actions, g.host, g.most, g.removals)
    && states[|actions|] == s && HistoryOf(states, actions, |actions|, g.host) == h
  }

  lemma ReachedInv(g: Setting, s: State, h: seq<Event>)
    requires Reached(g, s, h)
    ensures Inv(g.b, s) && Overlap(g, s) <= g.most
  {
    var states, actions :| EndsIn(g, states, actions, s, h);
    RunInv(g.b, g.isIP, states, actions, |actions|);
  }

  lemma {:induction false} HistoryOfPrefix(states: seq<State>, actions: seq<Action>, s: State, a: Action, i: nat, host: string)
    requires i <= |actions| <= |states|
    ensures HistoryOf(states + [s], actions + [a], i, host) == HistoryOf(states, actions, i, host)
  {
    if i > 0 {
      HistoryOfPrefix(states, actions, s, a, i - 1, host);
    }
  }

  /** A step may be taken within the limits. */
  ghost predicate MayGo(g: Setting, s: State, a: Action) {
    && Enabled(g.b, s, a) && Overlap(g, Next(g.b, g.isIP, s, a)) <= g.most
    && (Removes(s, a, g.host) ==> g.removals || Overlap(g, s) == 0)
  }

  lemma WithinLonger(g: Setting, states: seq<State>, actions: seq<Action>, a: Action, t: State)
    requires |states| == |actions| + 1 && Within(states, actions, g.host, g.most, g.removals)
    requires Overlap(g, t) <= g.most && (Removes(states[|actions|], a, g.host) ==> g.removals || Overlap(g, states[|actions|]) == 0)
    ensures Within(states + [t], actions + [a], g.host, g.most, g.removals)
  {
    var states', actions' := states + [t], actions + [a];
    forall i | 0 <= i < |states'| ensures BusyIn(states'[i].calls, g.host) <= g.most {
      if i < |states| {
        assert states'[i] == states[i];
      }
    }
    forall i | 0 <= i < |actions'| && !g.removals && Removes(states'[i], actions'[i], g.host)
      ensures BusyIn(states'[i].calls, g.host) == 0
    {
      assert states'[i] == states[i];
      if i < |actions| {
        assert actions'[i] == actions[i];
      }
    }
  }

  lemma RunLonger(g: Setting, states: seq<State>, actions: seq<Action>, a: Action)
    requires IsRun(g.b, g.isIP, states, actions) && Enabled(g.b, states[|actions|], a)
    ensures IsRun(g.b, g.isIP, states + [Next(g.b, g.isIP, states[|actions|], a)], actions + [a])
  {
    var states', actions' := states + [Next(g.b, g.isIP, states[|actions|], a)], actions + [a];
    forall i | 0 <= i < |actions'| ensures Enabled(g.b, states'[i], actions'[i]) && states'[i + 1] == Next(g.b, g.isIP, states'[i], actions'[i]) {
      if i < |actions| {
        assert Enabled(g.b, states[i], actions[i]) && states[i + 1] == Next(g.b, g.isIP, states[i], actions[i]);
      }
    }
  }

  /** The run that ends in s, and one step more. */
  lemma OneStepMore(g: Setting, s: State, h: seq<Event>, a: Action) returns (states: seq<State>, actions: seq<Action>)
    requires Reached(g, s, h) && MayGo(g, s, a)
    ensures IsRun(g.b, g.isIP, states, actions) && Within(states, actions, g.host, g.most, g.removals)
    ensures |actions| > 0 && actions[|actions| - 1] == a
    ensures states[|actions| - 1] == s && states[|actions|] == Next(g.b, g.isIP, s, a)
    ensures HistoryOf(states, actions, |actions| - 1, g.host) == h
  {
    var states0, actions0 :| EndsIn(g, states0, actions0, s, h);
    var t := Next(g.b, g.isIP, s, a);
    RunLonger(g, states0, actions0, a);
    WithinLonger(g, states0, actions0, a, t);
    HistoryOfPrefix(states0, actions0, t, a, |actions0|, g.host);
    states, actions := states0 + [t], actions0 + [a];
  }

  lemma Forward(g: Setting, s: State, h: seq<Event>, a: Action)
    requires Reached(g, s, h) && MayGo(g, s, a)
    ensures Reached(g, Next(g.b, g.isIP, s, a), h + EventsOf(s, a, g.host))
  {
    var states, actions := OneStepMore(g, s, h, a);
    assert EndsIn(g, states, actions, Next(g.b, g.isIP, s, a), h + EventsOf(s, a, g.host));
  }

  /** A step that is no event for the host. */
  lemma Quietly(g: Setting, s: State, h: seq<Event>, a: Action, t: State)
    requires Reached(g, s, h) && Enabled(g.b, s, a) && t == Next(g.b, g.isIP, s, a) && EventsOf(s, a, g.host) == []
    requires Overlap(g, t) <= g.most
    ensures Reached(g, t, h)
  {
    Forward(g, s, h, a);
    assert h + [] == h;
  }

  // ----- what a call does next, in larger steps

  lemma PcTwice(s: State, c: nat, pc: Call, pc': Call)
    requires c < |s.calls|
    ensures Pc(Pc(s, c, pc), c, pc') == Pc(s, c, pc')
  {
    assert s.calls[c := pc][c := pc'] == s.calls[c := pc'];
  }

  lemma ToChecking(g: Setting, s: State, h: seq<Event>, c: nat)
    requires Reached(g, s, h) && c < |s.calls| && s.calls[c] == Called(g.host) && !g.isIP(g.host)
    requires Overlap(g, s) < g.most
    ensures Reached(g, Pc(s, c, Checking(g.host, Pointer(s, g.host))), h)
    ensures Overlap(g, Pc(s, c, Checking(g.host, Pointer(s, g.host)))) == Overlap(g, s) + 1
  {
    BusyUpdate(s.calls, c, Reading(g.host), g.host);
    BusyUpdate(s.calls, c, Checking(g.host, Pointer(s, g.host)), g.host);
    var s1 := Pc(s, c, Reading(g.host));
    Quietly(g, s, h, Go(c, None), s1);
    PcTwice(s, c, Reading(g.host), Checking(g.host, Pointer(s, g.host)));
    Quietly(g, s1, h, Go(c, None), Pc(s, c, Checking(g.host, Pointer(s, g.host))));
  }

  /** The call reads the cache, finds no fresh entry and turns to the resolver. */
  lemma ToLookup(g: Setting, s: State, h: seq<Event>, c: nat) returns (t: State)
    requires Reached(g, s, h) && c < |s.calls| && s.calls[c] == Called(g.host) && !g.isIP(g.host)
    requires !IsHit(View(s), g.host, s.now) && Overlap(g, s) < g.most
    ensures t == Pc(s, c, LookingUp(g.host, Pointer(s, g.host))) && Reached(g, t, h)
    ensures Overlap(g, t) == Overlap(g, s) + 1
  {
    BusyUpdate(s.calls, c, LookingUp(g.host, Pointer(s, g.host)), g.host);
    var checking := Checking(g.host, Pointer(s, g.host));
    t := Pc(s, c, LookingUp(g.host, Pointer(s, g.host)));
    ToChecking(g, s, h, c);
    ReachedInv(g, Pc(s, c, checking), h);
    PcTwice(s, c, checking, t.calls[c]);
    Quietly(g, Pc(s, c, checking), h, Go(c, None), t);
  }

  lemma Succeed(g: Setting, s: State, h: seq<Event>, c: nat, ips: seq<string>) returns (t: State)
    requires Reached(g, s, h) && c < |s.calls| && s.calls[c].LookingUp? && s.calls[c].host == g.host
    ensures t == Pc(s, c, Adapting(g.host, s.calls[c].seen, |s.lookups|)).(lookups := s.lookups + [Lookup(g.host, ips, s.now)])
    ensures Reached(g, t, h) && Overlap(g, t) == Overlap(g, s)
  {
    ReachedCall(g, s, h, c);
    BusyUpdate(s.calls, c, Adapting(g.host, s.calls[c].seen, |s.lookups|), g.host);
    t := Pc(s, c, Adapting(g.host, s.calls[c].seen, |s.lookups|)).(lookups := s.lookups + [Lookup(g.host, ips, s.now)]);
    Quietly(g, s, h, Go(c, Some(ips)), t);
  }

  lemma Adapt(g: Setting, s: State, h: seq<Event>, c: nat) returns (t: State)
    requires Reached(g, s, h) && c < |s.calls| && s.calls[c].Adapting? && s.calls[c].host == g.host
    ensures PointerOk(s, g.host, s.calls[c].seen)
    ensures t == Pc(s, c, Storing(g.host, s.calls[c].source, AdaptiveTTL(g.b, Deref(s, s.calls[c].seen))))
    ensures Reached(g, t, h) && Overlap(g, t) == Overlap(g, s)
  {
    ReachedCall(g, s, h, c);
    var storing := Storing(g.host, s.calls[c].source, AdaptiveTTL(g.b, Deref(s, s.calls[c].seen)));
    BusyUpdate(s.calls, c, storing, g.host);
    t := Pc(s, c, storing);
    Quietly(g, s, h, Go(c, None), t);
  }

  /** The lookup succeeds and the call chooses its TTL. */
  lemma Choose(g: Setting, s: State, h: seq<Event>, c: nat, ips: seq<string>) returns (t: State)
    requires Reached(g, s, h) && c < |s.calls| && s.calls[c].LookingUp? && s.calls[c].host == g.host
    ensures PointerOk(s, g.host, s.calls[c].seen)
    ensures t == Pc(s, c, Storing(g.host, |s.lookups|, AdaptiveTTL(g.b, Deref(s, s.calls[c].seen)))).(
                lookups := s.lookups + [Lookup(g.host, ips, s.now)])
    ensures Reached(g, t, h) && Overlap(g, t) == Overlap(g, s)
  {
    var u := Succeed(g, s, h, c, ips);
    t := Adapt(g, u, h, c);
    PcTwice(s, c, u.calls[c], t.calls[c]);
  }

  function AfterStore(s: State, c: nat): State
    requires c < |s.calls| && s.calls[c].Storing? && s.calls[c].source < |s.lookups|
  {
    var host, source, ttl := s.calls[c].host, s.calls[c].source, s.calls[c].ttl;
    var ips := s.lookups[source].ips;
    Pc(s, c, Returned(host, Some(ips), Fresh(source))).(
      heap := s.heap + [Cell(host, Entry(ips, s.now + ttl, ttl, 0), s.now, source)],
      cache := s.cache[host := |s.heap|])
  }

  lemma StoreStep(b: Bounds, isIP: string -> bool, s: State, c: nat)
    requires c < |s.calls| && s.calls[c].Storing? && CallOk(b, s, s.calls[c])
    ensures Advance(b, isIP, s, c, None) == AfterStore(s, c)
    ensures EventsOf(s, Go(c, None), s.calls[c].host) == [Stored(s.calls[c].host)]
  {
  }

  lemma ReachedCall(g: Setting, s: State, h: seq<Event>, c: nat)
    requires Reached(g, s, h) && c < |s.calls|
    ensures CallOk(g.b, s, s.calls[c]) && Overlap(g, s) <= g.most
  {
    ReachedInv(g, s, h);
  }

  lemma MayStore(g: Setting, s: State, h: seq<Event>, c: nat)
    requires Reached(g, s, h) && c < |s.calls| && s.calls[c].Storing? && s.calls[c].host == g.host
    ensures s.calls[c].source < |s.lookups| && MayGo(g, s, Go(c, None))
    ensures Next(g.b, g.isIP, s, Go(c, None)) == AfterStore(s, c) && Overlap(g, AfterStore(s, c)) == Overlap(g, s) - 1
    ensures EventsOf(s, Go(c, None), g.host) == [Stored(g.host)]
  {
    ReachedCall(g, s, h, c);
    StoreStep(g.b, g.isIP, s, c);
    BusyUpdate(s.calls, c, AfterStore(s, c).calls[c], g.host);
  }

  lemma Store(g: Setting, s: State, h: seq<Event>, c: nat) returns (t: State)
    requires Reached(g, s, h) && c < |s.calls| && s.calls[c].Storing? && s.calls[c].host == g.host
    ensures s.calls[c].source < |s.lookups| && t == AfterStore(s, c)
    ensures Reached(g, t, h + [Stored(g.host)]) && Overlap(g, t) == Overlap(g, s) - 1
  {
    MayStore(g, s, h, c);
    Forward(g, s, h, Go(c, None));
    t := AfterStore(s, c);
  }

  lemma Disappoint(g: Setting, s: State, h: seq<Event>, c: nat, cell: nat) returns (t: State)
    requires Reached(g, s, h) && c < |s.calls| && s.calls[c] == LookingUp(g.host, Some(cell))
    ensures t == Pc(s, c, Counting(g.host, cell)) && Overlap(g, t) == Overlap(g, s)
    ensures Reached(g, t, h + [LookupFailed(g.host)])
  {
    ReachedCall(g, s, h, c);
    BusyUpdate(s.calls, c, Counting(g.host, cell), g.host);
    t := Pc(s, c, Counting(g.host, cell));
    assert t == Next(g.b, g.isIP, s, Go(c, None));
    Forward(g, s, h, Go(c, None));
  }

  lemma CountIt(g: Setting, s: State, h: seq<Event>, c: nat, cell: nat) returns (t: State)
    requires Reached(g, s, h) && c < |s.calls| && s.calls[c] == Counting(g.host, cell)
    ensures cell < |s.heap|
    ensures t == Pc(s, c, Returned(g.host, Some(s.heap[cell].entry.ips), Stale(cell, s.now))).(
                heap := s.heap[cell := CountError(s.heap[cell])])
    ensures Reached(g, t, h) && Overlap(g, t) == Overlap(g, s) - 1
  {
    ReachedCall(g, s, h, c);
    var returned := Returned(g.host, Some(s.heap[cell].entry.ips), Stale(cell, s.now));
    BusyUpdate(s.calls, c, returned, g.host);
    t := Pc(s, c, returned).(heap := s.heap[cell := CountError(s.heap[cell])]);
    Quietly(g, s, h, Go(c, None), t);
  }

  /** The lookup fails; the error is counted and the stale entry returned. */
  lemma Fail(g: Setting, s: State, h: seq<Event>, c: nat, cell: nat) returns (t: State)
    requires Reached(g, s, h) && c < |s.calls| && s.calls[c] == LookingUp(g.host, Some(cell))
    ensures cell < |s.heap|
    ensures t == Pc(s, c, Returned(g.host, Some(s.heap[cell].entry.ips), Stale(cell, s.now))).(
                heap := s.heap[cell := CountError(s.heap[cell])])
    ensures Reached(g, t, h + [LookupFailed(g.host)]) && Overlap(g, t) == Overlap(g, s) - 1
  {
    var u := Disappoint(g, s, h, c, cell);
    t := CountIt(g, u, h + [LookupFailed(g.host)], c, cell);
    PcTwice(s, c, u.calls[c], t.calls[c]);
  }

  // ----- an expired entry and three callers

  function OldEntry(b: Bounds, host: string): Cell {
    Cell(host, Entry([], Middle(b), Middle(b), 0), 0, 0)
  }

  /** One call has stored an entry at time 0; it is `now`, and three calls are made. */
  function Expired3(b: Bounds, host: string, now: int): State {
    State(now, map[host := 0], [OldEntry(b, host)], [Lookup(host, [], 0)],
          [Returned(host, Some([]), Fresh(0)), Called(host), Called(host), Called(host)])
  }

  lemma FirstCalled(g: Setting)
    ensures Reached(g, State(0, map[], [], [], [Called(g.host)]), [])
    ensures Overlap(g, State(0, map[], [], [], [Called(g.host)])) == 0
  {
    var s0 := State(0, map[], [], [], []);
    assert EndsIn(g, [s0], [], s0, []);
    OneMoreCall(g, s0, []);
    assert s0.calls + [Called(g.host)] == [Called(g.host)];
  }

  /** A call has chosen the middle TTL for the first answer. */
  lemma FirstStoring(g: Setting) returns (t: State)
    requires !g.isIP(g.host) && g.most >= 1
    ensures t == State(0, map[], [], [Lookup(g.host, [], 0)], [Storing(g.host, 0, Middle(g.b))])
    ensures Reached(g, t, []) && Overlap(g, t) == 1
  {
    FirstCalled(g);
    var s1 := State(0, map[], [], [], [Called(g.host)]);
    var s2 := ToLookup(g, s1, [], 0);
    t := Choose(g, s2, [], 0, []);
    assert t.calls == [Storing(g.host, 0, Middle(g.b))];
    assert t.lookups == [Lookup(g.host, [], 0)];
  }

  lemma FirstCall(g: Setting) returns (t: State)
    requires !g.isIP(g.host) && g.most >= 1
    ensures t == State(0, map[g.host := 0], [OldEntry(g.b, g.host)], [Lookup(g.host, [], 0)], [Returned(g.host, Some([]), Fresh(0))])
    ensures Reached(g, t, [Stored(g.host)]) && Overlap(g, t) == 0
  {
    var s := FirstStoring(g);
    t := Store(g, s, [], 0);
    assert [] + [Stored(g.host)] == [Stored(g.host)];
    assert t.heap == [OldEntry(g.b, g.host)];
    assert t.calls == [Returned(g.host, Some([]), Fresh(0))];
  }

  lemma OneMoreCall(g: Setting, s: State, h: seq<Event>)
    requires Reached(g, s, h)
    ensures Reached(g, s.(calls := s.calls + [Called(g.host)]), h)
    ensures Overlap(g, s.(calls := s.calls + [Called(g.host)])) == Overlap(g, s)
  {
    ReachedInv(g, s, h);
    BusyAppend(s.calls, Called(g.host), g.host);
    Quietly(g, s, h, NewCall(g.host), s.(calls := s.calls + [Called(g.host)]));
  }

  lemma Wait(g: Setting, s: State, h: seq<Event>, now: int)
    requires Reached(g, s, h) && s.now <= now
    ensures Reached(g, s.(now := now), h)
  {
    ReachedInv(g, s, h);
    Quietly(g, s, h, Tick(now), s.(now := now));
  }

  lemma ReachExpired(g: Setting, now: int)
    requires !g.isIP(g.host) && g.most >= 1 && now >= 0
    ensures Reached(g, Expired3(g.b, g.host, now).(calls := [Returned(g.host, Some([]), Fresh(0))]), [Stored(g.host)])
    ensures Overlap(g, Expired3(g.b, g.host, now).(calls := [Returned(g.host, Some([]), Fresh(0))])) == 0
  {
    var s := FirstCall(g);
    Wait(g, s, [Stored(g.host)], now);
    assert s.(now := now) == Expired3(g.b, g.host, now).(calls := [Returned(g.host, Some([]), Fresh(0))]);
  }

  lemma ReachExpired3(g: Setting, now: int)
    requires !g.isIP(g.host) && g.most >= 1 && now >= 0
    ensures Reached(g, Expired3(g.b, g.host, now), [Stored(g.host)]) && Overlap(g, Expired3(g.b, g.host, now)) == 0
  {
    var t, h, called, returned := Expired3(g.b, g.host, now), [Stored(g.host)], Called(g.host), Returned(g.host, Some([]), Fresh(0));
    ReachExpired(g, now);
    OneMoreCall(g, t.(calls := [returned]), h);
    assert [returned] + [called] == [returned, called];
    OneMoreCall(g, t.(calls := [returned, called]), h);
    assert [returned, called] + [called] == [returned, called, called];
    OneMoreCall(g, t.(calls := [returned, called, called]), h);
    assert [returned, called, called] + [called] == t.calls;
  }

  function Later(x: int, y: int): int { if x < y then y else x }

  lemma HistoryFacts(host: string)
    ensures FailedSince([Stored(host), LookupFailed(host)], host) && Present([Stored(host), LookupFailed(host)], host)
    ensures FailedSince([Stored(host), Stored(host), LookupFailed(host)], host)
         && Present([Stored(host), Stored(host), LookupFailed(host)], host)
  {
    AppendEvent([], Stored(host));
    AppendEvent([Stored(host)], LookupFailed(host));
    AppendEvent([Stored(host)], Stored(host));
    AppendEvent([Stored(host), Stored(host)], LookupFailed(host));
    assert [] + [Stored(host)] == [Stored(host)];
    assert [Stored(host)] + [LookupFailed(host)] == [Stored(host), LookupFailed(host)];
    assert [Stored(host)] + [Stored(host)] == [Stored(host), Stored(host)];
    assert [Stored(host), Stored(host)] + [LookupFailed(host)] == [Stored(host), Stored(host), LookupFailed(host)];
  }

  // ----- the runs

  /** A failure can be forgotten although the entry was never replaced or removed.
      Call 1 reads the entry, its lookup succeeds and it chooses the maximum; call 2
      fails its lookup and counts the error on the same entry, which is still cached;
      call 1 stores with the maximum, where the rule says the minimum. */
  lemma NoticedButForgotten(g: Setting) returns (s: State, h: seq<Event>)
    requires !g.isIP(g.host) && g.most >= 2
    ensures Reached(g, s, h) && h == [Stored(g.host), LookupFailed(g.host)]
    ensures g.host in s.cache && s.cache[g.host] < |s.heap| && s.heap[s.cache[g.host]].entry.errorCount == 1
    ensures |s.calls| > 1 && s.calls[1].Storing? && s.calls[1].host == g.host
    ensures s.calls[1].ttl == g.b.maxTTL && RuleTTL(g.b, h, g.host) == g.b.minTTL
  {
    var now := Later(0, Middle(g.b));
    ReachExpired3(g, now);
    var s0, h0 := Expired3(g.b, g.host, now), [Stored(g.host)];
    var s1 := ToLookup(g, s0, h0, 1);
    var s2 := Choose(g, s1, h0, 1, []);
    var s3 := ToLookup(g, s2, h0, 2);
    s := Fail(g, s3, h0, 2, 0);
    h := [Stored(g.host), LookupFailed(g.host)];
    assert h0 + [LookupFailed(g.host)] == h;
    HistoryFacts(g.host);
  }

  /** All three calls have read the entry. */
  function AllLooking(b: Bounds, host: string, now: int): State {
    var looking := LookingUp(host, Some(0));
    Expired3(b, host, now).(calls := [Returned(host, Some([]), Fresh(0)), looking, looking, looking])
  }

  lemma ReachAllLooking(g: Setting, now: int)
    requires !g.isIP(g.host) && g.most >= 3 && now >= 0 && now >= Middle(g.b)
    ensures Reached(g, AllLooking(g.b, g.host, now), [Stored(g.host)])
    ensures Overlap(g, AllLooking(g.b, g.host, now)) == 3
  {
    ReachExpired3(g, now);
    var t, h, called, looking := Expired3(g.b, g.host, now), [Stored(g.host)], Called(g.host), LookingUp(g.host, Some(0));
    var s1 := ToLookup(g, t, h, 1);
    assert s1 == t.(calls := [t.calls[0], looking, called, called]);
    var s2 := ToLookup(g, s1, h, 2);
    assert s2 == t.(calls := [t.calls[0], looking, looking, called]);
    var s3 := ToLookup(g, s2, h, 3);
    assert s3 == AllLooking(g.b, g.host, now);
  }

  /** Call 3 has replaced the entry. */
  function Replaced(b: Bounds, host: string, now: int): State {
    var looking := LookingUp(host, Some(0));
    State(now, map[host := 1], [OldEntry(b, host), Cell(host, Entry([], now + b.maxTTL, b.maxTTL, 0), now, 1)],
          [Lookup(host, [], 0), Lookup(host, [], now)],
          [Returned(host, Some([]), Fresh(0)), looking, looking, Returned(host, Some([]), Fresh(1))])
  }

  /** Call 3 has had an answer and chosen the maximum. */
  function Choosing(b: Bounds, host: string, now: int): State {
    var looking := LookingUp(host, Some(0));
    State(now, map[host := 0], [OldEntry(b, host)], [Lookup(host, [], 0), Lookup(host, [], now)],
          [Returned(host, Some([]), Fresh(0)), looking, looking, Storing(host, 1, b.maxTTL)])
  }

  lemma ReachChoosing(g: Setting, now: int)
    requires !g.isIP(g.host) && g.most >= 3 && now >= 0 && now >= Middle(g.b)
    ensures Reached(g, Choosing(g.b, g.host, now), [Stored(g.host)])
    ensures Overlap(g, Choosing(g.b, g.host, now)) == 3
  {
    ReachAllLooking(g, now);
    var s := Choose(g, AllLooking(g.b, g.host, now), [Stored(g.host)], 3, []);
    assert s.calls == Choosing(g.b, g.host, now).calls;
    assert s.lookups == Choosing(g.b, g.host, now).lookups;
  }

  lemma StoreReplaces(b: Bounds, host: string, now: int)
    ensures AfterStore(Choosing(b, host, now), 3) == Replaced(b, host, now)
  {
    var s, t := AfterStore(Choosing(b, host, now), 3), Replaced(b, host, now);
    assert s.cache == t.cache;
    assert s.calls == t.calls;
    assert s.heap == t.heap;
  }

  lemma ReachReplaced(g: Setting, now: int)
    requires !g.isIP(g.host) && g.most >= 3 && now >= 0 && now >= Middle(g.b)
    ensures Reached(g, Replaced(g.b, g.host, now), [Stored(g.host), Stored(g.host)])
    ensures Overlap(g, Replaced(g.b, g.host, now)) == 2
  {
    ReachChoosing(g, now);
    var s := Store(g, Choosing(g.b, g.host, now), [Stored(g.host)], 3);
    assert [Stored(g.host)] + [Stored(g.host)] == [Stored(g.host), Stored(g.host)];
    StoreReplaces(g.b, g.host, now);
  }

  /** Call 1 has failed its lookup and counted the error on the detached entry. */
  function Detached(b: Bounds, host: string, now: int): State {
    var s := Replaced(b, host, now);
    Pc(s, 1, Returned(host, Some([]), Stale(0, now))).(heap := s.heap[0 := CountError(s.heap[0])])
  }

  lemma ReachDetached(g: Setting, now: int)
    requires !g.isIP(g.host) && g.most >= 3 && now >= 0 && now >= Middle(g.b)
    ensures Reached(g, Detached(g.b, g.host, now), [Stored(g.host), Stored(g.host), LookupFailed(g.host)])
    ensures Overlap(g, Detached(g.b, g.host, now)) == 1
  {
    ReachReplaced(g, now);
    var s := Fail(g, Replaced(g.b, g.host, now), [Stored(g.host), Stored(g.host)], 1, 0);
    assert [Stored(g.host), Stored(g.host)] + [LookupFailed(g.host)] == [Stored(g.host), Stored(g.host), LookupFailed(g.host)];
  }

  /** A failure need not be forgotten although the entry was replaced and the cache
      takes no notice: call 2, which read the detached entry too, sees the error there
      and stores with the minimum, as the rule says. */
  lemma UnnoticedButRemembered(g: Setting)
    returns (now: int, s: State, h: seq<Event>)
    requires !g.isIP(g.host) && g.most >= 3
    ensures Reached(g, s, h) && h == [Stored(g.host), Stored(g.host), LookupFailed(g.host)]
    ensures View(Detached(g.b, g.host, now)) == View(Replaced(g.b, g.host, now)) == View(s)
    ensures g.host in s.cache && s.cache[g.host] == 1
    ensures |s.calls| > 2 && s.calls[2].Storing? && s.calls[2].host == g.host
    ensures s.calls[2].ttl == g.b.minTTL == RuleTTL(g.b, h, g.host)
  {
    now, h := Later(0, Middle(g.b)), [Stored(g.host), Stored(g.host), LookupFailed(g.host)];
    ReachDetached(g, now);
    s := Choose(g, Detached(g.b, g.host, now), h, 2, []);
    HistoryFacts(g.host);
  }

  /** And it can be forgotten because the entry was replaced: a call that reads the
      new entry, once that has expired, chooses the maximum, where the rule says the
      minimum. */
  lemma UnnoticedAndForgotten(g: Setting) returns (s: State, h: seq<Event>)
    requires !g.isIP(g.host) && g.most >= 3
    ensures Reached(g, s, h) && h == [Stored(g.host), Stored(g.host), LookupFailed(g.host)]
    ensures |s.calls| > 4 && s.calls[4].Storing? && s.calls[4].host == g.host
    ensures s.calls[4].ttl == g.b.maxTTL && RuleTTL(g.b, h, g.host) == g.b.minTTL
  {
    var now := Later(0, Middle(g.b));
    h := [Stored(g.host), Stored(g.host), LookupFailed(g.host)];
    ReachDetached(g, now);
    var after := Detached(g.b, g.host, now);
    var s1 := after.(now := Later(after.now, after.heap[1].entry.expiresAt));
    Wait(g, after, h, s1.now);
    OneMoreCall(g, s1, h);
    var s2 := s1.(calls := s1.calls + [Called(g.host)]);
    var s3 := ToLookup(g, s2, h, 4);
    s := Choose(g, s3, h, 4, []);
    HistoryFacts(g.host);
  }

  /** The stale answer given when a lookup fails can be older than any age. */
  lemma StaleHasNoAgeLimit(g: Setting, age: int) returns (s: State, h: seq<Event>)
    requires !g.isIP(g.host) && g.most >= 1
    ensures Reached(g, s, h)
    ensures |s.calls| > 1 && s.calls[1].Returned? && s.calls[1].answer.Some? && s.calls[1].how.Stale?
    ensures var how := s.calls[1].how;
      how.cell < |s.heap| && how.at - s.heap[how.cell].storedAt > age
  {
    var now := Later(Later(0, Middle(g.b)), age + 1);
    ReachExpired3(g, now);
    var s1 := ToLookup(g, Expired3(g.b, g.host, now), [Stored(g.host)], 1);
    s := Fail(g, s1, [Stored(g.host)], 1, 0);
    h := [Stored(g.host)] + [LookupFailed(g.host)];
  }

  lemma Remove(g: Setting, s: State, h: seq<Event>)
    requires Reached(g, s, h) && g.removals
    ensures Reached(g, s.(cache := s.cache - {g.host}), h + [Removed(g.host)])
  {
    ReachedInv(g, s, h);
    Forward(g, s, h, Invalidate(g.host));
  }

  /** One call at a time is not enough: the entry is removed after call 1 has read it,
      and call 1 stores with the maximum, where the rule says the middle. */
  lemma RemovedMeanwhile(g: Setting) returns (s: State, h: seq<Event>)
    requires !g.isIP(g.host) && g.most >= 1 && g.removals
    ensures Reached(g, s, h) && h == [Stored(g.host), Removed(g.host)] && Overlap(g, s) == 1
    ensures |s.calls| > 1 && s.calls[1].Storing? && s.calls[1].host == g.host
    ensures s.calls[1].ttl == g.b.maxTTL && RuleTTL(g.b, h, g.host) == Middle(g.b)
  {
    var now := Later(0, Middle(g.b));
    var s0 := Expired3(g.b, g.host, now).(calls := [Returned(g.host, Some([]), Fresh(0))]);
    ReachExpired(g, now);
    OneMoreCall(g, s0, [Stored(g.host)]);
    var s1 := s0.(calls := s0.calls + [Called(g.host)]);
    var s2 := ToLookup(g, s1, [Stored(g.host)], 1);
    Remove(g, s2, [Stored(g.host)]);
    var s3 := s2.(cache := s2.cache - {g.host});
    h := [Stored(g.host)] + [Removed(g.host)];
    s := Choose(g, s3, h, 1, []);
    AppendEvent([Stored(g.host)], Removed(g.host));
  }

  // ----- exactly when the rule holds

  /** A run about to store with another TTL than the rule's goes on to do so. */
  lemma StoreBreaksRule(g: Setting, s: State, h: seq<Event>, c: nat)
    requires Reached(g, s, h) && c < |s.calls| && s.calls[c].Storing? && s.calls[c].host == g.host
    requires s.calls[c].ttl != RuleTTL(g.b, h, g.host)
    ensures !RuleHolds(g.b, g.isIP, g.host, g.most, g.removals)
  {
    MayStore(g, s, h, c);
    var states, actions := OneStepMore(g, s, h, Go(c, None));
    assert StoresAt(states, actions, |actions| - 1, c, g.host);
    assert !FollowsRule(g.b, states, actions, g.host);
  }

  /** For three different TTLs and a hostname that is no address: if at most `most`
      calls for the host overlap, and its entry may or may not be removed during one,
      then every store in every such run follows the rule if and only if calls do not
      overlap and nothing is removed during one. */
  lemma RuleHoldsExactly(b: Bounds, isIP: string -> bool, host: string, most: nat, removals: bool)
    requires b.minTTL < Middle(b) < b.maxTTL && !isIP(host) && most >= 1
    ensures RuleHolds(b, isIP, host, most, removals) <==> most == 1 && !removals
  {
    var g := Setting(b, isIP, host, most, removals);
    if removals {
      var s, h := RemovedMeanwhile(g);
      StoreBreaksRule(g, s, h, 1);
    } else if most >= 2 {
      var s, h := NoticedButForgotten(g);
      StoreBreaksRule(g, s, h, 1);
    } else {
      RuleHoldsSerially(b, isIP, host);
    }
  }
}
