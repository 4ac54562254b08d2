/** The DNS cache with adaptive TTL: the object, run by one goroutine at a time,
    against the history of what happened to each hostname. */
module DnsCache {
  import opened Types

  /** A `DNSCacheEntry`. Times and TTLs are integers on one clock. */
  datatype Entry = Entry(ips: seq<string>, expiresAt: int, ttl: int, errorCount: nat)

  /** The configured bounds of the TTL. */
  datatype Bounds = Bounds(minTTL: int, maxTTL: int)

  /** Go's integer division by two, which rounds toward zero. */
  function Half(x: int): int {
    if x >= 0 then x / 2 else -(-x / 2)
  }

  function Middle(b: Bounds): int { Half(b.minTTL + b.maxTTL) }

  lemma MiddleWithin(b: Bounds)
    requires b.minTTL <= b.maxTTL
    ensures b.minTTL <= Middle(b) <= b.maxTTL
  {
  }

  /** The middle is equally far from both bounds, up to one, and rounded toward zero. */
  lemma MiddleIsHalfway(b: Bounds)
    ensures var off := (Middle(b) - b.minTTL) - (b.maxTTL - Middle(b));
      && -1 <= off <= 1
      && (b.minTTL + b.maxTTL >= 0 ==> off <= 0) && (b.minTTL + b.maxTTL <= 0 ==> off >= 0)
  {
  }

  predicate IsTTL(b: Bounds, ttl: int) {
    ttl == b.minTTL || ttl == Middle(b) || ttl == b.maxTTL
  }

  /** `calculateAdaptiveTTL`. */
  function AdaptiveTTL(b: Bounds, seen: Option<Entry>): (ttl: int)
    ensures IsTTL(b, ttl)
  {
    match seen
    case None => Middle(b)
    case Some(entry) => if entry.errorCount > 0 then b.minTTL else b.maxTTL
  }

  /** An entry is served without a lookup strictly before its expiry. */
  predicate IsHit(cache: map<string, Entry>, host: string, now: int) {
    host in cache && now < cache[host].expiresAt
  }

  /** What `Resolve` answers from a cache: the address itself, the entry while it is
      fresh, what the lookup brings, or the stale entry when the lookup fails. */
  function AnswerOf(cache: map<string, Entry>, host: string, isIP: bool, lookup: Option<seq<string>>, now: int): Option<seq<string>> {
    if isIP then Some([host])
    else if IsHit(cache, host, now) then Some(cache[host].ips)
    else if lookup.Some? then lookup
    else if host in cache then Some(cache[host].ips)
    else None
  }

  /** The cache `Resolve` leaves, when a new entry is written at `stored`. */
  function CacheAfter(b: Bounds, cache: map<string, Entry>, host: string, isIP: bool, lookup: Option<seq<string>>, now: int, stored: int)
    : map<string, Entry>
  {
    var seen := if host in cache then Some(cache[host]) else None;
    if isIP || IsHit(cache, host, now) then cache
    else if lookup.Some? then
      var ttl := AdaptiveTTL(b, seen);
      cache[host := Entry(lookup.value, stored + ttl, ttl, 0)]
    else if seen.Some? then cache[host := seen.value.(errorCount := seen.value.errorCount + 1)]
    else cache
  }

  /** The first store of a host, in the bounds' own terms: its TTL is equally far from
      both, up to one, rounded toward zero; so for ordered non-negative bounds it is
      hit before half their sum has passed, and not afterwards. */
  lemma FirstStore(b: Bounds, cache: map<string, Entry>, host: string, ips: seq<string>, now: int, stored: int, u: int)
    requires host !in cache
    ensures var after := CacheAfter(b, cache, host, false, Some(ips), now, stored);
      && after.Keys == cache.Keys + {host} && (forall other | other in cache :: after[other] == cache[other])
      && after[host].ips == ips && after[host].errorCount == 0 && after[host].expiresAt == stored + after[host].ttl
      && (0 <= b.minTTL <= b.maxTTL ==> (IsHit(after, host, u) <==> u - stored < (b.minTTL + b.maxTTL) / 2))
    ensures var ttl := CacheAfter(b, cache, host, false, Some(ips), now, stored)[host].ttl;
      var off := (ttl - b.minTTL) - (b.maxTTL - ttl);
      && -1 <= off <= 1
      && (b.minTTL + b.maxTTL >= 0 ==> off <= 0) && (b.minTTL + b.maxTTL <= 0 ==> off >= 0)
  {
    MiddleIsHalfway(b);
  }

  /** An entry outlives a cleanup exactly if its expiry has not passed, whatever else
      it holds, and then unchanged. */
  lemma SurvivesByExpiry(cache: map<string, Entry>, now: int, host: string)
    ensures host in Survivors(cache, {}, now) <==> host in cache && now <= cache[host].expiresAt
    ensures host in Survivors(cache, {}, now) ==> Survivors(cache, {}, now)[host] == cache[host]
  {
  }

  /** Cleanup takes entries strictly past their expiry. */
  predicate IsExpired(entry: Entry, now: int) {
    now > entry.expiresAt
  }

  /** What is left of a cache when cleanup has still to look at `todo`. */
  function Survivors(cache: map<string, Entry>, todo: set<string>, now: int): map<string, Entry> {
    map host | host in cache && (host in todo || !IsExpired(cache[host], now)) :: cache[host]
  }

  lemma SurvivorsStep(cache: map<string, Entry>, todo: set<string>, host: string, now: int)
    requires host in todo && host in cache
    ensures Survivors(cache, todo - {host}, now)
         == if IsExpired(cache[host], now) then Survivors(cache, todo, now) - {host} else Survivors(cache, todo, now)
  {
  }

  lemma SurvivorsHit(cache: map<string, Entry>, now: int, host: string, at: int)
    requires now <= at
    ensures IsHit(Survivors(cache, {}, now), host, at) == IsHit(cache, host, at)
  {
  }

  /** The cleanup at `now` takes the host's entry. */
  predicate Cleaned(cache: map<string, Entry>, now: int, host: string) {
    host in cache && IsExpired(cache[host], now)
  }

  /** A later call answers alike with and without a cleanup before it, except for a
      host whose entry was taken and whose lookup fails: it gets no stale answer. */
  lemma CleanupAndAnswers(cache: map<string, Entry>, now: int, host: string, isIP: bool, lookup: Option<seq<string>>, t: int)
    requires now <= t
    ensures AnswerOf(Survivors(cache, {}, now), host, isIP, lookup, t) == AnswerOf(cache, host, isIP, lookup, t)
        <==> isIP || lookup.Some? || !Cleaned(cache, now, host)
  {
  }

  /** The entry that a lookup answering with ips at `t` writes at `stored`. */
  function NewEntry(b: Bounds, cache: map<string, Entry>, host: string, ips: seq<string>, t: int, stored: int): Entry
    requires !IsHit(cache, host, t)
  {
    CacheAfter(b, cache, host, false, Some(ips), t, stored)[host]
  }

  /** The next store of a host whose entry was taken gets the middle TTL, where it
      would have got the minimum or the maximum; hits are lost exactly between the
      two expiries. */
  lemma CleanupAndStores(b: Bounds, cache: map<string, Entry>, now: int, host: string, ips: seq<string>, t: int, stored: int, u: int)
    requires now <= t && !IsHit(cache, host, t)
    ensures !IsHit(Survivors(cache, {}, now), host, t)
    ensures var kept, cleaned := NewEntry(b, cache, host, ips, t, stored), NewEntry(b, Survivors(cache, {}, now), host, ips, t, stored);
      && (cleaned == kept <==> !Cleaned(cache, now, host) || kept.ttl == Middle(b))
      && (Cleaned(cache, now, host) ==>
            cleaned.ttl == Middle(b) && kept.ttl == if cache[host].errorCount > 0 then b.minTTL else b.maxTTL)
      && (u < kept.expiresAt && !(u < cleaned.expiresAt) <==> stored + cleaned.ttl <= u < stored + kept.ttl)
  {
    SurvivorsHit(cache, now, host, t);
  }

  /** With bounds 2 and 10, an entry that expired at 6 and a lookup answered at 7: the
      new entry lasts until 17, and after a cleanup at 7 until 13, so that a hit at 15
      is lost. */
  lemma CleanupCostsAHit(host: string, ips: seq<string>)
    ensures var b, cache := Bounds(2, 10), map[host := Entry([], 6, 6, 0)];
      && IsHit(CacheAfter(b, cache, host, false, Some(ips), 7, 7), host, 15)
      && !IsHit(CacheAfter(b, Survivors(cache, {}, 7), host, false, Some(ips), 7, 7), host, 15)
  {
    var b, cache := Bounds(2, 10), map[host := Entry([], 6, 6, 0)];
    CleanupAndStores(b, cache, 7, host, ips, 7, 7, 15);
  }

  // ----- the history of a hostname

  datatype Event = Stored(host: string) | LookupFailed(host: string) | Removed(host: string) | Cleared

  predicate Ends(e: Event, host: string) { e.Cleared? || (e.Removed? && e.host == host) }

  /** Stored since the start or since its last removal. */
  function Present(history: seq<Event>, host: string): bool {
    if history == [] then false
    else
      var e := history[|history| - 1];
      if Ends(e, host) then false
      else e == Stored(host) || Present(history[..|history| - 1], host)
  }

  /** A lookup failed since the last store (or removal). */
  function FailedSince(history: seq<Event>, host: string): bool {
    if history == [] then false
    else
      var e := history[|history| - 1];
      if Ends(e, host) || e == Stored(host) then false
      else e == LookupFailed(host) || FailedSince(history[..|history| - 1], host)
  }

  /** The TTL a store deserves, from the history alone: middle for a hostname not
      present, minimum after a failure since its previous store, else maximum. */
  function RuleTTL(b: Bounds, history: seq<Event>, host: string): int {
    if !Present(history, host) then Middle(b)
    else if FailedSince(history, host) then b.minTTL
    else b.maxTTL
  }

  lemma AppendEvent(history: seq<Event>, e: Event)
    ensures forall host :: Present(history + [e], host)
                        == (!Ends(e, host) && (e == Stored(host) || Present(history, host)))
    ensures forall host :: FailedSince(history + [e], host)
                        == (!Ends(e, host) && e != Stored(host) && (e == LookupFailed(host) || FailedSince(history, host)))
  {
    assert (history + [e])[..|history|] == history;
  }

  class DNSCache {
    const bounds: Bounds
    var cache: map<string, Entry>
    ghost var history: seq<Event>

    /** The cache is what the history says it is. */
    ghost predicate Valid()
      reads this
    {
      && (forall host :: host in cache <==> Present(history, host))
      && (forall host | host in cache :: cache[host].errorCount > 0 <==> FailedSince(history, host))
      && (forall host | host in cache :: IsTTL(bounds, cache[host].ttl))
    }

    /** Zero means the default of 5 or 60 minutes, in nanoseconds. */
    constructor (minTTL: int, maxTTL: int)
      ensures Valid() && cache == map[] && history == []
      ensures bounds == Bounds(if minTTL == 0 then 300_000_000_000 else minTTL,
                               if maxTTL == 0 then 3_600_000_000_000 else maxTTL)
    {
      bounds := Bounds(if minTTL == 0 then 300_000_000_000 else minTTL,
                       if maxTTL == 0 then 3_600_000_000_000 else maxTTL);
      cache := map[];
      history := [];
    }

    ghost method Record(e: Event)
      modifies this`history
      ensures history == old(history) + [e]
      ensures forall host :: Present(history, host) == (!Ends(e, host) && (e == Stored(host) || Present(old(history), host)))
      ensures forall host :: FailedSince(history, host)
                          == (!Ends(e, host) && e != Stored(host) && (e == LookupFailed(host) || FailedSince(old(history), host)))
    {
      AppendEvent(history, e);
      history := history + [e];
    }

    /** A failed lookup of a cached host, under the lock. */
    method CountError(host: string)
      requires Valid() && host in cache
      modifies this
      ensures Valid() && history == old(history) + [LookupFailed(host)]
      ensures cache == old(cache)[host := old(cache)[host].(errorCount := old(cache)[host].errorCount + 1)]
    {
      cache := cache[host := cache[host].(errorCount := cache[host].errorCount + 1)];
      Record(LookupFailed(host));
    }

    /** A successful lookup enters the cache, under the lock. */
    method Store(host: string, ips: seq<string>, ttl: int, stored: int)
      requires Valid() && IsTTL(bounds, ttl)
      modifies this
      ensures Valid() && history == old(history) + [Stored(host)]
      ensures cache == old(cache)[host := Entry(ips, stored + ttl, ttl, 0)]
    {
      cache := cache[host := Entry(ips, stored + ttl, ttl, 0)];
      Record(Stored(host));
    }

    /** `Resolve`. `isIP` is `net.ParseIP(hostname) != nil`, `lookup` what the
        resolver would answer, `now` the clock at the cache check and `stored` the
        clock when the new entry is written. */
    method Resolve(host: string, isIP: bool, lookup: Option<seq<string>>, now: int, stored: int)
      returns (r: Option<seq<string>>)
      requires Valid() && now <= stored
      modifies this
      ensures Valid()
      ensures r == AnswerOf(old(cache), host, isIP, lookup, now)
      ensures r.None? <==> !isIP && host !in old(cache) && lookup.None?
      ensures cache == CacheAfter(bounds, old(cache), host, isIP, lookup, now, stored)
      ensures isIP ==> r == Some([host]) && cache == old(cache)
      ensures !isIP && host in old(cache) && now < old(cache)[host].expiresAt ==>
                r == Some(old(cache)[host].ips) && cache == old(cache)
      ensures !isIP && !(host in old(cache) && now < old(cache)[host].expiresAt) && lookup.Some? ==>
                && r == lookup && host in cache && cache[host].ips == lookup.value && cache[host].errorCount == 0
                && cache[host].expiresAt == stored + cache[host].ttl && cache - {host} == old(cache) - {host}
      ensures !isIP && host in old(cache) && now >= old(cache)[host].expiresAt && lookup.None? ==>
                && r == Some(old(cache)[host].ips)
                && cache == old(cache)[host := old(cache)[host].(errorCount := old(cache)[host].errorCount + 1)]
      ensures !isIP && host !in old(cache) && lookup.None? ==> r.None? && cache == old(cache)
      ensures history == if isIP || IsHit(old(cache), host, now) then old(history)
                         else old(history) + [if lookup.Some? then Stored(host) else LookupFailed(host)]
      ensures !isIP && !IsHit(old(cache), host, now) && lookup.Some? ==>
                cache[host].ttl == RuleTTL(bounds, old(history), host)
    {
      if isIP {
        return Some([host]);
      }
      var seen := if host in cache then Some(cache[host]) else None;
      if seen.Some? && now < seen.value.expiresAt {
        return Some(seen.value.ips);
      }
      if lookup.None? {
        if seen.Some? {
          CountError(host);
          return Some(seen.value.ips);
        }
        Record(LookupFailed(host));
        return None;
      }
      var ttl := AdaptiveTTL(bounds, seen);
      Store(host, lookup.value, ttl, stored);
      return lookup;
    }

    /** Go's `delete` from the cache map. */
    method Delete(host: string)
      requires Valid()
      modifies this
      ensures Valid() && cache == old(cache) - {host} && history == old(history) + [Removed(host)]
      ensures |cache| == |old(cache)| - if host in old(cache) then 1 else 0
    {
      ghost var before := cache;
      cache := cache - {host};
      assert cache.Keys == before.Keys - {host};
      Record(Removed(host));
    }

    method Invalidate(host: string)
      requires Valid()
      modifies this
      ensures Valid() && cache == old(cache) - {host} && history == old(history) + [Removed(host)]
    {
      Delete(host);
    }

    method Clear()
      requires Valid()
      modifies this
      ensures Valid() && cache == map[] && history == old(history) + [Cleared]
    {
      cache := map[];
      Record(Cleared);
    }

    /** Removes exactly the entries past their expiry and counts them; no hit on an
        entry cached now is lost, now or later. */
    method CleanupExpired(now: int) returns (removed: nat)
      requires Valid()
      modifies this
      ensures Valid()
      ensures cache == Survivors(old(cache), {}, now)
      ensures removed == |old(cache)| - |cache|
      ensures forall host, t | t >= now :: IsHit(cache, host, t) == IsHit(old(cache), host, t)
    {
      removed := 0;
      var todo := cache.Keys;
      assert cache == Survivors(old(cache), todo, now);
      while todo != {}
        invariant todo <= old(cache).Keys && Valid()
        invariant cache == Survivors(old(cache), todo, now)
        invariant removed == |old(cache)| - |cache|
        decreases todo
      {
        var host :| host in todo;
        SurvivorsStep(old(cache), todo, host, now);
        todo := todo - {host};
        if now > cache[host].expiresAt {
          Delete(host);
          removed := removed + 1;
        }
      }
      forall host, t | t >= now ensures IsHit(cache, host, t) == IsHit(old(cache), host, t) {
        SurvivorsHit(old(cache), now, host, t);
      }
    }

    /** The counts of `Stats`. */
    method Stats(now: int) returns (total: nat, valid: nat, expired: nat)
      ensures total == |cache| && valid + expired == total
      ensures valid == |set host | host in cache && IsHit(cache, host, now)|
    {
      total, valid, expired := |cache|, 0, 0;
      var todo := cache.Keys;
      ghost var hits: set<string> := {};
      while todo != {}
        invariant todo <= cache.Keys
        invariant hits == set host | host in cache && host !in todo && now < cache[host].expiresAt
        invariant valid == |hits| && valid + expired + |todo| == |cache|
        decreases todo
      {
        var host :| host in todo;
        todo := todo - {host};
        if now < cache[host].expiresAt {
          valid := valid + 1;
          hits := hits + {host};
        } else {
          expired := expired + 1;
        }
      }
      assert hits == set host | host in cache && IsHit(cache, host, now);
    }
  }
}
