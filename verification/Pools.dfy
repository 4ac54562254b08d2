/** A pool: one name resolved to servers, queried one after another or by the worker
    pool, and the responses aggregated. */
module Pools {
  import opened Types
  import opened Lists
  import opened ExecuteSteps
  import opened ExecuteTheorems
  import opened WorkerPools
  import opened DnsCache
  import RoundRobin
  import Client

  datatype PoolResponse = PoolResponse(
    poolName: string, servers: seq<string>, responses: seq<Response>,
    activeServers: nat, totalServers: nat, bestOffset: Duration)

  // ----- one server after another

  /** What query number k, sent to a server, brings. */
  type Single = (nat, string) -> Option<Response>

  /** The responses of the first k servers, in order. */
  function Answered(servers: seq<string>, ask: Single, k: nat): (rs: seq<Response>)
    requires k <= |servers|
    ensures |rs| <= k
  {
    if k == 0 then []
    else
      var before := Answered(servers, ask, k - 1);
      match ask(k - 1, servers[k - 1])
      case None => before
      case Some(r) => before + [r]
  }

  /** With a limit, that many responses are enough. */
  predicate Enough(limit: Option<nat>, rs: seq<Response>) {
    limit.Some? && |rs| >= limit.value
  }

  /** How many servers the loop has asked when it ends, at or after the i-th: there
      are no more, the responses are enough, or the context is done. */
  function AskedUntil(servers: seq<string>, ask: Single, done: nat -> bool, limit: Option<nat>, i: nat): (stop: nat)
    requires i <= |servers|
    ensures i <= stop <= |servers|
    ensures forall k | i <= k < stop :: !done(k) && !Enough(limit, Answered(servers, ask, k))
    decreases |servers| - i
  {
    if i == |servers| || Enough(limit, Answered(servers, ask, i)) || done(i) then i
    else AskedUntil(servers, ask, done, limit, i + 1)
  }

  /** What the sequential branch leaves: the responses, and whether the context
      ended it. */
  function InTurn(servers: seq<string>, ask: Single, done: nat -> bool, limit: Option<nat>): Outcome {
    var stop := AskedUntil(servers, ask, done, limit, 0);
    var responses := Answered(servers, ask, stop);
    Outcome(responses, if stop < |servers| && !Enough(limit, responses) then ContextError else NoError)
  }

  /** How many of the first k servers answer. */
  function Answers(servers: seq<string>, ask: Single, k: nat): nat
    requires k <= |servers|
  {
    if k == 0 then 0 else Answers(servers, ask, k - 1) + if ask(k - 1, servers[k - 1]).Some? then 1 else 0
  }

  /** rs are the answers of the first k servers, in order, and nothing else. */
  ghost predicate AreAnswers(rs: seq<Response>, servers: seq<string>, ask: Single, k: nat)
    requires k <= |servers|
  {
    && |rs| == Answers(servers, ask, k)
    && forall i: nat | i < k && ask(i, servers[i]).Some? ::
         Answers(servers, ask, i) < |rs| && rs[Answers(servers, ask, i)] == ask(i, servers[i]).value
  }

  lemma {:induction false} AnsweredInOrder(servers: seq<string>, ask: Single, k: nat)
    requires k <= |servers|
    ensures AreAnswers(Answered(servers, ask, k), servers, ask, k)
  {
    if k > 0 {
      AnsweredInOrder(servers, ask, k - 1);
    }
  }

  lemma {:induction false} StopsAtDone(servers: seq<string>, ask: Single, done: nat -> bool, i: nat)
    requires i <= |servers|
    ensures var stop := AskedUntil(servers, ask, done, None, i); stop < |servers| ==> done(stop)
    decreases |servers| - i
  {
    if i < |servers| && !done(i) {
      StopsAtDone(servers, ask, done, i + 1);
    }
  }

  /** The sequential branch asks until the context is done at a server still to be
      asked, or there are no more; its responses are the answers up to there, and its
      error is the context's in the first case only. */
  lemma InTurnEnds(servers: seq<string>, ask: Single, done: nat -> bool) returns (stop: nat)
    ensures stop <= |servers| && (forall k | 0 <= k < stop :: !done(k)) && (stop < |servers| ==> done(stop))
    ensures AreAnswers(InTurn(servers, ask, done, None).responses, servers, ask, stop)
    ensures InTurn(servers, ask, done, None).error == if stop < |servers| then ContextError else NoError
    ensures InTurn(servers, ask, done, None).error == ContextError <==> exists k | 0 <= k < |servers| :: done(k)
  {
    stop := AskedUntil(servers, ask, done, None, 0);
    StopsAtDone(servers, ask, done, 0);
    AnsweredInOrder(servers, ask, stop);
  }

  lemma {:induction false} AnsweredGrows(servers: seq<string>, ask: Single, i: nat, k: nat)
    requires i <= k <= |servers|
    ensures Answered(servers, ask, i) <= Answered(servers, ask, k)
  {
    if i < k {
      AnsweredGrows(servers, ask, i, k - 1);
    }
  }

  lemma {:induction false} LimitComesFirst(servers: seq<string>, ask: Single, done: nat -> bool, limit: nat, i: nat)
    requires i <= |servers| && |Answered(servers, ask, i)| <= limit
    ensures var stop, full := AskedUntil(servers, ask, done, Some(limit), i), AskedUntil(servers, ask, done, None, i);
      stop <= full && |Answered(servers, ask, stop)| <= limit
      && (stop < full ==> |Answered(servers, ask, stop)| == limit)
    decreases |servers| - i
  {
    if i == |servers| || Enough(Some(limit), Answered(servers, ask, i)) || done(i) {
    } else {
      LimitComesFirst(servers, ask, done, limit, i + 1);
    }
  }

  /** Stopping early keeps exactly the first `limit` of the responses the whole loop
      would have collected, so it loses some exactly when there are more. */
  lemma EarlyStopKeepsTheFirst(servers: seq<string>, ask: Single, done: nat -> bool, limit: nat)
    requires limit >= 1
    ensures var kept, all := InTurn(servers, ask, done, Some(limit)).responses, InTurn(servers, ask, done, None).responses;
      && kept <= all && |kept| == (if |all| < limit then |all| else limit)
      && (kept == all <==> |all| <= limit)
  {
    LimitComesFirst(servers, ask, done, limit, 0);
    AnsweredGrows(servers, ask, AskedUntil(servers, ask, done, Some(limit), 0), AskedUntil(servers, ask, done, None, 0));
  }

  lemma {:induction false} AskedByAll(servers: seq<string>, ask: Single, done: nat -> bool, limit: nat, i: nat)
    requires i <= |servers| <= limit
    ensures AskedUntil(servers, ask, done, Some(limit), i) == AskedUntil(servers, ask, done, None, i)
    decreases |servers| - i
  {
    if i < |servers| {
      AskedByAll(servers, ask, done, limit, i + 1);
    }
  }

  /** After `Resolve` has cut the list to the limit, the early stop changes nothing. */
  lemma EarlyStopDropsNobody(servers: seq<string>, ask: Single, done: nat -> bool, limit: nat)
    requires |servers| <= limit
    ensures InTurn(servers, ask, done, Some(limit)) == InTurn(servers, ask, done, None)
  {
    AskedByAll(servers, ask, done, limit, 0);
  }

  // ----- the servers' first responses, from the worker pool

  /** The responses of the servers that have one. */
  function Kept(f: string -> Option<Response>, servers: seq<string>): (rs: seq<Response>)
    ensures |rs| <= |servers|
  {
    if servers == [] then []
    else
      var before := Kept(f, servers[..|servers| - 1]);
      match f(servers[|servers| - 1])
      case None => before
      case Some(r) => before + [r]
  }

  /** The first response of a result without error. */
  function FirstOf(r: JobResult): Option<Response> {
    if r.outcome.error == NoError && |r.outcome.responses| > 0 then Some(r.outcome.responses[0]) else None
  }

  function FirstIn(entries: map<string, JobResult>): string -> Option<Response> {
    server => if server in entries then FirstOf(entries[server]) else None
  }

  /** An order in which a map can be iterated. */
  ghost predicate Enumerates(order: seq<string>, keys: set<string>) {
    multiset(order) == multiset(keys)
  }

  /** What the parallel branch makes of a reply of `Execute`, for one order. */
  ghost predicate Collects(reply: Reply, order: seq<string>, responses: seq<Response>) {
    if reply.Results?
    then Enumerates(order, reply.entries.Keys) && responses == Kept(FirstIn(reply.entries), order)
    else responses == []
  }

  /** What the parallel branch may leave, over all schedules and map orders. */
  ghost predicate InParallel(q: Request, answers: Querier, cancelled: bool, responses: seq<Response>) {
    exists reply, order :: MayReturn(q, answers, reply, cancelled) && Collects(reply, order, responses)
  }

  /** The loop over the results map. */
  method CollectFirsts(entries: map<string, JobResult>) returns (responses: seq<Response>, active: nat, ghost order: seq<string>)
    ensures Enumerates(order, entries.Keys)
    ensures responses == Kept(FirstIn(entries), order) && active == |responses|
  {
    responses, active, order := [], 0, [];
    var todo := entries.Keys;
    while todo != {}
      invariant todo <= entries.Keys
      invariant multiset(order) + multiset(todo) == multiset(entries.Keys)
      invariant responses == Kept(FirstIn(entries), order) && active == |responses|
      decreases todo
    {
      var server :| server in todo;
      todo := todo - {server};
      order := order + [server];
      assert order[..|order| - 1] + [server] == order;
      var result := entries[server];
      if result.outcome.error == NoError && |result.outcome.responses| > 0 {
        responses := responses + [result.outcome.responses[0]];
        active := active + 1;
      }
    }
  }

  // ----- the best offset

  /** The i-th response is the first of least `AbsDuration`. */
  ghost predicate FirstLeast(rs: seq<Response>, i: nat) {
    && i < |rs|
    && (forall j | 0 <= j < |rs| :: AbsDuration(rs[i].offset) <= AbsDuration(rs[j].offset))
    && (forall j | 0 <= j < i :: AbsDuration(rs[i].offset) < AbsDuration(rs[j].offset))
  }

  ghost predicate IsBest(rs: seq<Response>, best: Duration) {
    if rs == [] then best == 0 else exists i: nat :: FirstLeast(rs, i) && best == rs[i].offset
  }

  method FindBestOffset(responses: seq<Response>) returns (best: Duration)
    ensures IsBest(responses, best)
  {
    if |responses| == 0 {
      return 0;
    }
    best := responses[0].offset;
    var bestAbs := AbsDuration(best);
    ghost var at := 0;
    for i := 1 to |responses|
      invariant at < i && best == responses[at].offset && bestAbs == AbsDuration(best)
      invariant FirstLeast(responses[..i], at)
    {
      var abs := AbsDuration(responses[i].offset);
      if abs < bestAbs {
        best := responses[i].offset;
        bestAbs := abs;
        at := i;
      }
    }
    assert responses[..|responses|] == responses;
  }

  function Magnitude(d: int): nat { if d < 0 then -d else d }

  /** The best offset is the closest to zero exactly when the least duration, which
      has no negation, is not among the offsets, or is the only one. */
  lemma BestIsClosest(rs: seq<Response>, best: Duration)
    requires rs != [] && IsBest(rs, best)
    ensures (forall j | 0 <= j < |rs| :: Magnitude(best) <= Magnitude(rs[j].offset))
        <==> (forall j | 0 <= j < |rs| :: rs[j].offset != MIN_INT64) || (forall j | 0 <= j < |rs| :: rs[j].offset == MIN_INT64)
  {
    var i: nat :| FirstLeast(rs, i) && best == rs[i].offset;
    if k :| 0 <= k < |rs| && rs[k].offset == MIN_INT64 {
      assert AbsDuration(best) <= AbsDuration(rs[k].offset);
      assert best == MIN_INT64;
    }
  }

  /** An offset of zero loses against the least duration. */
  lemma LeastDurationWins(best: Duration)
    requires IsBest([Response("a", 0, 0), Response("b", MIN_INT64, 0)], best)
    ensures best == MIN_INT64 && Magnitude(best) > Magnitude(0)
  {
    var rs := [Response("a", 0, 0), Response("b", MIN_INT64, 0)];
    BestIsClosest(rs, best);
    assert rs[0].offset == 0 && rs[1].offset == MIN_INT64;
  }

  /** How far from zero the best offset is depends only on which responses there are. */
  lemma BestOfSameResponses(a: seq<Response>, b: seq<Response>, bestA: Duration, bestB: Duration)
    requires IsBest(a, bestA) && IsBest(b, bestB)
    requires forall r :: r in a <==> r in b
    ensures AbsDuration(bestA) == AbsDuration(bestB)
  {
    if |a| > 0 {
      assert a[0] in a;
    }
    if |b| > 0 {
      assert b[0] in b;
    }
    if a != [] && b != [] {
      var i: nat :| FirstLeast(a, i) && bestA == a[i].offset;
      var j: nat :| FirstLeast(b, j) && bestB == b[j].offset;
      assert a[i] in b && b[j] in a;
    }
  }

  // ----- the two branches against each other

  /** A querier that answers each server always alike, as one query sees it... */
  function Alike(replies: string -> Option<Client.Reply>): string -> Option<Response> {
    server => AnswerTo(server, replies(server))
  }

  function AnswerTo(server: string, reply: Option<Client.Reply>): (r: Option<Response>)
    ensures r.Some? <==> reply.Some?
    ensures r.Some? ==> r.value.server == server
  {
    match reply
    case None => None
    case Some(reply) => Some(Client.ResponseOf(server, reply))
  }

  function EachTime(f: string -> Option<Response>): Single {
    (k: nat, server: string) => f(server)
  }

  function Never(): nat -> bool { k => false }

  /** ... and as `QueryMultiple` reports it when nothing is cancelled. */
  function Uncancelled(samples: int, replies: string -> Option<Client.Reply>): Querier {
    (server: string, o: Outcome) => o == Client.QueryMultipleOutcome(server, samples, Never(), (k: nat) => replies(server))
  }

  lemma {:induction false} AnsweredAlike(servers: seq<string>, f: string -> Option<Response>, k: nat)
    requires k <= |servers|
    ensures Answered(servers, EachTime(f), k) == Kept(f, servers[..k])
  {
    if k > 0 {
      AnsweredAlike(servers, f, k - 1);
      assert servers[..k][..k - 1] == servers[..k - 1];
    }
  }

  lemma {:induction false} NeverStops(servers: seq<string>, ask: Single, i: nat)
    requires i <= |servers|
    ensures AskedUntil(servers, ask, Never(), None, i) == |servers|
    decreases |servers| - i
  {
    if i < |servers| {
      NeverStops(servers, ask, i + 1);
    }
  }

  lemma InTurnAlike(servers: seq<string>, f: string -> Option<Response>)
    ensures InTurn(servers, EachTime(f), Never(), None) == Outcome(Kept(f, servers), NoError)
  {
    NeverStops(servers, EachTime(f), 0);
    AnsweredAlike(servers, f, |servers|);
    assert servers[..|servers|] == servers;
  }

  /** Each response names its server, so it is kept as often as the server is listed. */
  lemma {:induction false} KeptCount(f: string -> Option<Response>, servers: seq<string>, r: Response)
    requires forall server | server in servers && f(server).Some? :: f(server).value.server == server
    ensures multiset(Kept(f, servers))[r] == if r.server in servers && f(r.server) == Some(r) then multiset(servers)[r.server] else 0
  {
    if servers == [] {
    } else {
      var front, last := servers[..|servers| - 1], servers[|servers| - 1];
      assert servers == front + [last];
      KeptCount(f, front, r);
      assert multiset(front)[r.server] > 0 <==> r.server in front;
    }
  }

  lemma {:induction false} KeptSame(f: string -> Option<Response>, g: string -> Option<Response>, servers: seq<string>)
    requires forall server | server in servers :: f(server) == g(server)
    ensures Kept(f, servers) == Kept(g, servers)
  {
    if servers != [] {
      KeptSame(f, g, servers[..|servers| - 1]);
    }
  }

  /** What the parallel branch collects when the querier is steady and nothing is
      cancelled: the servers' answers in some order of the set of servers, or
      nothing if no samples are asked for. */
  lemma ParallelCollects(servers: seq<string>, size: int, samples: int, replies: string -> Option<Client.Reply>, responses: seq<Response>)
    returns (order: seq<string>)
    requires servers != [] && InParallel(Request(servers, size), Uncancelled(samples, replies), false, responses)
    ensures Enumerates(order, set server | server in servers)
    ensures responses == Kept(if samples >= 1 then Alike(replies) else Nobody(), order)
  {
    var q, answers := Request(servers, size), Uncancelled(samples, replies);
    var reply, order' :| MayReturn(q, answers, reply, false) && Collects(reply, order', responses);
    order := order';
    var s :| Reachable(q, answers, s) && s.caller == Returned(reply) && s.cancelled == false;
    CompleteWithoutCancellation(q, answers, s);
    var f := if samples >= 1 then Alike(replies) else Nobody();
    forall server | server in order ensures FirstIn(reply.entries)(server) == f(server) {
      assert server in multiset(order);
      Client.SteadyServer(server, samples, Never(), (k: nat) => replies(server), replies(server));
    }
    KeptSame(FirstIn(reply.entries), f, order);
  }

  function Nobody(): string -> Option<Response> { server => None }

  lemma KeptBoth(f: string -> Option<Response>, servers: seq<string>, order: seq<string>, r: Response)
    requires forall server | server in servers && f(server).Some? :: f(server).value.server == server
    requires Enumerates(order, set server | server in servers)
    ensures var answered := r.server in servers && f(r.server) == Some(r);
      && multiset(Kept(f, order))[r] == (if answered then 1 else 0)
      && multiset(Kept(f, servers))[r] == (if answered then multiset(servers)[r.server] else 0)
    ensures r in Kept(f, order) <==> r in Kept(f, servers)
  {
    forall server ensures server in order <==> server in servers {
      assert server in order <==> server in multiset(order);
    }
    KeptCount(f, order, r);
    KeptCount(f, servers, r);
    assert r in Kept(f, order) <==> multiset(Kept(f, order))[r] > 0;
    assert r in Kept(f, servers) <==> multiset(Kept(f, servers))[r] > 0;
  }

  /** Each answer is kept once from an enumeration of the servers, and as often as
      its server is listed from the list. */
  lemma KeptOnceEach(f: string -> Option<Response>, servers: seq<string>, order: seq<string>)
    requires forall server | server in servers && f(server).Some? :: f(server).value.server == server
    requires Enumerates(order, set server | server in servers)
    ensures multiset(Kept(f, order)) == multiset(Kept(f, servers))
        <==> forall server | server in servers && f(server).Some? :: multiset(servers)[server] == 1
    ensures forall r :: r in Kept(f, order) <==> r in Kept(f, servers)
  {
    forall r: Response ensures r in Kept(f, order) <==> r in Kept(f, servers) {
      KeptBoth(f, servers, order, r);
    }
    if server :| server in servers && f(server).Some? && multiset(servers)[server] != 1 {
      KeptBoth(f, servers, order, f(server).value);
    } else {
      forall r: Response ensures multiset(Kept(f, order))[r] == multiset(Kept(f, servers))[r] {
        KeptBoth(f, servers, order, r);
      }
    }
  }

  lemma {:induction false} KeptNone(f: string -> Option<Response>, servers: seq<string>)
    ensures Kept(f, servers) == [] <==> forall server | server in servers :: f(server).None?
  {
    if servers != [] {
      var front, last := servers[..|servers| - 1], servers[|servers| - 1];
      KeptNone(f, front);
      assert servers == front + [last];
    }
  }

  /** The parallel branch leaves the same multiset of responses as the sequential
      one, under every schedule and every map order, exactly when each server that
      answers is listed once and at least one sample is asked for. */
  lemma ParallelRefinesSequential(servers: seq<string>, size: int, samples: int, replies: string -> Option<Client.Reply>,
                                  responses: seq<Response>)
    requires servers != [] && InParallel(Request(servers, size), Uncancelled(samples, replies), false, responses)
    ensures multiset(responses) == multiset(InTurn(servers, EachTime(Alike(replies)), Never(), None).responses)
        <==> forall server | server in servers && replies(server).Some? :: samples >= 1 && multiset(servers)[server] == 1
  {
    var f := Alike(replies);
    InTurnAlike(servers, f);
    var order := ParallelCollects(servers, size, samples, replies, responses);
    if samples >= 1 {
      KeptOnceEach(f, servers, order);
    } else {
      KeptNone(Nobody(), order);
      KeptNone(f, servers);
      assert multiset(Kept(f, servers)) == multiset{} <==> Kept(f, servers) == [];
    }
  }

  // ----- the pool

  /** The response once `responses` have come in. */
  ghost predicate IsSummary(r: PoolResponse, name: string, servers: seq<string>, responses: seq<Response>) {
    && r.poolName == name && r.servers == servers && r.responses == responses
    && r.activeServers == |responses| && r.totalServers == |servers|
    && IsBest(responses, r.bestOffset)
  }

  /** The two branches of `Query` against each other, for at least one sample and no
      cancellation: the best offset is as far from zero in both, and for distinct
      servers they have the same responses up to order and as many active servers. */
  lemma BranchesAgree(name: string, servers: seq<string>, size: int, samples: int, replies: string -> Option<Client.Reply>,
                      parallel: PoolResponse, inTurn: PoolResponse)
    requires samples >= 1 && servers != []
    requires InParallel(Request(servers, size), Uncancelled(samples, replies), false, parallel.responses)
    requires inTurn.responses == InTurn(servers, EachTime(Alike(replies)), Never(), None).responses
    requires IsSummary(parallel, name, servers, parallel.responses) && IsSummary(inTurn, name, servers, inTurn.responses)
    ensures AbsDuration(parallel.bestOffset) == AbsDuration(inTurn.bestOffset)
    ensures (forall i, j | 0 <= i < j < |servers| :: servers[i] != servers[j]) ==>
              && multiset(parallel.responses) == multiset(inTurn.responses)
              && parallel == inTurn.(responses := parallel.responses, bestOffset := parallel.bestOffset)
  {
    var f := Alike(replies);
    InTurnAlike(servers, f);
    var order := ParallelCollects(servers, size, samples, replies, parallel.responses);
    KeptOnceEach(f, servers, order);
    BestOfSameResponses(parallel.responses, inTurn.responses, parallel.bestOffset, inTurn.bestOffset);
    if forall i, j | 0 <= i < j < |servers| :: servers[i] != servers[j] {
      forall server | server in servers ensures multiset(servers)[server] == 1 {
        ListedOnce(servers, server);
      }
      SameLength(parallel.responses, inTurn.responses);
    }
  }

  /** What a querier may give when queries fail or are cancelled at any time: if a
      result has responses, the first one is the server's steady answer. */
  function Truthful(replies: string -> Option<Client.Reply>): Querier {
    (server: string, o: Outcome) => o.error == NoError && o.responses != [] ==> Alike(replies)(server) == Some(o.responses[0])
  }

  /** `QueryMultiple` is like that, whichever attempts fail and whenever the context
      is done. */
  lemma ClientIsTruthful(server: string, count: int, done: nat -> bool, attempts: nat -> Option<Client.Reply>,
                         replies: string -> Option<Client.Reply>)
    requires forall i: nat :: attempts(i).None? || attempts(i) == replies(server)
    ensures Truthful(replies)(server, Client.QueryMultipleOutcome(server, count, done, attempts))
  {
    GatheredAlike(server, attempts, replies, Client.StopsAt(done, 0, count));
  }

  lemma {:induction false} GatheredAlike(server: string, attempts: nat -> Option<Client.Reply>, replies: string -> Option<Client.Reply>, k: nat)
    requires forall i: nat :: attempts(i).None? || attempts(i) == replies(server)
    ensures forall i | 0 <= i < |Client.Gathered(server, attempts, k)| ::
              Alike(replies)(server) == Some(Client.Gathered(server, attempts, k)[i])
  {
    if k > 0 {
      GatheredAlike(server, attempts, replies, k - 1);
    }
  }

  /** Each response names its server. */
  ghost predicate Naming(f: string -> Option<Response>) {
    forall server :: f(server).Some? ==> f(server).value.server == server
  }

  /** Where g has a response, f has the same, and the server is listed. */
  ghost predicate Below(g: string -> Option<Response>, f: string -> Option<Response>, servers: seq<string>) {
    forall server :: g(server).Some? ==> g(server) == f(server) && server in servers
  }

  /** Keeping less, and from a list without repetition, keeps a part. */
  lemma KeptPart(g: string -> Option<Response>, f: string -> Option<Response>, keys: set<string>, order: seq<string>,
                 servers: seq<string>, r: Response)
    requires Enumerates(order, keys) && Naming(f) && Below(g, f, servers)
    ensures multiset(Kept(g, order))[r] <= 1 && multiset(Kept(g, order))[r] <= multiset(Kept(f, servers))[r]
  {
    KeptCount(g, order, r);
    KeptCount(f, servers, r);
    assert multiset(order)[r.server] == multiset(keys)[r.server] <= 1;
    if r.server in servers {
      assert r.server in multiset(servers);
    }
  }

  lemma KeptFromReply(q: Request, replies: string -> Option<Client.Reply>, s: State, server: string)
    requires q.servers != [] && Reachable(q, Truthful(replies), s) && s.caller.Returned? && s.caller.reply.Results?
    requires FirstIn(s.caller.reply.entries)(server).Some?
    ensures FirstIn(s.caller.reply.entries)(server) == Alike(replies)(server) && server in q.servers
  {
    var entries := s.caller.reply.entries;
    ResultsAreGenuine(q, Truthful(replies), s);
    assert server in entries && MayAnswer(Truthful(replies), s.cancelled, server, entries[server].outcome);
  }

  lemma RepliesBelow(q: Request, replies: string -> Option<Client.Reply>, s: State)
    requires q.servers != [] && Reachable(q, Truthful(replies), s) && s.caller.Returned? && s.caller.reply.Results?
    ensures Below(FirstIn(s.caller.reply.entries), Alike(replies), q.servers)
  {
    forall server | FirstIn(s.caller.reply.entries)(server).Some?
      ensures FirstIn(s.caller.reply.entries)(server) == Alike(replies)(server) && server in q.servers
    {
      KeptFromReply(q, replies, s, server);
    }
  }

  lemma AlikeNames(replies: string -> Option<Client.Reply>)
    ensures Naming(Alike(replies))
  {
    forall server | Alike(replies)(server).Some? ensures Alike(replies)(server).value.server == server {
      assert Alike(replies)(server) == AnswerTo(server, replies(server));
    }
  }

  /** However queries fail and whenever the context is cancelled, the parallel branch
      leaves a part of what the sequential one would have collected undisturbed, and
      never two responses of one server. */
  lemma ParallelIsPart(servers: seq<string>, size: int, replies: string -> Option<Client.Reply>, cancelled: bool, responses: seq<Response>)
    requires servers != [] && InParallel(Request(servers, size), Truthful(replies), cancelled, responses)
    ensures multiset(responses) <= multiset(InTurn(servers, EachTime(Alike(replies)), Never(), None).responses)
    ensures forall r :: multiset(responses)[r] <= 1
  {
    var q, answers, f := Request(servers, size), Truthful(replies), Alike(replies);
    InTurnAlike(servers, f);
    var reply, order :| MayReturn(q, answers, reply, cancelled) && Collects(reply, order, responses);
    var s :| Reachable(q, answers, s) && s.caller == Returned(reply) && s.cancelled == cancelled;
    if reply.Results? {
      RepliesBelow(q, replies, s);
      AlikeNames(replies);
      forall r: Response ensures multiset(responses)[r] <= 1 && multiset(responses)[r] <= multiset(Kept(f, servers))[r] {
        KeptPart(FirstIn(reply.entries), f, reply.entries.Keys, order, servers, r);
      }
    }
  }

  lemma {:induction false} ListedOnce(s: seq<string>, x: string)
    requires x in s && forall i, j | 0 <= i < j < |s| :: s[i] != s[j]
    ensures multiset(s)[x] == 1
  {
    var rest := s[1..];
    assert s == [s[0]] + rest;
    if s[0] == x {
      assert x !in rest;
      assert x !in multiset(rest);
    } else {
      ListedOnce(rest, x);
    }
  }

  /** Never more responses than servers, cancelled or not. */
  lemma ParallelAtMost(q: Request, answers: Querier, cancelled: bool, responses: seq<Response>)
    requires q.servers != [] && InParallel(q, answers, cancelled, responses)
    ensures |responses| <= |q.servers|
  {
    var reply, order :| MayReturn(q, answers, reply, cancelled) && Collects(reply, order, responses);
    if reply.Results? {
      var s :| Reachable(q, answers, s) && s.caller == Returned(reply) && s.cancelled == cancelled;
      ResultsAreGenuine(q, answers, s);
      FewerKeys(reply.entries.Keys, q.servers);
      assert |order| == |multiset(order)| == |multiset(reply.entries.Keys)| == |reply.entries.Keys|;
    }
  }

  lemma {:induction false} FewerKeys(keys: set<string>, servers: seq<string>)
    requires forall key | key in keys :: key in servers
    ensures |keys| <= |servers|
  {
    if servers == [] {
      assert keys == {};
    } else {
      FewerKeys(keys - {servers[0]}, servers[1..]);
    }
  }

  /** `selectServersByStrategy` at Unix time `clock`. */
  function Selected(strategy: string, servers: seq<string>, clock: nat): (selected: seq<string>)
    ensures |selected| <= |servers| && forall server | server in selected :: server in servers
    ensures strategy != "round_robin" ==> selected == servers
    ensures strategy == "round_robin" && servers != [] ==>
              |selected| == 1 && selected[0] == servers[RoundRobin.IndexAt(clock, |servers|)]
  {
    if strategy == "round_robin" && servers != [] then [servers[RoundRobin.IndexAt(clock, |servers|)]] else servers
  }

  /** Some query among the first n, made at t0, t0 + k, t0 + 2k, ..., selects just
      this server. */
  ghost predicate EverSelected(servers: seq<string>, t0: nat, k: nat, server: string) {
    exists j: nat :: j < |servers| && Selected("round_robin", servers, t0 + RoundRobin.Mul(j, k)) == [server]
  }

  /** A round-robin pool of distinct servers queried every k seconds reaches all of
      them exactly when k and their number have no common factor. */
  lemma AllSelected(servers: seq<string>, t0: nat, k: nat)
    requires servers != [] && forall i, j | 0 <= i < j < |servers| :: servers[i] != servers[j]
    ensures (forall server | server in servers :: EverSelected(servers, t0, k, server)) <==> RoundRobin.Gcd(k, |servers|) == 1
  {
    var n := |servers|;
    forall i: nat | i < n ensures EverSelected(servers, t0, k, servers[i]) <==> RoundRobin.AskedWithin(t0, k, n, i, n) {
      SelectedIsAsked(servers, t0, k, i);
    }
    RoundRobin.FairExactlyWhenCoprime(t0, k, n);
    if forall server | server in servers :: EverSelected(servers, t0, k, server) {
      forall i: nat | i < n ensures RoundRobin.AskedWithin(t0, k, n, i, n) {
        assert EverSelected(servers, t0, k, servers[i]);
      }
    }
  }

  lemma SelectedIsAsked(servers: seq<string>, t0: nat, k: nat, i: nat)
    requires i < |servers| && forall i, j | 0 <= i < j < |servers| :: servers[i] != servers[j]
    ensures EverSelected(servers, t0, k, servers[i]) <==> RoundRobin.AskedWithin(t0, k, |servers|, i, |servers|)
  {
    forall j: nat
      ensures RoundRobin.Mul(j, k) >= 0
      ensures Selected("round_robin", servers, t0 + RoundRobin.Mul(j, k)) == [servers[i]] <==> RoundRobin.Asked(t0, k, |servers|, j) == i
    {
      RoundRobin.MulNotNegative(j, k);
      assert RoundRobin.Asked(t0, k, |servers|, j) == RoundRobin.IndexAt(t0 + RoundRobin.Mul(j, k), |servers|);
    }
  }

  /** The querier returns, whatever server it is asked about. */
  ghost predicate AlwaysAnswers(answers: Querier, usual: string -> Outcome) {
    forall server :: answers(server, usual(server))
  }

  /** The first `limit` of the addresses, or all of them if they are fewer. */
  predicate FirstFew(servers: seq<string>, ips: seq<string>, limit: int) {
    servers <= ips && |servers| == if |ips| < limit then |ips| else limit
  }

  /** What a pool queries when the cache gives this answer: the first few addresses,
      or the fallback alone. */
  predicate QueriedFor(servers: seq<string>, answer: Option<seq<string>>, limit: int, fallback: string) {
    match answer
    case None => fallback != "" && servers == [fallback]
    case Some(ips) => FirstFew(servers, ips, limit)
  }

  class Pool {
    const name: string
    const strategy: string
    const maxServers: int
    const fallback: string
    const dnsCache: DNSCache
    var workerPool: WorkerPool?
    var useWorkerPool: bool

    constructor (name: string, strategy: string, maxServers: int, fallback: string)
      ensures this.name == name && this.fallback == fallback && fresh(dnsCache) && dnsCache.Valid() && dnsCache.cache == map[]
      ensures this.strategy == (if strategy == "" then "best_n" else strategy)
      ensures this.maxServers == (if maxServers == 0 then 4 else maxServers)
      ensures workerPool == null && !useWorkerPool
    {
      this.name, this.fallback := name, fallback;
      this.strategy := if strategy == "" then "best_n" else strategy;
      this.maxServers := if maxServers == 0 then 4 else maxServers;
      dnsCache := new DNSCache(0, 0);
      workerPool, useWorkerPool := null, false;
    }

    method EnableWorkerPool(size: int)
      modifies this
      ensures useWorkerPool && fresh(workerPool) && !workerPool.running
      ensures workerPool.size == if size <= 0 then 5 else size
    {
      workerPool := new WorkerPool(if size <= 0 then 5 else size);
      useWorkerPool := true;
    }

    /** The servers `Resolve` gives for what the cache answers. */
    function Servers(answer: Option<seq<string>>): (servers: Option<seq<string>>)
      requires maxServers >= 1
      ensures servers.Some? ==> |servers.value| <= maxServers
      ensures servers.None? <==> answer.None? && fallback == ""
      ensures servers.Some? ==> QueriedFor(servers.value, answer, maxServers, fallback)
    {
      match answer
      case None => if fallback != "" then Some([fallback]) else None
      case Some(ips) => Some(if |ips| > maxServers then ips[..maxServers] else ips)
    }

    /** `Resolve`. Configurations with a limit below one are rejected when loaded. */
    method Resolve(isIP: bool, lookup: Option<seq<string>>, now: int, stored: int) returns (servers: Option<seq<string>>)
      requires dnsCache.Valid() && maxServers >= 1 && now <= stored
      modifies dnsCache
      ensures dnsCache.Valid()
      ensures servers == Servers(AnswerOf(old(dnsCache.cache), name, isIP, lookup, now))
      ensures servers.None? <==> fallback == "" && AnswerOf(old(dnsCache.cache), name, isIP, lookup, now).None?
      ensures servers.Some? ==>
                QueriedFor(servers.value, AnswerOf(old(dnsCache.cache), name, isIP, lookup, now), maxServers, fallback)
      ensures dnsCache.cache == CacheAfter(dnsCache.bounds, old(dnsCache.cache), name, isIP, lookup, now, stored)
    {
      var ips := dnsCache.Resolve(name, isIP, lookup, now, stored);
      if ips.None? {
        if fallback != "" {
          return Some([fallback]);
        }
        return None;
      }
      var limited := ips.value;
      if |limited| > maxServers {
        limited := limited[..maxServers];
      }
      return Some(limited);
    }

    /** The sequential branch; `done(k)` is the context's state at the check before
        server k, `ask(k, server)` what the query to it brings. */
    method QueryInTurn(begun: PoolResponse, selected: seq<string>, ask: Single, done: nat -> bool)
      returns (response: PoolResponse, error: Error)
      requires begun.responses == [] && begun.activeServers == 0 && |selected| <= maxServers && maxServers >= 1
      ensures response == begun.(responses := response.responses, activeServers := |response.responses|)
      ensures Outcome(response.responses, error) == InTurn(selected, ask, done, None)
    {
      ghost var limit := if strategy == "best_n" then Some(maxServers) else None;
      if strategy == "best_n" {
        EarlyStopDropsNobody(selected, ask, done, maxServers);
      }
      response := begun;
      var k := 0;
      while k < |selected|
        invariant k <= |selected| && !Enough(limit, response.responses)
        invariant response == begun.(responses := Answered(selected, ask, k), activeServers := |response.responses|)
        invariant AskedUntil(selected, ask, done, limit, 0) == AskedUntil(selected, ask, done, limit, k)
      {
        if done(k) {
          return response, ContextError;
        }
        var answer := ask(k, selected[k]);
        k := k + 1;
        if answer.Some? {
          response := response.(responses := response.responses + [answer.value], activeServers := response.activeServers + 1);
          if strategy == "best_n" && response.activeServers >= maxServers {
            break;
          }
        }
      }
      error := NoError;
    }

    /** The parallel branch: when `Execute` fails, nothing is collected. */
    method QueryInParallel(begun: PoolResponse, workers: WorkerPool, selected: seq<string>, answers: Querier,
                           usual: string -> Outcome, schedule: State -> Action)
      returns (response: PoolResponse, ghost cancelled: bool)
      requires begun.responses == [] && begun.activeServers == 0 && AlwaysAnswers(answers, usual)
      modifies workers
      ensures workers.running == old(workers.running)
      ensures response == begun.(responses := response.responses, activeServers := |response.responses|)
      ensures if selected == [] || workers.running then response.responses == []
              else InParallel(Request(selected, workers.size), answers, cancelled, response.responses)
    {
      response := begun;
      var results, c := workers.Execute(selected, answers, usual, schedule);
      cancelled := c;
      if results.Replied? {
        ghost var order: seq<string> := [];
        if results.reply.Results? {
          var responses, active, o := CollectFirsts(results.reply.entries);
          response := response.(responses := responses, activeServers := active);
          order := o;
        }
        assert Collects(results.reply, order, response.responses);
      }
    }

    /** `Query`. No response at all means that the name could not be resolved. */
    method Query(isIP: bool, lookup: Option<seq<string>>, now: int, stored: int, clock: nat,
                 ask: Single, done: nat -> bool, answers: Querier, usual: string -> Outcome, schedule: State -> Action)
      returns (response: Option<PoolResponse>, error: Error, ghost cancelled: bool)
      requires dnsCache.Valid() && maxServers >= 1 && now <= stored && AlwaysAnswers(answers, usual)
      modifies dnsCache, workerPool
      ensures dnsCache.Valid()
      ensures dnsCache.cache == CacheAfter(dnsCache.bounds, old(dnsCache.cache), name, isIP, lookup, now, stored)
      ensures workerPool != null ==> workerPool.running == old(if workerPool != null then workerPool.running else false)
      ensures response.None? <==> fallback == "" && AnswerOf(old(dnsCache.cache), name, isIP, lookup, now).None?
      ensures response.None? ==> error == QueryError
      ensures response.Some? ==>
        var r := response.value;
        && QueriedFor(r.servers, AnswerOf(old(dnsCache.cache), name, isIP, lookup, now), maxServers, fallback)
        && r.poolName == name && r.totalServers == |r.servers| && r.activeServers == |r.responses|
        && r.activeServers <= r.totalServers <= maxServers
        && if error == NoError then IsBest(r.responses, r.bestOffset) else r.bestOffset == 0
      ensures response.Some? && !(useWorkerPool && workerPool != null && strategy == "all") ==>
        var r := response.value;
        Outcome(r.responses, error) == InTurn(Selected(strategy, r.servers, clock), ask, done, None)
      ensures response.Some? && useWorkerPool && workerPool != null && strategy == "all" ==>
        var r := response.value;
        && error == NoError
        && if r.servers == [] || workerPool.running then r.responses == []
           else InParallel(Request(r.servers, workerPool.size), answers, cancelled, r.responses)
    {
      cancelled := false;
      var servers := Resolve(isIP, lookup, now, stored);
      if servers.None? {
        return None, QueryError, cancelled;
      }
      var r := PoolResponse(name, servers.value, [], 0, |servers.value|, 0);
      var selected := Selected(strategy, servers.value, clock);
      if useWorkerPool && workerPool != null && strategy == "all" {
        r, cancelled := QueryInParallel(r, workerPool, selected, answers, usual, schedule);
        error := NoError;
        if selected != [] && !workerPool.running {
          ParallelAtMost(Request(selected, workerPool.size), answers, cancelled, r.responses);
        }
      } else {
        r, error := QueryInTurn(r, selected, ask, done);
        if error != NoError {
          return Some(r), error, cancelled;
        }
      }
      if |r.responses| > 0 {
        var best := FindBestOffset(r.responses);
        r := r.(bestOffset := best);
      }
      return Some(r), NoError, cancelled;
    }
  }
}
