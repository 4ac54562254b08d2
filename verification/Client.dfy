/** `Client.Query` and `Client.QueryMultiple`, over the replies the network gives. */
module Client {
  import opened Types
  import opened ObjectPool

  /** What `ntp.QueryWithOptions` delivers on success, as far as it is modelled. */
  datatype Reply = Reply(clockOffset: Duration, rtt: Duration)

  function ResponseOf(server: string, reply: Reply): Response {
    Response(server, reply.clockOffset, reply.rtt)
  }

  /** The successful replies among the first k attempts, in order. */
  function Gathered(server: string, replies: nat -> Option<Reply>, k: nat): seq<Response> {
    if k == 0 then []
    else
      var before := Gathered(server, replies, k - 1);
      match replies(k - 1)
      case None => before
      case Some(reply) => before + [ResponseOf(server, reply)]
  }

  /** The first attempt at or after i that sees the context done, or where the
      loop ends. */
  function StopsAt(done: nat -> bool, i: nat, count: int): (stop: nat)
    ensures i <= stop && (i <= count ==> stop <= count) && (count < i ==> stop == i)
    ensures forall k | i <= k < stop :: !done(k)
    ensures stop < count ==> done(stop)
    decreases count - i
  {
    if i >= count || done(i) then i else StopsAt(done, i + 1, count)
  }

  /** What `QueryMultiple` returns. */
  function QueryMultipleOutcome(server: string, count: int, done: nat -> bool, replies: nat -> Option<Reply>): Outcome {
    var stop := StopsAt(done, 0, count);
    var got := Gathered(server, replies, stop);
    if stop < count then Outcome(got, ContextError)
    else if got == [] then Outcome([], QueryError)
    else Outcome(got, NoError)
  }

  /** One query: a pooled struct is filled with the reply. */
  method Query(pool: ResponsePool, server: string, reply: Option<Reply>) returns (r: ResponseRef?)
    requires pool.Valid()
    modifies pool.Repr()
    ensures pool.Valid() && fresh(pool.Repr() - old(pool.Repr())) && pool.free <= old(pool.free)
    ensures reply.None? ==> r == null && pool.lent == old(pool.lent)
    ensures reply.Some? ==> r != null && r !in old(pool.lent) && pool.lent == old(pool.lent) + {r}
    ensures reply.Some? ==> r.value == ResponseOf(server, reply.value) && fresh({r} - old(pool.Repr()))
    ensures reply.Some? ==>
              r.value.server == server && r.value.offset == reply.value.clockOffset && r.value.rtt == reply.value.rtt
  {
    if reply.None? {
      return null;
    }
    r := pool.GetResponse();
    r.value := r.value.(server := server);
    r.value := r.value.(offset := reply.value.clockOffset);
    r.value := r.value.(rtt := reply.value.rtt);
  }

  /** Go's `append` to the slice buf[..n]: in place while there is room, else in a
      larger array of unspecified capacity. */
  method Append(buf: array<ResponseRef?>, n: nat, r: ResponseRef, growth: nat) returns (grown: array<ResponseRef?>)
    requires n <= buf.Length
    modifies buf
    ensures n < grown.Length && (grown == buf || fresh(grown))
    ensures grown == buf <==> n < buf.Length
    ensures grown[..n + 1] == old(buf[..n]) + [r]
    ensures grown != buf ==> buf[..] == old(buf[..])
  {
    if n < buf.Length {
      grown := buf;
    } else {
      grown := new ResponseRef?[n + 1 + growth];
      for i := 0 to n
        invariant forall k | 0 <= k < i :: grown[k] == buf[k]
        invariant buf[..] == old(buf[..])
      {
        grown[i] := buf[i];
      }
    }
    grown[n] := r;
  }

  /** `make` and `copy`: the slice handed to the caller has its own array. */
  method CopyOut(buf: array<ResponseRef?>, n: nat) returns (result: array<ResponseRef?>)
    requires n <= buf.Length
    ensures fresh(result) && result[..] == buf[..n]
  {
    result := new ResponseRef?[n];
    for i := 0 to n
      invariant result[..i] == buf[..i]
    {
      result[i] := buf[i];
    }
  }

  /** refs are pointers to exactly the responses in values, all different, and all
      borrowed from the pool since `before` was its set of lent structs. */
  ghost predicate Holds(refs: seq<ResponseRef?>, values: seq<Response>, pool: ResponsePool, before: set<ResponseRef>)
    reads pool, refs
  {
    && |refs| == |values|
    && (forall k | 0 <= k < |refs| :: refs[k] != null && refs[k] in pool.lent && refs[k] !in before)
    && (forall k | 0 <= k < |refs| :: refs[k].value == values[k])
    && (forall j, k | 0 <= j < k < |refs| :: refs[j] != refs[k])
  }

  lemma HoldsMore(refs: seq<ResponseRef?>, values: seq<Response>, r: ResponseRef, pool: ResponsePool, before: set<ResponseRef>)
    requires |refs| == |values|
    requires forall k | 0 <= k < |refs| :: refs[k] != null && refs[k] in pool.lent && refs[k] !in before && refs[k] != r
    requires forall k | 0 <= k < |refs| :: refs[k].value == values[k]
    requires forall j, k | 0 <= j < k < |refs| :: refs[j] != refs[k]
    requires r in pool.lent && r !in before
    ensures Holds(refs + [r], values + [r.value], pool, before)
  {
  }

  /** One turn of the loop: a query, and on success an append. */
  method GatherOne(structs: ResponsePool, buf: array<ResponseRef?>, n: nat, server: string, reply: Option<Reply>,
                   growth: nat, ghost values: seq<Response>, ghost before: set<ResponseRef>)
    returns (grown: array<ResponseRef?>, m: nat)
    requires structs.Valid() && n <= buf.Length && before <= structs.lent
    requires Holds(buf[..n], values, structs, before)
    modifies structs.Repr(), buf
    ensures structs.Valid() && fresh(structs.Repr() - old(structs.Repr())) && old(structs.lent) <= structs.lent
    ensures m <= grown.Length && (grown == buf || fresh(grown))
    ensures Holds(grown[..m], values + (if reply.None? then [] else [ResponseOf(server, reply.value)]), structs, before)
    ensures n <= m && forall k | 0 <= k < n :: grown[k] == old(buf[k])
    ensures grown != buf ==> buf.Length <= n && buf[..] == old(buf[..])
  {
    var r := Query(structs, server, reply);
    grown, m := buf, n;
    if r == null {
      assert values + [] == values;
    } else {
      ghost var refs := buf[..n];
      HoldsMore(refs, values, r, structs, before);
      grown := Append(buf, n, r, growth);
      m := n + 1;
      assert grown[..m] == refs + [r];
      assert forall k | 0 <= k < n :: grown[..m][k] == refs[k];
    }
  }

  /** The loop of `QueryMultiple`, filling the slice's array while it has room. */
  method Gather(structs: ResponsePool, buf: array<ResponseRef?>, server: string, count: int,
                done: nat -> bool, replies: nat -> Option<Reply>, growth: nat)
    returns (responses: array<ResponseRef?>, n: nat, stop: nat)
    requires structs.Valid()
    modifies structs.Repr(), buf
    ensures structs.Valid() && fresh(structs.Repr() - old(structs.Repr())) && old(structs.lent) <= structs.lent
    ensures n <= responses.Length && (responses == buf || fresh(responses))
    ensures stop == StopsAt(done, 0, count)
    ensures Holds(responses[..n], Gathered(server, replies, stop), structs, old(structs.lent))
    ensures forall k | 0 <= k < n && k < buf.Length :: buf[k] == responses[k]
  {
    responses, n := buf, 0;
    stop := 0;
    while stop < count && !done(stop)
      invariant stop > 0 ==> stop <= count
      invariant StopsAt(done, 0, count) == StopsAt(done, stop, count)
      invariant structs.Valid() && fresh(structs.Repr() - old(structs.Repr())) && old(structs.lent) <= structs.lent
      invariant n <= responses.Length && (responses == buf || fresh(responses))
      invariant Holds(responses[..n], Gathered(server, replies, stop), structs, old(structs.lent))
      invariant forall k | 0 <= k < n && k < buf.Length :: buf[k] == responses[k]
      invariant responses != buf ==> buf.Length <= n
    {
      responses, n := GatherOne(structs, responses, n, server, replies(stop), growth,
                                Gathered(server, replies, stop), old(structs.lent));
      stop := stop + 1;
    }
  }

  /** The three ways out of `QueryMultiple`. */
  method Finish(responses: array<ResponseRef?>, n: nat, stop: nat, count: int)
    returns (result: array?<ResponseRef?>, error: Error)
    requires n <= responses.Length
    ensures error == if stop < count then ContextError else if n == 0 then QueryError else NoError
    ensures result == null <==> error == QueryError
    ensures result != null ==> fresh(result) && result[..] == responses[..n]
  {
    if stop < count {
      result := CopyOut(responses, n);
      return result, ContextError;
    }
    if n == 0 {
      return null, QueryError;
    }
    result := CopyOut(responses, n);
    return result, NoError;
  }

  /** Everything `QueryMultiple` does between borrowing a slice and returning it. */
  method Collect(structs: ResponsePool, buf: array<ResponseRef?>, server: string, count: int,
                 done: nat -> bool, replies: nat -> Option<Reply>, growth: nat)
    returns (result: array?<ResponseRef?>, error: Error)
    requires structs.Valid()
    modifies structs.Repr(), buf
    ensures structs.Valid() && fresh(structs.Repr() - old(structs.Repr())) && old(structs.lent) <= structs.lent
    ensures error == QueryMultipleOutcome(server, count, done, replies).error
    ensures result == null <==> error == QueryError
    ensures result != null ==> fresh(result)
    ensures result != null ==>
              Holds(result[..], QueryMultipleOutcome(server, count, done, replies).responses, structs, old(structs.lent))
    ensures result != null ==> forall k | 0 <= k < result.Length && k < buf.Length :: buf[k] == result[k]
  {
    var responses, n, stop := Gather(structs, buf, server, count, done, replies, growth);
    result, error := Finish(responses, n, stop, count);
  }

  /** The loop collects into a pooled slice; what is returned is a copy in a new
      array, pointing to structs nobody else holds. The pooled slice has length
      zero all along, so putting it back clears nothing: it keeps pointing at the
      responses just returned. */
  method QueryMultiple(slices: SlicePool<ResponseRef?>, structs: ResponsePool, server: string, count: int,
                       done: nat -> bool, replies: nat -> Option<Reply>, growth: nat)
    returns (result: array?<ResponseRef?>, error: Error, ghost scratch: Slice<ResponseRef?>)
    requires slices.Valid() && structs.Valid() && slices.Repr !! structs.Repr()
    modifies slices.Repr, structs.Repr()
    ensures slices.Valid() && fresh(slices.Repr - old(slices.Repr)) && slices.lent == old(slices.lent)
    ensures structs.Valid() && fresh(structs.Repr() - old(structs.Repr())) && old(structs.lent) <= structs.lent
    ensures error == QueryMultipleOutcome(server, count, done, replies).error
    ensures result == null <==> error == QueryError
    ensures result != null ==> fresh(result) && result !in slices.Repr
    ensures result != null ==>
              Holds(result[..], QueryMultipleOutcome(server, count, done, replies).responses, structs, old(structs.lent))
    ensures scratch in slices.free
    ensures result != null ==>
              forall k | 0 <= k < result.Length && k < scratch.data.Length :: scratch.data[k] == result[k]
  {
    var slice := GetResponseSlice(slices);
    result, error := Collect(structs, slice.data, server, count, done, replies, growth);
    PutResponseSlice(slices, slice);
    scratch := slice;
  }

  /** How many of the first k attempts succeed. */
  function Successes(replies: nat -> Option<Reply>, k: nat): nat {
    if k == 0 then 0 else Successes(replies, k - 1) + if replies(k - 1).Some? then 1 else 0
  }

  /** r is what the server replied. */
  predicate Carries(r: Response, server: string, reply: Reply) {
    r.server == server && r.offset == reply.clockOffset && r.rtt == reply.rtt
  }

  /** Response number m carries the m-th successful attempt, and there are no others. */
  ghost predicate CarriesAll(rs: seq<Response>, server: string, replies: nat -> Option<Reply>, k: nat) {
    && |rs| == Successes(replies, k)
    && forall i: nat | i < k && replies(i).Some? ::
         Successes(replies, i) < |rs| && Carries(rs[Successes(replies, i)], server, replies(i).value)
  }

  lemma {:induction false} GatheredCarries(server: string, replies: nat -> Option<Reply>, k: nat)
    ensures CarriesAll(Gathered(server, replies, k), server, replies, k)
  {
    if k > 0 {
      GatheredCarries(server, replies, k - 1);
    }
  }

  /** What `QueryMultiple` returns, from the attempts alone: the loop stops at the
      first attempt that finds the context done, or after `count` of them; the
      successful attempts before that are returned in order, with the context's error
      if it stopped early, and with an error if there are none. */
  lemma OutcomeOfAttempts(server: string, count: int, done: nat -> bool, replies: nat -> Option<Reply>) returns (stop: nat)
    ensures (forall k | 0 <= k < stop :: !done(k)) && (stop < count ==> done(stop)) && (stop == 0 || stop <= count)
    ensures var o := QueryMultipleOutcome(server, count, done, replies);
      && CarriesAll(o.responses, server, replies, stop)
      && (o.error == ContextError <==> stop < count)
      && (o.error == QueryError <==> count <= stop && Successes(replies, stop) == 0)
  {
    stop := StopsAt(done, 0, count);
    GatheredCarries(server, replies, stop);
  }

  lemma {:induction false} GatheredLength(server: string, replies: nat -> Option<Reply>, k: nat)
    ensures |Gathered(server, replies, k)| <= k
  {
    if k > 0 {
      GatheredLength(server, replies, k - 1);
    }
  }

  /** Never more responses than asked for. */
  lemma AtMostCount(server: string, count: int, done: nat -> bool, replies: nat -> Option<Reply>)
    ensures |QueryMultipleOutcome(server, count, done, replies).responses| <= if count < 0 then 0 else count
  {
    GatheredLength(server, replies, StopsAt(done, 0, count));
  }

  lemma {:induction false} GatheredSteadily(server: string, replies: nat -> Option<Reply>, answer: Option<Reply>, k: nat)
    requires forall i | 0 <= i < k :: replies(i) == answer
    ensures Gathered(server, replies, k)
         == match answer case None => [] case Some(reply) => seq(k, _ => ResponseOf(server, reply))
  {
    if k > 0 {
      GatheredSteadily(server, replies, answer, k - 1);
    }
  }

  /** A server that gives the same answer to every attempt, asked without
      cancellation: `count` equal responses, or an error when there is no answer
      or nothing was asked. */
  lemma SteadyServer(server: string, count: int, done: nat -> bool, replies: nat -> Option<Reply>, answer: Option<Reply>)
    requires forall i: nat :: replies(i) == answer && !done(i)
    ensures QueryMultipleOutcome(server, count, done, replies)
         == if answer.None? || count <= 0 then Outcome([], QueryError)
            else Outcome(seq(count, _ => ResponseOf(server, answer.value)), NoError)
  {
    GatheredSteadily(server, replies, answer, StopsAt(done, 0, count));
  }
}
