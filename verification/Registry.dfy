/** The per-server registries of circuit breakers and of rate limiters: creation
    under a read-write lock with a second check, by any number of callers. The two
    differ only in what they create for a server. */
module Registry {
  import opened Types

  /** Where one call is. */
  datatype Call =
    | Starting(server: string)
    | ReadLocked(server: string)                     // holds a read lock, before the first look
    | Looked(server: string, found: Option<nat>)     // holds a read lock, after it
    | Missed(server: string)                         // holds no lock, wants the write lock
    | WriteLocked(server: string)                    // holds the write lock, before the second look
    | Creating(server: string)                       // holds the write lock, not found again
    | Installing(server: string, id: nat)        // holds the write lock, object allocated
    | Unlocking(server: string, id: nat)         // holds the write lock, about to return
    | Returned(server: string, id: nat)

  /** The registry, its lock and all calls. An object is known by its index in
      `objects`, which holds what was made for a server: the breaker's settings, the
      limiter's rate and burst. */
  datatype State<P> = State(
    table: map<string, nat>, objects: seq<P>, readers: set<nat>, writer: Option<nat>, calls: seq<Call>)

  function Begin<P>(servers: seq<string>): State<P> {
    State(map[], [], {}, None, seq(|servers|, c requires 0 <= c < |servers| => Starting(servers[c])))
  }

  predicate Enabled<P>(s: State<P>, c: nat) {
    && c < |s.calls|
    && match s.calls[c]
       case Starting(_) => s.writer == None
       case Missed(_) => s.writer == None && s.readers == {}
       case Returned(_, _) => false
       case _ => true
  }

  function Pc<P>(s: State<P>, c: nat, pc: Call): State<P>
    requires c < |s.calls|
  {
    s.(calls := s.calls[c := pc])
  }

  /** One step of call c; `create` makes the content of a new object. */
  function Next<P>(create: string -> P, s: State<P>, c: nat): State<P>
    requires Enabled(s, c)
  {
    match s.calls[c]
    case Starting(server) => Pc(s, c, ReadLocked(server)).(readers := s.readers + {c})
    case ReadLocked(server) => Pc(s, c, Looked(server, if server in s.table then Some(s.table[server]) else None))
    case Looked(server, found) =>
      Pc(s, c, if found.Some? then Returned(server, found.value) else Missed(server)).(readers := s.readers - {c})
    case Missed(server) => Pc(s, c, WriteLocked(server)).(writer := Some(c))
    case WriteLocked(server) =>
      Pc(s, c, if server in s.table then Unlocking(server, s.table[server]) else Creating(server))
    case Creating(server) => Pc(s, c, Installing(server, |s.objects|)).(objects := s.objects + [create(server)])
    case Installing(server, id) => Pc(s, c, Unlocking(server, id)).(table := s.table[server := id])
    case Unlocking(server, id) => Pc(s, c, Returned(server, id)).(writer := None)
    case Returned(_, _) => s
  }

  ghost predicate IsRun<P(!new)>(create: string -> P, servers: seq<string>, states: seq<State<P>>, who: seq<nat>) {
    && |states| == |who| + 1 && states[0] == Begin(servers)
    && forall i | 0 <= i < |who| :: Enabled(states[i], who[i]) && states[i + 1] == Next(create, states[i], who[i])
  }

  predicate Reads(pc: Call) { pc.ReadLocked? || pc.Looked? }

  predicate Writes(pc: Call) { pc.WriteLocked? || pc.Creating? || pc.Installing? || pc.Unlocking? }

  /** The lock: who holds it is where it says, and readers exclude the writer. */
  ghost predicate LockOk<P>(s: State<P>) {
    && (forall c | 0 <= c < |s.calls| :: Reads(s.calls[c]) <==> c in s.readers)
    && (forall c | 0 <= c < |s.calls| :: Writes(s.calls[c]) <==> s.writer == Some(c))
    && (forall c | c in s.readers :: c < |s.calls|)
    && (s.writer.Some? ==> s.writer.value < |s.calls| && s.readers == {})
  }

  /** The object a call has found or installed. */
  function Known(pc: Call): Option<nat> {
    match pc
    case Looked(_, found) => found
    case Unlocking(_, id) => Some(id)
    case Returned(_, id) => Some(id)
    case _ => None
  }

  ghost predicate CallOk<P>(s: State<P>, pc: Call) {
    && (Known(pc).Some? ==> pc.server in s.table && s.table[pc.server] == Known(pc).value)
    && (pc.Creating? || pc.Installing? ==> pc.server !in s.table)
  }

  ghost predicate Pending<P>(s: State<P>) {
    s.writer.Some? && s.writer.value < |s.calls| && s.calls[s.writer.value].Installing?
  }

  ghost predicate TableOk<P(!new)>(create: string -> P, table: map<string, nat>, objects: seq<P>) {
    && (forall server | server in table :: table[server] < |objects| && objects[table[server]] == create(server))
    && (forall a, b | a in table && b in table && table[a] == table[b] :: a == b)
  }

  /** Every installed object was made for its server, none is installed twice, and
      nothing is made in vain: all objects are installed but the one about to be. */
  ghost predicate ObjectsOk<P(!new)>(create: string -> P, s: State<P>) {
    && TableOk(create, s.table, s.objects)
    && |s.objects| == |s.table| + (if Pending(s) then 1 else 0)
    && (Pending(s) ==>
          && s.calls[s.writer.value].id == |s.objects| - 1
          && s.objects[|s.objects| - 1] == create(s.calls[s.writer.value].server)
          && forall server | server in s.table :: s.table[server] < |s.objects| - 1)
  }

  ghost predicate CallsOk<P>(servers: seq<string>, s: State<P>) {
    && |s.calls| == |servers| && (forall c | 0 <= c < |servers| :: s.calls[c].server == servers[c])
    && (forall c | 0 <= c < |s.calls| :: CallOk(s, s.calls[c]))
    && (forall server | server in s.table :: server in servers)
  }

  ghost predicate Inv<P(!new)>(create: string -> P, servers: seq<string>, s: State<P>) {
    CallsOk(servers, s) && LockOk(s) && ObjectsOk(create, s)
  }

  lemma BeginInv<P(!new)>(create: string -> P, servers: seq<string>)
    ensures Inv(create, servers, Begin(servers))
  {
  }

  lemma LockStep<P(!new)>(create: string -> P, s: State<P>, c: nat)
    requires LockOk(s) && Enabled(s, c)
    ensures LockOk(Next(create, s, c))
  {
  }

  /** The table only gains keys. */
  lemma TableGrows<P(!new)>(create: string -> P, servers: seq<string>, s: State<P>, c: nat)
    requires Inv(create, servers, s) && Enabled(s, c)
    ensures forall server | server in s.table ::
              server in Next(create, s, c).table && Next(create, s, c).table[server] == s.table[server]
  {
    assert CallOk(s, s.calls[c]);
  }

  lemma OthersStayOk<P(!new)>(create: string -> P, servers: seq<string>, s: State<P>, c: nat, d: nat)
    requires Inv(create, servers, s) && Enabled(s, c) && d < |s.calls| && d != c
    ensures CallOk(Next(create, s, c), s.calls[d])
  {
    TableGrows(create, servers, s, c);
    assert CallOk(s, s.calls[d]);
  }

  lemma MoverStaysOk<P(!new)>(create: string -> P, servers: seq<string>, s: State<P>, c: nat)
    requires Inv(create, servers, s) && Enabled(s, c)
    ensures CallOk(Next(create, s, c), Next(create, s, c).calls[c])
  {
    assert CallOk(s, s.calls[c]);
  }

  lemma CallsStep<P(!new)>(create: string -> P, servers: seq<string>, s: State<P>, c: nat)
    requires Inv(create, servers, s) && Enabled(s, c)
    ensures CallsOk(servers, Next(create, s, c))
  {
    var t := Next(create, s, c);
    assert s.calls[c].server == servers[c];
    forall d | 0 <= d < |t.calls| ensures CallOk(t, t.calls[d]) {
      if d == c {
        MoverStaysOk(create, servers, s, c);
      } else {
        OthersStayOk(create, servers, s, c, d);
      }
    }
  }

  lemma InstallInTable<P(!new)>(create: string -> P, table: map<string, nat>, objects: seq<P>, server: string, id: nat)
    requires TableOk(create, table, objects) && server !in table
    requires id < |objects| && objects[id] == create(server) && forall other | other in table :: table[other] < id
    ensures TableOk(create, table[server := id], objects) && |table[server := id]| == |table| + 1
  {
    assert table[server := id].Keys == table.Keys + {server};
  }

  lemma InstallObjects<P(!new)>(create: string -> P, servers: seq<string>, s: State<P>, c: nat)
    requires Inv(create, servers, s) && Enabled(s, c) && s.calls[c].Installing?
    ensures ObjectsOk(create, Next(create, s, c))
  {
    assert CallOk(s, s.calls[c]) && s.writer == Some(c) && Pending(s);
    var t, server, id := Next(create, s, c), s.calls[c].server, s.calls[c].id;
    assert t.table == s.table[server := id] && t.objects == s.objects && !Pending(t);
    InstallInTable(create, s.table, s.objects, server, id);
  }

  lemma ObjectsStep<P(!new)>(create: string -> P, servers: seq<string>, s: State<P>, c: nat)
    requires Inv(create, servers, s) && Enabled(s, c)
    ensures ObjectsOk(create, Next(create, s, c))
  {
    var t := Next(create, s, c);
    if s.calls[c].Installing? {
      InstallObjects(create, servers, s, c);
    } else if s.calls[c].Creating? {
      assert s.writer == Some(c) && !Pending(s) && Pending(t);
    } else {
      assert t.table == s.table && t.objects == s.objects && Pending(t) == Pending(s);
    }
  }

  lemma StepInv<P(!new)>(create: string -> P, servers: seq<string>, s: State<P>, c: nat)
    requires Inv(create, servers, s) && Enabled(s, c)
    ensures Inv(create, servers, Next(create, s, c))
  {
    LockStep(create, s, c);
    CallsStep(create, servers, s, c);
    ObjectsStep(create, servers, s, c);
  }

  lemma {:induction false} RunInv<P(!new)>(create: string -> P, servers: seq<string>, states: seq<State<P>>, who: seq<nat>, i: nat)
    requires IsRun(create, servers, states, who) && i < |states|
    ensures Inv(create, servers, states[i])
  {
    if i == 0 {
      BeginInv(create, servers);
    } else {
      RunInv(create, servers, states, who, i - 1);
      assert states[i - 1 + 1] == Next(create, states[i - 1], who[i - 1]);
      StepInv(create, servers, states[i - 1], who[i - 1]);
    }
  }

  /** No key is ever overwritten or removed. */
  lemma {:induction false} NeverOverwritten<P(!new)>(create: string -> P, servers: seq<string>, states: seq<State<P>>, who: seq<nat>, i: nat, j: nat)
    requires IsRun(create, servers, states, who) && i <= j < |states|
    ensures forall server | server in states[i].table :: server in states[j].table && states[j].table[server] == states[i].table[server]
  {
    if i < j {
      NeverOverwritten(create, servers, states, who, i, j - 1);
      RunInv(create, servers, states, who, j - 1);
      assert states[j - 1 + 1] == Next(create, states[j - 1], who[j - 1]);
      TableGrows(create, servers, states[j - 1], who[j - 1]);
    }
  }

  /** What a call has returned is in the table, now and later. */
  lemma ReturnedStaysInstalled<P(!new)>(create: string -> P, servers: seq<string>, states: seq<State<P>>, who: seq<nat>, i: nat, j: nat, c: nat)
    requires IsRun(create, servers, states, who) && i <= j < |states|
    requires c < |states[i].calls| && states[i].calls[c].Returned?
    ensures c < |servers| && servers[c] in states[j].table && states[j].table[servers[c]] == states[i].calls[c].id
  {
    RunInv(create, servers, states, who, i);
    NeverOverwritten(create, servers, states, who, i, j);
    assert CallOk(states[i], states[i].calls[c]);
  }

  /** At any two moments of a run, calls that have returned got the same object if
      and only if they asked for the same server, and it was made for that server. */
  lemma OneObjectPerServer<P(!new)>(create: string -> P, servers: seq<string>, states: seq<State<P>>, who: seq<nat>, i: nat, j: nat, c: nat, d: nat)
    requires IsRun(create, servers, states, who) && i <= j < |states|
    requires c < |states[i].calls| && states[i].calls[c].Returned?
    requires d < |states[j].calls| && states[j].calls[d].Returned?
    ensures c < |servers| && d < |servers|
    ensures states[i].calls[c].id == states[j].calls[d].id <==> servers[c] == servers[d]
    ensures states[j].calls[d].id < |states[j].objects| && states[j].objects[states[j].calls[d].id] == create(servers[d])
  {
    RunInv(create, servers, states, who, j);
    ReturnedStaysInstalled(create, servers, states, who, i, j, c);
    ReturnedStaysInstalled(create, servers, states, who, j, j, d);
  }

  /** Some call can step until all have returned. */
  lemma NoDeadlock<P(!new)>(create: string -> P, servers: seq<string>, s: State<P>, c: nat) returns (d: nat)
    requires Inv(create, servers, s) && c < |s.calls| && !s.calls[c].Returned?
    ensures Enabled(s, d)
  {
    if s.writer.Some? {
      d := s.writer.value;
    } else if s.readers != {} {
      d :| d in s.readers;
    } else {
      d := c;
    }
  }

  function Rank(pc: Call): nat {
    match pc
    case Starting(_) => 8
    case ReadLocked(_) => 7
    case Looked(_, _) => 6
    case Missed(_) => 5
    case WriteLocked(_) => 4
    case Creating(_) => 3
    case Installing(_, _) => 2
    case Unlocking(_, _) => 1
    case Returned(_, _) => 0
  }

  function Ranks(calls: seq<Call>): nat {
    if calls == [] then 0 else Rank(calls[0]) + Ranks(calls[1..])
  }

  lemma {:induction false} RanksUpdate(calls: seq<Call>, c: nat, pc: Call)
    requires c < |calls|
    ensures Ranks(calls[c := pc]) + Rank(calls[c]) == Ranks(calls) + Rank(pc)
  {
    if c == 0 {
      assert calls[c := pc][1..] == calls[1..];
    } else {
      assert calls[c := pc][1..] == calls[1..][c - 1 := pc];
      RanksUpdate(calls[1..], c - 1, pc);
    }
  }

  lemma {:induction false} RanksAtMost(calls: seq<Call>)
    ensures Ranks(calls) <= 8 * |calls|
  {
    if calls != [] {
      RanksAtMost(calls[1..]);
    }
  }

  lemma RanksFall<P(!new)>(create: string -> P, s: State<P>, c: nat)
    requires Enabled(s, c)
    ensures Ranks(Next(create, s, c).calls) < Ranks(s.calls)
  {
    RanksUpdate(s.calls, c, Next(create, s, c).calls[c]);
  }

  /** Every run of n calls ends within 8n steps. */
  lemma {:induction false} RunsEnd<P(!new)>(create: string -> P, servers: seq<string>, states: seq<State<P>>, who: seq<nat>, i: nat)
    requires IsRun(create, servers, states, who) && i < |states|
    ensures Ranks(states[i].calls) + i <= 8 * |servers|
  {
    if i == 0 {
      RanksAtMost(states[0].calls);
    } else {
      RunsEnd(create, servers, states, who, i - 1);
      assert Enabled(states[i - 1], who[i - 1]) && states[i - 1 + 1] == Next(create, states[i - 1], who[i - 1]);
      RanksFall(create, states[i - 1], who[i - 1]);
    }
  }

  /** When all calls have returned, there is exactly one object per server asked for. */
  lemma NothingMadeInVain<P(!new)>(create: string -> P, servers: seq<string>, s: State<P>)
    requires Inv(create, servers, s) && forall c | 0 <= c < |s.calls| :: s.calls[c].Returned?
    ensures s.table.Keys == set server | server in servers
    ensures |s.objects| == |set server | server in servers| && s.writer == None && s.readers == {}
  {
    forall server | server in servers ensures server in s.table {
      var c :| 0 <= c < |servers| && servers[c] == server;
      assert CallOk(s, s.calls[c]);
    }
    assert s.table.Keys == set server | server in servers;
    forall c ensures c !in s.readers {
      if 0 <= c < |s.calls| {
        assert !Reads(s.calls[c]);
      }
    }
  }

  // ----- breakers

  datatype Breaker = Breaker(name: string, maxRequests: nat, interval: int, timeout: int)

  function MakeBreaker(maxRequests: nat, interval: int, timeout: int): string -> Breaker {
    server => Breaker(server, maxRequests, interval, timeout)
  }

  /** Whatever the interleaving, a call gets the breaker named after its server. */
  lemma BreakerOfServer(servers: seq<string>, maxRequests: nat, interval: int, timeout: int,
                        states: seq<State<Breaker>>, who: seq<nat>, i: nat, c: nat)
    requires IsRun(MakeBreaker(maxRequests, interval, timeout), servers, states, who) && i < |states|
    requires c < |states[i].calls| && states[i].calls[c].Returned?
    ensures var id := states[i].calls[c].id;
      c < |servers| && id < |states[i].objects| && states[i].objects[id] == Breaker(servers[c], maxRequests, interval, timeout)
  {
    OneObjectPerServer(MakeBreaker(maxRequests, interval, timeout), servers, states, who, i, i, c, c);
  }

  /** A breaker or a limiter on the heap. */
  class ServerObject {
    const server: string

    constructor (server: string)
      ensures this.server == server
    {
      this.server := server;
    }
  }

  /** The registry object as one caller sees it. Between releasing the read lock and
      getting the write lock other callers may install objects of their own. */
  class ServerRegistry {
    var table: map<string, ServerObject>

    ghost predicate Valid()
      reads this
    {
      forall server | server in table :: table[server].server == server
    }

    constructor ()
      ensures Valid() && table == map[]
    {
      table := map[];
    }

    /** `getBreakerForServer` and `getLimiterForServer`; `others` is what other
        callers install meanwhile, none of it over an existing key. */
    method GetForServer(server: string, others: map<string, ServerObject>) returns (r: ServerObject)
      requires Valid() && others.Keys !! table.Keys
      requires forall s | s in others :: others[s].server == s
      modifies this
      ensures Valid() && r.server == server
      ensures server in old(table) ==> r == old(table)[server] && table == old(table)
      ensures server !in old(table) && server in others ==> r == others[server] && table == old(table) + others
      ensures server !in old(table) && server !in others ==> fresh(r) && table == (old(table) + others)[server := r]
    {
      if server in table {
        return table[server];
      }
      table := table + others;
      if server in table {
        return table[server];
      }
      r := new ServerObject(server);
      table := table[server := r];
    }
  }
}
