/** The asynchronous resolver as a state machine (resolver.c). Each region that holds the
    mutex is one step; while the mutex is released to call the application, each callback
    is a step of its own. Pointers are numbers, hash tables are maps, lists are sequences. */
module ResolverState {
  import opened DnsTypes
  import opened Nameservers
  import opened ResponseCache
  import CacheLog

  type Ptr = nat
  /** One call of start_query: the application data its callback is given. */
  type Token = nat
  /** A thread of control inside start_query. */
  type Tid = nat

  const EINVAL := 70004
  const ENAMETOOLONG := 70005
  const ETIMEDOUT := 70009
  const EINVALIDOP := 70013
  const ECANCELLED := 70014
  const ENONS := 320045            // PJLIB_UTIL_EDNSNONS
  const ENOWORKINGNS := 320046     // PJLIB_UTIL_EDNSNOWORKINGNS

  /** pj_dns_async_query. */
  datatype Query = Query(id: nat, transmitCnt: nat, key: Key, timerId: nat, cb: Option<Token>, children: seq<Ptr>)

  /** What a callback is told. */
  datatype Outcome = Outcome(status: nat, pkt: Option<Packet>)

  /** The unlocked phase of on_timeout or on_read_complete for one detached query: done
      counts the query and its children already visited. */
  datatype Task = Task(outcome: Outcome, done: nat)

  /** The unlocked phase of start_query after a cache hit. */
  datatype CacheCall = CacheCall(cb: Option<Token>, status: nat, entry: nat, called: bool)

  datatype State = State(
    nodes: map<Ptr, Query>,
    next: Ptr,                      // pool: the next node never used so far
    free: seq<Ptr>,                 // query_free_nodes
    byId: map<nat, Ptr>,            // hquerybyid
    byRes: map<Key, Ptr>,           // hquerybyres
    tasks: map<Ptr, Task>,
    armed: set<Ptr>,                // entries in the timer heap
    popped: set<Ptr>,               // entries taken from the heap whose on_timeout has not got the mutex yet
    lastId: nat,
    cache: Cache,
    hits: map<Tid, CacheCall>,
    ns: seq<Nameserver>,
    now: int,
    // history
    nextToken: Token,
    accepted: set<Token>,           // start_query returned PJ_SUCCESS
    silenced: set<Token>,           // cancelled without notification
    calls: map<Token, seq<Outcome>>,
    log: seq<Update>)

  function Calls(s: State, t: Token): seq<Outcome> {
    if t in s.calls then s.calls[t] else []
  }

  function Notify(s: State, cb: Option<Token>, o: Outcome): State {
    match cb
    case None => s
    case Some(t) => s.(calls := s.calls[t := Calls(s, t) + [o]])
  }

  function Accept(s: State, cb: Option<Token>): State {
    match cb
    case None => s
    case Some(t) => s.(accepted := s.accepted + {t})
  }

  // ----- transmit_query -----

  datatype SendResult = NoSocket | Failed | Sent

  /** What the timer heap and the sockets do during one transmit_query. */
  datatype TxEnv = TxEnv(scheduleOk: bool, busy: bool, send: map<nat, SendResult>)

  function SendTo(env: TxEnv, server: nat): SendResult {
    if server in env.send then env.send[server] else NoSocket
  }

  predicate AnySent(env: TxEnv, servers: seq<nat>) {
    exists i :: 0 <= i < |servers| && SendTo(env, servers[i]) == Sent
  }

  /** Each server written to starts measuring its response time, unless it already is. */
  function MarkSent(nss: seq<Nameserver>, servers: seq<nat>, env: TxEnv, id: nat, now: int): (r: seq<Nameserver>)
    ensures |r| == |nss|
  {
    seq(|nss|, i requires 0 <= i < |nss| =>
      if i in servers && SendTo(env, i) != NoSocket && nss[i].qId == 0 then nss[i].(qId := id, sentTime := now) else nss[i])
  }

  /** The part of transmit_query after the nameservers are chosen; the precondition is its
      assertion on the timer id. */
  function SendQuery(s: State, p: Ptr, servers: seq<nat>, env: TxEnv): (State, nat)
    requires p in s.nodes && s.nodes[p].timerId == 0
  {
    var q := s.nodes[p].(timerId := 1);
    var s2 := s.(nodes := s.nodes[p := q]);
    var s3 := s.(nodes := s.nodes[p := q.(transmitCnt := q.transmitCnt + 1)], armed := s.armed + {p});
    if !env.scheduleOk || p in s.armed then (s2, EINVALIDOP)
    else if env.busy then (s3, SUCCESS)
    else
      var ns := MarkSent(s.ns, servers, env, q.id, s.now);
      if AnySent(env, servers) then (s3.(ns := ns), SUCCESS) else (s2.(ns := ns), ENOWORKINGNS)
  }

  function Transmit(s: State, p: Ptr, env: TxEnv, st: Settings): (State, nat)
    requires p in s.nodes && s.nodes[p].timerId == 0
  {
    if s.ns == [] then (s, ENONS)
    else
      var sel := Select(s.ns, MAX_NS, s.now, st);
      var s1 := s.(ns := sel.nss);
      if sel.servers == [] then (s1, ENOWORKINGNS) else SendQuery(s1, p, sel.servers, env)
  }

  // ----- start_query -----

  const NO_KEY := Key(0, Zeros(MAX_HOSTNAME))

  function NewNode(s: State): Ptr {
    if s.free != [] then s.free[0] else s.next
  }

  /** alloc_qnode. */
  function Alloc(s: State, cb: Option<Token>): State {
    var s' := s.(nodes := s.nodes[NewNode(s) := Query(0, 0, NO_KEY, 0, cb, [])]);
    if s.free != [] then s'.(free := s.free[1..]) else s'.(next := s.next + 1)
  }

  function NextId(id: nat): nat {
    if id + 1 == 0x1_0000 then 1 else id + 1
  }

  function ArgError(name: Name, qtype: int): nat {
    if qtype == 0 then EINVAL
    else if !(0 < |name| < MAX_HOSTNAME) then ENAMETOOLONG
    else if !(0 < qtype < 0xFFFF) then EINVAL
    else SUCCESS
  }

  predicate WellFormed(s: State) {
    && WellLinked(s.cache)
    && (forall k :: k in s.byRes ==> s.byRes[k] in s.nodes)
    && (forall i :: i in s.byId ==> s.byId[i] in s.nodes)
    && (forall q :: q in s.tasks ==> q in s.nodes && s.tasks[q].done <= |s.nodes[q].children| + 1)
    && (forall q :: q in s.tasks ==> forall i :: 0 <= i < |s.nodes[q].children| ==> s.nodes[q].children[i] in s.nodes)
    && (forall h :: h in s.hits ==> s.hits[h].entry in s.cache.entries)
  }

  /** start_query up to the point where it releases the mutex. */
  function Start(s: State, tid: Tid, name: Name, qtype: int, hasCb: bool, env: TxEnv, st: Settings): (State, nat)
    requires WellFormed(s)
  {
    if ArgError(name, qtype) != SUCCESS then (s, ArgError(name, qtype))
    else
      var key := InitResKey(qtype, name);
      var cb := if hasCb then Some(s.nextToken) else None;
      var s0 := s.(nextToken := s.nextToken + 1);
      match CacheLog.Find(s.cache, key, s.now)
      case Hit(e, c) =>
        var call := CacheCall(cb, StatusFromRcode(Rcode(c.entries[e].pkt)), e, false);
        (Accept(s0.(cache := c, hits := s.hits[tid := call]), cb), SUCCESS)
      case Miss(c) => StartMissed(s0.(cache := c), key, cb, env, st)
  }

  /** Another request for a pending key: its node becomes a child. */
  function Join(s: State, p: Ptr, q: Ptr, cb: Option<Token>): State
    requires q in s.nodes
  {
    Accept(s.(nodes := s.nodes[q := s.nodes[q].(children := s.nodes[q].children + [p])]), cb)
  }

  /** A new query in the allocated node p. */
  function Begin(s: State, p: Ptr, key: Key, cb: Option<Token>, env: TxEnv, st: Settings): (State, nat)
    requires p in s.nodes && s.nodes[p].timerId == 0
  {
    var s2 := s.(nodes := s.nodes[p := s.nodes[p].(id := s.lastId, key := key)], lastId := NextId(s.lastId));
    var (s3, status) := Transmit(s2, p, env, st);
    if status != SUCCESS then (s3.(free := s3.free + [p]), status)
    else (Accept(s3.(byId := s3.byId[s.lastId := p], byRes := s3.byRes[key := p]), cb), SUCCESS)
  }

  function StartMissed(s: State, key: Key, cb: Option<Token>, env: TxEnv, st: Settings): (State, nat)
    requires forall k :: k in s.byRes ==> s.byRes[k] in s.nodes
  {
    var p, s1 := NewNode(s), Alloc(s, cb);
    if key in s.byRes then (Join(s1, p, s.byRes[key], cb), SUCCESS) else Begin(s1, p, key, cb, env, st)
  }

  /** The callback of a cache hit, outside the mutex. */
  function CallHit(s: State, t: Tid): State
    requires t in s.hits && s.hits[t].entry in s.cache.entries
  {
    var h := s.hits[t];
    Notify(s.(hits := s.hits[t := h.(called := true)]), h.cb, Outcome(h.status, Some(s.cache.entries[h.entry].pkt)))
  }

  /** The rest of start_query after the callback of a cache hit. */
  function EndHit(s: State, t: Tid): State
    requires t in s.hits && s.hits[t].entry in s.cache.entries
  {
    s.(cache := Release(s.cache, s.hits[t].entry), hits := s.hits - {t})
  }

  // ----- timers and answers -----

  function PopTimer(s: State, p: Ptr): State {
    s.(armed := s.armed - {p}, popped := s.popped + {p})
  }

  /** Removes a query from both tables and opens the unlocked phase in which it and its
      children are told the outcome. */
  function Detach(s: State, p: Ptr, o: Outcome): State
    requires p in s.nodes
  {
    s.(byId := s.byId - {s.nodes[p].id}, byRes := s.byRes - {s.nodes[p].key}, tasks := s.tasks[p := Task(o, 0)])
  }

  /** on_timeout up to the point where it releases the mutex. */
  function Timeout(s: State, p: Ptr, env: TxEnv, st: Settings): State
    requires p in s.nodes
  {
    var s0 := s.(popped := s.popped - {p});
    if s.nodes[p].id !in s.byId then s0
    else
      var s1 := s0.(nodes := s.nodes[p := s.nodes[p].(timerId := 0)]);
      if s.nodes[p].transmitCnt < st.qretrCount then
        var (s2, status) := Transmit(s1, p, env, st);
        if status == SUCCESS then s2 else Detach(s2, p, Outcome(ETIMEDOUT, None))
      else Detach(s1, p, Outcome(ETIMEDOUT, None))
  }

  /** report_nameserver_status: the first nameserver with this address. */
  function Report(nss: seq<Nameserver>, addr: int, pkt: Option<Packet>, now: int, st: Settings): (r: seq<Nameserver>)
    ensures |r| == |nss|
  {
    if nss == [] then []
    else if nss[0].addr != addr then [nss[0]] + Report(nss[1..], addr, pkt, now, st)
    else
      var n := if pkt.Some? && pkt.value.id == nss[0].qId then nss[0].(rtDelay := now - nss[0].sentTime, qId := 0) else nss[0];
      var bad := pkt.None? || Rcode(pkt.value) == RCODE_REFUSED || Rcode(pkt.value) == RCODE_NOTAUTH;
      [Entered(n, if bad then Bad else Active, now, st)] + nss[1..]
  }

  /** on_read_complete up to the point where it releases the mutex; None is a packet that
      does not parse. */
  function Receive(s: State, addr: int, pkt: Option<Packet>, st: Settings): State
    requires WellFormed(s)
  {
    var s0 := s.(ns := Report(s.ns, addr, pkt, s.now, st));
    if pkt.None? || pkt.value.id !in s.byId then s0
    else
      var p := s.byId[pkt.value.id];
      var s1 := s0.(armed := s.armed - {p}, nodes := s.nodes[p := s.nodes[p].(timerId := 0)]);
      Detach(s1, p, Outcome(StatusFromRcode(Rcode(pkt.value)), pkt))
  }

  /** The nodes told in the unlocked phase for q: q itself, then its children in order. */
  function Slot(s: State, q: Ptr, i: nat): Ptr
    requires q in s.nodes && i <= |s.nodes[q].children|
  {
    if i == 0 then q else s.nodes[q].children[i - 1]
  }

  /** The next callback of the unlocked phase for q. */
  function CallNext(s: State, q: Ptr): State
    requires WellFormed(s) && q in s.tasks && s.tasks[q].done <= |s.nodes[q].children|
  {
    var task := s.tasks[q];
    Notify(s.(tasks := s.tasks[q := task.(done := task.done + 1)]), s.nodes[Slot(s, q, task.done)].cb, task.outcome)
  }

  function TimerCleared(s: State, q: Ptr): State
    requires q in s.nodes
  {
    s.(nodes := s.nodes[q := s.nodes[q].(timerId := 0)])
  }

  /** The end of on_timeout or on_read_complete: an answer is cached, or the timer id cleared,
      then the children and the query go to the free list. */
  function Recycle(s: State, q: Ptr, st: Settings): State
    requires WellFormed(s) && q in s.tasks
  {
    var o := s.tasks[q].outcome;
    var s1 := if o.pkt.Some? then Store(s, Update(s.nodes[q].key, o.status, true, o.pkt.value, s.now), st) else TimerCleared(s, q);
    s1.(tasks := s.tasks - {q}, free := s.free + s.nodes[q].children + [q])
  }

  function Store(s: State, u: Update, st: Settings): State
    requires WellLinked(s.cache)
  {
    s.(cache := Updated(s.cache, u, st.cacheMaxTtl), log := s.log + [u])
  }

  // ----- the other entry points -----

  /** cancel_query; the application is called under the mutex. */
  function Cancel(s: State, p: Ptr, notify: bool): State
    requires p in s.nodes
  {
    var cb := s.nodes[p].cb;
    var s1 := s.(nodes := s.nodes[p := s.nodes[p].(cb := None)]);
    if notify then Notify(s1, cb, Outcome(ECANCELLED, None))
    else if cb.Some? then s1.(silenced := s.silenced + {cb.value}) else s1
  }

  /** add_entry; packets that it refuses leave the resolver as it was. */
  function AddEntry(s: State, pkt: Packet, setTtl: bool, st: Settings): State
    requires WellLinked(s.cache)
  {
    if pkt.flags / 0x8000 % 2 == 0 || (pkt.ans == [] && pkt.q == []) then s
    else
      var (name, t) := if pkt.ans != [] then (pkt.ans[0].name, pkt.ans[0].rtype) else (pkt.q[0].name, pkt.q[0].qtype);
      if |name| >= MAX_HOSTNAME then s
      else Store(s, Update(InitResKey(t, name), SUCCESS, setTtl, pkt, s.now), st)
  }
}
