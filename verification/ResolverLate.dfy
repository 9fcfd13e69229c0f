/** How a timer can fire too late for its query (resolver.c): the timer heap takes an entry out
    before on_timeout gets the mutex, and an answer in between sends the node to the free list. */
module ResolverLate {
  import opened DnsTypes
  import opened Nameservers
  import opened ResponseCache
  import opened ResolverState
  import opened ResolverPlaces
  import opened ResolverSteps
  import opened ResolverRuns
  import opened ResolverTheorems
  import opened ResolverTokens
  import ServerTimes
  import CacheLog

  lemma ReachableOn(s: State, e: Event, st: Settings)
    requires Reachable(s, st) && Enabled(s, e)
    ensures Reachable(Step(s, e, st), st) && WellFormed(Step(s, e, st))
  {
    hide Enabled, Step, Run, InvariantBy;
    var ns, now, es :| Run(Init(ns, now), es, s, st);
    RunOn(Init(ns, now), es, s, e, st);
    var _, _ := ReachableInvariant(Step(s, e, st), st);
  }

  /** What is left after a query without children was answered between the expiry of its timer
      and its on_timeout. */
  predicate LeftBehind(s: State, s': State, p: Ptr)
    requires p in s.nodes
  {
    && s'.free == s.free + [p] && s'.popped == s.popped + {p} && s'.armed == s.armed - {p}
    && s'.byRes == s.byRes - {s.nodes[p].key} && s'.ns == s.ns && s'.now == s.now
  }

  /** The events: the timer expires, the answer comes, its callback runs, the node is recycled. */
  function LateEvents(p: Ptr, addr: int, pkt: Packet): seq<Event> {
    [EPop(p), EReceive(addr, Some(pkt)), ECallNext(p), ERecycle(p)]
  }

  lemma AnswerLeavesTimer(s: State, st: Settings, p: Ptr, addr: int, pkt: Packet) returns (s': State)
    requires Reachable(s, st) && Pending(s, p) && p in s.armed && s.nodes[p].children == []
    requires pkt.id == s.nodes[p].id && forall i :: 0 <= i < |s.ns| ==> s.ns[i].addr != addr
    ensures Run(s, LateEvents(p, addr, pkt), s', st) && Reachable(s', st) && LeftBehind(s, s', p)
  {
    hide Reachable, Enabled, Run, Step, InvariantBy, Receive, CallNext, Recycle, PopTimer, LeftBehind, WellFormed;
    var e0, e1, e2, e3 := EPop(p), EReceive(addr, Some(pkt)), ECallNext(p), ERecycle(p);
    var _, _ := ReachableInvariant(s, st);
    var s1 := PopTimer(s, p);
    PopIs(s, p, st);
    ReachableOn(s, e0, st);
    ReceiveIs(s1, addr, pkt, st);
    ReachableOn(s1, e1, st);
    var s2 := Receive(s1, addr, Some(pkt), st);
    AfterReceive(s, p, addr, pkt, st);
    CallNextIs(s2, p, st);
    ReachableOn(s2, e2, st);
    var s3 := CallNext(s2, p);
    AfterCallback(s2, p);
    RecycleIs(s3, p, st);
    ReachableOn(s3, e3, st);
    s' := Recycle(s3, p, st);
    AfterRecycle(s, s3, p, st);
    FourSteps(s, e0, e1, e2, e3, st);
  }

  /** The fields that matter here. */
  predicate SameBut(s: State, s': State, p: Ptr)
    requires p in s.nodes
  {
    && s'.free == s.free && s'.popped == s.popped + {p} && s'.armed == s.armed - {p}
    && s'.byRes == s.byRes - {s.nodes[p].key} && s'.ns == s.ns && s'.now == s.now
    && p in s'.nodes && s'.nodes[p].children == []
  }

  lemma AfterReceive(s: State, p: Ptr, addr: int, pkt: Packet, st: Settings)
    requires Pending(s, p) && s.nodes[p].children == [] && pkt.id == s.nodes[p].id && forall i :: 0 <= i < |s.ns| ==> s.ns[i].addr != addr
    requires WellFormed(PopTimer(s, p))
    ensures var s2 := Receive(PopTimer(s, p), addr, Some(pkt), st); SameBut(s, s2, p) && p in s2.tasks && s2.tasks[p].done == 0
  {
    hide Report, WellFormed;
    ServerTimes.UnknownSender(s.ns, addr, Some(pkt), s.now, st);
  }

  lemma AfterCallback(s: State, p: Ptr)
    requires WellFormed(s) && p in s.tasks && p in s.nodes && s.nodes[p].children == [] && s.tasks[p].done == 0
    ensures var s3 := CallNext(s, p);
            && s3.free == s.free && s3.popped == s.popped && s3.armed == s.armed && s3.byRes == s.byRes && s3.ns == s.ns && s3.now == s.now
            && s3.nodes == s.nodes && p in s3.tasks && s3.tasks[p].done == 1 && Turns(s3, p) == 1
  {
  }

  lemma AfterRecycle(s: State, s3: State, p: Ptr, st: Settings)
    requires p in s.nodes && SameBut(s, s3, p) && WellFormed(s3) && p in s3.tasks
    ensures LeftBehind(s, Recycle(s3, p, st), p)
  {
    hide Updated;
  }

  lemma PopIs(s: State, p: Ptr, st: Settings)
    requires WellFormed(s) && p in s.armed
    ensures Enabled(s, EPop(p)) && Step(s, EPop(p), st) == PopTimer(s, p)
  {
  }

  lemma ReceiveIs(s: State, addr: int, pkt: Packet, st: Settings)
    requires WellFormed(s)
    ensures Enabled(s, EReceive(addr, Some(pkt))) && Step(s, EReceive(addr, Some(pkt)), st) == Receive(s, addr, Some(pkt), st)
  {
  }

  lemma CallNextIs(s: State, p: Ptr, st: Settings)
    requires WellFormed(s) && p in s.tasks && s.tasks[p].done < Turns(s, p)
    ensures Enabled(s, ECallNext(p)) && Step(s, ECallNext(p), st) == CallNext(s, p)
  {
  }

  lemma RecycleIs(s: State, p: Ptr, st: Settings)
    requires WellFormed(s) && p in s.tasks && s.tasks[p].done == Turns(s, p)
    ensures Enabled(s, ERecycle(p)) && Step(s, ERecycle(p), st) == Recycle(s, p, st)
  {
  }

  lemma FourSteps(s: State, e0: Event, e1: Event, e2: Event, e3: Event, st: Settings)
    requires Enabled(s, e0)
    requires var s1 := Step(s, e0, st); Enabled(s1, e1) && var s2 := Step(s1, e1, st); Enabled(s2, e2) && Enabled(Step(s2, e2, st), e3)
    ensures Run(s, [e0, e1, e2, e3], Step(Step(Step(Step(s, e0, st), e1, st), e2, st), e3, st), st)
  {
    hide Enabled, Step;
    var s1 := Step(s, e0, st);
    var s2 := Step(s1, e1, st);
    var s3 := Step(s2, e2, st);
    var s4 := Step(s3, e3, st);
    assert Run(s4, [], s4, st);
    assert [e3][1..] == [] && Run(s3, [e3], s4, st);
    assert [e2, e3][1..] == [e3] && Run(s2, [e2, e3], s4, st);
    assert [e1, e2, e3][1..] == [e2, e3] && Run(s1, [e1, e2, e3], s4, st);
    assert [e0, e1, e2, e3][1..] == [e1, e2, e3];
  }

  // ----- a run that gets there -----

  /** One nameserver, active and not due for a check. */
  predicate Healthy(s: State) {
    |s.ns| == 1 && s.ns[0].health == Active && s.ns[0].expiry > s.now
  }

  /** The timer starts, and the socket is busy: the query counts as transmitted. */
  predicate Unhindered(env: TxEnv) {
    env.scheduleOk && env.busy
  }

  lemma TransmitsNow(s: State, p: Ptr, env: TxEnv, st: Settings)
    requires Healthy(s) && Unhindered(env) && p in s.nodes && s.nodes[p].timerId == 0 && p !in s.armed
    ensures Transmit(s, p, env, st).1 == SUCCESS && Transmit(s, p, env, st).0.ns == s.ns
  {
    SelectionIsRight(s.ns, MAX_NS, s.now, st);
    assert Quickest(s.ns) == 0;
    assert Select(s.ns, MAX_NS, s.now, st).nss == s.ns;
  }

  lemma StartsNow(s: State, key: Key, cb: Option<Token>, env: TxEnv, st: Settings)
    requires Healthy(s) && Unhindered(env) && key !in s.byRes && (forall k :: k in s.byRes ==> s.byRes[k] in s.nodes) && NewNode(s) !in s.armed
    ensures var (s', status) := StartMissed(s, key, cb, env, st);
            status == SUCCESS && s'.ns == s.ns && s'.now == s.now && s'.popped == s.popped && (s.free == [] ==> s'.free == [])
  {
    hide Transmit, Healthy;
    var p, s1 := NewNode(s), Alloc(s, cb);
    AllocEffect(s, cb);
    var s2 := s1.(nodes := s1.nodes[p := s1.nodes[p].(id := s.lastId, key := key)], lastId := NextId(s.lastId));
    SameHealth(s, s2);
    TransmitsNow(s2, p, env, st);
    TransmitEffect(s2, p, env, st);
  }

  lemma SameHealth(s: State, s': State)
    requires Healthy(s) && s'.ns == s.ns && s'.now == s.now
    ensures Healthy(s')
  {
  }

  lemma FirstStart(n: Nameserver, now: int, st: Settings, name: Name, qtype: nat, env: TxEnv) returns (s: State)
    requires n.health == Active && n.expiry > now && ArgError(name, qtype) == SUCCESS && Unhindered(env)
    ensures var e := EStart(0, name, qtype, true, env);
            && Enabled(Init([n], now), e) && s == Step(Init([n], now), e, st) && Reachable(s, st)
            && Healthy(s) && s.ns == [n] && s.now == now && s.free == [] && s.popped == {} && s.armed == {0}
            && 0 in s.nodes && s.nodes[0] == Query(1, 1, InitResKey(qtype, name), 1, Some(0), []) && Pending(s, 0)
            && s.byRes == map[InitResKey(qtype, name) := 0]
  {
    hide StartMissed, Reachable, InitResKey;
    var s0 := Init([n], now);
    var key := InitResKey(qtype, name);
    assert Run(s0, [], s0, st);
    assert Reachable(s0, st) by { InitReachable(n, now, st); }
    var _, _ := ReachableInvariant(s0, st);
    var s1 := s0.(nextToken := 1, cache := EMPTY);
    assert CacheLog.Find(s0.cache, key, now) == CacheLog.Miss(EMPTY);
    StartsNow(s1, key, Some(0), env, st);
    StartedNew(s1, key, Some(0), env, st);
    ReachableOn(s0, EStart(0, name, qtype, true, env), st);
    s := StartMissed(s1, key, Some(0), env, st).0;
  }

  lemma InitReachable(n: Nameserver, now: int, st: Settings)
    ensures Reachable(Init([n], now), st)
  {
    assert Run(Init([n], now), [], Init([n], now), st);
  }

  /** For all settings: a query is started, its timer expires, its answer comes before on_timeout
      has the mutex, and its node is recycled; the next query for another key takes that node, and
      the late on_timeout reports it timed out while its own timer is still running. */
  lemma LateTimeoutHappens(st: Settings, n: Nameserver, now: int, name: Name, qtype: nat, pkt: Packet, env: TxEnv,
      key: Key, cb: Option<Token>, env': TxEnv) returns (s: State)
    requires n.health == Active && n.expiry > now && ArgError(name, qtype) == SUCCESS && Unhindered(env)
    requires pkt.id == 1 && key != InitResKey(qtype, name)
    ensures Run(Init([n], now), [EStart(0, name, qtype, true, env)] + LateEvents(0, n.addr + 1, pkt), s, st) && Reachable(s, st)
    ensures s.byRes == map[] && NewNode(s) == 0 && 0 in s.popped && StartMissed(s, key, cb, env, st).1 == SUCCESS
    ensures var s' := StartMissed(s, key, cb, env, st).0;
            && 0 in s'.nodes && s'.nodes[0].cb == cb && Pending(s', 0)
            && var s'' := Timeout(s', 0, env', st);
            0 in s''.tasks && s''.tasks[0] == Task(Outcome(ETIMEDOUT, None), 0) && 0 in s''.armed
  {
    hide StartMissed, Reachable, InitResKey, Enabled, Step, Run, InvariantBy, Timeout, LateEvents;
    var s1 := FirstStart(n, now, st, name, qtype, env);
    s := AnswerLeavesTimer(s1, st, 0, n.addr + 1, pkt);
    FirstThen(Init([n], now), EStart(0, name, qtype, true, env), LateEvents(0, n.addr + 1, pkt), s, st);
    SameHealth(s1, s);
    var loc, own := ReachableInvariant(s, st);
    assert s.free == [0] && s.byRes == map[];
    StartsNow(s, key, cb, env, st);
    StartedNew(s, key, cb, env, st);
    InvariantPlaced(s, loc, own, st);
    LateTimeoutHitsNewQuery(s, loc, st, key, cb, env, env');
  }

  lemma InvariantPlaced(s: State, loc: Places, own: Owners, st: Settings)
    requires InvariantBy(s, loc, own, st)
    ensures Placed(s, loc, st)
  {
  }

  lemma FirstThen(s: State, e: Event, es: seq<Event>, s': State, st: Settings)
    requires Enabled(s, e) && Run(Step(s, e, st), es, s', st)
    ensures Run(s, [e] + es, s', st)
  {
    hide Enabled, Step;
    assert ([e] + es)[1..] == es;
  }
}
