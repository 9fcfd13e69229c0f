/** The events of the resolver and what each of them keeps. */
module ResolverSteps {
  import opened DnsTypes
  import opened Nameservers
  import opened ResponseCache
  import opened ResolverState
  import opened ResolverPlaces
  import CacheLog

  datatype Event =
    | EStart(tid: Tid, name: Name, qtype: int, hasCb: bool, env: TxEnv)
    | ECallHit(tid: Tid)
    | EEndHit(tid: Tid)
    | EPop(p: Ptr)
    | ETimeout(p: Ptr, env: TxEnv)
    | EReceive(addr: int, pkt: Option<Packet>)
    | ECallNext(q: Ptr)
    | ERecycle(q: Ptr)
    | ECancel(p: Ptr, notify: bool)
    | EAddEntry(answer: Packet, setTtl: bool)
    | ETick(to: int)

  /** start_query is about to make a new query: nothing cached, nothing pending to join. */
  predicate MakesQuery(s: State, name: Name, qtype: int)
    requires WellFormed(s)
  {
    ArgError(name, qtype) == SUCCESS && CacheLog.Find(s.cache, InitResKey(qtype, name), s.now).Miss?
    && InitResKey(qtype, name) !in s.byRes
  }

  /** The transaction id and the node of a new query are no longer in use: not by a pending
      query, nor by a timer that fired and whose on_timeout still waits for the mutex. */
  predicate IdAndNodeIdle(s: State) {
    && s.lastId !in s.byId
    && (forall p :: p in s.popped && p in s.nodes ==> s.nodes[p].id != s.lastId)
    && NewNode(s) !in s.popped
  }

  /** The turn of node p in the phase of its root has not come yet. */
  predicate Untold(s: State, q: Ptr, i: nat) {
    q in s.nodes && i < Turns(s, q) && (Pending(s, q) || (q in s.tasks && s.tasks[q].done <= i))
  }

  ghost predicate Cancellable(s: State, p: Ptr)
    requires p in s.nodes
  {
    s.nodes[p].cb.Some? && exists q, i :: Untold(s, q, i) && Slot(s, q, i) == p
  }

  /** What the timer heap, the threads and the application may do. */
  ghost predicate Enabled(s: State, e: Event) {
    WellFormed(s) &&
    match e
    case EStart(t, name, qtype, _, _) => t !in s.hits && (MakesQuery(s, name, qtype) ==> IdAndNodeIdle(s))
    case ECallHit(t) => t in s.hits && !s.hits[t].called
    case EEndHit(t) => t in s.hits && s.hits[t].called
    case EPop(p) => p in s.armed
    case ETimeout(p, _) => p in s.popped && p in s.nodes
    case EReceive(_, _) => true
    case ECallNext(q) => q in s.tasks && s.tasks[q].done < Turns(s, q)
    case ERecycle(q) => q in s.tasks && s.tasks[q].done == Turns(s, q)
    case ECancel(p, _) => p in s.nodes && Cancellable(s, p)
    case EAddEntry(_, _) => true
    case ETick(now') => s.now <= now'
  }

  ghost function Step(s: State, e: Event, st: Settings): State
    requires Enabled(s, e)
  {
    match e
    case EStart(t, name, qtype, hasCb, env) => Start(s, t, name, qtype, hasCb, env, st).0
    case ECallHit(t) => CallHit(s, t)
    case EEndHit(t) => EndHit(s, t)
    case EPop(p) => PopTimer(s, p)
    case ETimeout(p, env) => Timeout(s, p, env, st)
    case EReceive(addr, pkt) => Receive(s, addr, pkt, st)
    case ECallNext(q) => CallNext(s, q)
    case ERecycle(q) => Recycle(s, q, st)
    case ECancel(p, notify) => Cancel(s, p, notify)
    case EAddEntry(pkt, setTtl) => AddEntry(s, pkt, setTtl, st)
    case ETick(now') => s.(now := now')
  }

  // ----- places -----

  /** Nodes change only in their timer id, their transmission count and their callback. */
  ghost predicate SameLinks(s: State, s': State) {
    && s'.nodes.Keys == s.nodes.Keys && s'.next == s.next && s'.free == s.free
    && s'.byId == s.byId && s'.byRes == s.byRes && s'.lastId == s.lastId && s'.tasks.Keys == s.tasks.Keys
    && (forall x :: x in s.nodes ==>
         s'.nodes[x].id == s.nodes[x].id && s'.nodes[x].key == s.nodes[x].key && s'.nodes[x].children == s.nodes[x].children)
    && (forall x :: x in s.tasks && x in s.nodes ==> s'.tasks[x].done <= Turns(s, x))
  }

  lemma LinksKeepRoots(s: State, s': State)
    requires SameLinks(s, s')
    ensures forall x :: Pending(s', x) <==> Pending(s, x)
    ensures forall x :: Root(s', x) <==> Root(s, x)
  {
  }

  lemma LinksKeepShape(s: State, s': State, loc: Places, hole: set<Ptr>)
    requires Shaped(s, loc, hole) && SameLinks(s, s')
    ensures Shaped(s', loc, hole)
  {
    LinksKeepRoots(s, s');
    ShapeKeepsPlaces(s, s', loc, hole);
    LinksKeepTables(s, s');
  }

  lemma LinksKeepTables(s: State, s': State)
    requires TablesAgree(s) && TasksRight(s) && SameLinks(s, s')
    ensures TablesAgree(s') && TasksRight(s')
  {
    LinksKeepRoots(s, s');
  }

  lemma LinksKeepTimers(s: State, s': State, st: Settings)
    requires TimersRight(s, st) && SameLinks(s, s') && s'.armed == s.armed && s'.popped == s.popped
    requires forall x :: x in s.nodes ==> s'.nodes[x].timerId == s.nodes[x].timerId && s'.nodes[x].transmitCnt == s.nodes[x].transmitCnt
    ensures TimersRight(s', st)
  {
    LinksKeepRoots(s, s');
  }

  lemma LinksKeepPlaced(s: State, s': State, loc: Places, st: Settings)
    requires Placed(s, loc, st) && SameLinks(s, s') && s'.armed == s.armed && s'.popped == s.popped
    requires forall x :: x in s.nodes ==> s'.nodes[x].timerId == s.nodes[x].timerId && s'.nodes[x].transmitCnt == s.nodes[x].transmitCnt
    ensures Placed(s', loc, st)
  {
    hide NodesPlaced, FreePlaced, RootsPlaced, TablesAgree, TasksRight, TimersRight;
    LinksKeepShape(s, s', loc, {});
    LinksKeepTimers(s, s', st);
  }

  lemma PopKeepsPlaces(s: State, loc: Places, st: Settings, p: Ptr)
    requires Placed(s, loc, st) && p in s.armed
    ensures Placed(PopTimer(s, p), loc, st)
  {
    hide NodesPlaced, FreePlaced, RootsPlaced;
    LinksKeepShape(s, PopTimer(s, p), loc, {});
    LinksKeepRoots(s, PopTimer(s, p));
  }

  lemma ReceiveKeepsPlaces(s: State, loc: Places, st: Settings, addr: int, pkt: Option<Packet>)
    requires Placed(s, loc, st) && WellFormed(s)
    ensures Placed(Receive(s, addr, pkt, st), loc, st)
  {
    hide NodesPlaced, FreePlaced, RootsPlaced, TasksRight, TimersRight, Report, SameLinks;
    var s0 := s.(ns := Report(s.ns, addr, pkt, s.now, st));
    SameQueriesKeepPlaces(s, s0, loc, st);
    if pkt.Some? && pkt.value.id in s.byId {
      var p := s.byId[pkt.value.id];
      var s1 := s0.(armed := s.armed - {p}, nodes := s.nodes[p := s.nodes[p].(timerId := 0)]);
      SentLinks(s0, s1, p);
      DetachFrom(s0, s1, loc, st, p, Outcome(StatusFromRcode(Rcode(pkt.value)), pkt));
    }
  }

  /** Sending changes the timer id and the transmission count of one node. */
  lemma SentLinks(s: State, s1: State, p: Ptr)
    requires TasksRight(s) && p in s.nodes && p in s1.nodes
    requires s1.nodes == s.nodes[p := s.nodes[p].(timerId := s1.nodes[p].timerId, transmitCnt := s1.nodes[p].transmitCnt)]
    requires s1.next == s.next && s1.free == s.free && s1.byId == s.byId && s1.byRes == s.byRes && s1.lastId == s.lastId && s1.tasks == s.tasks
    ensures SameLinks(s, s1)
  {
  }

  /** A pending query whose timer has been stopped is detached. */
  lemma DetachFrom(s: State, s1: State, loc: Places, st: Settings, p: Ptr, o: Outcome)
    requires Placed(s, loc, st) && Pending(s, p) && SameLinks(s, s1)
    requires s1.armed == s.armed - {p} && (s1.popped == s.popped || s1.popped == s.popped - {p})
    requires forall x :: x in s.nodes && x != p ==> s1.nodes[x] == s.nodes[x]
    ensures Placed(Detach(s1, p, o), loc, st)
  {
    hide NodesPlaced, FreePlaced, RootsPlaced, TablesAgree, TasksRight;
    LinksKeepShape(s, s1, loc, {});
    LinksKeepRoots(s, s1);
    DetachRoots(s1, p, o);
    ShapeKeepsPlaces(s1, Detach(s1, p, o), loc, {});
    DetachKeepsTables(s1, p, o);
    assert ArmedRight(s1) && PoppedRight(s1);
    DetachKeepsTimers(s1, st, p, o);
  }

  lemma TimeoutKeepsPlaces(s: State, loc: Places, st: Settings, p: Ptr, env: TxEnv)
    requires Placed(s, loc, st) && p in s.popped && p in s.nodes
    ensures Placed(Timeout(s, p, env, st), loc, st)
  {
    hide NodesPlaced, FreePlaced, RootsPlaced, TablesAgree, TasksRight, Transmit, Timed, SameLinks;
    var s0 := s.(popped := s.popped - {p});
    if s.nodes[p].id !in s.byId {
      StaleTimeout(s, loc, st, p);
    } else {
      assert Pending(s, p) && p !in s.armed by { assert PoppedRight(s) && ArmedRight(s); }
      var s1 := s0.(nodes := s0.nodes[p := s0.nodes[p].(timerId := 0)]);
      var o := Outcome(ETIMEDOUT, None);
      if s.nodes[p].transmitCnt < st.qretrCount {
        TransmitEffect(s1, p, env, st);
        var (s2, status) := Transmit(s1, p, env, st);
        SentLinks(s, s2, p);
        if status == SUCCESS {
          Retransmitted(s, s2, loc, st, p);
        } else {
          DetachFrom(s, s2, loc, st, p, o);
        }
      } else {
        SentLinks(s, s1, p);
        DetachFrom(s, s1, loc, st, p, o);
      }
    }
  }

  lemma StaleTimeout(s: State, loc: Places, st: Settings, p: Ptr)
    requires Placed(s, loc, st) && p in s.popped && p in s.nodes && s.nodes[p].id !in s.byId
    ensures Placed(s.(popped := s.popped - {p}), loc, st)
  {
    var s0 := s.(popped := s.popped - {p});
    LinksKeepShape(s, s0, loc, {});
    LinksKeepRoots(s, s0);
  }

  lemma Retransmitted(s: State, s2: State, loc: Places, st: Settings, p: Ptr)
    requires Placed(s, loc, st) && Pending(s, p) && p in s.popped && p !in s.armed && s.nodes[p].transmitCnt < st.qretrCount
    requires SameLinks(s, s2) && s2.armed == s.armed + {p} && s2.popped == s.popped - {p}
    requires s2.nodes == s.nodes[p := s.nodes[p].(timerId := 1, transmitCnt := s.nodes[p].transmitCnt + 1)]
    ensures Placed(s2, loc, st)
  {
    LinksKeepShape(s, s2, loc, {});
    RetransmittedTimers(s, s2, st, p);
  }

  lemma RetransmittedTimers(s: State, s2: State, st: Settings, p: Ptr)
    requires TimersRight(s, st) && Pending(s, p) && p in s.popped && p !in s.armed && s.nodes[p].transmitCnt < st.qretrCount
    requires SameLinks(s, s2) && s2.armed == s.armed + {p} && s2.popped == s.popped - {p}
    requires s2.nodes == s.nodes[p := s.nodes[p].(timerId := 1, transmitCnt := s.nodes[p].transmitCnt + 1)]
    ensures TimersRight(s2, st)
  {
    LinksKeepRoots(s, s2);
    hide SameLinks;
  }

  lemma CallNextKeepsPlaces(s: State, loc: Places, st: Settings, q: Ptr)
    requires Placed(s, loc, st) && WellFormed(s) && q in s.tasks && s.tasks[q].done < Turns(s, q)
    ensures Placed(CallNext(s, q), loc, st)
  {
    hide Placed, Pending, SameLinks;
    CallNextLinks(s, loc, st, q);
    LinksKeepPlaced(s, CallNext(s, q), loc, st);
  }

  lemma CallNextLinks(s: State, loc: Places, st: Settings, q: Ptr)
    requires Placed(s, loc, st) && WellFormed(s) && q in s.tasks && s.tasks[q].done < Turns(s, q)
    ensures SameLinks(s, CallNext(s, q))
  {
    hide NodesPlaced, FreePlaced, RootsPlaced, TablesAgree, TimersRight, WellLinked, Slot;
  }

  lemma SilencedLinks(s: State, loc: Places, st: Settings, p: Ptr)
    requires Placed(s, loc, st) && p in s.nodes
    ensures SameLinks(s, s.(nodes := s.nodes[p := s.nodes[p].(cb := None)]))
  {
    hide NodesPlaced, FreePlaced, RootsPlaced, TablesAgree, TimersRight;
  }

  lemma CancelKeepsPlaces(s: State, loc: Places, st: Settings, p: Ptr, notify: bool)
    requires Placed(s, loc, st) && p in s.nodes
    ensures Placed(Cancel(s, p, notify), loc, st)
  {
    hide Placed, SameLinks;
    var s1 := s.(nodes := s.nodes[p := s.nodes[p].(cb := None)]);
    SilencedLinks(s, loc, st, p);
    LinksKeepPlaced(s, s1, loc, st);
    SameQueriesKeepPlaces(s1, Cancel(s, p, notify), loc, st);
  }

  function PlacesAfterStart(s: State, loc: Places, key: Key, cb: Option<Token>, env: TxEnv, st: Settings): Places
    requires forall k :: k in s.byRes ==> s.byRes[k] in s.nodes
  {
    var p := NewNode(s);
    if key in s.byRes then loc[p := At(s.byRes[key], |s.nodes[s.byRes[key]].children| + 1)]
    else if StartMissed(s, key, cb, env, st).1 != SUCCESS then loc[p := InFree]
    else loc[p := At(p, 0)]
  }

  lemma StartMissedKeepsPlaces(s: State, loc: Places, st: Settings, key: Key, cb: Option<Token>, env: TxEnv)
    requires Placed(s, loc, st) && (key !in s.byRes ==> IdAndNodeIdle(s))
    ensures Placed(StartMissed(s, key, cb, env, st).0, PlacesAfterStart(s, loc, key, cb, env, st), st)
  {
    hide Placed, Shaped, TimersRight, StartMissed, IdAndNodeIdle;
    if key in s.byRes {
      JoinedPlaced(s, loc, st, key, cb, env);
    } else {
      NewQueryStarted(s, loc, st, key, cb, env);
    }
  }

  lemma JoinedPlaced(s: State, loc: Places, st: Settings, key: Key, cb: Option<Token>, env: TxEnv)
    requires Placed(s, loc, st) && key in s.byRes
    ensures Placed(StartMissed(s, key, cb, env, st).0, PlacesAfterStart(s, loc, key, cb, env, st), st)
  {
    hide NodesPlaced, FreePlaced, RootsPlaced, TasksRight, TimersRight, Transmit, Root;
    var p, s1, loc1 := NewNode(s), Alloc(s, cb), loc - {NewNode(s)};
    AllocOpensHole(s, loc, st, cb);
    AllocEffect(s, cb);
    var q := s.byRes[key];
    assert Pending(s1, q) && q != p by { assert TablesAgree(s1); }
    PlaceChild(s1, loc1, st, p, q);
    var s2 := s1.(nodes := s1.nodes[q := s1.nodes[q].(children := s1.nodes[q].children + [p])]);
    var place := At(q, |s.nodes[q].children| + 1);
    assert loc1[p := place] == loc[p := place];
    SameQueriesKeepPlaces(s2, Accept(s2, cb), loc[p := place], st);
  }

  lemma NewQueryStarted(s: State, loc: Places, st: Settings, key: Key, cb: Option<Token>, env: TxEnv)
    requires Placed(s, loc, st) && key !in s.byRes && IdAndNodeIdle(s)
    ensures Placed(StartMissed(s, key, cb, env, st).0, PlacesAfterStart(s, loc, key, cb, env, st), st)
  {
    hide NodesPlaced, FreePlaced, RootsPlaced, TasksRight, TimersRight, Transmit, Root;
    var p, loc1 := NewNode(s), loc - {NewNode(s)};
    AllocOpensHole(s, loc, st, cb);
    AllocEffect(s, cb);
    NewQueryPlaced(s, Alloc(s, cb), loc1, st, key, cb, env);
    assert loc1[p := InFree] == loc[p := InFree] && loc1[p := At(p, 0)] == loc[p := At(p, 0)];
  }

  lemma TransmitLinks(s: State, p: Ptr, env: TxEnv, st: Settings)
    requires TasksRight(s) && p in s.nodes && s.nodes[p].timerId == 0
    ensures SameLinks(s, Transmit(s, p, env, st).0)
  {
    TransmitEffect(s, p, env, st);
    hide Transmit;
  }

  lemma NewQueryPlaced(s: State, s1: State, loc1: Places, st: Settings, key: Key, cb: Option<Token>, env: TxEnv)
    requires s1 == Alloc(s, cb) && key !in s.byRes && s.lastId != 0 && IdAndNodeIdle(s)
    requires var p := NewNode(s);
             && Shaped(s1, loc1, {p}) && TimersRight(s1, st) && p in s1.nodes && p !in s1.free && !Root(s1, p) && p !in s1.armed
             && s1.nodes == s.nodes[p := Query(0, 0, NO_KEY, 0, cb, [])]
             && s1.byId == s.byId && s1.byRes == s.byRes && s1.popped == s.popped && s1.lastId == s.lastId
             && (forall k :: k in s.byRes ==> s.byRes[k] in s.nodes)
    ensures var (s', status) := StartMissed(s, key, cb, env, st);
            Placed(s', loc1[NewNode(s) := if status != SUCCESS then InFree else At(NewNode(s), 0)], st)
  {
    hide NodesPlaced, FreePlaced, RootsPlaced, TablesAgree, Root, Transmit, TimersRight, PoppedRight, ArmedRight, Placed, SameLinks;
    var p := NewNode(s);
    var s2 := s1.(nodes := s1.nodes[p := s1.nodes[p].(id := s.lastId, key := key)], lastId := NextId(s.lastId));
    HoleRenamed(s1, s2, loc1, st, p, key);
    TransmitEffect(s2, p, env, st);
    var (s3, status) := Transmit(s2, p, env, st);
    TransmitLinks(s2, p, env, st);
    LinksKeepShape(s2, s3, loc1, {p});
    LinksKeepRoots(s2, s3);
    if status != SUCCESS {
      IdleTimers(s2, s3, st, p);
      PlaceFree(s3, loc1, st, p);
    } else {
      StartedTimers(s2, s3, st, p);
      PlaceRoot(s3, loc1, st, p);
      SameQueriesKeepPlaces(Register(s3, p), Accept(Register(s3, p), cb), loc1[p := At(p, 0)], st);
    }
  }

  /** The node without a place takes its id and key. */
  lemma HoleRenamed(s1: State, s2: State, loc: Places, st: Settings, p: Ptr, key: Key)
    requires Shaped(s1, loc, {p}) && TimersRight(s1, st) && p in s1.nodes && !Root(s1, p)
    requires s1.lastId !in s1.byId
    requires s2 == s1.(nodes := s1.nodes[p := s1.nodes[p].(id := s1.lastId, key := key)], lastId := NextId(s1.lastId))
    ensures Shaped(s2, loc, {p}) && TimersRight(s2, st) && !Root(s2, p)
  {
    hide NodesPlaced, FreePlaced, RootsPlaced, TimersRight, TasksRight, TablesAgree;
    assert forall x :: Pending(s2, x) <==> Pending(s1, x);
    assert forall x :: Root(s2, x) <==> Root(s1, x);
    ShapeKeepsPlaces(s1, s2, loc, {p});
    var s' := s2.(lastId := s1.lastId);
    assert forall x :: Pending(s', x) <==> Pending(s1, x);
    IdleNodesChange(s1, s', st);
    IdleNodesChangeTimers(s1, s2, st);
    NewLastId(s', s2);
  }

  lemma NewLastId(s: State, s': State)
    requires TablesAgree(s) && TasksRight(s) && s' == s.(lastId := NextId(s.lastId))
    ensures TablesAgree(s') && TasksRight(s')
  {
    assert forall x :: Pending(s', x) <==> Pending(s, x);
  }

  lemma IdleTimers(s2: State, s3: State, st: Settings, p: Ptr)
    requires TimersRight(s2, st) && SameLinks(s2, s3) && !Pending(s2, p)
    requires s3.armed == s2.armed && s3.popped == s2.popped && forall x :: x in s2.nodes && x != p ==> s3.nodes[x] == s2.nodes[x]
    ensures TimersRight(s3, st)
  {
    LinksKeepRoots(s2, s3);
  }

  lemma StartedTimers(s2: State, s3: State, st: Settings, p: Ptr)
    requires TimersRight(s2, st) && SameLinks(s2, s3) && !Pending(s2, p)
    requires s3.armed == s2.armed + {p} && s3.popped == s2.popped && forall x :: x in s2.nodes && x != p ==> s3.nodes[x] == s2.nodes[x]
    requires p !in s2.armed
    ensures PoppedRight(s3) && ArmedRight(s3.(armed := s3.armed - {p})) && forall x :: Pending(s3, x) ==> Timed(s3, x, st)
  {
    LinksKeepRoots(s2, s3);
    LinksKeepRoots(s2, s3.(armed := s3.armed - {p}));
  }

  function PlacesAfterStartQuery(s: State, loc: Places, name: Name, qtype: int, hasCb: bool, env: TxEnv, st: Settings): Places
    requires WellFormed(s)
  {
    if ArgError(name, qtype) != SUCCESS then loc
    else
      var key := InitResKey(qtype, name);
      match CacheLog.Find(s.cache, key, s.now)
      case Hit(_, _) => loc
      case Miss(c) => PlacesAfterStart(s.(nextToken := s.nextToken + 1, cache := c), loc, key, if hasCb then Some(s.nextToken) else None, env, st)
  }

  /** Where the nodes are after a step. */
  ghost function PlacesAfter(s: State, loc: Places, e: Event, st: Settings): Places
    requires Enabled(s, e)
  {
    match e
    case EStart(_, name, qtype, hasCb, env) => PlacesAfterStartQuery(s, loc, name, qtype, hasCb, env, st)
    case ERecycle(q) => FreedPlaces(loc, q)
    case _ => loc
  }

  lemma StartKeepsPlaces(s: State, loc: Places, t: Tid, name: Name, qtype: int, hasCb: bool, env: TxEnv, st: Settings)
    requires Placed(s, loc, st) && WellFormed(s) && (MakesQuery(s, name, qtype) ==> IdAndNodeIdle(s))
    ensures Placed(Start(s, t, name, qtype, hasCb, env, st).0, PlacesAfterStartQuery(s, loc, name, qtype, hasCb, env, st), st)
  {
    hide Placed, PlacesAfterStart, StartMissed, Pending, WellLinked, CacheLog.Find, InitResKey, Rcode, StatusFromRcode, Accept, SameQueries;
    if ArgError(name, qtype) == SUCCESS {
      var key := InitResKey(qtype, name);
      var f := CacheLog.Find(s.cache, key, s.now);
      var s0 := s.(nextToken := s.nextToken + 1, cache := f.cache);
      var cb := if hasCb then Some(s.nextToken) else None;
      if f.Hit? {
        HitHasEntry(s.cache, key, s.now);
        HitPlaced(s, loc, st, t, CacheCall(cb, StatusFromRcode(Rcode(f.cache.entries[f.entry].pkt)), f.entry, false), f.cache, cb);
      } else {
        LookedUpPlaced(s, loc, st, f.cache);
        StartMissedKeepsPlaces(s0, loc, st, key, cb, env);
      }
    }
  }

  lemma LookedUpPlaced(s: State, loc: Places, st: Settings, c: Cache)
    requires Placed(s, loc, st)
    ensures Placed(s.(nextToken := s.nextToken + 1, cache := c), loc, st)
  {
    hide Placed;
    SameQueriesKeepPlaces(s, s.(nextToken := s.nextToken + 1, cache := c), loc, st);
  }

  lemma HitPlaced(s: State, loc: Places, st: Settings, t: Tid, call: CacheCall, c: Cache, cb: Option<Token>)
    requires Placed(s, loc, st)
    ensures Placed(Accept(s.(nextToken := s.nextToken + 1, cache := c, hits := s.hits[t := call]), cb), loc, st)
  {
    hide Placed;
    SameQueriesKeepPlaces(s, Accept(s.(nextToken := s.nextToken + 1, cache := c, hits := s.hits[t := call]), cb), loc, st);
  }

  lemma HitHasEntry(c: Cache, key: Key, now: int)
    requires WellLinked(c) && CacheLog.Find(c, key, now).Hit?
    ensures var f := CacheLog.Find(c, key, now); f.entry in f.cache.entries
  {
  }

  lemma EndKeepsPlaces(s: State, loc: Places, st: Settings, q: Ptr)
    requires Placed(s, loc, st) && WellFormed(s) && q in s.tasks
    ensures Placed(Recycle(s, q, st), FreedPlaces(loc, q), st)
  {
    hide Placed, FreedPlaces, Updated, WellLinked, Calls;
    var s0 := if s.tasks[q].outcome.pkt.Some? then s else TimerCleared(s, q);
    ClearKeepsPlaces(s, loc, st, q);
    RecycleKeepsPlaces(s0, loc, st, q);
    SameQueriesKeepPlaces(Freed(s0, q), Recycle(s, q, st), FreedPlaces(loc, q), st);
  }

  /** The timer id of a detached query says nothing. */
  lemma ClearKeepsPlaces(s: State, loc: Places, st: Settings, q: Ptr)
    requires Placed(s, loc, st) && q in s.tasks && q in s.nodes
    ensures Placed(TimerCleared(s, q), loc, st)
  {
    hide NodesPlaced, FreePlaced, RootsPlaced, TablesAgree;
    LinksKeepShape(s, TimerCleared(s, q), loc, {});
    LinksKeepRoots(s, TimerCleared(s, q));
  }

  lemma QuietStepSame(s: State, e: Event, st: Settings)
    requires Enabled(s, e) && (e.ECallHit? || e.EEndHit? || e.EAddEntry? || e.ETick?)
    ensures SameQueries(s, Step(s, e, st))
  {
    hide WellLinked, CallHit, EndHit, AddEntry;
    if e.ECallHit? {
      CallHitSame(s, e.tid);
    } else if e.EEndHit? {
      EndHitSame(s, e.tid);
    } else if e.EAddEntry? {
      AddEntrySame(s, e.answer, e.setTtl, st);
    }
  }

  lemma CallHitSame(s: State, t: Tid)
    requires t in s.hits && s.hits[t].entry in s.cache.entries
    ensures SameQueries(s, CallHit(s, t))
  {
  }

  lemma EndHitSame(s: State, t: Tid)
    requires t in s.hits && s.hits[t].entry in s.cache.entries
    ensures SameQueries(s, EndHit(s, t))
  {
  }

  lemma AddEntrySame(s: State, pkt: Packet, setTtl: bool, st: Settings)
    requires WellLinked(s.cache)
    ensures SameQueries(s, AddEntry(s, pkt, setTtl, st))
  {
    hide Updated, InitResKey, WellLinked;
  }

  lemma QuietStepKeepsPlaces(s: State, loc: Places, e: Event, st: Settings)
    requires Placed(s, loc, st) && Enabled(s, e) && (e.ECallHit? || e.EEndHit? || e.EAddEntry? || e.ETick?)
    ensures Placed(Step(s, e, st), loc, st)
  {
    hide WellFormed, Placed, Updated, WellLinked, SameQueries, Step;
    QuietStepSame(s, e, st);
    SameQueriesKeepPlaces(s, Step(s, e, st), loc, st);
  }

  lemma StepKeepsPlaces(s: State, loc: Places, e: Event, st: Settings)
    requires Placed(s, loc, st) && Enabled(s, e)
    ensures Placed(Step(s, e, st), PlacesAfter(s, loc, e, st), st)
  {
    hide WellFormed, Placed, PlacesAfterStartQuery, CallHit, EndHit, AddEntry, Recycle, Start, Receive, FreedPlaces, WellLinked, Timeout, CallNext, Cancel, PopTimer, Updated, Untold, Cancellable, IdAndNodeIdle, MakesQuery;
    match e
    case EStart(t, name, qtype, hasCb, env) => StartKeepsPlaces(s, loc, t, name, qtype, hasCb, env, st);
    case EPop(p) => PopKeepsPlaces(s, loc, st, p);
    case ETimeout(p, env) => TimeoutKeepsPlaces(s, loc, st, p, env);
    case EReceive(addr, pkt) => ReceiveKeepsPlaces(s, loc, st, addr, pkt);
    case ECallNext(q) => CallNextKeepsPlaces(s, loc, st, q);
    case ERecycle(q) => EndKeepsPlaces(s, loc, st, q);
    case ECancel(p, notify) => CancelKeepsPlaces(s, loc, st, p, notify);
    case _ => QuietStepKeepsPlaces(s, loc, e, st);
  }
}
