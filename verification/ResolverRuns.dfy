/** What holds over every run of the resolver. */
module ResolverRuns {
  import opened DnsTypes
  import opened Nameservers
  import opened ResponseCache
  import opened ResolverState
  import opened ResolverPlaces
  import opened ResolverSteps
  import opened ResolverTokens
  import CacheLog
  import PacketDup

  function Uses(s: State): map<nat, nat> {
    map h | h in s.hits :: s.hits[h].entry
  }

  /** The cache counts its users exactly and answers from the last update. */
  ghost predicate CacheRight(s: State, st: Settings) {
    Counted(s.cache, Uses(s)) && CacheLog.Refines(s.cache, s.log, s.now, st.cacheMaxTtl)
  }

  ghost predicate InvariantBy(s: State, loc: Places, own: Owners, st: Settings) {
    Placed(s, loc, st) && Owed(s, loc, own) && CacheRight(s, st)
  }

  /** There is a place for every node and an owner for every token. */
  ghost predicate Invariant(s: State, st: Settings) {
    exists loc, own :: InvariantBy(s, loc, own, st)
  }

  lemma InvariantWellFormed(s: State, loc: Places, st: Settings)
    requires Placed(s, loc, st) && CacheRight(s, st)
    ensures WellFormed(s)
  {
    assert forall q :: q in s.tasks ==> Root(s, q);
    forall h | h in s.hits ensures s.hits[h].entry in s.cache.entries {
      assert Uses(s)[h] == s.hits[h].entry;
    }
  }

  // ----- tokens: the remaining steps -----

  lemma DetachDues(s: State, s1: State, loc: Places, p: Ptr, o: Outcome)
    requires TasksRight(s) && Pending(s, p) && s1.tasks == s.tasks && s1.nodes.Keys == s.nodes.Keys
    requires forall x :: x in s.nodes ==> s1.nodes[x].cb == s.nodes[x].cb
    requires s1.hits == s.hits && s1.calls == s.calls && s1.accepted == s.accepted && s1.silenced == s.silenced && s1.nextToken == s.nextToken
    ensures SameDues(s, loc, Detach(s1, p, o), loc)
  {
    var s' := Detach(s1, p, o);
    assert forall q :: Done(s', q) == Done(s, q);
  }

  lemma TimeoutDues(s: State, loc: Places, st: Settings, p: Ptr, env: TxEnv)
    requires Placed(s, loc, st) && p in s.popped && p in s.nodes
    ensures SameDues(s, loc, Timeout(s, p, env, st), loc)
  {
    hide Placed, TasksRight, Pending, SameDues, Detach, Transmit;
    PoppedPending(s, loc, st, p);
    var s0 := s.(popped := s.popped - {p});
    if s.nodes[p].id !in s.byId {
      UntouchedDues(s, s0, loc);
    } else {
      var s1 := s0.(nodes := s0.nodes[p := s0.nodes[p].(timerId := 0)]);
      TransmitDues(s, s1, loc, p, env, st);
      DetachDues(s, s1, loc, p, Outcome(ETIMEDOUT, None));
    }
  }

  /** Sending again, or giving up when that fails. */
  lemma TransmitDues(s: State, s1: State, loc: Places, p: Ptr, env: TxEnv, st: Settings)
    requires TasksRight(s) && Pending(s, p)
    requires s1 == s.(popped := s.popped - {p}, nodes := s.nodes[p := s.nodes[p].(timerId := 0)])
    ensures var s2 := Transmit(s1, p, env, st).0; SameDues(s, loc, s2, loc) && SameDues(s, loc, Detach(s2, p, Outcome(ETIMEDOUT, None)), loc)
  {
    TransmitKeepsCallbacks(s1, p, env, st);
    hide Transmit, Detach, SameDues, TasksRight, Pending;
    var s2 := Transmit(s1, p, env, st).0;
    UntouchedDues(s, s2, loc);
    DetachDues(s, s2, loc, p, Outcome(ETIMEDOUT, None));
  }

  lemma TransmitKeepsCallbacks(s: State, p: Ptr, env: TxEnv, st: Settings)
    requires p in s.nodes && s.nodes[p].timerId == 0
    ensures var s' := Transmit(s, p, env, st).0;
            && s'.tasks == s.tasks && s'.nodes.Keys == s.nodes.Keys && (forall x :: x in s.nodes ==> s'.nodes[x].cb == s.nodes[x].cb)
            && s'.hits == s.hits && s'.calls == s.calls && s'.accepted == s.accepted && s'.silenced == s.silenced && s'.nextToken == s.nextToken
  {
    TransmitEffect(s, p, env, st);
    hide Transmit;
  }

  lemma PoppedPending(s: State, loc: Places, st: Settings, p: Ptr)
    requires Placed(s, loc, st) && p in s.popped && p in s.nodes
    ensures TasksRight(s) && (s.nodes[p].id in s.byId ==> Pending(s, p))
  {
    assert PoppedRight(s);
  }

  /** Nothing that a callback depends on changes. */
  lemma UntouchedDues(s: State, s': State, loc: Places)
    requires s'.tasks == s.tasks && s'.nodes.Keys == s.nodes.Keys && forall x :: x in s.nodes ==> s'.nodes[x].cb == s.nodes[x].cb
    requires s'.hits == s.hits && s'.calls == s.calls && s'.accepted == s.accepted && s'.silenced == s.silenced && s'.nextToken == s.nextToken
    ensures SameDues(s, loc, s', loc)
  {
    assert forall q :: Done(s', q) == Done(s, q);
  }

  lemma ReceiveDues(s: State, loc: Places, st: Settings, addr: int, pkt: Option<Packet>)
    requires TasksRight(s) && TablesAgree(s) && WellFormed(s)
    ensures SameDues(s, loc, Receive(s, addr, pkt, st), loc)
  {
    if pkt.Some? && pkt.value.id in s.byId {
      var p := s.byId[pkt.value.id];
      var s1 := s.(ns := Report(s.ns, addr, pkt, s.now, st), armed := s.armed - {p}, nodes := s.nodes[p := s.nodes[p].(timerId := 0)]);
      DetachDues(s, s1, loc, p, Outcome(StatusFromRcode(Rcode(pkt.value)), pkt));
    }
  }

  lemma RecycleDues(s: State, loc: Places, st: Settings, q: Ptr)
    requires NodesPlaced(s, loc, {}) && WellFormed(s) && q in s.tasks && s.tasks[q].done == Turns(s, q)
    ensures SameDues(s, loc, Recycle(s, q, st), FreedPlaces(loc, q))
  {
    hide NodesPlaced, Recycle, WellFormed, Turns;
    var s', loc' := Recycle(s, q, st), FreedPlaces(loc, q);
    TaskHasNode(s, q);
    RecycleFields(s, q, st);
    forall x ensures Due(s', loc', x) <==> Due(s, loc, x) {
      if x in loc && loc[x].At? {
        if loc[x].root == q {
          SlotsBelow(s, loc, q, x);
        } else {
          assert Done(s', loc[x].root) == Done(s, loc[x].root);
        }
      }
    }
  }

  lemma TaskHasNode(s: State, q: Ptr)
    requires WellFormed(s) && q in s.tasks
    ensures q in s.nodes
  {
  }

  lemma RecycleFields(s: State, q: Ptr, st: Settings)
    requires WellFormed(s) && q in s.tasks && q in s.nodes
    ensures var s' := Recycle(s, q, st);
            && s'.nodes.Keys == s.nodes.Keys && (forall x :: x in s.nodes ==> s'.nodes[x].cb == s.nodes[x].cb)
            && s'.hits == s.hits && s'.calls == s.calls && s'.accepted == s.accepted && s'.silenced == s.silenced && s'.nextToken == s.nextToken
            && s'.tasks == s.tasks - {q}
  {
    hide Updated, WellFormed, Calls, Slot;
    var o := s.tasks[q].outcome;
    assert TimerCleared(s, q).nodes[q].cb == s.nodes[q].cb;
  }

  lemma SlotsBelow(s: State, loc: Places, q: Ptr, x: Ptr)
    requires NodesPlaced(s, loc, {}) && x in loc && loc[x].At? && loc[x].root == q && q in s.nodes
    ensures loc[x].slot < Turns(s, q)
  {
  }

  lemma PlacedFresh(s: State, loc: Places, st: Settings)
    requires Placed(s, loc, st)
    ensures NewNode(s) !in s.tasks && !Due(s, loc, NewNode(s))
    ensures forall x :: Pending(s, x) ==> x !in s.tasks
  {
    if s.free != [] { assert loc[s.free[0]] == InFree; }
    assert NewNode(s) in s.tasks ==> Root(s, NewNode(s));
  }

  function OwnersAfterStart(s: State, own: Owners, tid: Tid, name: Name, qtype: int, hasCb: bool, env: TxEnv, st: Settings): Owners
    requires WellFormed(s)
  {
    if !hasCb || Start(s, tid, name, qtype, hasCb, env, st).1 != SUCCESS then own
    else if CacheLog.Find(s.cache, InitResKey(qtype, name), s.now).Hit? then own[s.nextToken := OnHit(tid)]
    else own[s.nextToken := Held(NewNode(s))]
  }

  /** The effect of a missed lookup on nodes, tokens and history. */
  lemma StartMissedEffect(s: State, key: Key, cb: Option<Token>, env: TxEnv, st: Settings)
    requires forall k :: k in s.byRes ==> s.byRes[k] in s.nodes && s.byRes[k] != NewNode(s)
    ensures var (s', status) := StartMissed(s, key, cb, env, st);
            && s'.tasks == s.tasks && s'.hits == s.hits && s'.calls == s.calls && s'.silenced == s.silenced && s'.nextToken == s.nextToken
            && s'.accepted == (if status == SUCCESS && cb.Some? then s.accepted + {cb.value} else s.accepted)
            && s'.cache == s.cache && s'.log == s.log && s'.now == s.now
            && s'.nodes.Keys == s.nodes.Keys + {NewNode(s)} && s'.nodes[NewNode(s)].cb == cb
            && (forall x :: x in s.nodes && x != NewNode(s) ==>
                 s'.nodes[x].cb == s.nodes[x].cb && s'.nodes[x].transmitCnt == s.nodes[x].transmitCnt)
  {
    AllocEffect(s, cb);
    hide Alloc, Transmit;
    var p, s1 := NewNode(s), Alloc(s, cb);
    if key in s.byRes {
      var q := s.byRes[key];
      assert s1.nodes[q] == s.nodes[q];
    } else {
      var s2 := s1.(nodes := s1.nodes[p := s1.nodes[p].(id := s.lastId, key := key)], lastId := NextId(s.lastId));
      TransmitEffect(s2, p, env, st);
    }
  }

  lemma StartMissedOwed(s: State, loc: Places, own: Owners, st: Settings, key: Key, cb: Option<Token>, env: TxEnv, s0: State)
    requires Placed(s, loc, st) && Owed(s0, loc, own) && s == s0.(nextToken := s0.nextToken + 1, cache := s.cache) && !Due(s0, loc, NewNode(s))
    requires cb.Some? ==> cb.value == s0.nextToken
    ensures var (s', status) := StartMissed(s, key, cb, env, st);
            Owed(s', PlacesAfterStart(s, loc, key, cb, env, st), if status == SUCCESS && cb.Some? then own[cb.value := Held(NewNode(s))] else own)
  {
    hide Owed, StartMissed, NodesPlaced, FreePlaced, RootsPlaced, TablesAgree, TasksRight, TimersRight;
    PlacedFresh(s, loc, st);
    RootsAreOld(s, loc, st);
    StartMissedEffect(s, key, cb, env, st);
    MissedSucceeds(s, key, cb, env, st);
    var (s', status) := StartMissed(s, key, cb, env, st);
    var loc', p := PlacesAfterStart(s, loc, key, cb, env, st), NewNode(s);
    DueAfterStart(s0, s', loc, p, loc'[p]);
    if status != SUCCESS {
      SameDuesKeepOwed(s0, loc, own, s', loc');
    } else {
      NewHolder(s0, loc, own, s', loc', p, cb);
    }
  }

  lemma DueAfterStart(s: State, s': State, loc: Places, p: Ptr, place: Place)
    requires s'.tasks == s.tasks && s'.nodes.Keys == s.nodes.Keys + {p}
    ensures forall x :: x != p ==> (Due(s', loc[p := place], x) <==> Due(s, loc, x))
    ensures Due(s', loc[p := place], p) <==> place.At? && Done(s, place.root) <= place.slot
  {
    assert forall q :: Done(s', q) == Done(s, q);
  }

  lemma MissedSucceeds(s: State, key: Key, cb: Option<Token>, env: TxEnv, st: Settings)
    requires forall k :: k in s.byRes ==> s.byRes[k] in s.nodes
    ensures key in s.byRes ==> StartMissed(s, key, cb, env, st).1 == SUCCESS
  {
  }

  lemma RootsAreOld(s: State, loc: Places, st: Settings)
    requires Placed(s, loc, st)
    ensures forall k :: k in s.byRes ==> s.byRes[k] in s.nodes && s.byRes[k] != NewNode(s) && s.byRes[k] !in s.tasks
  {
    if s.free != [] { assert loc[s.free[0]] == InFree; }
    forall k | k in s.byRes ensures s.byRes[k] in s.nodes && s.byRes[k] != NewNode(s) && s.byRes[k] !in s.tasks {
      assert Pending(s, s.byRes[k]) && Root(s, s.byRes[k]);
    }
  }

  lemma StartOwed(s: State, loc: Places, own: Owners, st: Settings, tid: Tid, name: Name, qtype: int, hasCb: bool, env: TxEnv)
    requires Placed(s, loc, st) && Owed(s, loc, own) && WellFormed(s) && tid !in s.hits
    ensures Owed(Start(s, tid, name, qtype, hasCb, env, st).0, PlacesAfterStartQuery(s, loc, name, qtype, hasCb, env, st),
                 OwnersAfterStart(s, own, tid, name, qtype, hasCb, env, st))
  {
    hide Placed, Owed, StartMissed, CacheLog.Find, WellLinked, Start, InitResKey;
    if ArgError(name, qtype) != SUCCESS {
      StartRefused(s, tid, name, qtype, hasCb, env, st);
    } else if CacheLog.Find(s.cache, InitResKey(qtype, name), s.now).Hit? {
      StartHitOwed(s, loc, own, st, tid, name, qtype, hasCb, env);
    } else {
      StartMissOwed(s, loc, own, st, tid, name, qtype, hasCb, env);
    }
  }

  lemma StartHitOwed(s: State, loc: Places, own: Owners, st: Settings, tid: Tid, name: Name, qtype: int, hasCb: bool, env: TxEnv)
    requires Owed(s, loc, own) && WellFormed(s) && tid !in s.hits
    requires ArgError(name, qtype) == SUCCESS && CacheLog.Find(s.cache, InitResKey(qtype, name), s.now).Hit?
    ensures Owed(Start(s, tid, name, qtype, hasCb, env, st).0, PlacesAfterStartQuery(s, loc, name, qtype, hasCb, env, st),
                 OwnersAfterStart(s, own, tid, name, qtype, hasCb, env, st))
  {
    hide Owed, StartMissed, CacheLog.Find, WellLinked, Due, Start, InitResKey, ArgError;
    StartHits(s, tid, name, qtype, hasCb, env, st);
    NewHit(s, loc, own, Start(s, tid, name, qtype, hasCb, env, st).0, tid, if hasCb then Some(s.nextToken) else None);
  }

  lemma StartMissOwed(s: State, loc: Places, own: Owners, st: Settings, tid: Tid, name: Name, qtype: int, hasCb: bool, env: TxEnv)
    requires Placed(s, loc, st) && Owed(s, loc, own) && WellFormed(s)
    requires ArgError(name, qtype) == SUCCESS && CacheLog.Find(s.cache, InitResKey(qtype, name), s.now).Miss?
    ensures Owed(Start(s, tid, name, qtype, hasCb, env, st).0, PlacesAfterStartQuery(s, loc, name, qtype, hasCb, env, st),
                 OwnersAfterStart(s, own, tid, name, qtype, hasCb, env, st))
  {
    hide Placed, Owed, StartMissed, CacheLog.Find, WellLinked, Due, Start, InitResKey;
    var key := InitResKey(qtype, name);
    StartMisses(s, tid, name, qtype, hasCb, env, st);
    var s1 := s.(nextToken := s.nextToken + 1, cache := CacheLog.Find(s.cache, key, s.now).cache);
    SameQueriesKeepPlaces(s, s1, loc, st);
    PlacedFresh(s, loc, st);
    StartMissedOwed(s1, loc, own, st, key, if hasCb then Some(s.nextToken) else None, env, s);
  }

  lemma StartRefused(s: State, tid: Tid, name: Name, qtype: int, hasCb: bool, env: TxEnv, st: Settings)
    requires WellFormed(s) && ArgError(name, qtype) != SUCCESS
    ensures Start(s, tid, name, qtype, hasCb, env, st) == (s, ArgError(name, qtype))
  {
  }

  lemma StartHits(s: State, tid: Tid, name: Name, qtype: int, hasCb: bool, env: TxEnv, st: Settings)
    requires WellFormed(s) && ArgError(name, qtype) == SUCCESS && CacheLog.Find(s.cache, InitResKey(qtype, name), s.now).Hit?
    ensures var (s', status) := Start(s, tid, name, qtype, hasCb, env, st);
            var f := CacheLog.Find(s.cache, InitResKey(qtype, name), s.now);
            && status == SUCCESS && tid in s'.hits && s'.hits == s.hits[tid := s'.hits[tid]]
            && s'.hits[tid].entry == f.entry && s'.hits[tid].cb == (if hasCb then Some(s.nextToken) else None) && !s'.hits[tid].called
            && s' == s.(nextToken := s.nextToken + 1, cache := f.cache, hits := s'.hits, accepted := s'.accepted)
            && s'.accepted == if hasCb then s.accepted + {s.nextToken} else s.accepted
  {
  }

  lemma StartMisses(s: State, tid: Tid, name: Name, qtype: int, hasCb: bool, env: TxEnv, st: Settings)
    requires WellFormed(s) && ArgError(name, qtype) == SUCCESS && CacheLog.Find(s.cache, InitResKey(qtype, name), s.now).Miss?
    ensures var key := InitResKey(qtype, name);
            var s1 := s.(nextToken := s.nextToken + 1, cache := CacheLog.Find(s.cache, key, s.now).cache);
            Start(s, tid, name, qtype, hasCb, env, st) == StartMissed(s1, key, if hasCb then Some(s.nextToken) else None, env, st)
  {
    hide StartMissed, CacheLog.Find, InitResKey, ArgError, WellLinked, Rcode, StatusFromRcode;
  }

  /** Who owes what after a step. */
  ghost function OwnersAfter(s: State, own: Owners, e: Event, st: Settings): Owners
    requires Enabled(s, e)
  {
    match e
    case EStart(tid, name, qtype, hasCb, env) => OwnersAfterStart(s, own, tid, name, qtype, hasCb, env, st)
    case ECallHit(h) => Settle(own, s.hits[h].cb, Told)
    case ECallNext(q) => Settle(own, s.nodes[Slot(s, q, s.tasks[q].done)].cb, Told)
    case ECancel(p, notify) => Settle(own, s.nodes[p].cb, if notify then Told else Silent)
    case _ => own
  }

  lemma StepKeepsOwed(s: State, loc: Places, own: Owners, e: Event, st: Settings)
    requires Placed(s, loc, st) && Owed(s, loc, own) && Enabled(s, e)
    ensures Owed(Step(s, e, st), PlacesAfter(s, loc, e, st), OwnersAfter(s, own, e, st))
  {
    hide Owed, PlacesAfterStartQuery, OwnersAfterStart, CallHit, EndHit, AddEntry, Recycle, Start, Receive, FreedPlaces;
    hide WellLinked, Timeout, CallNext, Cancel, PopTimer, Updated, Untold, IdAndNodeIdle, MakesQuery, SameDues;
    hide NodesPlaced, FreePlaced, RootsPlaced, TablesAgree, TasksRight, TimersRight;
    match e
    case EStart(tid, name, qtype, hasCb, env) => StartOwed(s, loc, own, st, tid, name, qtype, hasCb, env);
    case ECallHit(h) => CallHitKeepsOwed(s, loc, own, h);
    case ECallNext(q) => CallNextKeepsOwed(s, loc, own, q);
    case ECancel(p, notify) =>
      CancelDues(s, loc, p, notify);
      CancelKeepsOwed(s, loc, own, p, notify);
    case _ =>
      QuietStepDues(s, loc, e, st);
      SameDuesKeepOwed(s, loc, own, Step(s, e, st), PlacesAfter(s, loc, e, st));
  }

  lemma QuietStepDues(s: State, loc: Places, e: Event, st: Settings)
    requires Placed(s, loc, st) && Enabled(s, e) && !e.EStart? && !e.ECallHit? && !e.ECallNext? && !e.ECancel?
    ensures SameDues(s, loc, Step(s, e, st), PlacesAfter(s, loc, e, st))
  {
    hide NodesPlaced, FreePlaced, RootsPlaced, TablesAgree, TasksRight, TimersRight, Timeout, Receive, Recycle, FreedPlaces, WellLinked, Updated;
    if e.ETimeout? {
      TimeoutDues(s, loc, st, e.p, e.env);
    } else if e.EReceive? {
      ReceiveDues(s, loc, st, e.addr, e.pkt);
    } else if e.ERecycle? {
      RecycleDues(s, loc, st, e.q);
    } else {
      QuietDues(s, loc, Step(s, e, st));
    }
  }

  lemma QuietDues(s: State, loc: Places, s': State)
    requires s'.nodes == s.nodes && s'.tasks == s.tasks
    requires s'.hits == s.hits || exists h :: h in s.hits && s.hits[h].called && s'.hits == s.hits - {h}
    requires s'.calls == s.calls && s'.accepted == s.accepted && s'.silenced == s.silenced && s'.nextToken == s.nextToken
    ensures SameDues(s, loc, s', loc)
  {
    assert forall x :: Due(s', loc, x) <==> Due(s, loc, x);
  }

  // ----- the cache -----

  lemma HitCache(s: State, s': State, st: Settings, tid: Tid, e: nat, key: Key)
    requires CacheRight(s, st) && tid !in s.hits && CacheLog.Find(s.cache, key, s.now) == CacheLog.Hit(e, s'.cache)
    requires tid in s'.hits && s'.hits == s.hits[tid := s'.hits[tid]] && s'.hits[tid].entry == e && s'.log == s.log && s'.now == s.now
    ensures CacheRight(s', st)
  {
    CacheLog.FindKeepsRefinement(s.cache, s.log, s.now, st.cacheMaxTtl, Uses(s), key);
    RetainKeepsCount(s.cache, Uses(s), tid, e);
    assert Uses(s') == Uses(s)[tid := e];
  }

  lemma MissCache(s: State, s': State, st: Settings, key: Key)
    requires CacheRight(s, st) && CacheLog.Find(s.cache, key, s.now) == CacheLog.Miss(s'.cache)
    requires s'.hits == s.hits && s'.log == s.log && s'.now == s.now
    ensures CacheRight(s', st)
  {
    CacheLog.FindKeepsRefinement(s.cache, s.log, s.now, st.cacheMaxTtl, Uses(s), key);
    RemoveKeepsCount(s.cache, Uses(s), key);
    assert Uses(s') == Uses(s);
  }

  lemma StartCache(s: State, st: Settings, tid: Tid, name: Name, qtype: int, hasCb: bool, env: TxEnv)
    requires CacheRight(s, st) && WellFormed(s) && tid !in s.hits
    requires forall k :: k in s.byRes ==> s.byRes[k] in s.nodes && s.byRes[k] != NewNode(s)
    ensures CacheRight(Start(s, tid, name, qtype, hasCb, env, st).0, st)
  {
    hide Start, StartMissed, CacheRight, CacheLog.Find;
    if ArgError(name, qtype) != SUCCESS {
      StartRefused(s, tid, name, qtype, hasCb, env, st);
    } else {
      var key := InitResKey(qtype, name);
      var s' := Start(s, tid, name, qtype, hasCb, env, st).0;
      var f := CacheLog.Find(s.cache, key, s.now);
      if f.Hit? {
        StartHits(s, tid, name, qtype, hasCb, env, st);
        HitCache(s, s', st, tid, f.entry, key);
      } else {
        StartMisses(s, tid, name, qtype, hasCb, env, st);
        var s1 := s.(nextToken := s.nextToken + 1, cache := f.cache);
        StartMissedEffect(s1, key, if hasCb then Some(s.nextToken) else None, env, st);
        MissCache(s, s', st, key);
      }
    }
  }

  lemma StoreCache(s: State, st: Settings, u: Update)
    requires CacheRight(s, st) && u.now == s.now
    ensures CacheRight(Store(s, u, st), st)
    ensures SamePackets(s.cache, Store(s, u, st).cache, Uses(s))
  {
    UpdateKeepsCount(s.cache, Uses(s), u, st.cacheMaxTtl);
    CacheLog.UpdateKeepsRefinement(s.cache, s.log, st.cacheMaxTtl, Uses(s), u);
    assert Uses(Store(s, u, st)) == Uses(s);
  }

  lemma EndHitCache(s: State, st: Settings, h: Tid)
    requires CacheRight(s, st) && h in s.hits && s.hits[h].entry in s.cache.entries
    ensures CacheRight(EndHit(s, h), st)
  {
    ReleaseKeepsCount(s.cache, Uses(s), h);
    CacheLog.ReleaseKeepsRefinement(s.cache, s.log, s.now, st.cacheMaxTtl, Uses(s), h);
    assert Uses(EndHit(s, h)) == Uses(s) - {h};
  }

  lemma StepKeepsCache(s: State, loc: Places, e: Event, st: Settings)
    requires CacheRight(s, st) && Placed(s, loc, st) && Enabled(s, e)
    ensures CacheRight(Step(s, e, st), st)
  {
    hide Start, Placed, Counted, CacheLog.Refines, Recycle, WellLinked, EndHit, AddEntry, Timeout, Receive, CallNext, Cancel, IdAndNodeIdle, MakesQuery;
    var s' := Step(s, e, st);
    match e
    case EStart(tid, name, qtype, hasCb, env) =>
      RootsAreOld(s, loc, st);
      StartCache(s, st, tid, name, qtype, hasCb, env);
    case ECallHit(h) => assert Uses(s') == Uses(s);
    case EEndHit(h) => EndHitCache(s, st, h);
    case ERecycle(q) => RecycleCache(s, st, q);
    case EAddEntry(pkt, setTtl) => AddCache(s, st, pkt, setTtl);
    case ETick(now') => CacheLog.TimeKeepsRefinement(s.cache, s.log, s.now, now', st.cacheMaxTtl);
    case _ => SameCache(s, e, st);
  }

  lemma RecycleCache(s: State, st: Settings, q: Ptr)
    requires CacheRight(s, st) && WellFormed(s) && q in s.tasks
    ensures CacheRight(Recycle(s, q, st), st)
  {
    hide Counted, CacheLog.Refines, Updated, WellLinked;
    var o := s.tasks[q].outcome;
    if o.pkt.Some? {
      var u := Update(s.nodes[q].key, o.status, true, o.pkt.value, s.now);
      StoreCache(s, st, u);
      assert Uses(Recycle(s, q, st)) == Uses(Store(s, u, st));
    }
  }

  lemma AddCache(s: State, st: Settings, pkt: Packet, setTtl: bool)
    requires CacheRight(s, st) && WellLinked(s.cache)
    ensures CacheRight(AddEntry(s, pkt, setTtl, st), st)
  {
    var (name, t) := if pkt.ans != [] then (pkt.ans[0].name, pkt.ans[0].rtype) else if pkt.q != [] then (pkt.q[0].name, pkt.q[0].qtype) else ([], 0);
    if |name| < MAX_HOSTNAME {
      StoreCache(s, st, Update(InitResKey(t, name), SUCCESS, setTtl, pkt, s.now));
    }
  }

  lemma SameCache(s: State, e: Event, st: Settings)
    requires CacheRight(s, st) && Enabled(s, e) && (e.EPop? || e.ETimeout? || e.EReceive? || e.ECallNext? || e.ECancel?)
    ensures CacheRight(Step(s, e, st), st)
  {
    hide WellFormed, Counted, CacheLog.Refines, IdAndNodeIdle, MakesQuery, Timeout, Receive, CallNext, Cancel, Cancellable;
    if e.ETimeout? {
      TimeoutSameCache(s, e.p, e.env, st);
    } else if e.EReceive? {
      ReceiveSameCache(s, e.addr, e.pkt, st);
    } else if e.ECallNext? {
      CallNextSameCache(s, e.q);
    } else if e.ECancel? {
      CancelSameCache(s, e.p, e.notify);
    }
    assert Uses(Step(s, e, st)) == Uses(s);
  }

  lemma ReceiveSameCache(s: State, addr: int, pkt: Option<Packet>, st: Settings)
    requires WellFormed(s)
    ensures var s' := Receive(s, addr, pkt, st); s'.cache == s.cache && s'.hits == s.hits && s'.log == s.log && s'.now == s.now
  {
  }

  lemma CallNextSameCache(s: State, q: Ptr)
    requires WellFormed(s) && q in s.tasks && s.tasks[q].done <= |s.nodes[q].children|
    ensures var s' := CallNext(s, q); s'.cache == s.cache && s'.hits == s.hits && s'.log == s.log && s'.now == s.now
  {
  }

  lemma CancelSameCache(s: State, p: Ptr, notify: bool)
    requires p in s.nodes
    ensures var s' := Cancel(s, p, notify); s'.cache == s.cache && s'.hits == s.hits && s'.log == s.log && s'.now == s.now
  {
  }

  lemma TimeoutSameCache(s: State, p: Ptr, env: TxEnv, st: Settings)
    requires p in s.nodes
    ensures var s' := Timeout(s, p, env, st); s'.cache == s.cache && s'.hits == s.hits && s'.log == s.log && s'.now == s.now
  {
    hide Transmit;
    var s0 := s.(popped := s.popped - {p});
    var s1 := s0.(nodes := s0.nodes[p := s0.nodes[p].(timerId := 0)]);
    TransmitEffect(s1, p, env, st);
  }

  // ----- runs -----

  lemma StepKeepsInvariant(s: State, loc: Places, own: Owners, e: Event, st: Settings)
    requires InvariantBy(s, loc, own, st) && Enabled(s, e)
    ensures InvariantBy(Step(s, e, st), PlacesAfter(s, loc, e, st), OwnersAfter(s, own, e, st), st)
  {
    hide Placed, Owed, CacheRight, Enabled, Step, PlacesAfter, OwnersAfter;
    StepKeepsPlaces(s, loc, e, st);
    StepKeepsOwed(s, loc, own, e, st);
    StepKeepsCache(s, loc, e, st);
  }

  /** A resolver just created, with the nameservers it was given. */
  function Init(ns: seq<Nameserver>, now: int): State {
    State(map[], 0, [], map[], map[], map[], {}, {}, 1, EMPTY, map[], ns, now, 0, {}, {}, map[], [])
  }

  ghost predicate Run(s: State, es: seq<Event>, s': State, st: Settings)
    decreases |es|
  {
    if es == [] then s' == s else Enabled(s, es[0]) && Run(Step(s, es[0], st), es[1..], s', st)
  }

  /** Every run keeps the invariant. */
  lemma {:induction false} RunKeepsInvariant(s: State, es: seq<Event>, s': State, st: Settings)
    requires Invariant(s, st) && Run(s, es, s', st)
    ensures Invariant(s', st)
    decreases |es|
  {
    if es != [] {
      var loc, own :| InvariantBy(s, loc, own, st);
      StepKeepsInvariant(s, loc, own, es[0], st);
      RunKeepsInvariant(Step(s, es[0], st), es[1..], s', st);
    }
  }

  lemma {:induction false} RunOn(s: State, es: seq<Event>, s1: State, e: Event, st: Settings)
    requires Run(s, es, s1, st) && Enabled(s1, e)
    ensures Run(s, es + [e], Step(s1, e, st), st)
    decreases |es|
  {
    hide Enabled, Step;
    if es == [] {
      assert [e][1..] == [];
    } else {
      RunOn(Step(s, es[0], st), es[1..], s1, e, st);
      assert (es + [e])[1..] == es[1..] + [e];
    }
  }

  lemma InitInvariant(ns: seq<Nameserver>, now: int, st: Settings)
    ensures Invariant(Init(ns, now), st)
  {
    var s := Init(ns, now);
    assert Uses(s) == map[];
    assert InvariantBy(s, map[], map[], st);
  }
}
