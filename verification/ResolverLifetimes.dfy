/** How long an answer is kept and when it is filed: the log of cache updates over runs, and
    lookups in terms of the lifetimes of its records. */
module ResolverLifetimes {
  import opened DnsTypes
  import opened Nameservers
  import opened ResponseCache
  import opened ResolverState
  import opened ResolverPlaces
  import opened ResolverSteps
  import opened ResolverTokens
  import opened ResolverRuns
  import opened ResolverTheorems
  import opened ResolverAnswers
  import CacheLog

  // ----- the least time to live -----

  /** The least time to live is below that of every record, and is that of one of them unless
      it is the largest 32-bit number. */
  lemma {:induction false} LeastOfAll(rs: seq<Record>, ttl: nat)
    ensures MinTtl(rs) >= ttl <==> ttl <= MAX_U32 && forall i :: 0 <= i < |rs| ==> rs[i].ttl >= ttl
    decreases |rs|
  {
    if rs != [] {
      LeastOfAll(rs[..|rs| - 1], ttl);
      assert forall i :: 0 <= i < |rs| - 1 ==> rs[..|rs| - 1][i] == rs[i];
    }
  }

  /** When an update made at a past time may still be answered from, in terms of its records. */
  ghost predicate Live(u: Update, now: int, maxTtl: nat) {
    if !u.setExpiry then maxTtl > 0 && now < 0x7FFF_FFFF * 1000
    else
      && now < u.now + 1000 * maxTtl
      && (if u.status == 0 && u.pkt.ans != [] then forall i :: 0 <= i < |u.pkt.ans| ==> now < u.now + 1000 * u.pkt.ans[i].ttl
          else now < u.now + 60_000)
  }

  lemma LiveIsAnswered(log: seq<Update>, key: Key, now: int, maxTtl: nat)
    requires maxTtl <= MAX_U32 && forall i :: 0 <= i < |log| ==> log[i].now <= now
    ensures CacheLog.Answer(log, key, now, maxTtl).Some? <==>
            CacheLog.Last(log, key).Some? && Live(CacheLog.Last(log, key).value, now, maxTtl)
  {
    var last := CacheLog.Last(log, key);
    if last.Some? {
      LastInPast(log, key, now);
      LiveIff(last.value, now, maxTtl);
    }
  }

  lemma {:induction false} LastInPast(log: seq<Update>, key: Key, now: int)
    requires forall i :: 0 <= i < |log| ==> log[i].now <= now
    ensures var last := CacheLog.Last(log, key); last.Some? ==> last.value.now <= now && last.value.key == key
    decreases |log|
  {
    if log != [] && log[|log| - 1].key != key {
      LastInPast(log[..|log| - 1], key, now);
    }
  }

  lemma LiveIff(u: Update, now: int, maxTtl: nat)
    requires maxTtl <= MAX_U32 && u.now <= now
    ensures Ttl(u, maxTtl) != 0 && Expiry(u, maxTtl) > now <==> Live(u, now, maxTtl)
  {
    var age := now - u.now;
    var ttl := age / 1000 + 1;
    LeastOfAll(u.pkt.ans, ttl);
    forall i | 0 <= i < |u.pkt.ans| ensures u.pkt.ans[i].ttl >= ttl <==> now < u.now + 1000 * u.pkt.ans[i].ttl {
      Seconds(age, u.pkt.ans[i].ttl);
    }
    Seconds(age, MinTtl(u.pkt.ans));
    Seconds(age, maxTtl);
  }

  /** Whole seconds against milliseconds. */
  lemma Seconds(age: int, ttl: nat)
    requires age >= 0
    ensures ttl >= age / 1000 + 1 <==> age < 1000 * ttl
  {
  }

  // ----- the log over runs -----

  /** add_entry takes a response, and files it under its first answer, else its first question. */
  predicate Filed(pkt: Packet, key: Key) {
    pkt.flags / 0x8000 % 2 == 1
    && if pkt.ans != [] then |pkt.ans[0].name| < 128 && key == InitResKey(pkt.ans[0].rtype, pkt.ans[0].name)
       else pkt.q != [] && |pkt.q[0].name| < 128 && key == InitResKey(pkt.q[0].qtype, pkt.q[0].name)
  }

  /** What a step adds to the log: the answer of a query that has been told, under the key of
      that query and with its status, or a response that the application gives. */
  lemma StepLogs(s: State, st: Settings, e: Event)
    requires Reachable(s, st) && Enabled(s, e)
    ensures var s' := Step(s, e, st);
            && (if e.ERecycle? && s.tasks[e.q].outcome.pkt.Some? then
                  var o := s.tasks[e.q].outcome; s'.log == s.log + [Update(s.nodes[e.q].key, o.status, true, o.pkt.value, s.now)]
                else if e.EAddEntry? && exists key :: Filed(e.answer, key) then
                  exists key :: Filed(e.answer, key) && s'.log == s.log + [Update(key, 0, e.setTtl, e.answer, s.now)]
                else s'.log == s.log)
            && s'.now == if e.ETick? then e.to else s.now
  {
    hide Reachable, InvariantBy, Start, Timeout, Receive, CallNext, Cancel, EndHit, CallHit, Updated, WellLinked, InitResKey, Cancellable, IdAndNodeIdle, MakesQuery;
    var loc, own := ReachableInvariant(s, st);
    if e.EStart? {
      StartLogs(s, loc, own, st, e.tid, e.name, e.qtype, e.hasCb, e.env);
    } else if e.ETimeout? {
      TimeoutSameCache(s, e.p, e.env, st);
    } else if e.EReceive? {
      ReceiveSameCache(s, e.addr, e.pkt, st);
    } else if e.ECallNext? {
      CallNextRange(s, e.q);
      CallNextSameCache(s, e.q);
    } else if e.ECancel? {
      CancelSameCache(s, e.p, e.notify);
    } else if e.ECallHit? || e.EEndHit? {
      HitLogs(s, e, st);
    } else if e.EAddEntry? {
      AddLogs(s, e.answer, e.setTtl, st);
    }
  }

  lemma StartLogs(s: State, loc: Places, own: Owners, st: Settings, tid: Tid, name: Name, qtype: int, hasCb: bool, env: TxEnv)
    requires InvariantBy(s, loc, own, st) && WellFormed(s) && tid !in s.hits
    ensures var s' := Start(s, tid, name, qtype, hasCb, env, st).0; s'.log == s.log && s'.now == s.now
  {
    hide Placed, Owed, CacheRight, Start, StartMissed, WellLinked, CacheLog.Find, InitResKey;
    if ArgError(name, qtype) != SUCCESS {
      StartRefused(s, tid, name, qtype, hasCb, env, st);
    } else if CacheLog.Find(s.cache, InitResKey(qtype, name), s.now).Hit? {
      StartHits(s, tid, name, qtype, hasCb, env, st);
    } else {
      StartMisses(s, tid, name, qtype, hasCb, env, st);
      RootsAreOld(s, loc, st);
      StartMissedEffect(s.(nextToken := s.nextToken + 1, cache := CacheLog.Find(s.cache, InitResKey(qtype, name), s.now).cache), InitResKey(qtype, name),
                        if hasCb then Some(s.nextToken) else None, env, st);
    }
  }

  lemma HitLogs(s: State, e: Event, st: Settings)
    requires Enabled(s, e) && (e.ECallHit? || e.EEndHit?)
    ensures Step(s, e, st).log == s.log && Step(s, e, st).now == s.now
  {
    hide WellLinked, Release;
  }

  lemma AddLogs(s: State, pkt: Packet, setTtl: bool, st: Settings)
    requires WellLinked(s.cache)
    ensures var s' := AddEntry(s, pkt, setTtl, st);
            && s'.now == s.now
            && (if exists key :: Filed(pkt, key) then exists key :: Filed(pkt, key) && s'.log == s.log + [Update(key, 0, setTtl, pkt, s.now)]
                else s'.log == s.log)
  {
    hide Updated, WellLinked, InitResKey;
    var (name, t) := if pkt.ans != [] then (pkt.ans[0].name, pkt.ans[0].rtype) else if pkt.q != [] then (pkt.q[0].name, pkt.q[0].qtype) else ([], 0);
    if |name| < MAX_HOSTNAME && pkt.flags / 0x8000 % 2 == 1 && (pkt.ans != [] || pkt.q != []) {
      assert Filed(pkt, InitResKey(t, name));
    }
  }

  /** Transaction ids take turns: each new query has the id after that of the last one, and
      after 65535 comes 1. */
  lemma IdsTakeTurns(s: State, st: Settings, e: Event)
    requires Reachable(s, st) && Enabled(s, e)
    ensures 1 <= s.lastId <= 65535
    ensures Step(s, e, st).lastId == if e.EStart? && MakesQuery(s, e.name, e.qtype) then s.lastId % 65535 + 1 else s.lastId
    ensures e.EStart? && MakesQuery(s, e.name, e.qtype) ==>
      forall p :: Pending(Step(s, e, st), p) && !Pending(s, p) ==> Step(s, e, st).nodes[p].id == s.lastId
  {
    hide Reachable, Start, Timeout, Receive, Recycle, CallNext, Cancel, EndHit, AddEntry, Updated, WellLinked, InitResKey, Cancellable, IdAndNodeIdle, Owed, CacheRight;
    hide NodesPlaced, FreePlaced, RootsPlaced, TasksRight, TimersRight;
    var loc, own := ReachableInvariant(s, st);
    if e.EStart? {
      StartIds(s, loc, own, st, e.tid, e.name, e.qtype, e.hasCb, e.env);
    } else {
      OthersKeepIds(s, e, st);
    }
  }

  lemma OthersKeepIds(s: State, e: Event, st: Settings)
    requires Enabled(s, e) && !e.EStart?
    ensures Step(s, e, st).lastId == s.lastId
  {
    hide Updated, WellLinked, Release, Cancellable, Slot, InitResKey, Report, Timeout;
    if e.ETimeout? {
      TimeoutKeepsIds(s, e.p, e.env, st);
    }
  }

  lemma TimeoutKeepsIds(s: State, p: Ptr, env: TxEnv, st: Settings)
    requires p in s.nodes
    ensures Timeout(s, p, env, st).lastId == s.lastId
  {
    hide Transmit;
    TransmitEffect(s.(popped := s.popped - {p}, nodes := s.nodes[p := s.nodes[p].(timerId := 0)]), p, env, st);
  }

  lemma StartIds(s: State, loc: Places, own: Owners, st: Settings, tid: Tid, name: Name, qtype: int, hasCb: bool, env: TxEnv)
    requires InvariantBy(s, loc, own, st) && WellFormed(s) && tid !in s.hits
    ensures var s' := Start(s, tid, name, qtype, hasCb, env, st).0;
            && s'.lastId == (if MakesQuery(s, name, qtype) then s.lastId % 65535 + 1 else s.lastId)
            && (MakesQuery(s, name, qtype) ==> forall p :: Pending(s', p) && !Pending(s, p) ==> s'.nodes[p].id == s.lastId)
  {
    hide Placed, Owed, CacheRight, Start, StartMissed, WellLinked, CacheLog.Find, InitResKey, Pending;
    if ArgError(name, qtype) != SUCCESS {
      StartRefused(s, tid, name, qtype, hasCb, env, st);
    } else if CacheLog.Find(s.cache, InitResKey(qtype, name), s.now).Hit? {
      StartHits(s, tid, name, qtype, hasCb, env, st);
    } else {
      StartMisses(s, tid, name, qtype, hasCb, env, st);
      RootsAreOld(s, loc, st);
      TurnsInRange(s, loc, st);
      MissedIds(s, s.(nextToken := s.nextToken + 1, cache := CacheLog.Find(s.cache, InitResKey(qtype, name), s.now).cache), InitResKey(qtype, name),
                if hasCb then Some(s.nextToken) else None, env, st);
    }
  }

  lemma TurnsInRange(s: State, loc: Places, st: Settings)
    requires Placed(s, loc, st)
    ensures 1 <= s.lastId <= 65535
  {
  }

  lemma MissedIds(s0: State, s: State, key: Key, cb: Option<Token>, env: TxEnv, st: Settings)
    requires (forall k :: k in s.byRes ==> s.byRes[k] in s.nodes && s.byRes[k] != NewNode(s)) && 1 <= s.lastId <= 65535
    requires s0.nodes == s.nodes && s0.byId == s.byId
    ensures var s' := StartMissed(s, key, cb, env, st).0;
            && s'.lastId == (if key !in s.byRes then s.lastId % 65535 + 1 else s.lastId)
            && (key !in s.byRes ==> forall p :: Pending(s', p) && !Pending(s0, p) ==> s'.nodes[p].id == s.lastId)
  {
    hide Alloc, Transmit;
    AllocEffect(s, cb);
    var p, s1 := NewNode(s), Alloc(s, cb);
    if key !in s.byRes {
      var s2 := s1.(nodes := s1.nodes[p := s1.nodes[p].(id := s.lastId, key := key)], lastId := NextId(s.lastId));
      TransmitEffect(s2, p, env, st);
    }
  }

  // ----- over runs -----

  predicate LogPast(s: State) {
    forall i :: 0 <= i < |s.log| ==> s.log[i].now <= s.now
  }

  lemma ReachableStep(s: State, e: Event, st: Settings)
    requires Reachable(s, st) && Enabled(s, e)
    ensures Reachable(Step(s, e, st), st)
  {
    var ns, now, es :| Run(Init(ns, now), es, s, st);
    RunOn(Init(ns, now), es, s, e, st);
  }

  lemma {:induction false} RunLogPast(s: State, es: seq<Event>, s': State, st: Settings)
    requires Reachable(s, st) && LogPast(s) && Run(s, es, s', st)
    ensures LogPast(s')
    decreases |es|
  {
    hide Reachable, Enabled, Step;
    if es != [] {
      StepLogPast(s, es[0], st);
      ReachableStep(s, es[0], st);
      RunLogPast(Step(s, es[0], st), es[1..], s', st);
    }
  }

  lemma StepLogPast(s: State, e: Event, st: Settings)
    requires Reachable(s, st) && Enabled(s, e) && LogPast(s)
    ensures LogPast(Step(s, e, st))
  {
    assert e.ETick? ==> s.now <= e.to;
    hide Reachable, Enabled, Step, Filed;
    StepLogs(s, st, e);
  }

  lemma LogsInPast(s: State, st: Settings)
    requires Reachable(s, st)
    ensures LogPast(s)
  {
    hide Run;
    var ns, now, es :| Run(Init(ns, now), es, s, st);
    InitReachable(ns, now, st);
    RunLogPast(Init(ns, now), es, s, st);
  }

  lemma InitReachable(ns: seq<Nameserver>, now: int, st: Settings)
    ensures Reachable(Init(ns, now), st)
  {
    assert Run(Init(ns, now), [], Init(ns, now), st);
  }

  /** A lookup is answered from the cache if and only if the last update for its key is still
      live: before the lifetime of each of its answers and the largest lifetime allowed have
      passed since, or 60 seconds for an error and for a response without answers. */
  lemma LifetimesDecide(s: State, st: Settings, tid: Tid, name: Name, qtype: int, hasCb: bool, env: TxEnv)
    requires Reachable(s, st) && st.cacheMaxTtl < 0x1_0000_0000
    requires ArgError(name, qtype) == SUCCESS && Enabled(s, EStart(tid, name, qtype, hasCb, env))
    ensures var last := CacheLog.Last(s.log, InitResKey(qtype, name));
            tid in Step(s, EStart(tid, name, qtype, hasCb, env), st).hits <==> last.Some? && Live(last.value, s.now, st.cacheMaxTtl)
  {
    hide Reachable, Step, IdAndNodeIdle, MakesQuery, CacheLog.Answer, CacheLog.Last, Live, WellLinked, InitResKey;
    LookupsFollowTheLog(s, st, tid, name, qtype, hasCb, env);
    LogsInPast(s, st);
    LiveIsAnswered(s.log, InitResKey(qtype, name), s.now, st.cacheMaxTtl);
  }

  // ----- from the answer to the cache -----

  /** q has been answered or given up with outcome o and is not recycled yet. */
  predicate Telling(s: State, q: Ptr, key: Key, o: Outcome) {
    q in s.tasks && q in s.nodes && s.tasks[q].outcome == o && s.nodes[q].key == key
  }

  lemma StepKeepsTelling(s: State, loc: Places, own: Owners, st: Settings, e: Event, q: Ptr, key: Key, o: Outcome)
    requires InvariantBy(s, loc, own, st) && Enabled(s, e) && Telling(s, q, key, o) && e != ERecycle(q)
    ensures Telling(Step(s, e, st), q, key, o)
  {
    hide Placed, Owed, CacheRight, Start, Timeout, Receive, Recycle, Updated, WellLinked, Cancellable, IdAndNodeIdle, MakesQuery, Release, Slot;
    if e.EStart? {
      StartKeepsTelling(s, loc, own, st, e.tid, e.name, e.qtype, e.hasCb, e.env, q, key, o);
    } else if e.ETimeout? {
      TimeoutKeepsTelling(s, loc, st, e.p, e.env, q, key, o);
    } else if e.EReceive? {
      ReceiveKeepsTelling(s, loc, st, e.addr, e.pkt, q, key, o);
    } else if e.ERecycle? {
      RecycleKeepsTelling(s, e.q, st, q, key, o);
    } else {
      OthersKeepTelling(s, e, st, q, key, o);
    }
  }

  lemma OthersKeepTelling(s: State, e: Event, st: Settings, q: Ptr, key: Key, o: Outcome)
    requires Enabled(s, e) && Telling(s, q, key, o) && !e.EStart? && !e.ETimeout? && !e.EReceive? && !e.ERecycle?
    ensures Telling(Step(s, e, st), q, key, o)
  {
    hide Updated, WellLinked, Release, Cancellable, Slot, InitResKey, AddEntry, CallHit, EndHit;
    if e.EAddEntry? {
      QuietKeepsNodes(s, e, st);
    } else if e.ECallHit? || e.EEndHit? {
      HitsKeepNodes(s, e, st);
    }
  }

  lemma QuietKeepsNodes(s: State, e: Event, st: Settings)
    requires Enabled(s, e) && e.EAddEntry?
    ensures Step(s, e, st).nodes == s.nodes && Step(s, e, st).tasks == s.tasks
  {
    hide Updated, WellLinked, InitResKey;
  }

  lemma HitsKeepNodes(s: State, e: Event, st: Settings)
    requires Enabled(s, e) && (e.ECallHit? || e.EEndHit?)
    ensures Step(s, e, st).nodes == s.nodes && Step(s, e, st).tasks == s.tasks
  {
    hide Release, WellLinked;
  }

  lemma TimeoutKeepsTelling(s: State, loc: Places, st: Settings, p: Ptr, env: TxEnv, q: Ptr, key: Key, o: Outcome)
    requires Placed(s, loc, st) && p in s.popped && p in s.nodes && Telling(s, q, key, o)
    ensures Telling(Timeout(s, p, env, st), q, key, o)
  {
    hide Placed, Transmit;
    PoppedPending(s, loc, st, p);
    PlacedFresh(s, loc, st);
    var s1 := s.(popped := s.popped - {p}, nodes := s.nodes[p := s.nodes[p].(timerId := 0)]);
    TransmitEffect(s1, p, env, st);
  }

  lemma ReceiveKeepsTelling(s: State, loc: Places, st: Settings, addr: int, pkt: Option<Packet>, q: Ptr, key: Key, o: Outcome)
    requires Placed(s, loc, st) && WellFormed(s) && Telling(s, q, key, o)
    ensures Telling(Receive(s, addr, pkt, st), q, key, o)
  {
    hide Placed, WellLinked, Report, Pending;
    if pkt.Some? && pkt.value.id in s.byId {
      IdIsPending(s, loc, st, s.byId[pkt.value.id], pkt.value.id);
      PlacedFresh(s, loc, st);
    }
  }

  lemma RecycleKeepsTelling(s: State, p: Ptr, st: Settings, q: Ptr, key: Key, o: Outcome)
    requires WellFormed(s) && p in s.tasks && q != p && Telling(s, q, key, o)
    ensures Telling(Recycle(s, p, st), q, key, o)
  {
    hide Updated, WellLinked;
  }

  lemma StartKeepsTelling(s: State, loc: Places, own: Owners, st: Settings, tid: Tid, name: Name, qtype: int, hasCb: bool, env: TxEnv, q: Ptr, key: Key, o: Outcome)
    requires InvariantBy(s, loc, own, st) && WellFormed(s) && Telling(s, q, key, o)
    ensures Telling(Start(s, tid, name, qtype, hasCb, env, st).0, q, key, o)
  {
    hide Placed, Owed, CacheRight, Start, StartMissed, WellLinked, CacheLog.Find, InitResKey;
    if ArgError(name, qtype) != SUCCESS {
      StartRefused(s, tid, name, qtype, hasCb, env, st);
    } else if CacheLog.Find(s.cache, InitResKey(qtype, name), s.now).Hit? {
      StartHits(s, tid, name, qtype, hasCb, env, st);
    } else {
      StartMisses(s, tid, name, qtype, hasCb, env, st);
      RootsAreOld(s, loc, st);
      PlacedFresh(s, loc, st);
      MissedKeepsTelling(s.(nextToken := s.nextToken + 1, cache := CacheLog.Find(s.cache, InitResKey(qtype, name), s.now).cache), InitResKey(qtype, name),
                         if hasCb then Some(s.nextToken) else None, env, st, q, key, o);
    }
  }

  lemma MissedKeepsTelling(s: State, k: Key, cb: Option<Token>, env: TxEnv, st: Settings, q: Ptr, key: Key, o: Outcome)
    requires (forall x :: x in s.byRes ==> s.byRes[x] in s.nodes && s.byRes[x] != NewNode(s)) && NewNode(s) !in s.tasks && Telling(s, q, key, o)
    ensures Telling(StartMissed(s, k, cb, env, st).0, q, key, o)
  {
    hide Alloc, Transmit;
    AllocEffect(s, cb);
    var p, s1 := NewNode(s), Alloc(s, cb);
    if k !in s.byRes {
      var s2 := s1.(nodes := s1.nodes[p := s1.nodes[p].(id := s.lastId, key := k)], lastId := NextId(s.lastId));
      TransmitEffect(s2, p, env, st);
    }
  }

  predicate Recycles(es: seq<Event>, q: Ptr) {
    exists i :: 0 <= i < |es| && es[i] == ERecycle(q)
  }

  lemma {:induction false} RunKeepsTelling(s: State, loc: Places, own: Owners, es: seq<Event>, s': State, st: Settings, q: Ptr, key: Key, o: Outcome)
    requires InvariantBy(s, loc, own, st) && Run(s, es, s', st) && Telling(s, q, key, o) && !Recycles(es, q)
    ensures Telling(s', q, key, o)
    decreases |es|
  {
    hide InvariantBy, Enabled, Step, Telling;
    if es != [] {
      assert es[0] != ERecycle(q);
      assert forall i :: 0 <= i < |es| - 1 ==> es[1..][i] == es[i + 1];
      StepKeepsTelling(s, loc, own, st, es[0], q, key, o);
      StepKeepsInvariant(s, loc, own, es[0], st);
      RunKeepsTelling(Step(s, es[0], st), PlacesAfter(s, loc, es[0], st), OwnersAfter(s, own, es[0], st), es[1..], s', st, q, key, o);
    }
  }

  lemma AnswerDetaches(s: State, loc: Places, own: Owners, st: Settings, addr: int, pkt: Packet, q: Ptr)
    requires InvariantBy(s, loc, own, st) && WellFormed(s) && Pending(s, q) && pkt.id == s.nodes[q].id
    ensures Telling(Receive(s, addr, Some(pkt), st), q, s.nodes[q].key, Verdict(pkt))
  {
    hide Placed, Owed, CacheRight, Report, WellLinked;
  }

  // ----- all callers are told before the query is recycled -----

  /** t still waits on q, or does not wait any more. */
  predicate HeldOrDone(loc: Places, own: Owners, q: Ptr, t: Token) {
    t in own && (own[t].Told? || own[t].Silent? || (own[t].Held? && own[t].p in loc && loc[own[t].p].At? && loc[own[t].p].root == q))
  }

  lemma StepKeepsHolder(s: State, loc: Places, own: Owners, st: Settings, e: Event, q: Ptr, t: Token)
    requires InvariantBy(s, loc, own, st) && Enabled(s, e) && HeldOrDone(loc, own, q, t) && e != ERecycle(q)
    ensures HeldOrDone(PlacesAfter(s, loc, e, st), OwnersAfter(s, own, e, st), q, t)
  {
    hide Placed, Owed, CacheRight, PlacesAfterStartQuery, OwnersAfterStart, WellFormed, Cancellable, IdAndNodeIdle, MakesQuery, Due, Slot;
    OwnerThere(s, loc, own, t);
    NewTokens(s, loc, own);
    if e.EStart? {
      StartKeepsHolder(s, loc, own, st, e.tid, e.name, e.qtype, e.hasCb, e.env, q, t);
    }
  }

  lemma StartKeepsHolder(s: State, loc: Places, own: Owners, st: Settings, tid: Tid, name: Name, qtype: int, hasCb: bool, env: TxEnv, q: Ptr, t: Token)
    requires InvariantBy(s, loc, own, st) && WellFormed(s) && HeldOrDone(loc, own, q, t)
    ensures HeldOrDone(PlacesAfterStartQuery(s, loc, name, qtype, hasCb, env, st), OwnersAfterStart(s, own, tid, name, qtype, hasCb, env, st), q, t)
  {
    hide Placed, Owed, CacheRight, Start, StartMissed, WellLinked, CacheLog.Find, InitResKey, Due, PlacesAfterStart;
    OwnerThere(s, loc, own, t);
    NewTokens(s, loc, own);
    if ArgError(name, qtype) != SUCCESS {
      StartRefused(s, tid, name, qtype, hasCb, env, st);
    } else if CacheLog.Find(s.cache, InitResKey(qtype, name), s.now).Miss? {
      MissedNode(s, loc, own, tid, name, qtype, hasCb, env, st, t);
    }
  }

  lemma {:induction false} RunKeepsHolder(s: State, loc: Places, own: Owners, es: seq<Event>, s': State, st: Settings, q: Ptr, t: Token, o: Outcome)
    returns (loc': Places, own': Owners)
    requires InvariantBy(s, loc, own, st) && Run(s, es, s', st) && HeldOrDone(loc, own, q, t) && !Recycles(es, q)
    ensures InvariantBy(s', loc', own', st) && HeldOrDone(loc', own', q, t)
    ensures Promised(s, loc, own, t, o) && !Cancelled(s, es, st, t) ==> Promised(s', loc', own', t, o)
    decreases |es|
  {
    hide InvariantBy, Enabled, Step, HeldOrDone, Promised, Cause, Cancels;
    if es == [] {
      loc', own' := loc, own;
    } else {
      assert es[0] != ERecycle(q);
      assert forall i :: 0 <= i < |es| - 1 ==> es[1..][i] == es[i + 1];
      StepKeepsHolder(s, loc, own, st, es[0], q, t);
      StepKeepsInvariant(s, loc, own, es[0], st);
      StepPromises(s, loc, own, es[0], st, t, o);
      loc', own' := RunKeepsHolder(Step(s, es[0], st), PlacesAfter(s, loc, es[0], st), OwnersAfter(s, own, es[0], st), es[1..], s', st, q, t, o);
    }
  }

  lemma HeldBefore(s: State, loc: Places, own: Owners, st: Settings, addr: int, pkt: Packet, q: Ptr, t: Token)
    requires InvariantBy(s, loc, own, st) && Enabled(s, EReceive(addr, Some(pkt))) && Answers(s, q, pkt, t)
    ensures var e := EReceive(addr, Some(pkt));
            HeldOrDone(PlacesAfter(s, loc, e, st), OwnersAfter(s, own, e, st), q, t)
            && Promised(Step(s, e, st), PlacesAfter(s, loc, e, st), OwnersAfter(s, own, e, st), t, Verdict(pkt))
  {
    hide Placed, Owed, CacheRight, WellFormed, Asks, Pending, Promised, Receive;
    var e := EReceive(addr, Some(pkt));
    AsksIs(s, loc, own, st, q, t);
    StepPromises(s, loc, own, e, st, t, Verdict(pkt));
    assert Cause(s, e, st, t, Verdict(pkt));
  }

  /** At the end of the unlocked phase nobody waits on its query. */
  lemma DoneWhenRecycled(s: State, loc: Places, own: Owners, st: Settings, q: Ptr, t: Token, o: Outcome)
    requires InvariantBy(s, loc, own, st) && Enabled(s, ERecycle(q)) && HeldOrDone(loc, own, q, t) && Promised(s, loc, own, t, o)
    ensures Calls(s, t) == [o]
  {
    hide Owed, CacheRight, FreePlaced, RootsPlaced, TablesAgree, TimersRight, WellLinked, Due;
    if own[t].Held? {
      LateSlotsNotDue(s, loc, q, own[t].p);
    }
    OwnerThere(s, loc, own, t);
  }

  lemma LateSlotsNotDue(s: State, loc: Places, q: Ptr, p: Ptr)
    requires NodesPlaced(s, loc, {}) && q in s.tasks && q in s.nodes && s.tasks[q].done == Turns(s, q)
    requires p in loc && loc[p].At? && loc[p].root == q
    ensures !Due(s, loc, p)
  {
    SlotsBelow(s, loc, q, p);
  }

  lemma AnsweredHasBeenTold(s: State, loc: Places, own: Owners, st: Settings, addr: int, pkt: Packet, q: Ptr, t: Token, es: seq<Event>, s': State)
    requires InvariantBy(s, loc, own, st) && Enabled(s, EReceive(addr, Some(pkt))) && Answers(s, q, pkt, t)
    requires Run(Step(s, EReceive(addr, Some(pkt)), st), es, s', st) && !Recycles(es, q) && Enabled(s', ERecycle(q))
    requires !Cancelled(Step(s, EReceive(addr, Some(pkt)), st), es, st, t)
    ensures Calls(s', t) == [Verdict(pkt)]
  {
    hide Run, InvariantBy, HeldOrDone, Promised, Answers, Cancelled, Step, Recycles, WellFormed;
    var e := EReceive(addr, Some(pkt));
    HeldBefore(s, loc, own, st, addr, pkt, q, t);
    StepKeepsInvariant(s, loc, own, e, st);
    var loc', own' := RunKeepsHolder(Step(s, e, st), PlacesAfter(s, loc, e, st), OwnersAfter(s, own, e, st), es, s', st, q, t, Verdict(pkt));
    DoneWhenRecycled(s', loc', own', st, q, t, Verdict(pkt));
  }

  /** An answered query is filed as it was answered: when its callers have been told, the
      answer goes into the cache under the key of the query, with the status they were told. */
  lemma AnswerIsFiled(s: State, st: Settings, addr: int, pkt: Packet, q: Ptr, es: seq<Event>, s': State)
    requires Reachable(s, st) && Enabled(s, EReceive(addr, Some(pkt))) && Pending(s, q) && pkt.id == s.nodes[q].id
    requires Run(Step(s, EReceive(addr, Some(pkt)), st), es, s', st) && !Recycles(es, q) && Enabled(s', ERecycle(q))
    ensures Step(s', ERecycle(q), st).log == s'.log + [Update(s.nodes[q].key, Verdict(pkt).status, true, pkt, s'.now)]
    ensures forall t :: Asks(s, q, t) && !Cancelled(Step(s, EReceive(addr, Some(pkt)), st), es, st, t) ==> Calls(s', t) == [Verdict(pkt)]
  {
    hide Receive, Run, Reachable, InvariantBy, Recycle, WellFormed, Asks, Cancelled, Waiting;
    var e := EReceive(addr, Some(pkt));
    var loc, own := ReachableInvariant(s, st);
    AnswerDetaches(s, loc, own, st, addr, pkt, q);
    StepKeepsInvariant(s, loc, own, e, st);
    RunKeepsTelling(Step(s, e, st), PlacesAfter(s, loc, e, st), OwnersAfter(s, own, e, st), es, s', st, q, s.nodes[q].key, Verdict(pkt));
    FiledByRecycle(s', q, st, s.nodes[q].key, Verdict(pkt));
    forall t | Asks(s, q, t) && !Cancelled(Step(s, e, st), es, st, t) ensures Calls(s', t) == [Verdict(pkt)] {
      AnsweredHasBeenTold(s, loc, own, st, addr, pkt, q, t, es, s');
    }
  }

  lemma FiledByRecycle(s: State, q: Ptr, st: Settings, key: Key, o: Outcome)
    requires WellFormed(s) && Telling(s, q, key, o) && o.pkt.Some?
    ensures Recycle(s, q, st).log == s.log + [Update(key, o.status, true, o.pkt.value, s.now)]
  {
    hide Updated, WellLinked;
  }
}
