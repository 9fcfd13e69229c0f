/** The promises of the resolver, for every reachable state. */
module ResolverTheorems {
  import opened DnsTypes
  import opened Nameservers
  import opened ResponseCache
  import opened ResolverState
  import opened ResolverPlaces
  import opened ResolverSteps
  import opened ResolverTokens
  import opened ResolverRuns
  import CacheLog
  import PacketDup

  ghost predicate Reachable(s: State, st: Settings) {
    exists ns, now, es :: Run(Init(ns, now), es, s, st)
  }

  lemma ReachableInvariant(s: State, st: Settings) returns (loc: Places, own: Owners)
    requires Reachable(s, st)
    ensures InvariantBy(s, loc, own, st) && WellFormed(s)
  {
    var ns, now, es :| Run(Init(ns, now), es, s, st);
    InitInvariant(ns, now, st);
    RunKeepsInvariant(Init(ns, now), es, s, st);
    loc, own :| InvariantBy(s, loc, own, st);
    InvariantWellFormed(s, loc, st);
  }

  // ----- exactly one callback -----

  predicate IsSlot(s: State, q: Ptr, i: nat, p: Ptr) {
    q in s.nodes && Root(s, q) && i < Turns(s, q) && Slot(s, q, i) == p
  }

  ghost predicate NodeOwes(s: State, p: Ptr, t: Token) {
    p in s.nodes && s.nodes[p].cb == Some(t) && exists q, i :: IsSlot(s, q, i, p) && Untold(s, q, i)
  }

  predicate HitOwes(s: State, h: Tid, t: Token) {
    h in s.hits && !s.hits[h].called && s.hits[h].cb == Some(t)
  }

  /** Some pending, merged or detached node, or some cache hit, is still to call back for t. */
  ghost predicate Waiting(s: State, t: Token) {
    (exists p :: NodeOwes(s, p, t)) || (exists h :: HitOwes(s, h, t))
  }

  lemma DueIsUntold(s: State, loc: Places, st: Settings, p: Ptr)
    requires Placed(s, loc, st)
    ensures Due(s, loc, p) <==> p in s.nodes && exists q, i :: IsSlot(s, q, i, p) && Untold(s, q, i)
  {
    if Due(s, loc, p) {
      assert IsSlot(s, loc[p].root, loc[p].slot, p) && Untold(s, loc[p].root, loc[p].slot);
    }
    if q, i :| p in s.nodes && IsSlot(s, q, i, p) && Untold(s, q, i) {
      assert Root(s, q) && loc[p] == At(q, i);
    }
  }

  /** Every accepted query waits for its one callback, or has had exactly one, or was
      cancelled without notification and has had none: exactly one of the three. Once its
      node is back in the free list it does not wait any more. */
  lemma CalledBackExactlyOnce(s: State, st: Settings, t: Token)
    requires Reachable(s, st) && t in s.accepted
    ensures Waiting(s, t) <==> Calls(s, t) == [] && t !in s.silenced
    ensures !Waiting(s, t) && t !in s.silenced <==> |Calls(s, t)| == 1
    ensures |Calls(s, t)| <= 1
  {
    hide NodeOwes, HitOwes, Placed, CacheRight, WellLinked, Reachable, Due;
    var loc, own := ReachableInvariant(s, st);
    assert OwnerRight(s, loc, t, own[t]);
    OwnersOwe(s, loc, own, st, t);
    match own[t] {
      case Held(p) => assert NodeOwes(s, p, t);
      case OnHit(h) => assert HitOwes(s, h, t);
      case Told =>
      case Silent =>
    }
  }

  /** The owner of a token is the one that owes its callback. */
  lemma OwnersOwe(s: State, loc: Places, own: Owners, st: Settings, t: Token)
    requires InvariantBy(s, loc, own, st) && t in s.accepted
    ensures forall p :: NodeOwes(s, p, t) <==> own[t] == Held(p)
    ensures forall h :: HitOwes(s, h, t) <==> own[t] == OnHit(h)
  {
    assert OwnerRight(s, loc, t, own[t]);
    hide Placed, Untold, IsSlot;
    forall p ensures NodeOwes(s, p, t) <==> own[t] == Held(p) {
      DueIsUntold(s, loc, st, p);
    }
  }

  /** A query that start_query refused is never called back. */
  lemma OnlyAcceptedAreCalled(s: State, st: Settings, t: Token)
    requires Reachable(s, st) && t !in s.accepted
    ensures Calls(s, t) == [] && !Waiting(s, t)
  {
    var loc, own := ReachableInvariant(s, st);
    forall p ensures !NodeOwes(s, p, t) {
      DueIsUntold(s, loc, st, p);
    }
  }

  // ----- one place each -----

  /** Every node is once in the free list or in one turn of one pending or detached query,
      never both. */
  lemma OnePlaceEach(s: State, st: Settings, p: Ptr)
    requires Reachable(s, st) && p in s.nodes
    ensures p in s.free <==> !exists q, i :: IsSlot(s, q, i, p)
    ensures forall j, k :: 0 <= j < k < |s.free| ==> !(s.free[j] == p && s.free[k] == p)
    ensures forall q, i, q', i' :: IsSlot(s, q, i, p) && IsSlot(s, q', i', p) ==> q == q' && i == i'
  {
    hide TablesAgree, TimersRight, TasksRight, Reachable, WellFormed;
    var loc, own := ReachableInvariant(s, st);
    forall q, i | IsSlot(s, q, i, p) ensures loc[p] == At(q, i) && p !in s.free { }
    if loc[p].At? {
      assert IsSlot(s, loc[p].root, loc[p].slot, p);
    }
  }

  /** hquerybyid and hquerybyres hold the same queries, each once; a timer runs, or its
      on_timeout is about to take the mutex, exactly for these, never both; and the
      assertions on the timer id in transmit_query and on_read_complete hold. */
  lemma TablesAndTimersAgree(s: State, st: Settings)
    requires Reachable(s, st)
    ensures s.byId.Values == s.byRes.Values
    ensures forall i, j :: i in s.byId && j in s.byId && s.byId[i] == s.byId[j] ==> i == j
    ensures forall k, l :: k in s.byRes && l in s.byRes && s.byRes[k] == s.byRes[l] ==> k == l
    ensures s.byId.Values == s.armed + (set p | p in s.popped && Pending(s, p)) && s.armed !! s.popped
    ensures forall i :: i in s.byId ==> s.byId[i] in s.nodes && s.nodes[s.byId[i]].timerId != 0
  {
    hide NodesPlaced, FreePlaced, RootsPlaced, TasksRight, TablesAgree, TimersRight, Reachable, WellFormed;
    var loc, own := ReachableInvariant(s, st);
    SameQueriesInTables(s, st);
  }

  lemma SameQueriesInTables(s: State, st: Settings)
    requires TablesAgree(s) && TimersRight(s, st)
    ensures s.byId.Values == s.byRes.Values
    ensures forall i, j :: i in s.byId && j in s.byId && s.byId[i] == s.byId[j] ==> i == j
    ensures forall k, l :: k in s.byRes && l in s.byRes && s.byRes[k] == s.byRes[l] ==> k == l
    ensures s.byId.Values == s.armed + (set p | p in s.popped && Pending(s, p)) && s.armed !! s.popped
    ensures forall i :: i in s.byId ==> s.byId[i] in s.nodes && s.nodes[s.byId[i]].timerId != 0
  {
    forall p ensures p in s.byId.Values <==> Pending(s, p) {
      if Pending(s, p) { assert s.byId[s.nodes[p].id] == p; }
    }
    forall p ensures p in s.byRes.Values <==> Pending(s, p) {
      if Pending(s, p) { assert s.byRes[s.nodes[p].key] == p; }
    }
    assert forall p :: Pending(s, p) ==> Timed(s, p, st);
  }

  // ----- the cache -----

  /** A cached entry is counted once for the table and once for each callback using it, and
      is kept exactly as long as one of these holds. */
  lemma ReferencesCounted(s: State, st: Settings)
    requires Reachable(s, st)
    ensures forall e :: e in s.cache.entries ==>
      s.cache.entries[e].refCnt == (if InTable(s.cache, e) then 1 else 0) + |set h | h in s.hits && s.hits[h].entry == e|
      && s.cache.entries[e].refCnt >= 1
    ensures forall h :: h in s.hits ==> s.hits[h].entry in s.cache.entries
    ensures forall k :: k in s.cache.table ==> s.cache.table[k] in s.cache.entries
  {
    var loc, own := ReachableInvariant(s, st);
    forall e | e in s.cache.entries
      ensures s.cache.entries[e].refCnt == (if InTable(s.cache, e) then 1 else 0) + |set h | h in s.hits && s.hits[h].entry == e| && s.cache.entries[e].refCnt >= 1
    {
      assert CountRight(s.cache, Uses(s), e);
      assert UserSet(Uses(s), e) == set h | h in s.hits && s.hits[h].entry == e;
    }
  }

  /** Callback h is still running on the packet it was given. */
  predicate SameReading(s: State, s': State, h: Tid) {
    && h in s.hits && h in s'.hits && s'.hits[h].entry == s.hits[h].entry && s.hits[h].entry in s.cache.entries
    && s'.hits[h].entry in s'.cache.entries && s'.cache.entries[s'.hits[h].entry].pkt == s.cache.entries[s.hits[h].entry].pkt
  }

  /** While a callback runs on a cached packet no step frees, resets or replaces it. */
  lemma CallbackKeepsItsPacket(s: State, st: Settings, e: Event, h: Tid)
    requires Reachable(s, st) && Enabled(s, e) && h in s.hits && e != EEndHit(h)
    ensures SameReading(s, Step(s, e, st), h)
  {
    var loc, own := ReachableInvariant(s, st);
    assert Uses(s)[h] == s.hits[h].entry;
    StepKeepsReading(s, loc, st, e, h);
  }

  lemma StepKeepsReading(s: State, loc: Places, st: Settings, e: Event, h: Tid)
    requires Placed(s, loc, st) && CacheRight(s, st) && Enabled(s, e) && h in s.hits && Uses(s)[h] == s.hits[h].entry && e != EEndHit(h)
    ensures SameReading(s, Step(s, e, st), h)
  {
    hide Placed, CacheRight, Start, EndHit, Recycle, AddEntry, IdAndNodeIdle, MakesQuery, Cancellable, Timeout, Receive, CallNext, Cancel, WellFormed;
    if e.EStart? {
      StartKeepsReading(s, loc, st, e.tid, e.name, e.qtype, e.hasCb, e.env, h);
    } else if e.EEndHit? {
      EndHitKeepsReading(s, st, e.tid, h);
    } else if e.ERecycle? {
      RecycleKeepsReading(s, st, e.q, h);
    } else if e.EAddEntry? {
      AddKeepsReading(s, st, e.answer, e.setTtl, h);
    } else {
      OtherStepsKeepReading(s, st, e, h);
    }
  }

  lemma OtherStepsKeepReading(s: State, st: Settings, e: Event, h: Tid)
    requires CacheRight(s, st) && Enabled(s, e) && h in s.hits && Uses(s)[h] == s.hits[h].entry
    requires e.ETimeout? || e.EReceive? || e.ECallNext? || e.ECancel? || e.ECallHit? || e.EPop? || e.ETick?
    ensures SameReading(s, Step(s, e, st), h)
  {
    hide CacheRight, IdAndNodeIdle, MakesQuery, Cancellable, Timeout, Receive, CallNext, Cancel, WellFormed, WellLinked, Uses;
    ReadsEntry(s, st, h);
    if e.ETimeout? {
      TimeoutSameCache(s, e.p, e.env, st);
    } else if e.EReceive? {
      ReceiveSameCache(s, e.addr, e.pkt, st);
    } else if e.ECallNext? {
      CallNextRange(s, e.q);
      CallNextSameCache(s, e.q);
    } else if e.ECancel? {
      CancelSameCache(s, e.p, e.notify);
    }
  }

  lemma ReadsEntry(s: State, st: Settings, h: Tid)
    requires CacheRight(s, st) && h in s.hits && Uses(s)[h] == s.hits[h].entry
    ensures s.hits[h].entry in s.cache.entries
  {
  }

  lemma CallNextRange(s: State, q: Ptr)
    requires WellFormed(s) && q in s.tasks && s.tasks[q].done < Turns(s, q)
    ensures s.tasks[q].done <= |s.nodes[q].children|
  {
  }

  lemma StartKeepsReading(s: State, loc: Places, st: Settings, tid: Tid, name: Name, qtype: int, hasCb: bool, env: TxEnv, h: Tid)
    requires CacheRight(s, st) && Placed(s, loc, st) && WellFormed(s) && tid !in s.hits && h in s.hits && Uses(s)[h] == s.hits[h].entry
    ensures SameReading(s, Start(s, tid, name, qtype, hasCb, env, st).0, h)
  {
    hide Start, StartMissed, Placed, CacheLog.Refines, WellLinked, Rcode, StatusFromRcode;
    if ArgError(name, qtype) != SUCCESS {
      StartRefused(s, tid, name, qtype, hasCb, env, st);
    } else {
      var key := InitResKey(qtype, name);
      var f := CacheLog.Find(s.cache, key, s.now);
      if f.Hit? {
        StartHits(s, tid, name, qtype, hasCb, env, st);
      } else {
        StartMisses(s, tid, name, qtype, hasCb, env, st);
        RemoveKeepsCount(s.cache, Uses(s), key);
        RootsAreOld(s, loc, st);
        StartMissedEffect(s.(nextToken := s.nextToken + 1, cache := f.cache), key, if hasCb then Some(s.nextToken) else None, env, st);
      }
    }
  }

  lemma EndHitKeepsReading(s: State, st: Settings, t: Tid, h: Tid)
    requires CacheRight(s, st) && WellFormed(s) && t in s.hits && h in s.hits && h != t
    ensures SameReading(s, EndHit(s, t), h)
  {
    assert Uses(s)[h] == s.hits[h].entry && Uses(s)[t] == s.hits[t].entry;
    ReleaseKeepsCount(s.cache, Uses(s), t);
    assert (Uses(s) - {t})[h] == s.hits[h].entry;
  }

  lemma RecycleKeepsReading(s: State, st: Settings, q: Ptr, h: Tid)
    requires CacheRight(s, st) && WellFormed(s) && q in s.tasks && h in s.hits && Uses(s)[h] == s.hits[h].entry
    ensures SameReading(s, Recycle(s, q, st), h)
  {
    hide Updated, CacheRight;
    var o := s.tasks[q].outcome;
    if o.pkt.Some? {
      StoreCache(s, st, Update(s.nodes[q].key, o.status, true, o.pkt.value, s.now));
    }
  }

  lemma AddKeepsReading(s: State, st: Settings, pkt: Packet, setTtl: bool, h: Tid)
    requires CacheRight(s, st) && WellFormed(s) && h in s.hits && Uses(s)[h] == s.hits[h].entry
    ensures SameReading(s, AddEntry(s, pkt, setTtl, st), h)
  {
    hide Updated, CacheRight;
    var (name, t) := if pkt.ans != [] then (pkt.ans[0].name, pkt.ans[0].rtype) else if pkt.q != [] then (pkt.q[0].name, pkt.q[0].qtype) else ([], 0);
    if |name| < MAX_HOSTNAME {
      StoreCache(s, st, Update(InitResKey(t, name), SUCCESS, setTtl, pkt, s.now));
    }
  }

  /** start_query answers from the cache exactly when the last update of the cache for the
      case-folded name and type has a capped time to live other than zero and has not
      expired, and then with the copy that update made. */
  lemma LookupsFollowTheLog(s: State, st: Settings, tid: Tid, name: Name, qtype: int, hasCb: bool, env: TxEnv)
    requires Reachable(s, st) && tid !in s.hits && ArgError(name, qtype) == SUCCESS && Enabled(s, EStart(tid, name, qtype, hasCb, env))
    ensures var s' := Step(s, EStart(tid, name, qtype, hasCb, env), st);
            var answer := CacheLog.Answer(s.log, InitResKey(qtype, name), s.now, st.cacheMaxTtl);
            && (tid in s'.hits <==> answer.Some?)
            && (tid in s'.hits ==>
                 s'.hits[tid].entry in s'.cache.entries && answer == Some(s'.cache.entries[s'.hits[tid].entry].pkt)
                 && s'.hits[tid].status == StatusFromRcode(Rcode(answer.value)))
  {
    var loc, own := ReachableInvariant(s, st);
    var key := InitResKey(qtype, name);
    hide Placed, Owed, Start, CacheLog.Refines, Counted, IdAndNodeIdle, MakesQuery, CacheLog.Find, WellLinked;
    CacheLog.FindAnswersFromLog(s.cache, s.log, s.now, st.cacheMaxTtl, key);
    var f := CacheLog.Find(s.cache, key, s.now);
    if f.Hit? {
      StartHitStatus(s, tid, name, qtype, hasCb, env, st);
    } else {
      StartMisses(s, tid, name, qtype, hasCb, env, st);
      RootsAreOld(s, loc, st);
      StartMissedEffect(s.(nextToken := s.nextToken + 1, cache := f.cache), key, if hasCb then Some(s.nextToken) else None, env, st);
    }
  }

  lemma StartHitStatus(s: State, tid: Tid, name: Name, qtype: int, hasCb: bool, env: TxEnv, st: Settings)
    requires WellFormed(s) && ArgError(name, qtype) == SUCCESS && CacheLog.Find(s.cache, InitResKey(qtype, name), s.now).Hit?
    ensures var s' := Start(s, tid, name, qtype, hasCb, env, st).0;
            var f := CacheLog.Find(s.cache, InitResKey(qtype, name), s.now);
            && tid in s'.hits && s'.hits[tid].entry == f.entry && s'.cache == f.cache && f.entry in f.cache.entries
            && s'.hits[tid].status == StatusFromRcode(Rcode(f.cache.entries[f.entry].pkt))
  {
  }

  // ----- time-outs -----

  function Timeouts(es: seq<Event>, p: Ptr): nat {
    if es == [] then 0 else (if es[0].ETimeout? && es[0].p == p then 1 else 0) + Timeouts(es[1..], p)
  }

  /** p is pending at every point of the run. */
  ghost predicate PendingThroughout(s: State, es: seq<Event>, p: Ptr, st: Settings)
    decreases |es|
  {
    Pending(s, p) && (es == [] || (Enabled(s, es[0]) && PendingThroughout(Step(s, es[0], st), es[1..], p, st)))
  }

  /** Each time-out that leaves a query pending has transmitted it once more, and nothing
      else transmits it. */
  lemma TimeoutsTransmit(s: State, loc: Places, own: Owners, es: seq<Event>, s': State, p: Ptr, st: Settings)
    requires InvariantBy(s, loc, own, st) && Run(s, es, s', st) && PendingThroughout(s, es, p, st)
    ensures Pending(s', p) && s'.nodes[p].transmitCnt == s.nodes[p].transmitCnt + Timeouts(es, p)
    decreases |es|
  {
    if es != [] {
      var e := es[0];
      StepKeepsInvariant(s, loc, own, e, st);
      StepTransmits(s, loc, st, e, p);
      TimeoutsTransmit(Step(s, e, st), PlacesAfter(s, loc, e, st), OwnersAfter(s, own, e, st), es[1..], s', p, st);
    }
  }

  lemma StepTransmits(s: State, loc: Places, st: Settings, e: Event, p: Ptr)
    requires Placed(s, loc, st) && Enabled(s, e) && Pending(s, p) && Pending(Step(s, e, st), p)
    ensures Step(s, e, st).nodes[p].transmitCnt == s.nodes[p].transmitCnt + if e.ETimeout? && e.p == p then 1 else 0
  {
    hide Placed, Start, Timeout, Updated, IdAndNodeIdle, MakesQuery, Cancellable, WellFormed, WellLinked, Receive, Recycle, CallNext, Cancel, CallHit, EndHit, AddEntry;
    if e.EStart? {
      StartTransmitsOthers(s, loc, st, e.tid, e.name, e.qtype, e.hasCb, e.env, p);
    } else if e.ETimeout? {
      TimeoutTransmits(s, loc, st, e.p, e.env, p);
    } else {
      OthersTransmit(s, st, e, p);
    }
  }

  lemma OthersTransmit(s: State, st: Settings, e: Event, p: Ptr)
    requires Enabled(s, e) && !e.EStart? && !e.ETimeout? && p in s.nodes
    ensures p in Step(s, e, st).nodes && Step(s, e, st).nodes[p].transmitCnt == s.nodes[p].transmitCnt
  {
    hide Start, Timeout, Updated, IdAndNodeIdle, MakesQuery, Cancellable, WellFormed, WellLinked, Receive, Recycle, Slot;
    if e.EReceive? {
      ReceiveTransmits(s, e.addr, e.pkt, st, p);
    } else if e.ERecycle? {
      RecycleTransmits(s, e.q, st, p);
    }
  }

  lemma ReceiveTransmits(s: State, addr: int, pkt: Option<Packet>, st: Settings, p: Ptr)
    requires WellFormed(s) && p in s.nodes
    ensures var s' := Receive(s, addr, pkt, st); p in s'.nodes && s'.nodes[p].transmitCnt == s.nodes[p].transmitCnt
  {
    hide Report, WellLinked;
  }

  lemma RecycleTransmits(s: State, q: Ptr, st: Settings, p: Ptr)
    requires WellFormed(s) && q in s.tasks && p in s.nodes
    ensures var s' := Recycle(s, q, st); p in s'.nodes && s'.nodes[p].transmitCnt == s.nodes[p].transmitCnt
  {
    hide Updated, WellLinked;
  }

  lemma StartTransmitsOthers(s: State, loc: Places, st: Settings, tid: Tid, name: Name, qtype: int, hasCb: bool, env: TxEnv, p: Ptr)
    requires Placed(s, loc, st) && WellFormed(s) && Pending(s, p)
    ensures var s' := Start(s, tid, name, qtype, hasCb, env, st).0; p in s'.nodes && s'.nodes[p].transmitCnt == s.nodes[p].transmitCnt
  {
    hide Start, StartMissed, CacheLog.Find;
    if ArgError(name, qtype) != SUCCESS {
      StartRefused(s, tid, name, qtype, hasCb, env, st);
    } else {
      var key := InitResKey(qtype, name);
      var f := CacheLog.Find(s.cache, key, s.now);
      if f.Hit? {
        StartHits(s, tid, name, qtype, hasCb, env, st);
      } else {
        StartMisses(s, tid, name, qtype, hasCb, env, st);
        RootsAreOld(s, loc, st);
        assert p != NewNode(s) by { PlacedFresh(s, loc, st); assert s.byRes[s.nodes[p].key] == p; }
        StartMissedEffect(s.(nextToken := s.nextToken + 1, cache := f.cache), key, if hasCb then Some(s.nextToken) else None, env, st);
      }
    }
  }

  lemma TimeoutTransmits(s: State, loc: Places, st: Settings, q: Ptr, env: TxEnv, p: Ptr)
    requires Placed(s, loc, st) && q in s.popped && q in s.nodes && Pending(s, p) && Pending(Timeout(s, q, env, st), p)
    ensures Timeout(s, q, env, st).nodes[p].transmitCnt == s.nodes[p].transmitCnt + if q == p then 1 else 0
  {
    hide NodesPlaced, FreePlaced, RootsPlaced, TasksRight, TablesAgree, Transmit;
    var s0 := s.(popped := s.popped - {q});
    var s1 := s0.(nodes := s0.nodes[q := s0.nodes[q].(timerId := 0)]);
    TransmitEffect(s1, q, env, st);
  }

  /** With fixed settings a query is transmitted at most max(1, qretr_count) times: one more
      time-out than that leaves it answered with a time-out. */
  lemma UnansweredTimesOut(s: State, st: Settings, es: seq<Event>, s': State, p: Ptr)
    requires Reachable(s, st) && Run(s, es, s', st) && PendingThroughout(s, es, p, st)
    ensures p in s.nodes && 1 <= s.nodes[p].transmitCnt
    ensures p in s'.nodes && s'.nodes[p].transmitCnt == s.nodes[p].transmitCnt + Timeouts(es, p) <= Max1(st.qretrCount)
  {
    var loc, own := ReachableInvariant(s, st);
    TimeoutsTransmit(s, loc, own, es, s', p, st);
    RunKeepsInvariant(s, es, s', st);
    var loc', own' :| InvariantBy(s', loc', own', st);
    assert Timed(s, p, st) && Timed(s', p, st);
  }

  // ----- a timer that fired too late -----

  /** A new query starts with the queries in order exactly when its id and its node are
      idle: not pending, and not of a timer that fired and whose on_timeout is yet to take
      the mutex. */
  lemma NewQueryNeedsIdle(s: State, loc: Places, st: Settings, key: Key, cb: Option<Token>, env: TxEnv)
    requires Placed(s, loc, st) && key !in s.byRes && StartMissed(s, key, cb, env, st).1 == SUCCESS
    ensures IdAndNodeIdle(s) <==> exists loc' :: Placed(StartMissed(s, key, cb, env, st).0, loc', st)
  {
    if IdAndNodeIdle(s) {
      StartMissedKeepsPlaces(s, loc, st, key, cb, env);
    } else {
      StartedBusy(s, loc, st, key, cb, env);
    }
  }

  lemma StartedNew(s: State, key: Key, cb: Option<Token>, env: TxEnv, st: Settings)
    requires (forall k :: k in s.byRes ==> s.byRes[k] in s.nodes) && key !in s.byRes && StartMissed(s, key, cb, env, st).1 == SUCCESS
    ensures var s', p := StartMissed(s, key, cb, env, st).0, NewNode(s);
            && s'.nodes == s.nodes[p := Query(s.lastId, 1, key, 1, cb, [])] && s'.armed == s.armed + {p} && s'.popped == s.popped
            && s'.byId == s.byId[s.lastId := p] && s'.byRes == s.byRes[key := p] && s'.tasks == s.tasks
  {
    hide Transmit;
    var p, s1 := NewNode(s), Alloc(s, cb);
    AllocEffect(s, cb);
    var s2 := s1.(nodes := s1.nodes[p := s1.nodes[p].(id := s.lastId, key := key)], lastId := NextId(s.lastId));
    TransmitEffect(s2, p, env, st);
  }

  lemma StartedBusy(s: State, loc: Places, st: Settings, key: Key, cb: Option<Token>, env: TxEnv)
    requires Placed(s, loc, st) && key !in s.byRes && StartMissed(s, key, cb, env, st).1 == SUCCESS && !IdAndNodeIdle(s)
    ensures forall loc' :: !Placed(StartMissed(s, key, cb, env, st).0, loc', st)
  {
    var s', p := StartMissed(s, key, cb, env, st).0, NewNode(s);
    RootsAreOld(s, loc, st);
    StartedNew(s, key, cb, env, st);
    hide NodesPlaced, FreePlaced, RootsPlaced, StartMissed, TasksRight, Timed;
    if p in s.popped {
      assert p in s'.armed && p in s'.popped;
      assert !ArmedRight(s');
    } else if s.lastId in s.byId {
      IdTakenTwice(s, s', p, key, cb);
    } else {
      var x :| x in s.popped && x in s.nodes && s.nodes[x].id == s.lastId;
      assert x in s'.popped && s'.nodes[x].id in s'.byId && !Pending(s', x);
      assert !PoppedRight(s');
    }
  }

  lemma IdTakenTwice(s: State, s': State, p: Ptr, key: Key, cb: Option<Token>)
    requires TablesAgree(s) && s.lastId in s.byId && key !in s.byRes && (forall k :: k in s.byRes ==> s.byRes[k] != p)
    requires s'.nodes == s.nodes[p := Query(s.lastId, 1, key, 1, cb, [])]
    requires s'.byId == s.byId[s.lastId := p] && s'.byRes == s.byRes[key := p]
    ensures !TablesAgree(s')
  {
    var taken := s.byId[s.lastId];
    var k := s.nodes[taken].key;
    assert Pending(s, taken) && s.byRes[k] == taken;
    assert s'.byRes[k] == taken && !Pending(s', taken);
  }

  /** What a late on_timeout then does: the new query on the reused node is reported timed
      out although its own timer is still running. */
  lemma LateTimeoutHitsNewQuery(s: State, loc: Places, st: Settings, key: Key, cb: Option<Token>, env: TxEnv, env': TxEnv)
    requires Placed(s, loc, st) && key !in s.byRes && StartMissed(s, key, cb, env, st).1 == SUCCESS && NewNode(s) in s.popped
    ensures var s', p := StartMissed(s, key, cb, env, st).0, NewNode(s);
            && p in s'.nodes
            && var s'' := Timeout(s', p, env', st);
            p in s''.tasks && s''.tasks[p] == Task(Outcome(ETIMEDOUT, None), 0) && p in s''.armed
  {
    RootsAreOld(s, loc, st);
    StartedNew(s, key, cb, env, st);
    hide StartMissed, Placed;
    var s', p := StartMissed(s, key, cb, env, st).0, NewNode(s);
    var s0 := s'.(popped := s'.popped - {p});
    var s1 := s0.(nodes := s0.nodes[p := s0.nodes[p].(timerId := 0)]);
    TransmitEffect(s1, p, env', st);
  }
}
