/** What callbacks are told, and why: every outcome that a callback gets has one cause, and
    every cause leads to its outcome. */
module ResolverAnswers {
  import opened DnsTypes
  import opened Nameservers
  import opened ResponseCache
  import opened ResolverState
  import opened ResolverPlaces
  import opened ResolverSteps
  import opened ResolverTokens
  import opened ResolverRuns
  import opened ResolverTheorems
  import CacheLog

  /** What a response tells: success for the response code zero, otherwise the code as a status
      of the DNS range, and the response itself. */
  function Verdict(pkt: Packet): Outcome {
    Outcome(if pkt.flags % 16 == 0 then 0 else 320050 + pkt.flags % 16, Some(pkt))
  }

  const TIMED_OUT := Outcome(70009, None)
  const CANCELLED := Outcome(70014, None)

  /** The query on q is to call back for t in the turn i of its unlocked phase. */
  predicate AsksIn(s: State, q: Ptr, i: nat, t: Token) {
    q in s.nodes && Root(s, q) && i < Turns(s, q) && Slot(s, q, i) in s.nodes && s.nodes[Slot(s, q, i)].cb == Some(t)
  }

  /** t asks on the query q: as its own callback or that of a request merged into it. */
  ghost predicate Asks(s: State, q: Ptr, t: Token) {
    exists i :: AsksIn(s, q, i, t)
  }

  /** Event e settles that t is told o. */
  ghost predicate Cause(s: State, e: Event, st: Settings, t: Token, o: Outcome)
    requires Enabled(s, e)
  {
    match e
    case EReceive(_, pkt) => pkt.Some? && o == Verdict(pkt.value) && exists q :: Answers(s, q, pkt.value, t)
    case ETimeout(q, _) => o == TIMED_OUT && Pending(s, q) && !Pending(Step(s, e, st), q) && Asks(s, q, t)
    case ECancel(p, notify) => notify && o == CANCELLED && s.nodes[p].cb == Some(t)
    case EStart(_, name, qtype, hasCb, _) => FromCache(s, name, qtype, hasCb, st, t, o)
    case _ => false
  }

  /** pkt answers the pending query on q, on which t asks. */
  ghost predicate Answers(s: State, q: Ptr, pkt: Packet, t: Token) {
    Pending(s, q) && pkt.id == s.nodes[q].id && Asks(s, q, t)
  }

  /** A lookup in the cache answers t at once. */
  predicate FromCache(s: State, name: Name, qtype: int, hasCb: bool, st: Settings, t: Token, o: Outcome) {
    hasCb && t == s.nextToken && ArgError(name, qtype) == SUCCESS
    && o.pkt.Some? && CacheLog.Answer(s.log, InitResKey(qtype, name), s.now, st.cacheMaxTtl) == o.pkt && o == Verdict(o.pkt.value)
  }

  /** The application cancels t. */
  ghost predicate Cancels(s: State, e: Event, t: Token)
    requires Enabled(s, e)
  {
    e.ECancel? && s.nodes[e.p].cb == Some(t)
  }

  // ----- what is settled in a state -----

  /** t has been told o, or is to be told o by the one that owes its callback. */
  predicate Promised(s: State, loc: Places, own: Owners, t: Token, o: Outcome) {
    t in own &&
    match own[t]
    case Told => Calls(s, t) == [o]
    case Held(p) => p in loc && loc[p].At? && loc[p].root in s.tasks && s.tasks[loc[p].root].outcome == o
    case OnHit(h) => h in s.hits && s.hits[h].entry in s.cache.entries && o == Outcome(s.hits[h].status, Some(s.cache.entries[s.hits[h].entry].pkt))
    case Silent => false
  }

  /** The one that owes the callback for t, as the query that it asks on. */
  lemma AsksIs(s: State, loc: Places, own: Owners, st: Settings, q: Ptr, t: Token)
    requires Placed(s, loc, st) && Owed(s, loc, own) && Pending(s, q)
    ensures Asks(s, q, t) <==> t in own && own[t].Held? && own[t].p in loc && loc[own[t].p].At? && loc[own[t].p].root == q
  {
    hide TablesAgree, TimersRight, FreePlaced;
    assert q !in s.tasks;
    if i :| AsksIn(s, q, i, t) {
      var p := Slot(s, q, i);
      assert loc[p] == At(q, i) && Due(s, loc, p);
    }
    if t in own && own[t].Held? && own[t].p in loc && loc[own[t].p].At? && loc[own[t].p].root == q {
      assert OwnerRight(s, loc, t, own[t]);
      assert AsksIn(s, q, loc[own[t].p].slot, t);
    }
  }

  /** What a step does to the promises: those made before stay unless the application cancels,
      and a new one has a cause in the step. */
  ghost predicate PromisesFollow(s: State, loc: Places, own: Owners, e: Event, st: Settings, t: Token, o: Outcome)
    requires Enabled(s, e)
  {
    Promised(Step(s, e, st), PlacesAfter(s, loc, e, st), OwnersAfter(s, own, e, st), t, o) <==>
    (Promised(s, loc, own, t, o) && !Cancels(s, e, t)) || Cause(s, e, st, t, o)
  }

  /** Owner by owner: the same holder, with the same outcome before it. */
  lemma SamePromise(s: State, loc: Places, own: Owners, s': State, loc': Places, t: Token, o: Outcome)
    requires Owed(s, loc, own) && t in own
    requires Calls(s', t) == Calls(s, t)
    requires own[t].Held? ==>
      var p := own[t].p; p in loc' && loc'[p] == loc[p] && (loc[p].root in s'.tasks <==> loc[p].root in s.tasks)
                         && (loc[p].root in s.tasks ==> s'.tasks[loc[p].root].outcome == s.tasks[loc[p].root].outcome)
    requires own[t].OnHit? ==> SameReading(s, s', own[t].t) && s'.hits[own[t].t].status == s.hits[own[t].t].status
    ensures Promised(s', loc', own, t, o) <==> Promised(s, loc, own, t, o)
  {
    assert OwnerRight(s, loc, t, own[t]);
  }

  /** A pending query is detached: those who ask on it are promised the outcome. */
  lemma DetachPromises(s: State, s1: State, loc: Places, own: Owners, st: Settings, q: Ptr, told: Outcome, t: Token, o: Outcome)
    requires Placed(s, loc, st) && Owed(s, loc, own) && Pending(s, q) && q in s1.nodes
    requires s1.tasks == s.tasks && s1.calls == s.calls && s1.hits == s.hits && s1.cache == s.cache
    ensures Promised(Detach(s1, q, told), loc, own, t, o) <==> Promised(s, loc, own, t, o) || (Asks(s, q, t) && o == told)
  {
    hide Owed, Placed, Asks, Pending;
    AsksIs(s, loc, own, st, q, t);
    OwnerThere(s, loc, own, t);
    assert q !in s.tasks by { PlacedFresh(s, loc, st); }
  }

  lemma OwnerThere(s: State, loc: Places, own: Owners, t: Token)
    requires Owed(s, loc, own)
    ensures t in own ==> OwnerRight(s, loc, t, own[t])
  {
  }

  lemma ReceivePromises(s: State, loc: Places, own: Owners, e: Event, st: Settings, t: Token, o: Outcome)
    requires InvariantBy(s, loc, own, st) && Enabled(s, e) && e.EReceive?
    ensures PromisesFollow(s, loc, own, e, st, t, o)
  {
    hide Owed, CacheRight, Placed, Asks, WellLinked, Detach, Promised, Pending;
    if e.pkt.Some? && e.pkt.value.id in s.byId {
      var q := s.byId[e.pkt.value.id];
      IdIsPending(s, loc, st, q, e.pkt.value.id);
      var s1 := s.(ns := Report(s.ns, e.addr, e.pkt, s.now, st), armed := s.armed - {q}, nodes := s.nodes[q := s.nodes[q].(timerId := 0)]);
      DetachPromises(s, s1, loc, own, st, q, Verdict(e.pkt.value), t, o);
      assert Asks(s, q, t) ==> Answers(s, q, e.pkt.value, t);
    } else {
      StrayAnswer(s, loc, own, e.addr, e.pkt, st, t, o);
    }
  }

  lemma IdIsPending(s: State, loc: Places, st: Settings, q: Ptr, id: nat)
    requires Placed(s, loc, st) && id in s.byId && s.byId[id] == q
    ensures Pending(s, q) && s.nodes[q].id == id
    ensures forall x :: Pending(s, x) && s.nodes[x].id == id ==> x == q
  {
  }

  lemma StrayAnswer(s: State, loc: Places, own: Owners, addr: int, pkt: Option<Packet>, st: Settings, t: Token, o: Outcome)
    requires WellFormed(s) && (pkt.Some? ==> pkt.value.id !in s.byId)
    ensures Promised(Receive(s, addr, pkt, st), loc, own, t, o) == Promised(s, loc, own, t, o)
    ensures pkt.Some? ==> forall x :: !Answers(s, x, pkt.value, t)
  {
    hide WellLinked, Asks;
  }

  lemma TimeoutPromises(s: State, loc: Places, own: Owners, p: Ptr, env: TxEnv, st: Settings, t: Token, o: Outcome)
    requires Placed(s, loc, st) && Owed(s, loc, own) && p in s.popped && p in s.nodes
    ensures var s' := Timeout(s, p, env, st);
            Promised(s', loc, own, t, o) <==>
            Promised(s, loc, own, t, o) || (o == TIMED_OUT && Pending(s, p) && !Pending(s', p) && Asks(s, p, t))
  {
    hide Owed, Placed, Asks, Transmit, Promised;
    PoppedPending(s, loc, st, p);
    if Pending(s, p) {
      var s1 := s.(popped := s.popped - {p}, nodes := s.nodes[p := s.nodes[p].(timerId := 0)]);
      TransmitEffect(s1, p, env, st);
      var s2 := Transmit(s1, p, env, st).0;
      DetachPromises(s, s1, loc, own, st, p, TIMED_OUT, t, o);
      DetachPromises(s, s2, loc, own, st, p, TIMED_OUT, t, o);
      StillPromised(s, s2, loc, own, t, o);
    } else {
      StillPromised(s, s.(popped := s.popped - {p}), loc, own, t, o);
    }
  }

  lemma StillPromised(s: State, s': State, loc: Places, own: Owners, t: Token, o: Outcome)
    requires s'.tasks == s.tasks && s'.calls == s.calls && s'.hits == s.hits && s'.cache == s.cache
    ensures Promised(s', loc, own, t, o) == Promised(s, loc, own, t, o)
  {
  }

  lemma FirstCall(told: Outcome, o: Outcome)
    ensures [] + [told] == [o] <==> told == o
  {
    assert ([] + [told])[0] == told;
  }

  lemma CallPromises(s: State, loc: Places, own: Owners, q: Ptr, st: Settings, t: Token, o: Outcome)
    requires Placed(s, loc, st) && Owed(s, loc, own) && WellFormed(s) && q in s.tasks && s.tasks[q].done < Turns(s, q)
    ensures Promised(CallNext(s, q), loc, Settle(own, s.nodes[Slot(s, q, s.tasks[q].done)].cb, Told), t, o) == Promised(s, loc, own, t, o)
  {
    hide Owed, Placed, WellLinked, Due, Slot;
    var p := Slot(s, q, s.tasks[q].done);
    SlotPlaced(s, loc, st, q);
    OwnerThere(s, loc, own, t);
    FirstCall(s.tasks[q].outcome, o);
    if s.nodes[p].cb.Some? {
      OwnerOfDue(s, loc, own, p);
    }
  }

  lemma SlotPlaced(s: State, loc: Places, st: Settings, q: Ptr)
    requires Placed(s, loc, st) && WellFormed(s) && q in s.tasks && s.tasks[q].done < Turns(s, q)
    ensures var p := Slot(s, q, s.tasks[q].done); p in s.nodes && Due(s, loc, p) && p in loc && loc[p] == At(q, s.tasks[q].done)
  {
    hide FreePlaced, TablesAgree, TimersRight, WellLinked;
    CallNextDues(s, loc, q);
    assert Root(s, q);
  }

  lemma HitPromises(s: State, loc: Places, own: Owners, h: Tid, t: Token, o: Outcome)
    requires Owed(s, loc, own) && h in s.hits && !s.hits[h].called && s.hits[h].entry in s.cache.entries
    ensures Promised(CallHit(s, h), loc, Settle(own, s.hits[h].cb, Told), t, o) == Promised(s, loc, own, t, o)
  {
    hide Owed, Due;
    OwnerThere(s, loc, own, t);
    FirstCall(Outcome(s.hits[h].status, Some(s.cache.entries[s.hits[h].entry].pkt)), o);
    if s.hits[h].cb.Some? {
      OwnerOfHit(s, loc, own, h);
    }
  }

  lemma CancelPromises(s: State, loc: Places, own: Owners, p: Ptr, notify: bool, t: Token, o: Outcome)
    requires Owed(s, loc, own) && p in s.nodes && s.nodes[p].cb.Some? && Due(s, loc, p)
    ensures Promised(Cancel(s, p, notify), loc, Settle(own, s.nodes[p].cb, if notify then Told else Silent), t, o) <==>
            (Promised(s, loc, own, t, o) && s.nodes[p].cb != Some(t)) || (notify && o == CANCELLED && s.nodes[p].cb == Some(t))
  {
    hide Owed, Due;
    FirstCall(CANCELLED, o);
    OwnerOfDue(s, loc, own, p);
    OwnerThere(s, loc, own, t);
  }

  lemma RecyclePromises(s: State, loc: Places, own: Owners, q: Ptr, st: Settings, t: Token, o: Outcome)
    requires InvariantBy(s, loc, own, st) && WellFormed(s) && q in s.tasks && s.tasks[q].done == Turns(s, q)
    ensures Promised(Recycle(s, q, st), FreedPlaces(loc, q), own, t, o) == Promised(s, loc, own, t, o)
  {
    hide Owed, CacheRight, FreePlaced, RootsPlaced, TablesAgree, TimersRight, WellLinked, Recycle, Promised;
    OwnerThere(s, loc, own, t);
    RecycleFields(s, q, st);
    if t in own {
      var own1 := own[t];
      if own1.Held? && loc[own1.p].root == q {
        SlotsBelow(s, loc, q, own1.p);
      }
      if own1.OnHit? {
        assert Uses(s)[own1.t] == s.hits[own1.t].entry;
        RecycleKeepsReading(s, st, q, own1.t);
      }
      SamePromise(s, loc, own, Recycle(s, q, st), FreedPlaces(loc, q), t, o);
    } else {
      NotOwed(s, Recycle(s, q, st), loc, FreedPlaces(loc, q), own, t, o);
    }
  }

  lemma NotOwed(s: State, s': State, loc: Places, loc': Places, own: Owners, t: Token, o: Outcome)
    requires t !in own
    ensures !Promised(s, loc, own, t, o) && !Promised(s', loc', own, t, o)
  {
  }

  lemma StartPromises(s: State, loc: Places, own: Owners, tid: Tid, name: Name, qtype: int, hasCb: bool, env: TxEnv, st: Settings, t: Token, o: Outcome)
    requires InvariantBy(s, loc, own, st) && WellFormed(s) && tid !in s.hits
    ensures Promised(Start(s, tid, name, qtype, hasCb, env, st).0, PlacesAfterStartQuery(s, loc, name, qtype, hasCb, env, st),
                     OwnersAfterStart(s, own, tid, name, qtype, hasCb, env, st), t, o)
            <==> Promised(s, loc, own, t, o) || FromCache(s, name, qtype, hasCb, st, t, o)
  {
    hide Start, StartMissed, CacheLog.Find, WellLinked, InitResKey, Placed, Owed, CacheRight, Promised, FromCache;
    if ArgError(name, qtype) != SUCCESS {
      StartRefused(s, tid, name, qtype, hasCb, env, st);
      assert !FromCache(s, name, qtype, hasCb, st, t, o) by { NotFromCache(s, name, qtype, hasCb, st, t, o); }
    } else if CacheLog.Find(s.cache, InitResKey(qtype, name), s.now).Hit? {
      StartHitPromises(s, loc, own, tid, name, qtype, hasCb, env, st, t, o);
    } else {
      StartMissPromises(s, loc, own, tid, name, qtype, hasCb, env, st, t, o);
    }
  }

  lemma NotFromCache(s: State, name: Name, qtype: int, hasCb: bool, st: Settings, t: Token, o: Outcome)
    requires ArgError(name, qtype) != SUCCESS
             || CacheLog.Answer(s.log, InitResKey(qtype, name), s.now, st.cacheMaxTtl).None?
    ensures !FromCache(s, name, qtype, hasCb, st, t, o)
  {
  }

  lemma NewTokens(s: State, loc: Places, own: Owners)
    requires Owed(s, loc, own)
    ensures s.nextToken !in own && Calls(s, s.nextToken) == []
  {
  }

  lemma StartHitPromises(s: State, loc: Places, own: Owners, tid: Tid, name: Name, qtype: int, hasCb: bool, env: TxEnv, st: Settings, t: Token, o: Outcome)
    requires InvariantBy(s, loc, own, st) && WellFormed(s) && tid !in s.hits
    requires ArgError(name, qtype) == SUCCESS && CacheLog.Find(s.cache, InitResKey(qtype, name), s.now).Hit?
    ensures Promised(Start(s, tid, name, qtype, hasCb, env, st).0, PlacesAfterStartQuery(s, loc, name, qtype, hasCb, env, st),
                     OwnersAfterStart(s, own, tid, name, qtype, hasCb, env, st), t, o)
            <==> Promised(s, loc, own, t, o) || FromCache(s, name, qtype, hasCb, st, t, o)
  {
    hide Start, StartMissed, CacheLog.Find, CacheLog.Answer, WellLinked, InitResKey, Placed, Owed, Counted, CacheLog.Refines;
    StartHits(s, tid, name, qtype, hasCb, env, st);
    StartHitStatus(s, tid, name, qtype, hasCb, env, st);
    CacheLog.FindAnswersFromLog(s.cache, s.log, s.now, st.cacheMaxTtl, InitResKey(qtype, name));
    NewTokens(s, loc, own);
    OwnerThere(s, loc, own, t);
    if t in own && own[t].OnHit? {
      assert Uses(s)[own[t].t] == s.hits[own[t].t].entry;
      StartKeepsReading(s, loc, st, tid, name, qtype, hasCb, env, own[t].t);
    }
  }

  lemma StartMissPromises(s: State, loc: Places, own: Owners, tid: Tid, name: Name, qtype: int, hasCb: bool, env: TxEnv, st: Settings, t: Token, o: Outcome)
    requires InvariantBy(s, loc, own, st) && WellFormed(s) && tid !in s.hits
    requires ArgError(name, qtype) == SUCCESS && CacheLog.Find(s.cache, InitResKey(qtype, name), s.now).Miss?
    ensures Promised(Start(s, tid, name, qtype, hasCb, env, st).0, PlacesAfterStartQuery(s, loc, name, qtype, hasCb, env, st),
                     OwnersAfterStart(s, own, tid, name, qtype, hasCb, env, st), t, o)
            <==> Promised(s, loc, own, t, o) || FromCache(s, name, qtype, hasCb, st, t, o)
  {
    hide Start, StartMissed, CacheLog.Find, CacheLog.Answer, WellLinked, InitResKey, Placed, Owed, Counted, CacheLog.Refines, Promised, FromCache;
    hide PlacesAfterStart, OwnersAfterStart, Due;
    var key := InitResKey(qtype, name);
    CacheLog.FindAnswersFromLog(s.cache, s.log, s.now, st.cacheMaxTtl, key);
    NotFromCache(s, name, qtype, hasCb, st, t, o);
    MissedNode(s, loc, own, tid, name, qtype, hasCb, env, st, t);
    var s', loc' := Start(s, tid, name, qtype, hasCb, env, st).0, PlacesAfterStartQuery(s, loc, name, qtype, hasCb, env, st);
    if t in own {
      OwnerThere(s, loc, own, t);
      MissedReading(s, loc, own, tid, name, qtype, hasCb, env, st, t);
      SamePromise(s, loc, own, s', loc', t, o);
      SameOwner(s', loc', own, OwnersAfterStart(s, own, tid, name, qtype, hasCb, env, st), t, o);
    } else {
      NotPromised(s, loc, own, t, o);
      NotPromised(s', loc', OwnersAfterStart(s, own, tid, name, qtype, hasCb, env, st), t, o);
    }
  }

  lemma MissedReading(s: State, loc: Places, own: Owners, tid: Tid, name: Name, qtype: int, hasCb: bool, env: TxEnv, st: Settings, t: Token)
    requires InvariantBy(s, loc, own, st) && WellFormed(s) && tid !in s.hits && t in own
    ensures own[t].OnHit? ==>
      var h, s' := own[t].t, Start(s, tid, name, qtype, hasCb, env, st).0; h != tid && SameReading(s, s', h) && s'.hits[h].status == s.hits[h].status
  {
    hide Placed, Start, StartMissed, CacheLog.Refines, Counted, WellLinked, CacheLog.Find;
    assert OwnerRight(s, loc, t, own[t]);
    if own[t].OnHit? {
      var h := own[t].t;
      assert Uses(s)[h] == s.hits[h].entry;
      StartKeepsReading(s, loc, st, tid, name, qtype, hasCb, env, h);
      StartKeepsHits(s, loc, st, tid, name, qtype, hasCb, env);
    }
  }

  lemma StartKeepsHits(s: State, loc: Places, st: Settings, tid: Tid, name: Name, qtype: int, hasCb: bool, env: TxEnv)
    requires Placed(s, loc, st) && WellFormed(s) && tid !in s.hits
    ensures forall h :: h in s.hits ==> h in Start(s, tid, name, qtype, hasCb, env, st).0.hits && Start(s, tid, name, qtype, hasCb, env, st).0.hits[h] == s.hits[h]
  {
    hide Placed, Start, StartMissed, WellLinked, CacheLog.Find, InitResKey;
    if ArgError(name, qtype) != SUCCESS {
      StartRefused(s, tid, name, qtype, hasCb, env, st);
    } else if CacheLog.Find(s.cache, InitResKey(qtype, name), s.now).Hit? {
      StartHits(s, tid, name, qtype, hasCb, env, st);
    } else {
      StartMisses(s, tid, name, qtype, hasCb, env, st);
      RootsAreOld(s, loc, st);
      StartMissedEffect(s.(nextToken := s.nextToken + 1, cache := CacheLog.Find(s.cache, InitResKey(qtype, name), s.now).cache), InitResKey(qtype, name),
                        if hasCb then Some(s.nextToken) else None, env, st);
    }
  }

  /** A missed lookup leaves the other nodes where they are; its own node waits on a query that
      is not detached. */
  lemma MissedNode(s: State, loc: Places, own: Owners, tid: Tid, name: Name, qtype: int, hasCb: bool, env: TxEnv, st: Settings, t: Token)
    requires InvariantBy(s, loc, own, st) && WellFormed(s)
    requires ArgError(name, qtype) == SUCCESS && CacheLog.Find(s.cache, InitResKey(qtype, name), s.now).Miss?
    ensures var s', loc' := Start(s, tid, name, qtype, hasCb, env, st).0, PlacesAfterStartQuery(s, loc, name, qtype, hasCb, env, st);
            var own' := OwnersAfterStart(s, own, tid, name, qtype, hasCb, env, st);
            && s'.tasks == s.tasks && s'.calls == s.calls
            && (forall p :: Due(s, loc, p) ==> p in loc' && loc'[p] == loc[p])
            && (t in own ==> t in own' && own'[t] == own[t])
            && (t !in own && t in own' ==>
                 own'[t].Held? && own'[t].p in loc' && (loc'[own'[t].p].At? ==> loc'[own'[t].p].root !in s.tasks))
  {
    hide Start, CacheLog.Find, WellLinked, InitResKey, Placed, Owed, CacheRight, PlacesAfterStartQuery, Due;
    MissedLeaves(s, loc, own, tid, name, qtype, hasCb, env, st);
    NewTokens(s, loc, own);
  }

  lemma MissedLeaves(s: State, loc: Places, own: Owners, tid: Tid, name: Name, qtype: int, hasCb: bool, env: TxEnv, st: Settings)
    requires InvariantBy(s, loc, own, st) && WellFormed(s)
    requires ArgError(name, qtype) == SUCCESS && CacheLog.Find(s.cache, InitResKey(qtype, name), s.now).Miss?
    ensures var s', loc' := Start(s, tid, name, qtype, hasCb, env, st).0, PlacesAfterStartQuery(s, loc, name, qtype, hasCb, env, st);
            && s'.tasks == s.tasks && s'.calls == s.calls
            && (forall p :: Due(s, loc, p) ==> p in loc' && loc'[p] == loc[p])
            && NewNode(s) in loc' && (loc'[NewNode(s)].At? ==> loc'[NewNode(s)].root !in s.tasks)
  {
    hide Start, StartMissed, CacheLog.Find, WellLinked, InitResKey, Placed, Owed, CacheRight, PlacesAfterStart, Due;
    var key, cb := InitResKey(qtype, name), if hasCb then Some(s.nextToken) else None;
    var s1 := s.(nextToken := s.nextToken + 1, cache := CacheLog.Find(s.cache, key, s.now).cache);
    StartMisses(s, tid, name, qtype, hasCb, env, st);
    PlacedFresh(s, loc, st);
    RootsAreOld(s, loc, st);
    MissedState(s1, key, cb, env, st);
    MissedPlaces(s1, loc, key, cb, env, st);
    forall p | Due(s, loc, p) ensures p in loc && p != NewNode(s1) { DueHasPlace(s, loc, p); }
  }

  lemma DueHasPlace(s: State, loc: Places, p: Ptr)
    requires Due(s, loc, p) && !Due(s, loc, NewNode(s))
    ensures p in loc && p != NewNode(s)
  {
  }

  lemma MissedState(s: State, key: Key, cb: Option<Token>, env: TxEnv, st: Settings)
    requires forall k :: k in s.byRes ==> s.byRes[k] in s.nodes && s.byRes[k] != NewNode(s)
    ensures var (s', status) := StartMissed(s, key, cb, env, st); s'.tasks == s.tasks && s'.calls == s.calls && (key in s.byRes ==> status == SUCCESS)
  {
    hide StartMissed;
    StartMissedEffect(s, key, cb, env, st);
    MissedSucceeds(s, key, cb, env, st);
  }

  lemma MissedPlaces(s: State, loc: Places, key: Key, cb: Option<Token>, env: TxEnv, st: Settings)
    requires forall k :: k in s.byRes ==> s.byRes[k] in s.nodes && s.byRes[k] !in s.tasks
    requires NewNode(s) !in s.tasks
    ensures var loc', p := PlacesAfterStart(s, loc, key, cb, env, st), NewNode(s);
            && (forall x :: x in loc && x != p ==> x in loc' && loc'[x] == loc[x])
            && p in loc' && (loc'[p].At? ==> loc'[p].root !in s.tasks)
  {
    hide StartMissed;
  }

  lemma SameOwner(s: State, loc: Places, own: Owners, own': Owners, t: Token, o: Outcome)
    requires t in own && t in own' && own'[t] == own[t]
    ensures Promised(s, loc, own, t, o) == Promised(s, loc, own', t, o)
  {
  }

  /** Nobody owes t, or a query not yet detached does. */
  lemma NotPromised(s: State, loc: Places, own: Owners, t: Token, o: Outcome)
    requires t in own ==> own[t].Held? && own[t].p in loc && (loc[own[t].p].At? ==> loc[own[t].p].root !in s.tasks)
    ensures !Promised(s, loc, own, t, o)
  {
  }

  /** The promises after a step are those before, but for a cancelled token, and those that the
      step gives cause for. */
  lemma StepPromises(s: State, loc: Places, own: Owners, e: Event, st: Settings, t: Token, o: Outcome)
    requires InvariantBy(s, loc, own, st) && Enabled(s, e)
    ensures PromisesFollow(s, loc, own, e, st, t, o)
  {
    hide Placed, Owed, CacheRight, Promised, Start, Timeout, Receive, Recycle, CallNext, CallHit, Cancel, EndHit, AddEntry, FromCache;
    hide PlacesAfterStartQuery, OwnersAfterStart, FreedPlaces, Cancellable, IdAndNodeIdle, MakesQuery, WellLinked, Asks, Answers, Pending, Due;
    if e.EStart? {
      StartPromises(s, loc, own, e.tid, e.name, e.qtype, e.hasCb, e.env, st, t, o);
    } else if e.ECallHit? {
      HitPromises(s, loc, own, e.tid, t, o);
    } else if e.ETimeout? {
      TimeoutPromises(s, loc, own, e.p, e.env, st, t, o);
    } else if e.EReceive? {
      ReceivePromises(s, loc, own, e, st, t, o);
    } else if e.ECallNext? {
      CallPromises(s, loc, own, e.q, st, t, o);
    } else if e.ERecycle? {
      RecyclePromises(s, loc, own, e.q, st, t, o);
    } else if e.ECancel? {
      CancelDue(s, loc, st, e.p, e.notify);
      CancelPromises(s, loc, own, e.p, e.notify, t, o);
    } else {
      QuietPromises(s, loc, own, e, st, t, o);
    }
  }

  lemma CancelDue(s: State, loc: Places, st: Settings, p: Ptr, notify: bool)
    requires Placed(s, loc, st) && p in s.nodes && Cancellable(s, p)
    ensures s.nodes[p].cb.Some? && Due(s, loc, p)
  {
    hide NodesPlaced, FreePlaced, TablesAgree, TimersRight;
    assert s.nodes[p].cb.Some?;
    CancelDues(s, loc, p, notify);
  }

  lemma QuietPromises(s: State, loc: Places, own: Owners, e: Event, st: Settings, t: Token, o: Outcome)
    requires InvariantBy(s, loc, own, st) && Enabled(s, e) && (e.EEndHit? || e.EPop? || e.EAddEntry? || e.ETick?)
    ensures PromisesFollow(s, loc, own, e, st, t, o)
  {
    hide Placed, Owed, CacheRight, EndHit, AddEntry, WellLinked, Promised, Updated;
    var s' := Step(s, e, st);
    OwnerThere(s, loc, own, t);
    if t in own {
      if own[t].OnHit? {
        assert Uses(s)[own[t].t] == s.hits[own[t].t].entry;
        QuietReading(s, loc, e, st, own[t].t);
      }
      QuietSame(s, e, st);
      SamePromise(s, loc, own, s', loc, t, o);
    } else {
      NotOwed(s, s', loc, loc, own, t, o);
    }
  }

  lemma QuietSame(s: State, e: Event, st: Settings)
    requires Enabled(s, e) && (e.EEndHit? || e.EPop? || e.EAddEntry? || e.ETick?)
    ensures Step(s, e, st).calls == s.calls && Step(s, e, st).tasks == s.tasks
  {
    hide Updated, WellLinked, Release;
  }

  lemma QuietReading(s: State, loc: Places, e: Event, st: Settings, h: Tid)
    requires Placed(s, loc, st) && CacheRight(s, st) && Enabled(s, e) && (e.EEndHit? || e.EPop? || e.EAddEntry? || e.ETick?)
    requires h in s.hits && !s.hits[h].called && Uses(s)[h] == s.hits[h].entry
    ensures SameReading(s, Step(s, e, st), h) && Step(s, e, st).hits[h] == s.hits[h]
  {
    hide Placed, CacheRight, Updated, WellLinked, Release;
    StepKeepsReading(s, loc, st, e, h);
  }

  // ----- runs -----

  ghost predicate Cancelled(s: State, es: seq<Event>, st: Settings, t: Token)
    decreases |es|
  {
    es != [] && Enabled(s, es[0]) && (Cancels(s, es[0], t) || Cancelled(Step(s, es[0], st), es[1..], st, t))
  }

  /** Somewhere in the run an event settles that t is told o, and t is not cancelled after it. */
  ghost predicate Caused(s: State, es: seq<Event>, st: Settings, t: Token, o: Outcome)
    decreases |es|
  {
    es != [] && Enabled(s, es[0]) &&
    var s1 := Step(s, es[0], st);
    (Cause(s, es[0], st, t, o) && !Cancelled(s1, es[1..], st, t)) || Caused(s1, es[1..], st, t, o)
  }

  lemma {:induction false} RunPromises(s: State, loc: Places, own: Owners, es: seq<Event>, s': State, st: Settings, t: Token, o: Outcome)
    returns (loc': Places, own': Owners)
    requires InvariantBy(s, loc, own, st) && Run(s, es, s', st)
    ensures InvariantBy(s', loc', own', st)
    ensures Promised(s', loc', own', t, o) <==> (Promised(s, loc, own, t, o) && !Cancelled(s, es, st, t)) || Caused(s, es, st, t, o)
    decreases |es|
  {
    hide InvariantBy, Promised, Cause, Cancels, Enabled, Step;
    if es == [] {
      loc', own' := loc, own;
    } else {
      StepKeepsInvariant(s, loc, own, es[0], st);
      StepPromises(s, loc, own, es[0], st, t, o);
      loc', own' := RunPromises(Step(s, es[0], st), PlacesAfter(s, loc, es[0], st), OwnersAfter(s, own, es[0], st), es[1..], s', st, t, o);
    }
  }

  /** A promise is kept by a callback that has been made or is still owed. */
  lemma PromisedIs(s: State, loc: Places, own: Owners, st: Settings, t: Token, o: Outcome)
    requires InvariantBy(s, loc, own, st)
    ensures Calls(s, t) == [o] ==> Promised(s, loc, own, t, o)
    ensures Promised(s, loc, own, t, o) ==> Calls(s, t) == [o] || (Calls(s, t) == [] && Waiting(s, t))
  {
    hide NodeOwes, HitOwes, Placed, CacheRight, Due;
    OwnerThere(s, loc, own, t);
    if t in own {
      OwnersOwe(s, loc, own, st, t);
      assert own[t].Held? ==> NodeOwes(s, own[t].p, t);
      assert own[t].OnHit? ==> HitOwes(s, own[t].t, t);
    }
  }

  lemma NothingPromised(ns: seq<Nameserver>, now: int, st: Settings) returns (loc: Places, own: Owners)
    ensures InvariantBy(Init(ns, now), loc, own, st) && own == map[]
  {
    loc, own := map[], map[];
    assert Uses(Init(ns, now)) == map[];
  }

  /** From the first moment on: who has been told something was told it for a cause, and who
      was given cause and has not cancelled since has been told it or still waits for it. */
  lemma ToldForACause(ns: seq<Nameserver>, now: int, es: seq<Event>, s': State, st: Settings, t: Token, o: Outcome)
    requires Run(Init(ns, now), es, s', st)
    ensures Calls(s', t) == [o] ==> Caused(Init(ns, now), es, st, t, o)
    ensures Caused(Init(ns, now), es, st, t, o) ==> Calls(s', t) == [o] || (Calls(s', t) == [] && Waiting(s', t))
  {
    hide InvariantBy, Caused, Cancelled, Waiting;
    var loc, own := NothingPromised(ns, now, st);
    var loc', own' := RunPromises(Init(ns, now), loc, own, es, s', st, t, o);
    PromisedIs(s', loc', own', st, t, o);
  }

  /** The answer to a pending query: from then on each of its callers that does not cancel is
      told the verdict of that answer, once, or still waits. */
  lemma AnsweredAreTold(s: State, st: Settings, addr: int, pkt: Packet, q: Ptr, t: Token, es: seq<Event>, s': State)
    requires Reachable(s, st) && Enabled(s, EReceive(addr, Some(pkt))) && Answers(s, q, pkt, t)
    requires Run(Step(s, EReceive(addr, Some(pkt)), st), es, s', st) && !Cancelled(Step(s, EReceive(addr, Some(pkt)), st), es, st, t)
    ensures Calls(s', t) == [Verdict(pkt)] || (Calls(s', t) == [] && Waiting(s', t))
  {
    hide InvariantBy, Cancelled, Waiting, Promised, Reachable, Answers;
    var e, o := EReceive(addr, Some(pkt)), Verdict(pkt);
    var loc, own := ReachableInvariant(s, st);
    assert Cause(s, e, st, t, o);
    StepPromises(s, loc, own, e, st, t, o);
    StepKeepsInvariant(s, loc, own, e, st);
    var loc', own' := RunPromises(Step(s, e, st), PlacesAfter(s, loc, e, st), OwnersAfter(s, own, e, st), es, s', st, t, o);
    PromisedIs(s', loc', own', st, t, o);
  }

  // ----- time-outs -----

  /** In some step of the run an on_timeout gives up the query that t asks on. */
  ghost predicate GivenUp(s: State, es: seq<Event>, st: Settings, t: Token)
    decreases |es|
  {
    es != [] && Enabled(s, es[0]) &&
    var s1 := Step(s, es[0], st);
    (es[0].ETimeout? && Pending(s, es[0].p) && !Pending(s1, es[0].p) && Asks(s, es[0].p, t)) || GivenUp(s1, es[1..], st, t)
  }

  /** Only the time-out of its own query tells a caller PJ_ETIMEDOUT. */
  lemma TimedOutByTimeout(ns: seq<Nameserver>, now: int, es: seq<Event>, s': State, st: Settings, t: Token)
    requires Run(Init(ns, now), es, s', st) && Calls(s', t) == [TIMED_OUT]
    ensures GivenUp(Init(ns, now), es, st, t)
  {
    ToldForACause(ns, now, es, s', st, t, TIMED_OUT);
    CausedGivesUp(Init(ns, now), es, st, t);
  }

  lemma {:induction false} CausedGivesUp(s: State, es: seq<Event>, st: Settings, t: Token)
    requires Caused(s, es, st, t, TIMED_OUT)
    ensures GivenUp(s, es, st, t)
    decreases |es|
  {
    hide Step, Enabled, Pending, Asks, FromCache;
    var s1 := Step(s, es[0], st);
    if Caused(s1, es[1..], st, t, TIMED_OUT) {
      CausedGivesUp(s1, es[1..], st, t);
    } else {
      TimeoutCause(s, es[0], st, t);
    }
  }

  lemma TimeoutCause(s: State, e: Event, st: Settings, t: Token)
    requires Enabled(s, e) && Cause(s, e, st, t, TIMED_OUT)
    ensures e.ETimeout? && Pending(s, e.p) && !Pending(Step(s, e, st), e.p) && Asks(s, e.p, t)
  {
    hide Step, Enabled, Pending, Asks;
  }

  /** Some nameserver can be asked now: one is chosen, the timer can be set, and a send is
      under way or succeeds for one of those chosen. */
  predicate CanSend(s: State, env: TxEnv, st: Settings) {
    var chosen := Select(s.ns, MAX_NS, s.now, st).servers;
    s.ns != [] && chosen != [] && env.scheduleOk && (env.busy || exists i :: 0 <= i < |chosen| && SendTo(env, chosen[i]) == Sent)
  }

  /** A time-out gives a pending query up exactly when it has been sent often enough or cannot
      be sent again. */
  lemma GivesUpIff(s: State, st: Settings, p: Ptr, env: TxEnv)
    requires Reachable(s, st) && Enabled(s, ETimeout(p, env)) && Pending(s, p)
    ensures !Pending(Step(s, ETimeout(p, env), st), p) <==> s.nodes[p].transmitCnt >= st.qretrCount || !CanSend(s, env, st)
  {
    hide NodesPlaced, FreePlaced, RootsPlaced, TasksRight, TablesAgree, Owed, CacheRight, Reachable, Transmit, Select, WellLinked;
    var loc, own := ReachableInvariant(s, st);
    assert p !in s.armed;
    var s1 := s.(popped := s.popped - {p}, nodes := s.nodes[p := s.nodes[p].(timerId := 0)]);
    SentIff(s1, p, env, st);
    TransmitEffect(s1, p, env, st);
  }

  lemma SentIff(s: State, p: Ptr, env: TxEnv, st: Settings)
    requires p in s.nodes && s.nodes[p].timerId == 0 && p !in s.armed
    ensures Transmit(s, p, env, st).1 == SUCCESS <==> CanSend(s, env, st)
  {
    hide Select, MarkSent;
  }
}
