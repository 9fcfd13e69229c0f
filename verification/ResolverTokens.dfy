/** Who still owes the application a callback. Every accepted query is owed one by exactly
    one node or cache hit, or has had exactly one, or was cancelled silently. */
module ResolverTokens {
  import opened DnsTypes
  import opened Nameservers
  import opened ResponseCache
  import opened ResolverState
  import opened ResolverPlaces
  import opened ResolverSteps
  import CacheLog

  datatype Owner = Held(p: Ptr) | OnHit(t: Tid) | Told | Silent

  type Owners = map<Token, Owner>

  function Done(s: State, q: Ptr): nat {
    if q in s.tasks then s.tasks[q].done else 0
  }

  /** Node p has a place in a phase whose turn for it has not come. */
  predicate Due(s: State, loc: Places, p: Ptr) {
    p in loc && p in s.nodes && loc[p].At? && Done(s, loc[p].root) <= loc[p].slot
  }

  predicate OwnerRight(s: State, loc: Places, t: Token, o: Owner) {
    match o
    case Held(p) => Due(s, loc, p) && s.nodes[p].cb == Some(t) && Calls(s, t) == [] && t !in s.silenced
    case OnHit(h) => h in s.hits && !s.hits[h].called && s.hits[h].cb == Some(t) && Calls(s, t) == [] && t !in s.silenced
    case Told => |Calls(s, t)| == 1 && t !in s.silenced
    case Silent => Calls(s, t) == [] && t in s.silenced
  }

  ghost predicate OwnersRight(s: State, loc: Places, own: Owners) {
    && own.Keys == s.accepted
    && (forall t :: t in s.accepted ==> t < s.nextToken)
    && (forall t :: t in s.calls || t in s.silenced ==> t in s.accepted)
    && (forall t :: t in own ==> OwnerRight(s, loc, t, own[t]))
  }

  ghost predicate DuesOwned(s: State, loc: Places, own: Owners) {
    && (forall p :: Due(s, loc, p) && s.nodes[p].cb.Some? ==>
         s.nodes[p].cb.value in own && own[s.nodes[p].cb.value] == Held(p))
    && (forall h :: h in s.hits && !s.hits[h].called && s.hits[h].cb.Some? ==>
         s.hits[h].cb.value in own && own[s.hits[h].cb.value] == OnHit(h))
  }

  ghost predicate Owed(s: State, loc: Places, own: Owners) {
    OwnersRight(s, loc, own) && DuesOwned(s, loc, own)
  }

  /** Neither the callbacks due nor the history change. */
  ghost predicate SameDues(s: State, loc: Places, s': State, loc': Places) {
    && (forall p :: Due(s', loc', p) <==> Due(s, loc, p))
    && (forall p :: Due(s, loc, p) ==> s'.nodes[p].cb == s.nodes[p].cb)
    && s.hits.Keys >= s'.hits.Keys
    && (forall h :: h in s'.hits ==> s'.hits[h] == s.hits[h])
    && (forall h :: h in s.hits && !s.hits[h].called ==> h in s'.hits)
    && s'.calls == s.calls && s'.accepted == s.accepted && s'.silenced == s.silenced && s'.nextToken >= s.nextToken
  }

  lemma SameDuesKeepOwed(s: State, loc: Places, own: Owners, s': State, loc': Places)
    requires Owed(s, loc, own) && SameDues(s, loc, s', loc')
    ensures Owed(s', loc', own)
  {
    forall t | t in own ensures OwnerRight(s', loc', t, own[t]) {
      assert OwnerRight(s, loc, t, own[t]);
    }
  }

  /** A node newly placed owes its own new token. */
  lemma NewHolder(s: State, loc: Places, own: Owners, s': State, loc': Places, p: Ptr, cb: Option<Token>)
    requires Owed(s, loc, own) && !Due(s, loc, p) && Due(s', loc', p) && s'.nodes[p].cb == cb
    requires cb.Some? ==> s.nextToken <= cb.value < s'.nextToken
    requires forall x :: x != p ==> (Due(s', loc', x) <==> Due(s, loc, x))
    requires forall x :: Due(s, loc, x) ==> x in s'.nodes && s'.nodes[x].cb == s.nodes[x].cb
    requires s'.hits == s.hits && s'.calls == s.calls && s'.silenced == s.silenced && s'.nextToken >= s.nextToken
    requires s'.accepted == if cb.Some? then s.accepted + {cb.value} else s.accepted
    ensures Owed(s', loc', if cb.Some? then own[cb.value := Held(p)] else own)
  {
    var own' := if cb.Some? then own[cb.value := Held(p)] else own;
    forall t | t in own' ensures OwnerRight(s', loc', t, own'[t]) {
      assert t in own ==> OwnerRight(s, loc, t, own[t]);
    }
  }

  lemma NewHit(s: State, loc: Places, own: Owners, s': State, h: Tid, cb: Option<Token>)
    requires Owed(s, loc, own) && h !in s.hits && h in s'.hits && s'.hits[h].cb == cb && !s'.hits[h].called
    requires cb.Some? ==> s.nextToken <= cb.value < s'.nextToken
    requires s'.hits == s.hits[h := s'.hits[h]] && s'.nodes == s.nodes && s'.tasks == s.tasks
    requires s'.calls == s.calls && s'.silenced == s.silenced && s'.nextToken >= s.nextToken
    requires s'.accepted == if cb.Some? then s.accepted + {cb.value} else s.accepted
    ensures Owed(s', loc, if cb.Some? then own[cb.value := OnHit(h)] else own)
  {
    var own' := if cb.Some? then own[cb.value := OnHit(h)] else own;
    assert forall x :: Due(s', loc, x) <==> Due(s, loc, x);
    forall t | t in own' ensures OwnerRight(s', loc, t, own'[t]) {
      assert t in own ==> OwnerRight(s, loc, t, own[t]);
    }
  }

  /** The callback of a due node is owed by that node alone. */
  lemma OwnerOfDue(s: State, loc: Places, own: Owners, p: Ptr)
    requires Owed(s, loc, own) && Due(s, loc, p) && s.nodes[p].cb.Some?
    ensures var t := s.nodes[p].cb.value; t in own && own[t] == Held(p) && Calls(s, t) == [] && t !in s.silenced && t in s.accepted
    ensures forall x :: Due(s, loc, x) && x != p ==> s.nodes[x].cb != s.nodes[p].cb
    ensures forall h :: h in s.hits && !s.hits[h].called ==> s.hits[h].cb != s.nodes[p].cb
  {
    assert OwnerRight(s, loc, s.nodes[p].cb.value, own[s.nodes[p].cb.value]);
  }

  lemma OwnerOfHit(s: State, loc: Places, own: Owners, h: Tid)
    requires Owed(s, loc, own) && h in s.hits && !s.hits[h].called && s.hits[h].cb.Some?
    ensures var t := s.hits[h].cb.value; t in own && own[t] == OnHit(h) && Calls(s, t) == [] && t !in s.silenced && t in s.accepted
    ensures forall x :: Due(s, loc, x) ==> s.nodes[x].cb != s.hits[h].cb
    ensures forall g :: g in s.hits && g != h && !s.hits[g].called ==> s.hits[g].cb != s.hits[h].cb
  {
    assert OwnerRight(s, loc, s.hits[h].cb.value, own[s.hits[h].cb.value]);
  }

  /** What is due is the same except that token t is no longer due. */
  ghost predicate Settles(s: State, loc: Places, s': State, t: Token) {
    && (forall x :: Due(s', loc, x) ==> Due(s, loc, x))
    && (forall x :: Due(s', loc, x) && s'.nodes[x].cb.Some? ==> s'.nodes[x].cb == s.nodes[x].cb && s.nodes[x].cb != Some(t))
    && (forall x :: Due(s, loc, x) && s.nodes[x].cb != Some(t) ==> Due(s', loc, x) && s'.nodes[x].cb == s.nodes[x].cb)
    && s'.hits.Keys == s.hits.Keys
    && (forall h :: h in s'.hits && !s'.hits[h].called ==> s'.hits[h] == s.hits[h] && s.hits[h].cb != Some(t))
    && (forall h :: h in s.hits && !s.hits[h].called && s.hits[h].cb != Some(t) ==> s'.hits[h] == s.hits[h])
    && s'.accepted == s.accepted && s'.nextToken == s.nextToken
  }

  /** The history is the same except for token t. */
  ghost predicate OnlyHistoryOf(s: State, s': State, t: Token) {
    && s'.calls.Keys <= s.calls.Keys + {t} && s'.silenced <= s.silenced + {t}
    && (forall u: Token :: u != t ==> Calls(s', u) == Calls(s, u) && (u in s'.silenced <==> u in s.silenced))
  }

  /** One callback is made, or one token is silenced: whoever owed it no longer does. */
  lemma Settled(s: State, loc: Places, own: Owners, s': State, t: Token, o: Owner)
    requires Owed(s, loc, own) && (o == Told || o == Silent) && t in s.accepted
    requires Settles(s, loc, s', t) && OnlyHistoryOf(s, s', t) && OwnerRight(s', loc, t, o)
    ensures Owed(s', loc, own[t := o])
  {
    var own' := own[t := o];
    forall u | u in own' ensures OwnerRight(s', loc, u, own'[u]) {
      if u != t { assert OwnerRight(s, loc, u, own[u]); }
    }
    forall p | Due(s', loc, p) && s'.nodes[p].cb.Some? ensures s'.nodes[p].cb.value in own' && own'[s'.nodes[p].cb.value] == Held(p) {
      assert own[s.nodes[p].cb.value] == Held(p);
    }
  }

  // ----- the steps -----

  function Settle(own: Owners, cb: Option<Token>, o: Owner): Owners {
    if cb.Some? then own[cb.value := o] else own
  }

  lemma CallHitKeepsOwed(s: State, loc: Places, own: Owners, h: Tid)
    requires Owed(s, loc, own) && h in s.hits && !s.hits[h].called && s.hits[h].entry in s.cache.entries
    ensures Owed(CallHit(s, h), loc, Settle(own, s.hits[h].cb, Told))
  {
    var s', cb := CallHit(s, h), s.hits[h].cb;
    assert forall x :: Due(s', loc, x) <==> Due(s, loc, x);
    if cb.Some? {
      hide OwnersRight, DuesOwned;
      OwnerOfHit(s, loc, own, h);
      Settled(s, loc, own, s', cb.value, Told);
    } else {
      QuietHit(s, loc, own, h);
    }
  }

  lemma QuietHit(s: State, loc: Places, own: Owners, h: Tid)
    requires Owed(s, loc, own) && h in s.hits && s.hits[h].cb.None?
    ensures Owed(s.(hits := s.hits[h := s.hits[h].(called := true)]), loc, own)
  {
    var s' := s.(hits := s.hits[h := s.hits[h].(called := true)]);
    assert forall x :: Due(s', loc, x) <==> Due(s, loc, x);
    forall t | t in own ensures OwnerRight(s', loc, t, own[t]) {
      assert OwnerRight(s, loc, t, own[t]);
    }
  }

  lemma CallNextDues(s: State, loc: Places, q: Ptr)
    requires RootsPlaced(s, loc) && NodesPlaced(s, loc, {}) && WellFormed(s) && q in s.tasks && s.tasks[q].done < Turns(s, q)
    ensures var p := Slot(s, q, s.tasks[q].done);
            p in s.nodes && Due(s, loc, p) && forall x :: Due(CallNext(s, q), loc, x) <==> Due(s, loc, x) && x != p
  {
    hide TasksRight, TablesAgree, TimersRight, WellLinked;
    var s', p := CallNext(s, q), Slot(s, q, s.tasks[q].done);
    assert Root(s, q) && loc[p] == At(q, s.tasks[q].done);
    assert s'.nodes == s.nodes && forall r :: Done(s', r) == if r == q then Done(s, q) + 1 else Done(s, r);
    forall x | Due(s, loc, x) && loc[x].root == q && loc[x].slot == s.tasks[q].done ensures x == p {
      assert Slot(s, q, loc[x].slot) == x;
    }
  }

  lemma CallNextKeepsOwed(s: State, loc: Places, own: Owners, q: Ptr)
    requires Owed(s, loc, own) && RootsPlaced(s, loc) && NodesPlaced(s, loc, {}) && WellFormed(s)
    requires q in s.tasks && s.tasks[q].done < Turns(s, q)
    ensures Owed(CallNext(s, q), loc, Settle(own, s.nodes[Slot(s, q, s.tasks[q].done)].cb, Told))
  {
    hide OwnersRight, DuesOwned, RootsPlaced, NodesPlaced, WellLinked, Due, Slot;
    var s', p := CallNext(s, q), Slot(s, q, s.tasks[q].done);
    CallNextDues(s, loc, q);
    if s.nodes[p].cb.Some? {
      OwnerOfDue(s, loc, own, p);
      Settled(s, loc, own, s', s.nodes[p].cb.value, Told);
    } else {
      QuietTurn(s, loc, own, s', p);
    }
  }

  lemma QuietTurn(s: State, loc: Places, own: Owners, s': State, p: Ptr)
    requires Owed(s, loc, own) && p in s.nodes && s.nodes[p].cb.None?
    requires forall x :: Due(s', loc, x) <==> Due(s, loc, x) && x != p
    requires s'.nodes == s.nodes && s'.hits == s.hits && s'.calls == s.calls
    requires s'.accepted == s.accepted && s'.silenced == s.silenced && s'.nextToken == s.nextToken
    ensures Owed(s', loc, own)
  {
    forall t | t in own ensures OwnerRight(s', loc, t, own[t]) {
      assert OwnerRight(s, loc, t, own[t]);
    }
  }

  lemma CancelDues(s: State, loc: Places, p: Ptr, notify: bool)
    requires RootsPlaced(s, loc) && p in s.nodes && Cancellable(s, p) && TasksRight(s)
    ensures Due(s, loc, p) && forall x :: Due(Cancel(s, p, notify), loc, x) <==> Due(s, loc, x)
  {
    var q, i :| Untold(s, q, i) && Slot(s, q, i) == p;
    assert Root(s, q) && loc[p] == At(q, i);
    CancelEffect(s, p, notify);
  }

  lemma CancelEffect(s: State, p: Ptr, notify: bool)
    requires p in s.nodes
    ensures var s' := Cancel(s, p, notify);
            && s'.nodes == s.nodes[p := s.nodes[p].(cb := None)] && s'.tasks == s.tasks && s'.hits == s.hits
            && s'.accepted == s.accepted && s'.nextToken == s.nextToken
    ensures s.nodes[p].cb.Some? ==> OnlyHistoryOf(s, Cancel(s, p, notify), s.nodes[p].cb.value)
  {
  }

  lemma CancelKeepsOwed(s: State, loc: Places, own: Owners, p: Ptr, notify: bool)
    requires Owed(s, loc, own) && p in s.nodes && s.nodes[p].cb.Some? && Due(s, loc, p)
    requires forall x :: Due(Cancel(s, p, notify), loc, x) <==> Due(s, loc, x)
    ensures Owed(Cancel(s, p, notify), loc, Settle(own, s.nodes[p].cb, if notify then Told else Silent))
  {
    var s', t := Cancel(s, p, notify), s.nodes[p].cb.value;
    CancelEffect(s, p, notify);
    OwnerOfDue(s, loc, own, p);
    assert OwnerRight(s', loc, t, if notify then Told else Silent);
    hide OwnersRight, DuesOwned, Due, Cancel, OnlyHistoryOf;
    Settled(s, loc, own, s', t, if notify then Told else Silent);
  }
}
