/** Where the query nodes are. Every step keeps each node in exactly one place: the free
    list, a pending query, a detached query being notified, or a child of one of these. */
module ResolverPlaces {
  import opened DnsTypes
  import opened Nameservers
  import opened ResponseCache
  import opened ResolverState
  import CacheLog

  /** In the free list, or told in the given turn of the (future) unlocked phase of root. */
  datatype Place = InFree | At(root: Ptr, slot: nat)

  type Places = map<Ptr, Place>

  predicate Pending(s: State, p: Ptr) {
    p in s.nodes && s.nodes[p].id in s.byId && s.byId[s.nodes[p].id] == p
  }

  predicate Root(s: State, p: Ptr) {
    p in s.tasks || Pending(s, p)
  }

  function Turns(s: State, q: Ptr): nat
    requires q in s.nodes
  {
    |s.nodes[q].children| + 1
  }

  /** Every node except those in hole (while one is being allocated) has a place. */
  ghost predicate NodesPlaced(s: State, loc: Places, hole: set<Ptr>) {
    && loc.Keys == s.nodes.Keys - hole
    && (forall p :: p in s.nodes ==> p < s.next)
    && (forall p :: p in loc && loc[p].InFree? ==> p in s.free)
    && (forall p :: p in loc && loc[p].At? ==>
         && Root(s, loc[p].root) && loc[p].root in s.nodes && loc[p].slot < Turns(s, loc[p].root)
         && Slot(s, loc[p].root, loc[p].slot) == p)
  }

  ghost predicate FreePlaced(s: State, loc: Places) {
    && (forall k :: 0 <= k < |s.free| ==> s.free[k] in s.nodes && s.free[k] in loc && loc[s.free[k]] == InFree)
    && (forall j, k :: 0 <= j < k < |s.free| ==> s.free[j] != s.free[k])
  }

  ghost predicate RootsPlaced(s: State, loc: Places) {
    && (forall q :: Root(s, q) ==> q in s.nodes && q in loc && loc[q] == At(q, 0))
    && (forall q :: Root(s, q) ==> forall i :: 0 <= i < |s.nodes[q].children| ==>
         var c := s.nodes[q].children[i]; c in s.nodes && c in loc && loc[c] == At(q, i + 1))
  }

  ghost predicate TasksRight(s: State) {
    forall q :: q in s.tasks ==> q in s.nodes && !Pending(s, q) && s.tasks[q].done <= Turns(s, q)
  }

  /** The two hash tables index the same pending queries. */
  ghost predicate TablesAgree(s: State) {
    && (forall id :: id in s.byId ==> id != 0 && s.byId[id] in s.nodes && s.nodes[s.byId[id]].id == id)
    && (forall k :: k in s.byRes ==> s.byRes[k] in s.nodes && s.nodes[s.byRes[k]].key == k && Pending(s, s.byRes[k]))
    && (forall p :: Pending(s, p) ==> s.nodes[p].key in s.byRes && s.byRes[s.nodes[p].key] == p)
    && 1 <= s.lastId < 0x1_0000
  }

  function Max1(n: nat): nat { if n == 0 then 1 else n }

  ghost predicate ArmedRight(s: State) {
    forall p :: p in s.armed ==> Pending(s, p) && p !in s.popped
  }

  /** A stale on_timeout will find no pending query under the id of its node. */
  ghost predicate PoppedRight(s: State) {
    forall p :: p in s.popped ==> p in s.nodes && (Pending(s, p) || s.nodes[p].id !in s.byId)
  }

  predicate Timed(s: State, p: Ptr, st: Settings)
    requires p in s.nodes
  {
    s.nodes[p].timerId != 0 && (p in s.armed || p in s.popped) && 1 <= s.nodes[p].transmitCnt <= Max1(st.qretrCount)
  }

  /** A timer runs, or its on_timeout is waiting for the mutex, exactly for the pending
      queries, whose timer ids are set. */
  ghost predicate TimersRight(s: State, st: Settings) {
    ArmedRight(s) && PoppedRight(s) && forall p :: Pending(s, p) ==> Timed(s, p, st)
  }

  ghost predicate Placed(s: State, loc: Places, st: Settings) {
    NodesPlaced(s, loc, {}) && FreePlaced(s, loc) && RootsPlaced(s, loc) && TasksRight(s) && TablesAgree(s) && TimersRight(s, st)
  }

  // ----- the steps -----

  /** The same nodes with the same children, the same free list and the same roots. */
  ghost predicate SameShape(s: State, s': State) {
    && s'.nodes.Keys == s.nodes.Keys && s'.next == s.next && s'.free == s.free
    && (forall p :: p in s.nodes ==> s'.nodes[p].children == s.nodes[p].children)
    && (forall p :: Root(s', p) <==> Root(s, p))
  }

  lemma ShapeKeepsPlaces(s: State, s': State, loc: Places, hole: set<Ptr>)
    requires NodesPlaced(s, loc, hole) && FreePlaced(s, loc) && RootsPlaced(s, loc) && SameShape(s, s')
    ensures NodesPlaced(s', loc, hole) && FreePlaced(s', loc) && RootsPlaced(s', loc)
  {
    forall p | p in loc && loc[p].At?
      ensures Root(s', loc[p].root) && loc[p].root in s'.nodes && loc[p].slot < Turns(s', loc[p].root) && Slot(s', loc[p].root, loc[p].slot) == p
    {
      var r := loc[p].root;
      assert Root(s', r) <==> Root(s, r);
    }
  }

  /** Steps that touch only the cache, the nameservers, the clock or the history. */
  predicate SameQueries(s: State, s': State) {
    s'.nodes == s.nodes && s'.next == s.next && s'.free == s.free && s'.byId == s.byId && s'.byRes == s.byRes
    && s'.tasks == s.tasks && s'.armed == s.armed && s'.popped == s.popped && s'.lastId == s.lastId
  }

  lemma SameQueriesKeepPlaces(s: State, s': State, loc: Places, st: Settings)
    requires Placed(s, loc, st) && SameQueries(s, s')
    ensures Placed(s', loc, st)
  {
    hide NodesPlaced, FreePlaced, RootsPlaced;
    assert forall p :: Root(s', p) <==> Root(s, p);
    ShapeKeepsPlaces(s, s', loc, {});
    assert forall p :: Pending(s', p) <==> Pending(s, p);
  }

  /** A query detached from the tables keeps its place; only the phase changes. */
  lemma DetachRoots(s: State, p: Ptr, o: Outcome)
    requires TablesAgree(s) && Pending(s, p)
    ensures var s' := Detach(s, p, o);
            && (forall x :: Root(s', x) <==> Root(s, x))
            && (forall x :: Pending(s', x) <==> Pending(s, x) && x != p)
  {
  }

  lemma DetachKeepsTables(s: State, p: Ptr, o: Outcome)
    requires TablesAgree(s) && TasksRight(s) && Pending(s, p)
    ensures TablesAgree(Detach(s, p, o)) && TasksRight(Detach(s, p, o))
  {
    DetachRoots(s, p, o);
  }

  lemma DetachKeepsTimers(s: State, st: Settings, p: Ptr, o: Outcome)
    requires TablesAgree(s) && Pending(s, p) && p !in s.armed && ArmedRight(s) && PoppedRight(s)
    requires forall x :: Pending(s, x) && x != p ==> Timed(s, x, st)
    ensures TimersRight(Detach(s, p, o), st)
  {
    DetachRoots(s, p, o);
  }

  // ----- transmit_query -----

  /** The only effects of transmit_query on the queries: the node's timer id, and on
      success its transmission count and its timer. */
  lemma TransmitEffect(s: State, p: Ptr, env: TxEnv, st: Settings)
    requires p in s.nodes && s.nodes[p].timerId == 0
    ensures var (s', status) := Transmit(s, p, env, st);
            var q := s.nodes[p];
            s' == s.(ns := s'.ns, armed := s'.armed, nodes := s'.nodes)
            && (status == SUCCESS ==>
              p !in s.armed && s'.armed == s.armed + {p} && s'.nodes == s.nodes[p := q.(timerId := 1, transmitCnt := q.transmitCnt + 1)])
            && (status != SUCCESS ==>
              s'.armed == s.armed && exists id :: s'.nodes == s.nodes[p := q.(timerId := id)])
  {
    hide Select, MarkSent;
    var (s', status) := Transmit(s, p, env, st);
    if status != SUCCESS {
      assert s'.nodes == s.nodes[p := s.nodes[p].(timerId := s'.nodes[p].timerId)];
    }
  }

  // ----- allocation -----

  /** Everything but the timers, while the nodes in hole have no place yet. */
  ghost predicate Shaped(s: State, loc: Places, hole: set<Ptr>) {
    NodesPlaced(s, loc, hole) && FreePlaced(s, loc) && RootsPlaced(s, loc) && TasksRight(s) && TablesAgree(s)
  }

  lemma AllocRoots(s: State, loc: Places, cb: Option<Token>)
    requires Shaped(s, loc, {})
    ensures var s', p := Alloc(s, cb), NewNode(s);
            && !Root(s, p) && (forall x :: Pending(s', x) <==> Pending(s, x)) && (forall x :: Root(s', x) <==> Root(s, x))
            && (p in loc ==> s.free != [] && p == s.free[0] && loc[p] == InFree)
            && (s.free == [] ==> p !in loc)
  {
    var s', p := Alloc(s, cb), NewNode(s);
    if s.free != [] {
      assert loc[s.free[0]] == InFree;
    }
    assert !Root(s, p);
  }

  lemma AllocFree(s: State, loc: Places, cb: Option<Token>)
    requires NodesPlaced(s, loc, {}) && FreePlaced(s, loc)
    ensures var s', p := Alloc(s, cb), NewNode(s);
            FreePlaced(s', loc - {p}) && p !in s'.free && (forall x :: x in s.free && x != p ==> x in s'.free)
  {
    var s', p, d := Alloc(s, cb), NewNode(s), if s.free == [] then 0 else 1;
    assert s.free == [] ==> p !in loc;
    assert forall k :: 0 <= k < |s'.free| ==> s'.free[k] == s.free[k + d];
    forall x | x in s.free && x != p ensures x in s'.free {
      var k :| 0 <= k < |s.free| && s.free[k] == x;
      assert s'.free[k - d] == x;
    }
  }

  lemma AllocNodes(s: State, loc: Places, cb: Option<Token>)
    requires NodesPlaced(s, loc, {})
    requires var s', p := Alloc(s, cb), NewNode(s);
             && (forall x :: Root(s', x) <==> Root(s, x)) && !Root(s, p)
             && (forall x :: x in s.free && x != p ==> x in s'.free) && (s.free == [] || p in s.nodes)
    ensures var s', p := Alloc(s, cb), NewNode(s); NodesPlaced(s', loc - {p}, {p})
  {
    hide Root;
    var s', p := Alloc(s, cb), NewNode(s);
    assert s'.nodes.Keys == s.nodes.Keys + {p};
    assert forall x :: x in s.nodes && x != p ==> s'.nodes[x] == s.nodes[x];
    NodesPlacedAfter(s, s', loc, p);
  }

  lemma NodesPlacedAfter(s: State, s': State, loc: Places, p: Ptr)
    requires NodesPlaced(s, loc, {}) && !Root(s, p) && forall x :: Root(s', x) <==> Root(s, x)
    requires s'.nodes.Keys == s.nodes.Keys + {p} && forall x :: x in s.nodes && x != p ==> s'.nodes[x] == s.nodes[x]
    requires s.next <= s'.next && p < s'.next && forall x :: x in s.free && x != p ==> x in s'.free
    ensures NodesPlaced(s', loc - {p}, {p})
  {
    hide Root;
    forall x | x in loc - {p} && loc[x].At?
      ensures var r := loc[x].root; Root(s', r) && r in s'.nodes && loc[x].slot < Turns(s', r) && Slot(s', r, loc[x].slot) == x
    {
      SlotKept(s, s', loc[x].root, loc[x].slot);
    }
  }

  /** A root that an allocation leaves alone keeps its children. */
  lemma SlotKept(s: State, s': State, r: Ptr, i: nat)
    requires r in s.nodes && r in s'.nodes && s'.nodes[r] == s.nodes[r] && i < Turns(s, r)
    ensures i < Turns(s', r) && Slot(s', r, i) == Slot(s, r, i)
  {
  }

  lemma AllocOpensHole(s: State, loc: Places, st: Settings, cb: Option<Token>)
    requires Placed(s, loc, st)
    ensures var s', p := Alloc(s, cb), NewNode(s);
            Shaped(s', loc - {p}, {p}) && TimersRight(s', st) && p in s'.nodes && p !in s'.free && !Root(s', p) && p !in s'.armed
  {
    AllocRoots(s, loc, cb);
    AllocFree(s, loc, cb);
    AllocNodes(s, loc, cb);
    AllocPlaced(s, loc, cb);
    AllocTables(s, st, cb);
  }

  lemma AllocPlaced(s: State, loc: Places, cb: Option<Token>)
    requires RootsPlaced(s, loc)
    requires var s', p := Alloc(s, cb), NewNode(s); (forall x :: Root(s', x) <==> Root(s, x)) && !Root(s, p) && (p in loc ==> loc[p] == InFree)
    ensures var s', p := Alloc(s, cb), NewNode(s); RootsPlaced(s', loc - {p})
  {
    var s', p := Alloc(s, cb), NewNode(s);
    assert forall x :: x in s.nodes && x != p ==> s'.nodes[x] == s.nodes[x];
  }

  /** A step that changes no pending or detached query and gives other nodes only ids that
      are not pending. */
  lemma IdleNodesChange(s: State, s': State, st: Settings)
    requires TasksRight(s) && TablesAgree(s) && TimersRight(s, st)
    requires s'.byId == s.byId && s'.byRes == s.byRes && s'.tasks == s.tasks && s'.lastId == s.lastId
    requires s'.armed == s.armed && s'.popped == s.popped
    requires forall x :: x in s.nodes ==> x in s'.nodes && (s'.nodes[x] == s.nodes[x] || (!Root(s, x) && s'.nodes[x].id !in s.byId))
    requires forall x :: Pending(s', x) <==> Pending(s, x)
    ensures TasksRight(s') && TablesAgree(s') && TimersRight(s', st)
  {
    assert forall x :: Root(s, x) && x in s.nodes ==> s'.nodes[x] == s.nodes[x];
    assert TasksRight(s');
    assert TablesAgree(s');
    IdleNodesChangeTimers(s, s', st);
  }

  lemma IdleNodesChangeTimers(s: State, s': State, st: Settings)
    requires TimersRight(s, st) && s'.byId == s.byId && s'.armed == s.armed && s'.popped == s.popped
    requires forall x :: x in s.nodes ==> x in s'.nodes && (s'.nodes[x] == s.nodes[x] || s'.nodes[x].id !in s.byId)
    requires forall x :: Pending(s', x) <==> Pending(s, x)
    ensures TimersRight(s', st)
  {
    forall x | x in s'.popped ensures x in s'.nodes && (Pending(s', x) || s'.nodes[x].id !in s'.byId) {
      assert x in s.popped;
    }
  }

  lemma AllocTables(s: State, st: Settings, cb: Option<Token>)
    requires TasksRight(s) && TablesAgree(s) && TimersRight(s, st)
    requires var s', p := Alloc(s, cb), NewNode(s); (forall x :: Pending(s', x) <==> Pending(s, x)) && !Root(s, p)
    ensures var s', p := Alloc(s, cb), NewNode(s); TasksRight(s') && TablesAgree(s') && TimersRight(s', st) && p !in s'.armed
  {
    AllocEffect(s, cb);
    assert 0 !in s.byId;
    IdleNodesChange(s, Alloc(s, cb), st);
    assert NewNode(s) !in s.armed by { assert ArmedRight(s); }
  }

  lemma AllocEffect(s: State, cb: Option<Token>)
    ensures var s', p := Alloc(s, cb), NewNode(s);
            s' == s.(nodes := s'.nodes, free := s'.free, next := s'.next) && s'.nodes == s.nodes[p := Query(0, 0, NO_KEY, 0, cb, [])]
  {
  }

  /** Giving the one node without a place a place. */
  lemma NodePlaced(s: State, s': State, loc: Places, p: Ptr, place: Place)
    requires NodesPlaced(s, loc, {p}) && p in s.nodes && s'.nodes.Keys == s.nodes.Keys && s'.next == s.next
    requires forall q :: q in s.nodes ==> s.nodes[q].children <= s'.nodes[q].children
    requires forall x :: Root(s, x) ==> Root(s', x)
    requires forall x :: x in s.free ==> x in s'.free
    requires place.InFree? ==> p in s'.free
    requires place.At? ==> Root(s', place.root) && place.root in s'.nodes && place.slot < Turns(s', place.root) && Slot(s', place.root, place.slot) == p
    ensures NodesPlaced(s', loc[p := place], {})
  {
    forall x | x in loc && loc[x].At?
      ensures var r := loc[x].root; Root(s', r) && r in s'.nodes && loc[x].slot < Turns(s', r) && Slot(s', r, loc[x].slot) == x
    {
      assert Root(s, loc[x].root);
    }
  }

  lemma FreeKept(s: State, s': State, loc: Places, p: Ptr, place: Place)
    requires FreePlaced(s, loc) && p !in s.free && s'.nodes.Keys == s.nodes.Keys && s'.free == s.free
    ensures FreePlaced(s', loc[p := place])
  {
  }

  /** A merged request: the new node becomes the last child of the pending query. */
  lemma PlaceChild(s: State, loc: Places, st: Settings, p: Ptr, q: Ptr)
    requires Shaped(s, loc, {p}) && TimersRight(s, st)
    requires p in s.nodes && p !in s.free && !Root(s, p) && Pending(s, q) && s.nodes[p].children == []
    ensures Placed(s.(nodes := s.nodes[q := s.nodes[q].(children := s.nodes[q].children + [p])]), loc[p := At(q, |s.nodes[q].children| + 1)], st)
  {
    var s' := s.(nodes := s.nodes[q := s.nodes[q].(children := s.nodes[q].children + [p])]);
    var place := At(q, |s.nodes[q].children| + 1);
    ChildRoots(s, p, q);
    NodePlaced(s, s', loc, p, place);
    FreeKept(s, s', loc, p, place);
    ChildPlaced(s, loc, p, q);
    ChildTables(s, st, p, q);
  }

  lemma ChildRoots(s: State, p: Ptr, q: Ptr)
    requires Pending(s, q)
    ensures var s' := s.(nodes := s.nodes[q := s.nodes[q].(children := s.nodes[q].children + [p])]);
            (forall x :: Pending(s', x) <==> Pending(s, x)) && (forall x :: Root(s', x) <==> Root(s, x))
  {
  }

  lemma ChildPlaced(s: State, loc: Places, p: Ptr, q: Ptr)
    requires RootsPlaced(s, loc) && Pending(s, q) && p in s.nodes && p !in loc
    ensures var s' := s.(nodes := s.nodes[q := s.nodes[q].(children := s.nodes[q].children + [p])]);
            RootsPlaced(s', loc[p := At(q, |s.nodes[q].children| + 1)])
  {
    ChildRoots(s, p, q);
  }

  lemma ChildTables(s: State, st: Settings, p: Ptr, q: Ptr)
    requires Pending(s, q) && TasksRight(s) && TablesAgree(s) && TimersRight(s, st)
    ensures var s' := s.(nodes := s.nodes[q := s.nodes[q].(children := s.nodes[q].children + [p])]);
            TasksRight(s') && TablesAgree(s') && TimersRight(s', st)
  {
    ChildRoots(s, p, q);
  }

  lemma PlaceFree(s: State, loc: Places, st: Settings, p: Ptr)
    requires Shaped(s, loc, {p}) && TimersRight(s, st)
    requires p in s.nodes && p !in s.free && !Root(s, p)
    ensures Placed(s.(free := s.free + [p]), loc[p := InFree], st)
  {
    var s' := s.(free := s.free + [p]);
    assert forall x :: Root(s', x) <==> Root(s, x);
    assert forall x :: Pending(s', x) <==> Pending(s, x);
    assert s'.free[|s.free|] == p;
    NodePlaced(s, s', loc, p, InFree);
    FreeGrows(s, loc, p);
    FreeRest(s, loc, st, p);
  }

  lemma FreeGrows(s: State, loc: Places, p: Ptr)
    requires FreePlaced(s, loc) && p in s.nodes && p !in s.free
    ensures FreePlaced(s.(free := s.free + [p]), loc[p := InFree])
  {
  }

  lemma FreeRest(s: State, loc: Places, st: Settings, p: Ptr)
    requires RootsPlaced(s, loc) && TasksRight(s) && TablesAgree(s) && TimersRight(s, st) && p !in loc
    requires var s' := s.(free := s.free + [p]); (forall x :: Pending(s', x) <==> Pending(s, x)) && (forall x :: Root(s', x) <==> Root(s, x))
    ensures var s' := s.(free := s.free + [p]);
            RootsPlaced(s', loc[p := InFree]) && TasksRight(s') && TablesAgree(s') && TimersRight(s', st)
  {
  }

  function Register(s: State, p: Ptr): State
    requires p in s.nodes
  {
    s.(byId := s.byId[s.nodes[p].id := p], byRes := s.byRes[s.nodes[p].key := p])
  }

  /** A new query: its node is entered in both tables under an id that is in use neither by
      a pending query nor by the node of a stale on_timeout. */
  lemma PlaceRoot(s: State, loc: Places, st: Settings, p: Ptr)
    requires Shaped(s, loc, {p}) && PoppedRight(s) && ArmedRight(s.(armed := s.armed - {p}))
    requires forall x :: Pending(s, x) ==> Timed(s, x, st)
    requires p in s.nodes && p !in s.free && !Root(s, p) && p !in s.popped && s.nodes[p].children == []
    requires s.nodes[p].id != 0 && s.nodes[p].id !in s.byId && s.nodes[p].key !in s.byRes && Timed(s, p, st)
    requires forall x :: x in s.popped ==> x in s.nodes && s.nodes[x].id != s.nodes[p].id
    ensures Placed(Register(s, p), loc[p := At(p, 0)], st)
  {
    var s' := Register(s, p);
    RegisterRoots(s, p);
    NodePlaced(s, s', loc, p, At(p, 0));
    FreeKept(s, s', loc, p, At(p, 0));
    RegisterPlaced(s, loc, p);
    RegisterTables(s, p);
    RegisterTimers(s, st, p);
  }

  lemma RegisterRoots(s: State, p: Ptr)
    requires TablesAgree(s) && p in s.nodes && s.nodes[p].id !in s.byId
    ensures forall x :: Pending(Register(s, p), x) <==> Pending(s, x) || x == p
    ensures forall x :: Root(Register(s, p), x) <==> Root(s, x) || x == p
  {
  }

  lemma RegisterPlaced(s: State, loc: Places, p: Ptr)
    requires RootsPlaced(s, loc) && p in s.nodes && s.nodes[p].children == [] && p !in loc
    requires forall x :: Root(Register(s, p), x) <==> Root(s, x) || x == p
    ensures RootsPlaced(Register(s, p), loc[p := At(p, 0)])
  {
  }

  lemma RegisterTables(s: State, p: Ptr)
    requires TablesAgree(s) && TasksRight(s) && p in s.nodes && !Root(s, p)
    requires s.nodes[p].id != 0 && s.nodes[p].id !in s.byId && s.nodes[p].key !in s.byRes
    ensures TablesAgree(Register(s, p)) && TasksRight(Register(s, p))
  {
    RegisterRoots(s, p);
  }

  lemma RegisterTimers(s: State, st: Settings, p: Ptr)
    requires TablesAgree(s) && PoppedRight(s) && ArmedRight(s.(armed := s.armed - {p}))
    requires forall x :: Pending(s, x) ==> Timed(s, x, st)
    requires p in s.nodes && p !in s.popped && s.nodes[p].id !in s.byId && Timed(s, p, st)
    requires forall x :: x in s.popped ==> x in s.nodes && s.nodes[x].id != s.nodes[p].id
    ensures TimersRight(Register(s, p), st)
  {
    RegisterRoots(s, p);
    var s0 := s.(armed := s.armed - {p});
    forall x | x in s.armed && x != p ensures Pending(s, x) && x !in s.popped {
      assert x in s0.armed && Pending(s0, x);
    }
  }

  // ----- recycling -----

  function Freed(s: State, q: Ptr): State
    requires q in s.nodes
  {
    s.(tasks := s.tasks - {q}, free := s.free + s.nodes[q].children + [q])
  }

  function FreedPlaces(loc: Places, q: Ptr): Places {
    map p | p in loc :: if loc[p].At? && loc[p].root == q then InFree else loc[p]
  }

  /** The end of the unlocked phase: q and its children go to the free list. */
  lemma RecycleKeepsPlaces(s: State, loc: Places, st: Settings, q: Ptr)
    requires Placed(s, loc, st) && q in s.tasks
    ensures Placed(Freed(s, q), FreedPlaces(loc, q), st)
  {
    RecycleRoots(s, q);
    RecycleFree(s, loc, q);
    RecycleNodes(s, loc, q);
    RecycleRest(s, loc, st, q);
  }

  lemma RecycleRoots(s: State, q: Ptr)
    requires TasksRight(s) && q in s.tasks
    ensures forall x :: Pending(Freed(s, q), x) <==> Pending(s, x)
    ensures forall x :: Root(Freed(s, q), x) <==> Root(s, x) && x != q
  {
  }

  lemma RecycleFree(s: State, loc: Places, q: Ptr)
    requires FreePlaced(s, loc) && RootsPlaced(s, loc) && q in s.tasks && q in s.nodes
    ensures FreePlaced(Freed(s, q), FreedPlaces(loc, q))
  {
    var free', n, cs := Freed(s, q).free, |s.free|, s.nodes[q].children;
    assert Root(s, q);
    forall k | 0 <= k < |free'|
      ensures free'[k] in s.nodes && free'[k] in loc
      ensures loc[free'[k]] == if k < n then InFree else if k < n + |cs| then At(q, k - n + 1) else At(q, 0)
    {
      assert free'[k] == if k < n then s.free[k] else if k < n + |cs| then cs[k - n] else q;
    }
    forall j, k | 0 <= j < k < |free'| ensures free'[j] != free'[k] {
      if k < n { assert free'[j] == s.free[j] && free'[k] == s.free[k]; }
    }
  }

  lemma RecycleNodes(s: State, loc: Places, q: Ptr)
    requires NodesPlaced(s, loc, {}) && TasksRight(s) && q in s.tasks
    ensures NodesPlaced(Freed(s, q), FreedPlaces(loc, q), {})
  {
    RecycleRoots(s, q);
    var s', loc', n, cs := Freed(s, q), FreedPlaces(loc, q), |s.free|, s.nodes[q].children;
    forall x | x in loc' && loc'[x].InFree? ensures x in s'.free {
      if loc[x].At? {
        assert Slot(s, q, loc[x].slot) == x;
        assert s'.free[n + if loc[x].slot == 0 then |cs| else loc[x].slot - 1] == x;
      } else {
        var k :| 0 <= k < n && s.free[k] == x;
        assert s'.free[k] == x;
      }
    }
    forall x | x in loc' && loc'[x].At?
      ensures var r := loc[x].root; Root(s', r) && r in s'.nodes && loc[x].slot < Turns(s', r) && Slot(s', r, loc[x].slot) == x
    {
      assert Root(s, loc[x].root);
    }
  }

  lemma RecycleRest(s: State, loc: Places, st: Settings, q: Ptr)
    requires RootsPlaced(s, loc) && TasksRight(s) && TablesAgree(s) && TimersRight(s, st) && q in s.tasks
    ensures RootsPlaced(Freed(s, q), FreedPlaces(loc, q)) && TasksRight(Freed(s, q)) && TablesAgree(Freed(s, q)) && TimersRight(Freed(s, q), st)
  {
    RecycleRoots(s, q);
  }
}
