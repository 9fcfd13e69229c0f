/** struct pj_dns_resolver and the functions of resolver.c that update it in place, each
    shown to do what ResolverState says. */
module ResolverObject {
  import opened DnsTypes
  import opened Nameservers
  import opened ResponseCache
  import opened ResolverState
  import CacheLog
  import PacketDup
  import opened ResolverPlaces

  lemma ReportIs(nss: seq<Nameserver>, addr: int, pkt: Option<Packet>, now: int, st: Settings, i: nat)
    requires i <= |nss| && (forall j :: 0 <= j < i ==> nss[j].addr != addr) && (i < |nss| ==> nss[i].addr == addr)
    ensures Report(nss, addr, pkt, now, st) == if i == |nss| then nss else nss[i := Report([nss[i]], addr, pkt, now, st)[0]]
  {
    if i > 0 {
      ReportIs(nss[1..], addr, pkt, now, st, i - 1);
    }
  }

  class Resolver {
    var nodes: map<Ptr, Query>
    var next: Ptr
    var free: seq<Ptr>
    var byId: map<nat, Ptr>
    var byRes: map<Key, Ptr>
    var tasks: map<Ptr, Task>
    var armed: set<Ptr>
    var popped: set<Ptr>
    var lastId: nat
    var cache: Cache
    var hits: map<Tid, CacheCall>
    const ns: array<Nameserver>
    var now: int
    const settings: Settings

    var nextToken: Token
    ghost var accepted: set<Token>
    ghost var silenced: set<Token>
    ghost var calls: map<Token, seq<Outcome>>
    ghost var log: seq<Update>

    constructor (nameservers: seq<Nameserver>, time: int, st: Settings)
      requires |nameservers| <= MAX_NS
      ensures Abs() == State(map[], 0, [], map[], map[], map[], {}, {}, 1, EMPTY, map[], nameservers, time, 0, {}, {}, map[], [])
      ensures settings == st && fresh(ns)
    {
      nodes, next, free, byId, byRes, tasks := map[], 0, [], map[], map[], map[];
      armed, popped, lastId, cache, hits, now := {}, {}, 1, EMPTY, map[], time;
      settings := st;
      nextToken, accepted, silenced, calls, log := 0, {}, {}, map[], [];
      ns := new Nameserver[|nameservers|](i requires 0 <= i < |nameservers| => nameservers[i]);
      new;
      assert ns[..] == nameservers;
    }

    ghost function Abs(): State
      reads this, ns
    {
      State(nodes, next, free, byId, byRes, tasks, armed, popped, lastId, cache, hits, ns[..], now,
            nextToken, accepted, silenced, calls, log)
    }

    /** Runs the application callback of cb. */
    ghost method Call(cb: Option<Token>, o: Outcome)
      modifies `calls
      ensures Abs() == Notify(old(Abs()), cb, o)
    {
      if cb.Some? {
        calls := calls[cb.value := (if cb.value in calls then calls[cb.value] else []) + [o]];
      }
    }

    method AllocQnode(cb: Option<Token>) returns (p: Ptr)
      modifies `nodes, `next, `free
      ensures Abs() == Alloc(old(Abs()), cb) && p == NewNode(old(Abs()))
    {
      if free != [] {
        p := free[0];
        free := free[1..];
      } else {
        p := next;
        next := next + 1;
      }
      nodes := nodes[p := Query(0, 0, NO_KEY, 0, cb, [])];
    }

    method TransmitQuery(p: Ptr, env: TxEnv) returns (status: nat)
      requires p in nodes && nodes[p].timerId == 0 && ns.Length <= MAX_NS
      modifies `nodes, `armed, ns
      ensures Transmit(old(Abs()), p, env, settings) == (Abs(), status)
    {
      SelectedInRange(ns[..], MAX_NS, now, settings);
      hide Select;
      var ok, servers := SelectNameservers(ns, MAX_NS, now, settings);
      if !ok {
        return ENONS;
      }
      if servers == [] {
        return ENOWORKINGNS;
      }
      status := SendQueryPacket(p, servers, env);
    }

    /** The part of transmit_query after the nameservers are chosen. */
    method SendQueryPacket(p: Ptr, servers: seq<nat>, env: TxEnv) returns (status: nat)
      requires p in nodes && nodes[p].timerId == 0 && forall i :: 0 <= i < |servers| ==> servers[i] < ns.Length
      modifies `nodes, `armed, ns
      ensures SendQuery(old(Abs()), p, servers, env) == (Abs(), status)
    {
      nodes := nodes[p := nodes[p].(timerId := 1)];
      if !env.scheduleOk || p in armed {
        return EINVALIDOP;
      }
      armed := armed + {p};
      if env.busy {
        nodes := nodes[p := nodes[p].(transmitCnt := nodes[p].transmitCnt + 1)];
        assert nodes == old(nodes)[p := old(nodes)[p].(timerId := 1, transmitCnt := old(nodes)[p].transmitCnt + 1)];
        return SUCCESS;
      }
      var sent := SendToAll(servers, env, nodes[p].id);
      if sent == 0 {
        armed := armed - {p};
        assert armed == old(armed);
        return ENOWORKINGNS;
      }
      nodes := nodes[p := nodes[p].(transmitCnt := nodes[p].transmitCnt + 1)];
      assert nodes == old(nodes)[p := old(nodes)[p].(timerId := 1, transmitCnt := old(nodes)[p].transmitCnt + 1)];
      return SUCCESS;
    }

    /** The sending loop of transmit_query. */
    method SendToAll(servers: seq<nat>, env: TxEnv, id: nat) returns (sent: nat)
      requires forall i :: 0 <= i < |servers| ==> servers[i] < ns.Length
      modifies ns
      ensures ns[..] == MarkSent(old(ns[..]), servers, env, id, now)
      ensures sent == 0 <==> !AnySent(env, servers)
    {
      ghost var was := ns[..];
      sent := 0;
      var i := 0;
      assert ns[..] == MarkSent(was, [], env, id, now);
      while i < |servers|
        invariant 0 <= i <= |servers|
        invariant ns[..] == MarkSent(was, servers[..i], env, id, now)
        invariant sent == 0 <==> forall j :: 0 <= j < i ==> SendTo(env, servers[j]) != Sent
        decreases |servers| - i
      {
        var n := servers[i];
        assert servers[..i + 1] == servers[..i] + [n];
        if SendTo(env, n) != NoSocket {
          if SendTo(env, n) == Sent {
            sent := sent + 1;
          }
          if ns[n].qId == 0 {
            ns[n] := ns[n].(qId := id, sentTime := now);
          }
        }
        i := i + 1;
      }
      assert servers[..i] == servers;
    }
  
    /** start_query up to the point where it releases the mutex. */
    method StartQuery(tid: Tid, name: Name, qtype: int, hasCb: bool, env: TxEnv) returns (status: nat)
      requires WellFormed(Abs()) && ns.Length <= MAX_NS
      modifies this, ns
      ensures Start(old(Abs()), tid, name, qtype, hasCb, env, settings) == (Abs(), status)
    {
      hide StartMissed, InitResKey, Rcode, StatusFromRcode;
      status := ArgError(name, qtype);
      if status != SUCCESS {
        return;
      }
      var key := InitResKey(qtype, name);
      var cb := if hasCb then Some(nextToken) else None;
      nextToken := nextToken + 1;
      if key in cache.table {
        var e := cache.table[key];
        if cache.entries[e].expiry > now {
          cache := Retain(cache, e);
          hits := hits[tid := CacheCall(cb, StatusFromRcode(Rcode(cache.entries[e].pkt)), e, false)];
          MarkAccepted(cb);
          return SUCCESS;
        }
        cache := Release(cache.(table := cache.table - {key}), e);
      }
      status := StartUncached(key, cb, env);
    }

    ghost method MarkAccepted(cb: Option<Token>)
      modifies `accepted
      ensures Abs() == Accept(old(Abs()), cb)
    {
      if cb.Some? {
        accepted := accepted + {cb.value};
      }
    }

    /** The rest of start_query: join the pending query for the key, or make a new one. */
    method StartUncached(key: Key, cb: Option<Token>, env: TxEnv) returns (status: nat)
      requires (forall k :: k in byRes ==> byRes[k] in nodes) && ns.Length <= MAX_NS
      modifies this, ns
      ensures StartMissed(old(Abs()), key, cb, env, settings) == (Abs(), status)
    {
      hide Begin, Join;
      var p := AllocQnode(cb);
      if key in byRes {
        JoinQuery(p, byRes[key], cb);
        return SUCCESS;
      }
      status := BeginQuery(p, key, cb, env);
    }

    method JoinQuery(p: Ptr, q: Ptr, cb: Option<Token>)
      requires q in nodes
      modifies `nodes, `accepted
      ensures Abs() == Join(old(Abs()), p, q, cb)
    {
      nodes := nodes[q := nodes[q].(children := nodes[q].children + [p])];
      MarkAccepted(cb);
    }

    method BeginQuery(p: Ptr, key: Key, cb: Option<Token>, env: TxEnv) returns (status: nat)
      requires p in nodes && nodes[p].timerId == 0 && ns.Length <= MAX_NS
      modifies this, ns
      ensures Begin(old(Abs()), p, key, cb, env, settings) == (Abs(), status)
    {
      hide Transmit, NextId, Accept;
      var id := lastId;
      lastId := NextId(lastId);
      nodes := nodes[p := nodes[p].(id := id, key := key)];
      ghost var s2 := Abs();
      status := TransmitQuery(p, env);
      ghost var s3 := Abs();
      if status != SUCCESS {
        free := free + [p];
        return;
      }
      EnterTables(p, id, key, cb);
    }

    method EnterTables(p: Ptr, id: nat, key: Key, cb: Option<Token>)
      modifies `byId, `byRes, `accepted
      ensures Abs() == Accept(old(Abs()).(byId := old(byId)[id := p], byRes := old(byRes)[key := p]), cb)
    {
      byId := byId[id := p];
      byRes := byRes[key := p];
      MarkAccepted(cb);
    }

    /** The unlocked callback of a cache hit, and the end of start_query after it. */
    method RunCacheCallback(tid: Tid)
      requires tid in hits && hits[tid].entry in cache.entries
      modifies `hits, `calls
      ensures Abs() == CallHit(old(Abs()), tid)
    {
      var h := hits[tid];
      hits := hits[tid := h.(called := true)];
      Call(h.cb, Outcome(h.status, Some(cache.entries[h.entry].pkt)));
    }

    method EndCacheCallback(tid: Tid)
      requires tid in hits && hits[tid].entry in cache.entries
      modifies `hits, `cache
      ensures Abs() == EndHit(old(Abs()), tid)
    {
      cache := Release(cache, hits[tid].entry);
      hits := hits - {tid};
    }

    method ForgetQuery(p: Ptr, o: Outcome)
      requires p in nodes
      modifies `byId, `byRes, `tasks
      ensures Abs() == Detach(old(Abs()), p, o)
    {
      byId := byId - {nodes[p].id};
      byRes := byRes - {nodes[p].key};
      tasks := tasks[p := Task(o, 0)];
    }

    /** on_timeout up to the point where it releases the mutex. */
    method OnTimeout(p: Ptr, env: TxEnv)
      requires p in nodes && ns.Length <= MAX_NS
      modifies this, ns
      ensures Abs() == Timeout(old(Abs()), p, env, settings)
    {
      popped := popped - {p};
      if nodes[p].id !in byId {
        return;
      }
      nodes := nodes[p := nodes[p].(timerId := 0)];
      if nodes[p].transmitCnt < settings.qretrCount {
        var status := TransmitQuery(p, env);
        if status == SUCCESS {
          return;
        }
      }
      ForgetQuery(p, Outcome(ETIMEDOUT, None));
    }

    /** on_read_complete up to the point where it releases the mutex. */
    method OnReadComplete(addr: int, pkt: Option<Packet>)
      requires WellFormed(Abs())
      modifies this, ns
      ensures Abs() == Receive(old(Abs()), addr, pkt, settings)
    {
      ReportNameserverStatus(addr, pkt);
      if pkt.None? || pkt.value.id !in byId {
        return;
      }
      var p := byId[pkt.value.id];
      armed := armed - {p};
      nodes := nodes[p := nodes[p].(timerId := 0)];
      ForgetQuery(p, Outcome(StatusFromRcode(Rcode(pkt.value)), pkt));
    }

    method ReportNameserverStatus(addr: int, pkt: Option<Packet>)
      modifies ns
      ensures ns[..] == Report(old(ns[..]), addr, pkt, now, settings)
    {
      ghost var was := ns[..];
      var bad := pkt.None? || Rcode(pkt.value) == RCODE_REFUSED || Rcode(pkt.value) == RCODE_NOTAUTH;
      var i := 0;
      while i < ns.Length && ns[i].addr != addr
        invariant 0 <= i <= ns.Length && ns[..] == was
        invariant forall j :: 0 <= j < i ==> was[j].addr != addr
      {
        i := i + 1;
      }
      ReportIs(was, addr, pkt, now, settings, i);
      assert i < ns.Length ==> Report(was, addr, pkt, now, settings) == was[i := Report([was[i]], addr, pkt, now, settings)[0]];
      if i < ns.Length {
        if pkt.Some? && pkt.value.id == ns[i].qId {
          ns[i] := ns[i].(rtDelay := now - ns[i].sentTime, qId := 0);
        }
        SetNameserverState(ns, i, if bad then Bad else Active, now, settings);
      }
    }

    /** One turn of the notification loops of on_timeout and on_read_complete. */
    method RunNextCallback(q: Ptr)
      requires WellFormed(Abs()) && q in tasks && tasks[q].done <= |nodes[q].children|
      modifies `tasks, `calls
      ensures Abs() == CallNext(old(Abs()), q)
    {
      var task := tasks[q];
      var p := if task.done == 0 then q else nodes[q].children[task.done - 1];
      tasks := tasks[q := task.(done := task.done + 1)];
      Call(nodes[p].cb, task.outcome);
    }

    /** The end of on_timeout and on_read_complete. */
    method RecycleQuery(q: Ptr)
      requires WellFormed(Abs()) && q in tasks
      modifies `cache, `log, `tasks, `free, `nodes
      ensures Abs() == Recycle(old(Abs()), q, settings)
    {
      var o := tasks[q].outcome;
      if o.pkt.Some? {
        UpdateResCache(Update(nodes[q].key, o.status, true, o.pkt.value, now));
      } else {
        nodes := nodes[q := nodes[q].(timerId := 0)];
      }
      assert Abs().tasks == old(tasks) && nodes[q].children == old(nodes[q].children);
      var cs, i := nodes[q].children, 0;
      ghost var s1, was := Abs(), free;
      while i < |cs|
        invariant 0 <= i <= |cs| && Abs() == s1.(free := was + cs[..i])
      {
        assert cs[..i + 1] == cs[..i] + [cs[i]];
        free := free + [cs[i]];
        i := i + 1;
      }
      assert cs[..i] == cs;
      free := free + [q];
      tasks := tasks - {q};
    }

    method UpdateResCache(u: Update)
      requires WellLinked(cache)
      modifies `cache, `log
      ensures Abs() == Store(old(Abs()), u, settings)
    {
      hide PacketDup.Dup, RemoveKey, Insert, MinTtl;
      log := log + [u];
      if u.status != SUCCESS {
        RemoveEntry(u.key);
      }
      var ttl := CappedTtl(u);
      if ttl == 0 {
        RemoveEntry(u.key);
        return;
      }
      var entry := Entry(1, u.key, if u.setExpiry then u.now + 1000 * ttl else NEVER, PacketDup.Dup(u.pkt));
      if u.key in cache.table && cache.entries[cache.table[u.key]].refCnt <= 1 {
        cache := cache.(entries := cache.entries[cache.table[u.key] := entry]);
      } else {
        RemoveEntry(u.key);
        cache := Insert(cache, entry);
      }
    }

    method RemoveEntry(key: Key)
      requires WellLinked(cache)
      modifies `cache
      ensures cache == RemoveKey(old(cache), key) && WellLinked(cache)
    {
      if key in cache.table {
        var e := cache.table[key];
        cache := cache.(table := cache.table - {key});
        cache := Release(cache, e);
      }
    }

    method CappedTtl(u: Update) returns (ttl: nat)
      ensures ttl == Ttl(u, settings.cacheMaxTtl)
    {
      ttl := MAX_U32;
      if u.setExpiry {
        if u.pkt.ans == [] || u.status != SUCCESS {
          ttl := INVALID_TTL;
        } else {
          ttl := LeastTtl(u.pkt.ans);
        }
      }
      if ttl > settings.cacheMaxTtl {
        ttl := settings.cacheMaxTtl;
      }
    }

    method LeastTtl(rs: seq<Record>) returns (ttl: nat)
      ensures ttl == MinTtl(rs)
    {
      ttl := MAX_U32;
      for i := 0 to |rs|
        invariant ttl == MinTtl(rs[..i])
      {
        assert rs[..i + 1][..i] == rs[..i];
        if rs[i].ttl < ttl {
          ttl := rs[i].ttl;
        }
      }
      assert rs[..|rs|] == rs;
    }

    /** add_entry; it returns without effect for packets that are not responses, carry no
        record, or have too long a name. */
    method AddCacheEntry(pkt: Packet, setTtl: bool)
      requires WellLinked(cache)
      modifies `cache, `log
      ensures Abs() == AddEntry(old(Abs()), pkt, setTtl, settings)
    {
      if pkt.flags / 0x8000 % 2 == 0 || (pkt.ans == [] && pkt.q == []) {
        return;
      }
      var name, t;
      if pkt.ans != [] {
        name, t := pkt.ans[0].name, pkt.ans[0].rtype;
      } else {
        name, t := pkt.q[0].name, pkt.q[0].qtype;
      }
      if |name| < MAX_HOSTNAME {
        UpdateResCache(Update(InitResKey(t, name), SUCCESS, setTtl, pkt, now));
      }
    }

    /** cancel_query. */
    method CancelQuery(p: Ptr, notify: bool)
      requires p in nodes && (notify ==> nodes[p].cb.Some?)
      modifies `nodes, `calls, `silenced
      ensures Abs() == Cancel(old(Abs()), p, notify)
    {
      var cb := nodes[p].cb;
      nodes := nodes[p := nodes[p].(cb := None)];
      if notify {
        Call(cb, Outcome(ECANCELLED, None));
      } else {
        silenced := silenced + if cb.Some? then {cb.value} else {};
      }
    }
  }
}
