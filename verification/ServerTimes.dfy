/** When a nameserver is asked, told in terms of its answers and the times that have passed:
    reports and selections together. */
module ServerTimes {
  import opened DnsTypes
  import opened Nameservers
  import opened ResponseCache
  import opened ResolverState
  import opened ResolverPlaces
  import opened ResolverSteps
  import opened ResolverRuns
  import CacheLog

  /** k is the first nameserver with this address. */
  predicate IsServer(nss: seq<Nameserver>, addr: int, k: nat) {
    k < |nss| && nss[k].addr == addr && forall j :: 0 <= j < k ==> nss[j].addr != addr
  }

  /** No response that parses, or one whose code says that the server will not serve. */
  predicate Refuses(pkt: Option<Packet>) {
    pkt.None? || pkt.value.flags % 16 == 5 || pkt.value.flags % 16 == 9
  }

  lemma {:induction false} ReportsOne(nss: seq<Nameserver>, addr: int, pkt: Option<Packet>, now: int, st: Settings, k: nat)
    requires IsServer(nss, addr, k)
    ensures var r, n := Report(nss, addr, pkt, now, st), nss[k];
            && (forall j :: 0 <= j < |nss| && j != k ==> r[j] == nss[j])
            && r[k].addr == n.addr && r[k].sentTime == n.sentTime
            && r[k].health == (if Refuses(pkt) then Bad else Active)
            && r[k].expiry == now + 1000 * (if Refuses(pkt) then st.badNsTtl else st.goodNsTtl)
            && (if pkt.Some? && pkt.value.id == n.qId then r[k].rtDelay == now - n.sentTime && r[k].qId == 0
                else r[k].rtDelay == n.rtDelay && r[k].qId == n.qId)
    decreases |nss|
  {
    if k > 0 {
      assert nss[0].addr != addr;
      assert IsServer(nss[1..], addr, k - 1) by {
        assert forall j :: 0 <= j < k - 1 ==> nss[1..][j] == nss[j + 1];
      }
      ReportsOne(nss[1..], addr, pkt, now, st, k - 1);
      var rest := Report(nss[1..], addr, pkt, now, st);
      forall j | 0 <= j < |nss| && j != k ensures ([nss[0]] + rest)[j] == nss[j] {
        if j > 0 {
          assert rest[j - 1] == nss[1..][j - 1];
        }
      }
    }
  }

  /** Health, times and measured delays are the same; a transmission in between only notes
      what it is waiting for. */
  predicate SameHealth(a: seq<Nameserver>, b: seq<Nameserver>) {
    |a| == |b| && forall j :: 0 <= j < |a| ==> a[j].health == b[j].health && a[j].expiry == b[j].expiry && a[j].rtDelay == b[j].rtDelay
  }

  lemma SendingKeepsHealth(nss: seq<Nameserver>, servers: seq<nat>, env: TxEnv, id: nat, now: int)
    ensures SameHealth(nss, MarkSent(nss, servers, env, id, now))
  {
  }

  /** The delay of a nameserver is the time from sending the first query that it has not
      answered yet to its answer. */
  lemma DelayMeasured(nss: seq<Nameserver>, servers: seq<nat>, env: TxEnv, id: nat, sent: int, addr: int, pkt: Packet, now: int, st: Settings, k: nat)
    requires IsServer(nss, addr, k) && k in servers && SendTo(env, k) != NoSocket
    ensures var n := Report(MarkSent(nss, servers, env, id, sent), addr, Some(pkt), now, st)[k];
            && (nss[k].qId == 0 && pkt.id == id ==> n.rtDelay == now - sent && n.qId == 0)
            && (nss[k].qId != 0 && pkt.id == nss[k].qId ==> n.rtDelay == now - nss[k].sentTime && n.qId == 0)
  {
    var marked := MarkSent(nss, servers, env, id, sent);
    assert IsServer(marked, addr, k);
    hide Report;
    ReportsOne(marked, addr, Some(pkt), now, st, k);
  }

  /** A nameserver that has just refused is asked again exactly from bad_ns_ttl on. One that
      has just answered is asked within good_ns_ttl exactly when it is chosen as the quickest,
      and always after that. */
  lemma AskedAfterAnswer(nss: seq<Nameserver>, addr: int, pkt: Option<Packet>, u: int, st: Settings, k: nat, later: seq<Nameserver>, now: int, max: nat)
    requires IsServer(nss, addr, k) && |nss| <= max && SameHealth(Report(nss, addr, pkt, u, st), later)
    ensures var servers := Select(later, max, now, st).servers;
            if Refuses(pkt) then k in servers <==> now >= u + 1000 * st.badNsTtl
            else k in servers <==> now >= u + 1000 * st.goodNsTtl || (servers != [] && servers[0] == k)
    ensures !Refuses(pkt) ==>
            var servers := Select(later, max, now, st).servers;
            servers != [] && servers[0] < |later| && later[servers[0]].health == Active && later[servers[0]].rtDelay <= later[k].rtDelay
  {
    ReportsOne(nss, addr, pkt, u, st, k);
    SelectionIsRight(later, max, now, st);
    hide Report, Select;
    var servers := Select(later, max, now, st).servers;
    if k != Quickest(later) && servers != [] && servers[0] == k {
      FirstProbed(later, max, now, st, k);
    }
  }

  /** Nobody else comes before the quickest. */
  lemma FirstProbed(nss: seq<Nameserver>, max: nat, now: int, st: Settings, k: nat)
    requires |nss| <= max && k < |nss| && Select(nss, max, now, st).servers != [] && Select(nss, max, now, st).servers[0] == k && k != Quickest(nss)
    ensures Quickest(nss) == -1
  {
    SelectionIsRight(nss, max, now, st);
  }

  /** A nameserver whose time is up is asked along with the others until the probing time has
      passed without an answer. Then it is bad: asked again exactly after bad_ns_ttl. */
  lemma ProbedUntilBad(nss: seq<Nameserver>, u: int, st: Settings, k: nat, second: seq<Nameserver>, v: int, third: seq<Nameserver>, w: int, max: nat)
    requires k < |nss| <= max && nss[k].health != Probing && Select(nss, max, u, st).nss[k].health == Probing
    requires SameHealth(Select(nss, max, u, st).nss, second) && SameHealth(Select(second, max, v, st).nss, third)
    ensures k in Select(nss, max, u, st).servers && nss[k].expiry <= u
    ensures var probing := 1000 * ((st.qretrCount + 2) * st.qretrDelay / 1000);
            && (k in Select(second, max, v, st).servers <==> v < u + probing)
            && (v >= u + probing ==> (k in Select(third, max, w, st).servers <==> w >= v + 1000 * st.badNsTtl))
  {
    hide Select, Quickest;
    FirstProbe(nss, max, u, st, k);
    NotActive(second, max, v, st, k);
    if v >= u + 1000 * ((st.qretrCount + 2) * st.qretrDelay / 1000) {
      NotActive(third, max, w, st, k);
    }
  }

  /** A nameserver that is not active is asked exactly if the scan leaves it probing. */
  lemma NotActive(nss: seq<Nameserver>, max: nat, now: int, st: Settings, k: nat)
    requires k < |nss| <= max && nss[k].health != Active
    ensures var sel := Select(nss, max, now, st);
            && (k in sel.servers <==> Rechecked(nss[k], now, st).health == Probing) && sel.nss[k] == Rechecked(nss[k], now, st) && |sel.nss| == |nss|
  {
    SelectionIsRight(nss, max, now, st);
  }

  lemma FirstProbe(nss: seq<Nameserver>, max: nat, now: int, st: Settings, k: nat)
    requires k < |nss| <= max && nss[k].health != Probing && Select(nss, max, now, st).nss[k].health == Probing
    ensures var sel := Select(nss, max, now, st); k in sel.servers && nss[k].expiry <= now && sel.nss[k] == Rechecked(nss[k], now, st) && |sel.nss| == |nss|
  {
    SelectionIsRight(nss, max, now, st);
  }

  // ----- in the resolver -----

  /** What a step does to nameserver k: its own answer sets it, and a selection rechecks it once
      its time is up. */
  ghost predicate ServerFollows(s: State, e: Event, st: Settings, k: nat)
    requires Enabled(s, e) && k < |s.ns|
  {
    var s' := Step(s, e, st);
    |s'.ns| == |s.ns| &&
    if e.EReceive? && IsServer(s.ns, e.addr, k) then
      && s'.ns[k].health == (if Refuses(e.pkt) then Bad else Active)
      && s'.ns[k].expiry == s.now + 1000 * (if Refuses(e.pkt) then st.badNsTtl else st.goodNsTtl)
      && (if e.pkt.Some? && e.pkt.value.id == s.ns[k].qId then s'.ns[k].rtDelay == s.now - s.ns[k].sentTime else s'.ns[k].rtDelay == s.ns[k].rtDelay)
    else Kept(s.ns[k], s'.ns[k]) || ((e.EStart? || e.ETimeout?) && Expired(s.ns[k], s'.ns[k], s.now, st))
  }

  predicate Kept(n: Nameserver, n': Nameserver) {
    n'.addr == n.addr && n'.health == n.health && n'.expiry == n.expiry && n'.rtDelay == n.rtDelay
  }

  predicate Expired(n: Nameserver, n': Nameserver, now: int, st: Settings) {
    n'.addr == n.addr && n'.rtDelay == n.rtDelay && n.expiry <= now &&
    if n.health == Probing then n'.health == Bad && n'.expiry == now + 1000 * st.badNsTtl
    else n'.health == Probing && n'.expiry == now + 1000 * ((st.qretrCount + 2) * st.qretrDelay / 1000)
  }

  /** All nameservers are as they were, or as a selection leaves them. */
  ghost predicate Chosen(nss: seq<Nameserver>, nss': seq<Nameserver>, now: int, st: Settings) {
    |nss'| == |nss| && forall k :: 0 <= k < |nss| ==> Kept(nss[k], nss'[k]) || Expired(nss[k], nss'[k], now, st)
  }

  lemma TransmitChooses(s: State, p: Ptr, env: TxEnv, st: Settings)
    requires p in s.nodes && s.nodes[p].timerId == 0
    ensures Chosen(s.ns, Transmit(s, p, env, st).0.ns, s.now, st)
  {
    var nss' := Transmit(s, p, env, st).0.ns;
    if s.ns != [] {
      var sel := Select(s.ns, MAX_NS, s.now, st);
      forall k | 0 <= k < |s.ns| ensures Kept(s.ns[k], nss'[k]) || Expired(s.ns[k], nss'[k], s.now, st) {
        ScannedState(s.ns, MAX_NS, s.now, st, k);
        assert Kept(sel.nss[k], nss'[k]);
      }
    }
  }

  lemma ScannedState(nss: seq<Nameserver>, max: nat, now: int, st: Settings, k: nat)
    requires k < |nss|
    ensures var n := Select(nss, max, now, st).nss[k]; Kept(nss[k], n) || Expired(nss[k], n, now, st)
  {
  }

  lemma MissedChooses(s: State, key: Key, cb: Option<Token>, env: TxEnv, st: Settings)
    requires forall k :: k in s.byRes ==> s.byRes[k] in s.nodes
    ensures Chosen(s.ns, StartMissed(s, key, cb, env, st).0.ns, s.now, st)
  {
    hide Transmit, Alloc, Chosen;
    AllocEffect(s, cb);
    var p, s1 := NewNode(s), Alloc(s, cb);
    KeptAll(s.ns, s.now, st);
    if key !in s.byRes {
      TransmitChooses(s1.(nodes := s1.nodes[p := s1.nodes[p].(id := s1.lastId, key := key)], lastId := NextId(s1.lastId)), p, env, st);
    }
  }

  lemma KeptAll(nss: seq<Nameserver>, now: int, st: Settings)
    ensures Chosen(nss, nss, now, st)
  {
  }

  lemma StartChooses(s: State, tid: Tid, name: Name, qtype: int, hasCb: bool, env: TxEnv, st: Settings)
    requires WellFormed(s)
    ensures Chosen(s.ns, Start(s, tid, name, qtype, hasCb, env, st).0.ns, s.now, st)
  {
    hide Start, StartMissed, WellLinked, InitResKey, CacheLog.Find, Chosen;
    KeptAll(s.ns, s.now, st);
    if ArgError(name, qtype) != SUCCESS {
      StartRefused(s, tid, name, qtype, hasCb, env, st);
    } else if CacheLog.Find(s.cache, InitResKey(qtype, name), s.now).Hit? {
      StartHits(s, tid, name, qtype, hasCb, env, st);
    } else {
      StartMisses(s, tid, name, qtype, hasCb, env, st);
      MissedChooses(s.(nextToken := s.nextToken + 1, cache := CacheLog.Find(s.cache, InitResKey(qtype, name), s.now).cache), InitResKey(qtype, name),
                    if hasCb then Some(s.nextToken) else None, env, st);
    }
  }

  lemma TimeoutChooses(s: State, p: Ptr, env: TxEnv, st: Settings)
    requires p in s.nodes
    ensures Chosen(s.ns, Timeout(s, p, env, st).ns, s.now, st)
  {
    hide Transmit, Chosen;
    KeptAll(s.ns, s.now, st);
    var s1 := s.(popped := s.popped - {p}, nodes := s.nodes[p := s.nodes[p].(timerId := 0)]);
    TransmitChooses(s1, p, env, st);
  }

  lemma {:induction false} UnknownSender(nss: seq<Nameserver>, addr: int, pkt: Option<Packet>, now: int, st: Settings)
    requires forall i :: 0 <= i < |nss| ==> nss[i].addr != addr
    ensures Report(nss, addr, pkt, now, st) == nss
    decreases |nss|
  {
    if nss != [] {
      UnknownSender(nss[1..], addr, pkt, now, st);
    }
  }

  lemma StrayReport(nss: seq<Nameserver>, addr: int, pkt: Option<Packet>, now: int, st: Settings, k: nat)
    requires k < |nss| && !IsServer(nss, addr, k)
    ensures Report(nss, addr, pkt, now, st)[k] == nss[k]
  {
    if j :| 0 <= j < |nss| && IsServer(nss, addr, j) {
      ReportsOne(nss, addr, pkt, now, st, j);
    } else {
      NoServer(nss, addr, |nss|);
      UnknownSender(nss, addr, pkt, now, st);
    }
  }

  lemma {:induction false} NoServer(nss: seq<Nameserver>, addr: int, n: nat)
    requires n <= |nss| && forall j :: 0 <= j < |nss| ==> !IsServer(nss, addr, j)
    ensures forall j :: 0 <= j < n ==> nss[j].addr != addr
  {
    if n > 0 {
      NoServer(nss, addr, n - 1);
      assert !IsServer(nss, addr, n - 1);
    }
  }

  lemma ServerSteps(s: State, e: Event, st: Settings, k: nat)
    requires Enabled(s, e) && k < |s.ns|
    ensures ServerFollows(s, e, st, k)
  {
    hide Start, Timeout, Recycle, CallNext, Cancel, CallHit, EndHit, AddEntry, Cancellable, IdAndNodeIdle, MakesQuery, WellLinked, Report;
    if e.EStart? {
      StartChooses(s, e.tid, e.name, e.qtype, e.hasCb, e.env, st);
    } else if e.ETimeout? {
      TimeoutChooses(s, e.p, e.env, st);
    } else if e.EReceive? {
      if IsServer(s.ns, e.addr, k) {
        ReportsOne(s.ns, e.addr, e.pkt, s.now, st, k);
      } else {
        StrayReport(s.ns, e.addr, e.pkt, s.now, st, k);
      }
    } else {
      OthersKeepServers(s, e, st);
    }
  }

  lemma OthersKeepServers(s: State, e: Event, st: Settings)
    requires Enabled(s, e) && !e.EStart? && !e.ETimeout? && !e.EReceive?
    ensures Step(s, e, st).ns == s.ns
  {
    hide Updated, WellLinked, Release, Cancellable, Slot, InitResKey;
  }
}
