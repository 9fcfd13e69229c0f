/** From the SRV response to what the application is told (srv_resolver.c). */
module SrvReport {
  import opened DnsTypes
  import opened SrvTargets
  import opened SrvAddresses
  import opened SrvRun
  import opened SrvTheorems
  import opened SrvAnswers

  /** The server stands for a usable answer. */
  predicate FromAnswer(s: Server, ans: seq<Record>) {
    exists i :: 0 <= i < |ans| && StandsFor(s, ans[i])
  }

  predicate StandsFor(s: Server, r: Record) {
    Usable(r) && s.name == r.rdata.target && s.priority == r.rdata.prio && s.weight == r.rdata.weight && s.port == r.rdata.port
  }

  lemma {:induction false} CollectedFrom(ans: seq<Record>, room: nat, t: Target)
    requires t in Collected(ans, room)
    ensures exists i :: 0 <= i < |ans| && Usable(ans[i]) && t == FromRecord(ans[i])
    decreases |ans|
  {
    hide Usable;
    if !(Usable(ans[0]) && t == FromRecord(ans[0])) {
      var rest := if Usable(ans[0]) then room - 1 else room;
      CollectedFrom(ans[1..], rest, t);
      var i :| 0 <= i < |ans[1..]| && Usable(ans[1..][i]) && t == FromRecord(ans[1..][i]);
      assert ans[i + 1] == ans[1..][i];
    }
  }

  lemma {:induction false} ServersFrom(hosts: seq<Host>, s: Server)
    requires s in Servers(hosts)
    ensures exists i :: 0 <= i < |hosts| && hosts[i].target.addrs != [] && s == ServerOf(hosts[i])
    decreases |hosts|
  {
    hide ServerOf;
    if !(hosts[0].target.addrs != [] && s == ServerOf(hosts[0])) {
      ServersFrom(hosts[1..], s);
      var i :| 0 <= i < |hosts[1..]| && hosts[1..][i].target.addrs != [] && s == ServerOf(hosts[1..][i]);
      assert hosts[i + 1] == hosts[1..][i];
    }
  }

  /** Each server holds the addresses known from the response, then those of the answers to its
      lookups, up to eight, and the first alias among these answers. */
  predicate HoldAnswers(ts: seq<Target>, hosts: seq<Host>, said: seq<Said>) {
    |hosts| == |ts| && forall i :: 0 <= i < |ts| ==>
      hosts[i].target.addrs == FirstEight(ts[i].addrs + Brought(said, i)) && hosts[i].cname == AliasOf([], said, i)
  }

  lemma HostsHoldAnswers(o: Options, domain: Name, defPort: nat, js: seq<Job>, es: seq<Event>, k: nat)
    requires Run(o, domain, defPort, js, es) && 0 < k < |js| && es[0].SrvAnswer? && es[0].srv.SrvAnswers? && es[0].srv.targets != []
    requires forall i :: 0 <= i < |es[0].srv.targets| ==> |es[0].srv.targets[i].addrs| <= 8
    ensures HoldAnswers(es[0].srv.targets, js[k].hosts, SaidIn(o, es[..k]))
  {
    hide Run, Brought, AliasOf, FirstEight, LastFailure;
    RunSize(o, domain, defPort, js, es);
    var ts := es[0].srv.targets;
    HostsHold(o, domain, defPort, js, es, k, 0);
    forall i | 0 <= i < |ts|
      ensures js[k].hosts[i].target.addrs == FirstEight(ts[i].addrs + Brought(SaidIn(o, es[..k]), i)) && js[k].hosts[i].cname == AliasOf([], SaidIn(o, es[..k]), i)
    {
      HostsHold(o, domain, defPort, js, es, k, i);
    }
  }

  /** The lookups of a response with usable answers: the callback comes once; it is told an error
      only when all lookups fail to start, and otherwise servers in the order of priority, each
      with an address and standing for a usable answer, none missing that has an address, and
      all with the addresses that the answers to their lookups brought. */
  lemma ReportedFromResponse(o: Options, domain: Name, defPort: nat, js: seq<Job>, es: seq<Event>, k: nat,
      ans: seq<Record>, arr: seq<Record>, rands: seq<nat>, v4: Literal, v6: Literal, order: seq<Target>)
    requires Run(o, domain, defPort, js, es) && SoundRun(js, es) && 0 < k < |js| && !js[k].cancelled && js[k].calls != []
    requires |rands| >= |order| > 0 && multiset(order) == multiset(Collected(ans, MAX_TARGETS)) && ByPriority(order)
    requires es[0].SrvAnswer? && es[0].srv == SrvAnswers(WithLiterals(js[0].o, Filled(js[0].o, Arranged(order, rands), arr), v4, v6))
    ensures |js[k].calls| == 1 && |js[k].hosts| == |order|
    ensures HoldAnswers(es[0].srv.targets, js[k].hosts, SaidIn(o, es[..k]))
    ensures js[k].calls[0].servers == None <==> AllFail(FreshHosts(es[0].srv.targets), js[0].o, 0, es[0].starts)
    ensures js[k].calls[0].servers.Some? ==>
      var r := js[k].calls[0].servers.value;
      && InOrder(r, 0) && (forall s :: s in r ==> FromAnswer(s, ans))
      && forall i :: 0 <= i < |js[k].hosts| && js[k].hosts[i].target.addrs != [] ==> ServerOf(js[k].hosts[i]) in r
  {
    assert |es| > 0;
    hide Run, SoundRun, WithLiterals, Filled, Arranged, Collected, ByPriority, AllFail, InOrder, FromAnswer, SameTargets, Servers, KnownAddresses, HoldAnswers, SaidIn;
    var ts := es[0].srv.targets;
    ServersAreRight(js[0].o, order, ans, arr, rands, v4, v6, ts);
    ReportedInOrder(o, domain, defPort, js, es, k);
    RunKeepsTargets(o, domain, defPort, js, es, k);
    TargetsSize(ts, js[k].hosts);
    HostsHoldAnswers(o, domain, defPort, js, es, k);
    if js[k].calls[0].servers.Some? {
      forall s | s in js[k].calls[0].servers.value ensures FromAnswer(s, ans) {
        ServersFrom(js[k].hosts, s);
        var i :| 0 <= i < |js[k].hosts| && js[k].hosts[i].target.addrs != [] && s == ServerOf(js[k].hosts[i]);
        TargetFromAnswer(ts, js[k].hosts, ans, i);
      }
      forall i | 0 <= i < |js[k].hosts| && js[k].hosts[i].target.addrs != [] ensures ServerOf(js[k].hosts[i]) in js[k].calls[0].servers.value {
        ServersAre(js[k].hosts, i);
      }
    }
  }

  lemma TargetsSize(ts: seq<Target>, hosts: seq<Host>)
    requires SameTargets(FreshHosts(ts), hosts)
    ensures |hosts| == |ts|
  {
  }

  lemma TargetFromAnswer(ts: seq<Target>, hosts: seq<Host>, ans: seq<Record>, i: nat)
    requires SameTargets(FreshHosts(ts), hosts) && i < |ts|
    requires multiset(seq(|ts|, i requires 0 <= i < |ts| => ts[i].(addrs := []))) == multiset(Collected(ans, MAX_TARGETS))
    ensures i < |hosts| && FromAnswer(ServerOf(hosts[i]), ans)
  {
    hide Collected;
    var bare := seq(|ts|, i requires 0 <= i < |ts| => ts[i].(addrs := []));
    assert bare[i] in multiset(bare);
    CollectedFrom(ans, MAX_TARGETS, bare[i]);
    assert SameTarget(FreshHosts(ts)[i], hosts[i]);
    var n :| 0 <= n < |ans| && Usable(ans[n]) && bare[i] == FromRecord(ans[n]);
    assert StandsFor(ServerOf(hosts[i]), ans[n]);
  }
}
