/** Whole runs of an SRV query: how often the callback is invoked and what it is told
    (srv_resolver.c). */
module SrvTheorems {
  import opened DnsTypes
  import opened SrvTargets
  import opened SrvRun
  import SrvAddresses

  /** The states of a run from the start of the query. */
  ghost predicate Run(o: Options, domain: Name, defPort: nat, js: seq<Job>, es: seq<Event>) {
    && |js| == |es| + 1 && js[0] == Init(o, domain, defPort)
    && forall k :: 0 <= k < |es| ==> Enabled(js[k], es[k]) && js[k + 1] == Step(js[k], es[k])
  }

  /** Every SRV answer of the run starts sound lookups. */
  ghost predicate SoundRun(js: seq<Job>, es: seq<Event>) {
    forall k :: 0 <= k < |es| && k < |js| && Enabled(js[k], es[k]) ==> Sound(js[k], es[k])
  }

  lemma {:induction false} RunKeepsInv(o: Options, domain: Name, defPort: nat, js: seq<Job>, es: seq<Event>, k: nat)
    requires Run(o, domain, defPort, js, es) && SoundRun(js, es) && k < |js|
    ensures Inv(js[k])
    decreases k
  {
    hide Step, Sound, Inv;
    if k > 0 {
      RunKeepsInv(o, domain, defPort, js, es, k - 1);
      StepKeepsInv(js[k - 1], es[k - 1]);
    } else {
      InitInv(o, domain, defPort);
    }
  }

  lemma InitInv(o: Options, domain: Name, defPort: nat)
    ensures Inv(Init(o, domain, defPort))
  {
  }

  /** Some answer is still to come. */
  predicate Outstanding(j: Job) {
    j.qSrv || exists i :: 0 <= i < |j.hosts| && !Done(j.hosts[i])
  }

  /** However the answers come, at once or later and in any order, the callback is invoked at
      most once, and unless the query is cancelled exactly when nothing is outstanding. */
  lemma CalledBackOnce(o: Options, domain: Name, defPort: nat, js: seq<Job>, es: seq<Event>, k: nat)
    requires Run(o, domain, defPort, js, es) && SoundRun(js, es) && k < |js|
    ensures |js[k].calls| <= 1
    ensures !js[k].cancelled ==> (|js[k].calls| == 1 <==> !Outstanding(js[k]))
  {
    hide Run, SoundRun, Count, Final;
    RunKeepsInv(o, domain, defPort, js, es, k);
    CountFull(js[k].hosts);
  }

  ghost function DoneHosts(hosts: seq<Host>): set<nat> {
    set i: nat | i < |hosts| && Done(hosts[i])
  }

  lemma {:induction false} CountIsDone(hosts: seq<Host>)
    ensures Count(hosts, |hosts|) == |DoneHosts(hosts)|
    decreases |hosts|
  {
    hide Done;
    if hosts == [] {
      assert DoneHosts(hosts) == {};
    } else {
      CountIsDone(hosts[1..]);
      var rest := DoneHosts(hosts[1..]);
      var shifted := set i: nat | i in rest :: i + 1;
      ShiftedSize(rest, shifted);
      forall i: nat ensures i in DoneHosts(hosts) <==> (i == 0 && Done(hosts[0])) || i in shifted {
        if 0 < i < |hosts| {
          assert hosts[1..][i - 1] == hosts[i] && (i - 1 in rest <==> Done(hosts[i]));
        }
      }
      assert DoneHosts(hosts) == (if Done(hosts[0]) then {0} else {}) + shifted;
    }
  }

  lemma {:induction false} ShiftedSize(s: set<nat>, t: set<nat>)
    requires forall i: nat :: i in t <==> i > 0 && i - 1 in s
    ensures |t| == |s|
    decreases |s|
  {
    if s == {} {
      assert t == {};
    } else {
      var i :| i in s;
      assert i + 1 in t;
      ShiftedSize(s - {i}, t - {i + 1});
    }
  }

  /** host_resolved is the number of targets whose lookups are over: each counts once. */
  lemma ResolvedCountsTargets(o: Options, domain: Name, defPort: nat, js: seq<Job>, es: seq<Event>, k: nat)
    requires Run(o, domain, defPort, js, es) && SoundRun(js, es) && k < |js|
    ensures !js[k].qSrv && !js[k].cancelled ==> js[k].resolved == |DoneHosts(js[k].hosts)|
  {
    hide Run, SoundRun, Count, Final;
    RunKeepsInv(o, domain, defPort, js, es, k);
    CountIsDone(js[k].hosts);
    CountFull(js[k].hosts);
  }

  /** What the callback gets, unless it is told an error: all targets with an address, in order. */
  lemma ReportsAllServers(o: Options, domain: Name, defPort: nat, js: seq<Job>, es: seq<Event>, k: nat)
    requires Run(o, domain, defPort, js, es) && SoundRun(js, es) && k < |js|
    ensures !js[k].cancelled && js[k].calls != [] && js[k].calls[0].servers.Some? ==>
      js[k].calls == [Final(js[k].hosts, js[k].lastError)] && Final(js[k].hosts, js[k].lastError).servers == Some(Servers(js[k].hosts))
  {
    hide Run, SoundRun, Count;
    RunKeepsInv(o, domain, defPort, js, es, k);
  }

  lemma {:induction false} ServersAre(hosts: seq<Host>, i: nat)
    requires i < |hosts| && hosts[i].target.addrs != []
    ensures ServerOf(hosts[i]) in Servers(hosts)
    decreases i
  {
    if i > 0 {
      ServersAre(hosts[1..], i - 1);
    }
  }

  predicate InOrder(r: seq<Server>, least: nat) {
    && (forall i :: 0 <= i < |r| ==> r[i].addrs != [] && least <= r[i].priority)
    && forall i, j :: 0 <= i < j < |r| ==> r[i].priority <= r[j].priority
  }

  lemma InOrderFrom(s: Server, rest: seq<Server>, least: nat)
    requires InOrder(rest, s.priority) && s.addrs != [] && least <= s.priority
    ensures InOrder([s] + rest, least) && InOrder(rest, least)
  {
  }

  lemma {:induction false} ServersSorted(ts: seq<Target>, hosts: seq<Host>, least: nat)
    requires SameTargets(FreshHosts(ts), hosts) && ByPriority(ts) && forall i :: 0 <= i < |ts| ==> least <= ts[i].priority
    ensures InOrder(Servers(hosts), least)
    decreases |hosts|
  {
    if hosts != [] {
      var p := ts[0].priority;
      assert FreshHosts(ts)[1..] == FreshHosts(ts[1..]);
      assert SameTarget(FreshHosts(ts)[0], hosts[0]);
      ServersSorted(ts[1..], hosts[1..], p);
      var rest := Servers(hosts[1..]);
      hide InOrder;
      LeastSmaller(rest, p, least);
      if hosts[0].target.addrs != [] {
        InOrderFrom(ServerOf(hosts[0]), rest, least);
      }
    }
  }

  lemma {:induction false} RunKeepsTargets(o: Options, domain: Name, defPort: nat, js: seq<Job>, es: seq<Event>, k: nat)
    requires Run(o, domain, defPort, js, es) && 0 < k < |js| && es[0].SrvAnswer? && es[0].srv.SrvAnswers? && es[0].srv.targets != []
    ensures SameTargets(FreshHosts(es[0].srv.targets), js[k].hosts) && !js[k].qSrv
    decreases k
  {
    hide SrvCallback, SameTargets, FreshHosts, Inv;
    if k == 1 {
      InitInv(o, domain, defPort);
      SrvCounted(js[0], es[0].srv, es[0].starts);
      NotWaitingAfter(js[0], es[0].srv, es[0].starts);
    } else {
      RunKeepsTargets(o, domain, defPort, js, es, k - 1);
      LaterStepKeepsTargets(js[k - 1], es[k - 1]);
      SameTargetsAfter(FreshHosts(es[0].srv.targets), js[k - 1].hosts, js[k].hosts);
    }
  }

  lemma NotWaitingAfter(j: Job, srv: SrvReply, starts: seq<(Start, Start)>)
    requires Inv(j) && Enabled(j, SrvAnswer(srv, starts))
    ensures !SrvCallback(j, srv, starts).qSrv && !SrvCallback(j, srv, starts).cancelled
  {
    hide Final, Count, StartHosts, Begun;
    if !Hopeless(j, srv) {
      BegunCounted(j, srv);
      var _ := StartHostsLoose(Begun(j, srv), 0, 0, starts, 0, SUCCESS);
    }
  }

  lemma LaterStepKeepsTargets(j: Job, e: Event)
    requires Enabled(j, e) && !j.qSrv
    ensures SameTargets(j.hosts, Step(j, e).hosts) && !Step(j, e).qSrv
  {
    hide Answered, Final;
    if e.AddressAnswer? {
      AnsweredHandles(j.hosts[e.i], e.isA, e.reply);
    }
  }

  /** The servers are reported in the order of their priorities, whatever order their addresses
      came in, and each of them has an address; only if all lookups fail to start the callback
      is told that error. */
  lemma ReportedInOrder(o: Options, domain: Name, defPort: nat, js: seq<Job>, es: seq<Event>, k: nat)
    requires Run(o, domain, defPort, js, es) && SoundRun(js, es) && 0 < k < |js|
    requires es[0].SrvAnswer? && es[0].srv.SrvAnswers? && es[0].srv.targets != []
    requires ByPriority(es[0].srv.targets) && !js[k].cancelled && js[k].calls != []
    ensures |js[k].calls| == 1
    ensures js[k].calls[0].servers == None <==> AllFail(FreshHosts(es[0].srv.targets), js[0].o, 0, es[0].starts)
    ensures js[k].calls[0].servers.Some? ==>
      InOrder(js[k].calls[0].servers.value, 0) && js[k].calls[0].servers.value == Servers(js[k].hosts)
  {
    assert |es| > 0;
    hide Run, SoundRun, SameTargets, Final, InOrder, Inv, AllFail, FreshHosts;
    RunKeepsTargets(o, domain, defPort, js, es, k);
    ServersSorted(es[0].srv.targets, js[k].hosts, 0);
    ReportsAllServers(o, domain, defPort, js, es, k);
    CalledBackOnce(o, domain, defPort, js, es, k);
    RefusedStays(o, domain, defPort, js, es, k);
    FirstAnswer(o, domain, defPort, js, es);
    ErrorWithoutFallback(js[0], es[0].srv, es[0].starts);
  }

  lemma LeastSmaller(r: seq<Server>, p: nat, least: nat)
    requires InOrder(r, p) && least <= p
    ensures InOrder(r, least)
  {
  }

  lemma FirstAnswer(o: Options, domain: Name, defPort: nat, js: seq<Job>, es: seq<Event>)
    requires Run(o, domain, defPort, js, es) && SoundRun(js, es) && |es| > 0 && es[0].SrvAnswer?
    ensures Inv(js[0]) && Enabled(js[0], es[0]) && Sound(js[0], es[0]) && js[1] == SrvCallback(js[0], es[0].srv, es[0].starts)
    ensures es[0] == SrvAnswer(es[0].srv, es[0].starts)
    ensures es[0].srv.SrvAnswers? && es[0].srv.targets != [] ==>
      !Hopeless(js[0], es[0].srv) && Begun(js[0], es[0].srv).hosts == FreshHosts(es[0].srv.targets) && Begun(js[0], es[0].srv).o == js[0].o
  {
    hide Sound, SrvCallback;
    InitInv(o, domain, defPort);
  }

  /** An error is told in answer to the SRV response or not at all. */
  lemma {:induction false} RefusedStays(o: Options, domain: Name, defPort: nat, js: seq<Job>, es: seq<Event>, k: nat)
    requires Run(o, domain, defPort, js, es) && SoundRun(js, es) && 0 < k < |js| && es[0].SrvAnswer? && !js[k].cancelled
    ensures js[k].calls != [] && js[k].calls[0].servers == None <==> Refusal(js[1])
    decreases k
  {
    hide SrvCallback, Final, Count, Sound, Answered;
    RunKeepsInv(o, domain, defPort, js, es, k);
    NotWaitingSince(o, domain, defPort, js, es, k);
    if k == 1 {
      FinalHasServers(js[1]);
    } else {
      NotWaitingSince(o, domain, defPort, js, es, k - 1);
      assert js[k] == Step(js[k - 1], es[k - 1]);
      assert !js[k - 1].cancelled;
      RefusedStays(o, domain, defPort, js, es, k - 1);
      RunKeepsInv(o, domain, defPort, js, es, k - 1);
      FinalHasServers(js[k]);
      if es[k - 1].AddressAnswer? {
        assert !Done(js[k - 1].hosts[es[k - 1].i]);
      }
    }
  }

  lemma FinalHasServers(j: Job)
    ensures Final(j.hosts, j.lastError).servers.Some?
  {
  }

  lemma {:induction false} NotWaitingSince(o: Options, domain: Name, defPort: nat, js: seq<Job>, es: seq<Event>, k: nat)
    requires Run(o, domain, defPort, js, es) && 0 < k < |js| && es[0].SrvAnswer?
    ensures !js[k].qSrv
    decreases k
  {
    hide SrvCallback, SameTargets, FreshHosts, Inv;
    if k == 1 {
      InitInv(o, domain, defPort);
      NotWaitingAfter(js[0], es[0].srv, es[0].starts);
    } else {
      NotWaitingSince(o, domain, defPort, js, es, k - 1);
      LaterStepKeepsTargets(js[k - 1], es[k - 1]);
    }
  }

  /** The SRV response ends the query with an error exactly when it failed and fallback is off,
      or no lookup could be started; in the first case the application gets the error of the
      SRV query. */
  lemma ErrorWithoutFallback(j: Job, srv: SrvReply, starts: seq<(Start, Start)>)
    requires Inv(j) && Enabled(j, SrvAnswer(srv, starts))
    ensures Refusal(SrvCallback(j, srv, starts)) <==> Hopeless(j, srv) || AllFail(Begun(j, srv).hosts, Begun(j, srv).o, 0, starts)
    ensures SrvCallback(j, srv, starts).hosts == [] <==> Hopeless(j, srv)
    ensures Hopeless(j, srv) ==> SrvCallback(j, srv, starts).calls == [Outcome(srv.status, None)]
  {
    hide Count, Final, StartHosts, AllFail, Complete, Begun;
    if !Hopeless(j, srv) {
      var j2 := Begun(j, srv);
      assert |j2.hosts| > 0;
      BegunCounted(j, srv);
      StartHostsKeepsLength(j2, 0, starts, 0, SUCCESS);
      CompleteKeepsHosts(j2);
      if j2.resolved == |j2.hosts| {
        SomeAddress(j2, starts);
      } else {
        StartHostsCounted(j2, starts);
        RefusalOnlyWhenAllFail(j2, starts);
      }
    }
  }

  /** Without all failing the callback is told servers. */
  lemma RefusalOnlyWhenAllFail(j: Job, starts: seq<(Start, Start)>)
    requires Loose(j, 0, 0) && j.calls == [] && j.resolved < |j.hosts| <= |starts| && AllReal(starts)
    ensures var (j', errors, err) := StartHosts(j, 0, starts, 0, SUCCESS);
            Refusal(if errors == |j'.hosts| then OnError(j', err) else j') <==> AllFail(j.hosts, j.o, 0, starts)
  {
    hide Count, StartHosts, Lost, AllFail, NoneDoubles, HandlesOk, SameTargets;
    StartHostsErrors(j, 0, 0, starts, 0, SUCCESS);
    if AllFail(j.hosts, j.o, 0, starts) {
      NoneYet(j, starts);
      AllFailQuiet(j, 0, 0, starts, 0, SUCCESS);
    } else {
      var d := StartHostsLoose(j, 0, 0, starts, 0, SUCCESS);
      if NoneDoubles(j.hosts, j.o, 0, starts) {
        StartHostsExactly(j, 0, starts, 0, SUCCESS);
        FinalHasServers(StartHosts(j, 0, starts, 0, SUCCESS).0);
      }
    }
  }

  lemma SomeAddress(j: Job, starts: seq<(Start, Start)>)
    requires Loose(j, 0, 0) && j.calls == [] && j.resolved == |j.hosts| <= |starts|
    ensures !Refusal(Complete(j)) && !AllFail(j.hosts, j.o, 0, starts)
  {
    hide Count, HandlesOk;
    CountAll(j.hosts, 0);
    assert Counts(j.hosts[0], false);
  }

  lemma {:induction false} StartHostsKeepsLength(j: Job, i: nat, starts: seq<(Start, Start)>, errors: nat, err: nat)
    requires i <= |j.hosts| <= |starts|
    ensures |StartHosts(j, i, starts, errors, err).0.hosts| == |j.hosts|
    decreases |j.hosts| - i
  {
    hide StartHost;
    if i < |j.hosts| {
      var (j', s) := StartHost(j, i, starts[i].0, starts[i].1);
      StartHostsKeepsLength(j', i + 1, starts, if s != SUCCESS then errors + 1 else errors, if s != SUCCESS then s else err);
    }
  }

  lemma CompleteKeepsHosts(j: Job)
    ensures Complete(j).hosts == j.hosts
  {
  }

  /** A cancelled query is told so once if it asked, and nothing happens to it afterwards. */
  lemma CancelledForGood(j: Job, notify: bool, e: Event)
    requires Inv(j) && Enabled(j, CancelQuery(notify))
    ensures Cancel(j, notify).calls == if notify then [Outcome(ECANCELLED, None)] else []
    ensures !Enabled(Cancel(j, notify), e)
  {
    hide Final;
    if !j.qSrv {
      CountFull(j.hosts);
      hide Count;
      var i :| 0 <= i < |j.hosts| && !Done(j.hosts[i]);
      assert Waits(j.hosts[i]);
    }
  }
}
