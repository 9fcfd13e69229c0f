/** What goes wrong in an SRV query when the lookups that it starts are not sound
    (srv_resolver.c): a host is counted twice, or the callback is lost. */
module SrvRefused {
  import opened DnsTypes
  import opened SrvTargets
  import opened SrvRun
  import opened SrvTheorems
  import SrvAddresses

  /** The state after the SRV answer, if the lookups are not sound: some hosts are counted too
      early, or the counter is full without a callback. */
  lemma AfterUnsound(j: Job, srv: SrvReply, starts: seq<(Start, Start)>) returns (d: nat)
    requires Inv(j) && Enabled(j, SrvAnswer(srv, starts)) && !Sound(j, SrvAnswer(srv, starts))
    ensures var j' := SrvCallback(j, srv, starts);
            && Loose(j', |j'.hosts|, d) && (d > 0 ==> Outstanding(j'))
            && (d == 0 ==> j'.calls == [] && !Outstanding(j'))
  {
    hide Count, StartHosts, Lost, AllFail, NoneDoubles, HandlesOk, SameTargets, Final, Begun;
    var j2 := Begun(j, srv);
    BegunCounted(j, srv);
    if j2.resolved == |j2.hosts| {
      AllAddressesSound(j2, starts);
    }
    StartHostsErrors(j2, 0, 0, starts, 0, SUCCESS);
    d := StartHostsLoose(j2, 0, 0, starts, 0, SUCCESS);
    var j3 := StartHosts(j2, 0, starts, 0, SUCCESS).0;
    if NoneDoubles(j2.hosts, j2.o, 0, starts) {
      CountZero(j2);
      StartHostsExactly(j2, 0, starts, 0, SUCCESS);
      CountFull(j3.hosts);
    }
  }

  lemma CountZero(j: Job)
    requires Loose(j, 0, 0) && j.calls == [] && j.resolved != |j.hosts|
    ensures Counted(j, 0)
  {
  }

  lemma {:induction false} StaysLoose(o: Options, domain: Name, defPort: nat, js: seq<Job>, es: seq<Event>, d: nat, k: nat)
    requires Run(o, domain, defPort, js, es) && 0 < k < |js| && es[0].SrvAnswer? && Loose(js[1], |js[1].hosts|, d)
    ensures js[k].cancelled || Loose(js[k], |js[k].hosts|, d)
    decreases k
  {
    hide Count, Final, AddressCallback, SrvCallback, HandlesOk;
    if k > 1 {
      StaysLoose(o, domain, defPort, js, es, d, k - 1);
      NotWaitingSince(o, domain, defPort, js, es, k - 1);
      var j, e := js[k - 1], es[k - 1];
      assert js[k] == Step(j, e);
      if e.AddressAnswer? {
        AnswerEffect(j, e.i, e.isA, e.reply);
        if !j.cancelled {
          AnswerLoose(j, e.i, e.isA, e.reply, d);
        }
      }
    }
  }

  /** With a host counted too early every callback comes while an answer is outstanding. */
  lemma {:induction false} CallsTooEarly(o: Options, domain: Name, defPort: nat, js: seq<Job>, es: seq<Event>, d: nat, k: nat)
    requires Run(o, domain, defPort, js, es) && 0 < k < |js| && es[0].SrvAnswer? && Loose(js[1], |js[1].hosts|, d) && d > 0 && Outstanding(js[1])
    requires !js[k].cancelled && js[k].calls != []
    ensures exists m :: 0 < m <= k && js[m].calls != [] && Outstanding(js[m])
    decreases k
  {
    hide Count, Final, AddressCallback, SrvCallback, HandlesOk, Outstanding;
    if k > 1 {
      StaysLoose(o, domain, defPort, js, es, d, k - 1);
      StaysLoose(o, domain, defPort, js, es, d, k);
      NotWaitingSince(o, domain, defPort, js, es, k - 1);
      var j, e := js[k - 1], es[k - 1];
      assert js[k] == Step(j, e);
      if e.AddressAnswer? {
        AnswerEffect(j, e.i, e.isA, e.reply);
        if j.calls != [] {
          CallsTooEarly(o, domain, defPort, js, es, d, k - 1);
        } else {
          NotAllDone(js[k], d);
        }
      }
    }
  }

  lemma NotAllDone(j: Job, d: nat)
    requires Loose(j, |j.hosts|, d) && d > 0 && j.resolved == |j.hosts|
    ensures Outstanding(j)
  {
    hide Count, HandlesOk;
    CountFull(j.hosts);
  }

  lemma {:induction false} NothingMore(o: Options, domain: Name, defPort: nat, js: seq<Job>, es: seq<Event>, k: nat)
    requires Run(o, domain, defPort, js, es) && 0 < k < |js| && es[0].SrvAnswer? && js[1].calls == [] && !Outstanding(js[1])
    ensures js[k].cancelled || js[k] == js[1]
    decreases k
  {
    hide Final, SrvCallback;
    if k > 1 {
      NothingMore(o, domain, defPort, js, es, k - 1);
      NotWaitingSince(o, domain, defPort, js, es, k - 1);
      assert js[k] == Step(js[k - 1], es[k - 1]);
    }
  }

  /** If the lookups are not sound, no run in which the query is left to its answers goes right:
      when nothing is outstanding any more, the callback has not come, or it came while an
      answer was outstanding. Sound lookups are therefore exactly those for which the callback
      comes once, and when nothing is outstanding. */
  lemma UnsoundNeverRight(o: Options, domain: Name, defPort: nat, js: seq<Job>, es: seq<Event>, k: nat)
    requires Run(o, domain, defPort, js, es) && 0 < k < |js| && es[0].SrvAnswer? && !Sound(js[0], es[0])
    requires !js[k].cancelled && !Outstanding(js[k])
    ensures js[k].calls == [] || exists m :: 0 < m <= k && js[m].calls != [] && Outstanding(js[m])
  {
    hide Count, Final, SrvCallback, Sound, Outstanding, Loose;
    InitInv(o, domain, defPort);
    assert es[0] == SrvAnswer(es[0].srv, es[0].starts);
    var d := AfterUnsound(js[0], es[0].srv, es[0].starts);
    if d == 0 {
      NothingMore(o, domain, defPort, js, es, k);
    } else if js[k].calls != [] {
      CallsTooEarly(o, domain, defPort, js, es, d, k);
    }
  }

  // ----- the two ways, for two targets -----

  const OPTIONS := Options(false, false, true, false)

  /** Two targets whose lookups start as given, those of others never being started. */
  lemma TwoTargets(t: Target, u: Target, port: nat, a: (Start, Start), b: (Start, Start))
    requires t.addrs == [] && u.addrs == []
    ensures var starts := [a, b] + seq(6, _ => (Later, Later));
            var j0 := Init(OPTIONS, [], port).(qSrv := false, hosts := [Host(t, [], Null, Null), Host(u, [], Null, Null)]);
            var (j1, s1) := StartHost(j0, 0, a.0, a.1);
            |j1.hosts| == 2 &&
            var (j2, s2) := StartHost(j1, 1, b.0, b.1);
            s1 == SUCCESS || s2 == SUCCESS ==> SrvCallback(Init(OPTIONS, [], port), SrvAnswers([t, u]), starts) == j2
  {
    hide StartHost;
    var starts := [a, b] + seq(6, _ => (Later, Later));
    var ts := [t, u];
    SrvAddresses.NoneResolved(ts);
    assert FreshHosts(ts) == [Host(t, [], Null, Null), Host(u, [], Null, Null)];
    var j0 := Init(OPTIONS, [], port).(qSrv := false, hosts := FreshHosts(ts));
    var (j1, s1) := StartHost(j0, 0, a.0, a.1);
    var (j2, s2) := StartHost(j1, 1, b.0, b.1);
    var n1 := if s1 != SUCCESS then 1 else 0;
    var n2 := if s2 != SUCCESS then n1 + 1 else n1;
    var e1 := if s1 != SUCCESS then s1 else SUCCESS;
    var e2 := if s2 != SUCCESS then s2 else e1;
    assert StartHosts(j2, 2, starts, n2, e2) == (j2, n2, e2);
    assert StartHosts(j1, 1, starts, n1, e1) == (j2, n2, e2);
    assert StartHosts(j0, 0, starts, 0, SUCCESS) == (j2, n2, e2);
  }

  /** The error counts its target at once, and the target's other lookup counts it again, so the
      callback comes while another target is unanswered, and the count runs past the number of
      targets. */
  lemma RefusedLookupCountsTwice(t: Target, u: Target, port: nat, status: nat, reply: Reply)
    requires t.addrs == [] && u.addrs == [] && status != SUCCESS
    ensures var starts := [(Later, Refused(status)), (Later, Later)] + seq(6, _ => (Later, Later));
            var j := SrvCallback(Init(OPTIONS, [], port), SrvAnswers([t, u]), starts);
            && |j.hosts| == 2 && j.calls == [] && j.resolved == 1 && j.hosts[0].qA == Pending
            && var j1 := AddressCallback(j, 0, true, reply);
            && |j1.hosts| == 2 && |j1.calls| == 1 && j1.hosts[1].qA == Pending && j1.hosts[1].qAaaa == Pending
            && AddressCallback(AddressCallback(j1, 1, true, reply), 1, false, reply).resolved == 3
  {
    hide WithReply, Final, SrvCallback;
    TwoTargets(t, u, port, (Later, Refused(status)), (Later, Later));
    var j0 := Init(OPTIONS, [], port).(qSrv := false, hosts := [Host(t, [], Null, Null), Host(u, [], Null, Null)]);
    var (j1, s1) := StartHost(j0, 0, Later, Refused(status));
    assert j1.hosts == [Host(t, [], Pending, Null), Host(u, [], Null, Null)];
    var (j2, s2) := StartHost(j1, 1, Later, Later);
    assert j2.hosts == [Host(t, [], Pending, Null), Host(u, [], Pending, Pending)];
    AnsweredHandles(j2.hosts[0], true, reply);
    var j3 := AddressCallback(j2, 0, true, reply);
    assert j3.resolved == 2 && |j3.calls| == 1 && j3.hosts[1] == j2.hosts[1];
    AnsweredHandles(j3.hosts[1], true, reply);
  }

  /** The error of the last target completes the count where nothing looks at it: all is over and
      the callback never comes. */
  lemma RefusedLookupLosesCallback(t: Target, u: Target, port: nat, status: nat)
    requires t.addrs == [] && u.addrs == [] && status != SUCCESS
    ensures var starts := [(Now(Empty), Now(Empty)), (Refused(status), Later)] + seq(6, _ => (Later, Later));
            var j := SrvCallback(Init(OPTIONS, [], port), SrvAnswers([t, u]), starts);
            j.resolved == 2 == |j.hosts| && j.calls == [] && !Outstanding(j) && !AnyWaits(j.hosts)
  {
    hide SrvCallback;
    TwoTargets(t, u, port, (Now(Empty), Now(Empty)), (Refused(status), Later));
    var j0 := Init(OPTIONS, [], port).(qSrv := false, hosts := [Host(t, [], Null, Null), Host(u, [], Null, Null)]);
    var (j1, s1) := StartHost(j0, 0, Now(Empty), Now(Empty));
    assert j1.hosts == [Host(t, [], Null, Null), Host(u, [], Null, Null)];
    var (j2, s2) := StartHost(j1, 1, Refused(status), Later);
    assert j2.hosts == [Host(t, [], Null, Null), Host(u, [], Null, Dummy)];
  }
}
