/** The completion counter of an SRV query: resolve_hostnames, dns_callback and
    pj_dns_srv_cancel_query (srv_resolver.c) as steps on the state of one query. A callback and
    the lookups that it starts are one step; a lookup may answer from the cache inside it. */
module SrvRun {
  import opened DnsTypes
  import opened SrvTargets
  import SrvAddresses

  const ECANCELLED := 70014       // PJ_ECANCELLED
  const ENOANSWERREC := 320047    // PJLIB_UTIL_EDNSNOANSWERREC

  /** q_a and q_aaaa: null, the dummy 0x1, or a pending query. */
  datatype Handle = Null | Dummy | Pending

  datatype Host = Host(target: Target, cname: Name, qA: Handle, qAaaa: Handle)

  /** A response to an address lookup, as pj_dns_parse_addr_response understands it. */
  datatype Reply = Failed(status: nat) | Empty | Answers(alias: Name, addrs: seq<Address>)

  /** What starting a lookup comes to: an answer at once, a pending query, or an error. */
  datatype Start = Now(reply: Reply) | Later | Refused(status: nat)

  /** A response to the SRV query; the targets are what build_server_entries made of it. */
  datatype SrvReply = SrvFailed(status: nat) | SrvEmpty | SrvAnswers(targets: seq<Target>)

  datatype Server = Server(name: Name, priority: nat, weight: nat, port: nat, alias: Name, addrs: seq<Address>)

  /** An invocation of the application's callback. */
  datatype Outcome = Outcome(status: nat, servers: Option<seq<Server>>)

  datatype Job = Job(qSrv: bool, o: Options, domain: Name, defPort: nat, hosts: seq<Host>, resolved: nat, lastError: nat,
                     calls: seq<Outcome>, cancelled: bool)

  // ----- one answer -----

  predicate Matches(isA: bool, a: Address) {
    isA == a.V4?
  }

  /** Addresses of the right family are added while there is room. */
  function Append(have: seq<Address>, addrs: seq<Address>, isA: bool): (r: seq<Address>)
    ensures have <= r && (|have| <= MAX_ADDRESSES ==> |r| <= MAX_ADDRESSES)
    decreases |addrs|
  {
    if addrs == [] || |have| >= MAX_ADDRESSES then have
    else Append(if Matches(isA, addrs[0]) then have + [addrs[0]] else have, addrs[1..], isA)
  }

  function WithReply(h: Host, isA: bool, reply: Reply): Host {
    if reply.Answers? then
      h.(cname := if h.cname == [] then reply.alias else h.cname,
         target := h.target.(addrs := Append(h.target.addrs, reply.addrs, isA)))
    else h
  }

  function ServerOf(h: Host): Server {
    var t := h.target;
    Server(t.name, t.priority, t.weight, t.port, h.cname, t.addrs)
  }

  /** The hosts with an address, in order. */
  function Servers(hosts: seq<Host>): (r: seq<Server>)
    ensures |r| <= |hosts|
  {
    if hosts == [] then []
    else if hosts[0].target.addrs != [] then [ServerOf(hosts[0])] + Servers(hosts[1..])
    else Servers(hosts[1..])
  }

  function Final(hosts: seq<Host>, lastError: nat): Outcome {
    var s := Servers(hosts);
    Outcome(if s != [] then SUCCESS else if lastError != SUCCESS then lastError else ENOANSWERREC, Some(s))
  }

  /** The check at the end of dns_callback. */
  function Complete(j: Job): Job {
    if j.resolved == |j.hosts| then j.(calls := j.calls + [Final(j.hosts, j.lastError)]) else j
  }

  function Answered(h: Host, isA: bool, reply: Reply): Host {
    WithReply(if isA then h.(qA := Null) else h.(qAaaa := Null), isA, reply)
  }

  /** dns_callback for an address lookup of host i. */
  function AddressCallback(j: Job, i: nat, isA: bool, reply: Reply): Job
    requires i < |j.hosts|
  {
    var h := j.hosts[i];
    var last := (if isA then h.qAaaa else h.qA) == Null;
    Complete(j.(hosts := j.hosts[i := Answered(h, isA, reply)],
                lastError := if reply.Failed? then reply.status else j.lastError,
                resolved := j.resolved + if last then 1 else 0))
  }

  // ----- starting the lookups -----

  function StartLookup(j: Job, i: nat, isA: bool, s: Start): (Job, nat)
    requires i < |j.hosts|
  {
    match s
    case Now(reply) => (AddressCallback(j, i, isA, reply), SUCCESS)
    case Later => (j.(hosts := j.hosts[i := if isA then j.hosts[i].(qA := Pending) else j.hosts[i].(qAaaa := Pending)]), SUCCESS)
    case Refused(status) => (j.(hosts := j.hosts[i := if isA then j.hosts[i].(qA := Null) else j.hosts[i].(qAaaa := Null)]), status)
  }

  function Prepared(j: Job, i: nat): Job
    requires i < |j.hosts|
  {
    j.(hosts := j.hosts[i := j.hosts[i].(qA := Null, qAaaa := if !j.o.aaaaOnly && j.o.aaaa then Dummy else Null)])
  }

  /** The turn of host i in resolve_hostnames, and the error it met. */
  function StartHost(j: Job, i: nat, a: Start, aaaa: Start): (r: (Job, nat))
    requires i < |j.hosts|
    ensures |r.0.hosts| == |j.hosts|
  {
    if j.hosts[i].target.addrs != [] then (j, SUCCESS)
    else
      var (j1, s1) := if !j.o.aaaaOnly then StartLookup(Prepared(j, i), i, true, a) else (Prepared(j, i), SUCCESS);
      var (j2, s2) := if s1 == SUCCESS && j.o.aaaa then StartLookup(j1, i, false, aaaa) else (j1, s1);
      if s2 != SUCCESS then (j2.(resolved := j2.resolved + 1), s2) else (j2, SUCCESS)
  }

  /** resolve_hostnames from host i on; starts says how the lookups of each host start. */
  function StartHosts(j: Job, i: nat, starts: seq<(Start, Start)>, errors: nat, err: nat): (Job, nat, nat)
    requires i <= |j.hosts| <= |starts|
    decreases |j.hosts| - i
  {
    if i == |j.hosts| then (j, errors, err)
    else
      var (j', s) := StartHost(j, i, starts[i].0, starts[i].1);
      StartHosts(j', i + 1, starts, if s != SUCCESS then errors + 1 else errors, if s != SUCCESS then s else err)
  }

  function Silenced(h: Host): Host {
    h.(qA := Null, qAaaa := Null)
  }

  function AllSilenced(hosts: seq<Host>): (r: seq<Host>)
    ensures |r| == |hosts|
  {
    seq(|hosts|, i requires 0 <= i < |hosts| => Silenced(hosts[i]))
  }

  predicate Waits(h: Host) {
    h.qA != Null || h.qAaaa == Pending
  }

  predicate AnyWaits(hosts: seq<Host>) {
    exists i :: 0 <= i < |hosts| && Waits(hosts[i])
  }

  /** pj_dns_srv_cancel_query. */
  function Cancel(j: Job, notify: bool): Job {
    var pending := j.qSrv || AnyWaits(j.hosts);
    j.(qSrv := false, hosts := AllSilenced(j.hosts), cancelled := true,
       calls := if pending && notify then j.calls + [Outcome(ECANCELLED, None)] else j.calls)
  }

  /** The label on_error. */
  function OnError(j: Job, status: nat): Job {
    j.(qSrv := false, hosts := AllSilenced(j.hosts), calls := j.calls + [Outcome(status, None)])
  }

  // ----- the SRV response -----

  function FreshHosts(ts: seq<Target>): (r: seq<Host>)
    ensures |r| == |ts|
  {
    seq(|ts|, i requires 0 <= i < |ts| => Host(ts[i], [], Null, Null))
  }

  /** The domain itself stands in for its servers, looked up as the fallback options say. */
  function FallBack(j: Job): Job {
    j.(hosts := [Host(Target.Target(j.domain, j.defPort, 0, 0, 0, []), [], Null, Null)],
       o := Options(false, false, j.o.fallbackAaaa, j.o.fallbackAaaa && !j.o.fallbackA))
  }

  /** The state in which the lookups of the servers begin. */
  function Begun(j: Job, reply: SrvReply): (r: Job)
    ensures r.hosts != [] && (reply.SrvAnswers? && reply.targets != [] ==> |r.hosts| == |reply.targets|)
    ensures !(reply.SrvAnswers? && reply.targets != []) ==> |r.hosts| == 1
  {
    var ts := if reply.SrvAnswers? then reply.targets else [];
    var j1 := j.(qSrv := false, hosts := FreshHosts(ts), resolved := SrvAddresses.Resolved(ts),
                 lastError := if reply.SrvFailed? then reply.status else j.lastError);
    if ts == [] then FallBack(j1) else j1
  }

  /** The SRV query failed and the domain is not to be looked up instead. */
  predicate Hopeless(j: Job, reply: SrvReply) {
    reply.SrvFailed? && !j.o.fallbackA && !j.o.fallbackAaaa
  }

  function SrvCallback(j: Job, reply: SrvReply, starts: seq<(Start, Start)>): Job
    requires |starts| >= MAX_TARGETS && (reply.SrvAnswers? ==> |reply.targets| <= MAX_TARGETS)
  {
    if Hopeless(j, reply) then OnError(j.(qSrv := false, lastError := reply.status), reply.status)
    else
      var j2 := Begun(j, reply);
      if j2.resolved == |j2.hosts| then Complete(j2)
      else
        var (j3, errors, err) := StartHosts(j2, 0, starts, 0, SUCCESS);
        if errors == |j3.hosts| then OnError(j3, err) else j3
  }

  // ----- lookups that fail to start -----

  /** A lookup that fails to start fails with an error. */
  predicate Real(s: Start) {
    s.Refused? ==> s.status != SUCCESS
  }

  /** The turn of a host in resolve_hostnames fails. */
  predicate TurnFails(o: Options, st: (Start, Start)) {
    if o.aaaaOnly then st.1.Refused? else st.0.Refused? || (o.aaaa && st.1.Refused?)
  }

  /** It fails with the A lookup pending, which is going to count the host again. */
  predicate TurnDoubles(o: Options, st: (Start, Start)) {
    !o.aaaaOnly && o.aaaa && st.0.Later? && st.1.Refused?
  }

  /** No answer is to come after it. */
  predicate TurnOver(o: Options, st: (Start, Start)) {
    || (TurnFails(o, st) && !TurnDoubles(o, st))
    || ((o.aaaaOnly || st.0.Now?) && (o.aaaa ==> st.1.Now?))
  }

  predicate Fails(h: Host, o: Options, st: (Start, Start)) {
    h.target.addrs == [] && TurnFails(o, st)
  }

  predicate Doubles(h: Host, o: Options, st: (Start, Start)) {
    h.target.addrs == [] && TurnDoubles(o, st)
  }

  predicate Over(h: Host, o: Options, st: (Start, Start)) {
    h.target.addrs == [] ==> TurnOver(o, st)
  }

  predicate AllFail(hosts: seq<Host>, o: Options, i: nat, starts: seq<(Start, Start)>)
    requires |hosts| <= |starts|
  {
    forall k :: i <= k < |hosts| ==> Fails(hosts[k], o, starts[k])
  }

  predicate NoneDoubles(hosts: seq<Host>, o: Options, i: nat, starts: seq<(Start, Start)>)
    requires |hosts| <= |starts|
  {
    forall k :: i <= k < |hosts| ==> !Doubles(hosts[k], o, starts[k])
  }

  /** The turn of host f fails, and no later host has a turn. */
  predicate FailsLast(hosts: seq<Host>, o: Options, starts: seq<(Start, Start)>, f: nat)
    requires |hosts| <= |starts|
  {
    f < |hosts| && Fails(hosts[f], o, starts[f]) && forall k :: f < k < |hosts| ==> hosts[k].target.addrs != []
  }

  /** No host before i waits, all others are over at once, and the last of their turns fails:
      then nothing is left that would look at the counter. */
  predicate Lost(hosts: seq<Host>, o: Options, i: nat, starts: seq<(Start, Start)>)
    requires |hosts| <= |starts|
  {
    && (forall k :: 0 <= k < i && k < |hosts| ==> Done(hosts[k]))
    && (forall k :: i <= k < |hosts| ==> Over(hosts[k], o, starts[k]))
    && exists f :: i <= f < |hosts| && FailsLast(hosts, o, starts, f)
  }

  /** The lookups start so that the counter can be relied on: all turns fail, which is reported
      as an error, or no host is going to be counted twice and the last turn does not end the
      query by failing. */
  predicate SoundStarts(hosts: seq<Host>, o: Options, starts: seq<(Start, Start)>)
    requires |hosts| <= |starts|
  {
    AllFail(hosts, o, 0, starts) || (NoneDoubles(hosts, o, 0, starts) && !Lost(hosts, o, 0, starts))
  }

  // ----- runs -----

  datatype Event =
    | SrvAnswer(srv: SrvReply, starts: seq<(Start, Start)>)
    | AddressAnswer(i: nat, isA: bool, reply: Reply)
    | CancelQuery(notify: bool)

  /** What may happen next; the application cancels at most once and before its callback. */
  predicate Enabled(j: Job, e: Event) {
    match e
    case SrvAnswer(srv, starts) =>
      && j.qSrv && |starts| >= MAX_TARGETS && (srv.SrvAnswers? ==> |srv.targets| <= MAX_TARGETS)
      && (srv.SrvFailed? ==> srv.status != SUCCESS)
      && forall k :: 0 <= k < |starts| ==> Real(starts[k].0) && Real(starts[k].1)
    case AddressAnswer(i, isA, reply) => i < |j.hosts| && (if isA then j.hosts[i].qA else j.hosts[i].qAaaa) == Pending
    case CancelQuery(_) => !j.cancelled && j.calls == []
  }

  /** If the event is the SRV answer, the lookups that it starts are sound. */
  predicate Sound(j: Job, e: Event)
    requires Enabled(j, e)
  {
    e.SrvAnswer? && !Hopeless(j, e.srv) ==> SoundStarts(Begun(j, e.srv).hosts, Begun(j, e.srv).o, e.starts)
  }

  function Step(j: Job, e: Event): Job
    requires Enabled(j, e)
  {
    match e
    case SrvAnswer(srv, starts) => SrvCallback(j, srv, starts)
    case AddressAnswer(i, isA, reply) => AddressCallback(j, i, isA, reply)
    case CancelQuery(notify) => Cancel(j, notify)
  }

  /** The state after pj_dns_srv_resolve has started the SRV query. */
  function Init(o: Options, domain: Name, defPort: nat): Job {
    Job(true, if o.aaaaOnly then o.(aaaa := true) else o, domain, defPort, [], 0, SUCCESS, [], false)
  }

  /** No answer is to come. The dummy stays where the A lookup fails to start. */
  predicate Done(h: Host) {
    h.qA == Null && h.qAaaa != Pending
  }

  /** Hosts before n count when their lookups are over, later ones when they have an address. */
  predicate Counts(h: Host, started: bool) {
    if started then Done(h) else h.target.addrs != []
  }

  function Count(hosts: seq<Host>, n: nat): (c: nat)
    requires n <= |hosts|
    ensures c <= |hosts|
  {
    if hosts == [] then 0
    else (if Counts(hosts[0], n > 0) then 1 else 0) + Count(hosts[1..], if n > 0 then n - 1 else 0)
  }

  lemma {:induction false} CountUpdate(hosts: seq<Host>, n: nat, i: nat, h: Host)
    requires n <= |hosts| && i < |hosts|
    ensures Count(hosts[i := h], n) == Count(hosts, n) - (if Counts(hosts[i], i < n) then 1 else 0) + (if Counts(h, i < n) then 1 else 0)
    decreases i
  {
    hide Counts;
    if i > 0 {
      CountUpdate(hosts[1..], if n > 0 then n - 1 else 0, i - 1, h);
      assert hosts[i := h][1..] == hosts[1..][i - 1 := h];
    }
  }

  lemma {:induction false} CountNext(hosts: seq<Host>, n: nat)
    requires n < |hosts|
    ensures Count(hosts, n + 1) == Count(hosts, n) - (if Counts(hosts[n], false) then 1 else 0) + (if Counts(hosts[n], true) then 1 else 0)
    decreases n
  {
    hide Counts;
    if n > 0 {
      CountNext(hosts[1..], n - 1);
    }
  }

  lemma {:induction false} CountAll(hosts: seq<Host>, n: nat)
    requires n <= |hosts|
    ensures Count(hosts, n) == |hosts| <==> forall i :: 0 <= i < |hosts| ==> Counts(hosts[i], i < n)
    decreases |hosts|
  {
    hide Counts;
    if hosts != [] {
      var m := if n > 0 then n - 1 else 0;
      CountAll(hosts[1..], m);
      if Count(hosts, n) == |hosts| {
        forall i | 0 <= i < |hosts| ensures Counts(hosts[i], i < n) {
          assert i > 0 ==> hosts[1..][i - 1] == hosts[i] && Counts(hosts[1..][i - 1], i - 1 < m);
        }
      }
      if forall i :: 0 <= i < |hosts| ==> Counts(hosts[i], i < n) {
        forall i | 0 <= i < |hosts[1..]| ensures Counts(hosts[1..][i], i < m) {
          assert hosts[1..][i] == hosts[i + 1];
        }
      }
    }
  }

  lemma CountFull(hosts: seq<Host>)
    ensures Count(hosts, |hosts|) == |hosts| <==> forall i :: 0 <= i < |hosts| ==> Done(hosts[i])
  {
    hide Done, Count;
    CountAll(hosts, |hosts|);
    forall i | 0 <= i < |hosts| ensures Counts(hosts[i], i < |hosts|) == Done(hosts[i]) {
    }
  }

  lemma {:induction false} CountFresh(ts: seq<Target>)
    ensures Count(FreshHosts(ts), 0) == SrvAddresses.Resolved(ts)
    decreases |ts|
  {
    if ts != [] {
      CountFresh(ts[1..]);
      assert FreshHosts(ts)[1..] == FreshHosts(ts[1..]);
    }
  }

  /** Asking for AAAA only implies asking for AAAA. */
  predicate Normal(o: Options) {
    o.aaaaOnly ==> o.aaaa
  }

  predicate HandlesOk(h: Host) {
    h.qA != Dummy && (h.qAaaa == Dummy ==> h.qA == Null)
  }

  /** The state while hosts before n have been started, with d hosts counted too early. */
  predicate Loose(j: Job, n: nat, d: nat) {
    && n <= |j.hosts| && j.hosts != [] && !j.qSrv && !j.cancelled && Normal(j.o)
    && j.resolved == Count(j.hosts, n) + d
    && (forall i :: 0 <= i < |j.hosts| ==> HandlesOk(j.hosts[i]))
    && (forall i :: n <= i < |j.hosts| ==> Done(j.hosts[i]))
  }

  /** The callback has come when all hosts are counted, and not before. */
  predicate Counted(j: Job, n: nat) {
    Loose(j, n, 0) && j.calls == if j.resolved == |j.hosts| then [Final(j.hosts, j.lastError)] else []
  }

  /** The one callback told an error, and nothing is left to come. */
  predicate Refusal(j: Job) {
    |j.calls| == 1 && j.calls[0].servers == None && j.resolved == |j.hosts| && forall i :: 0 <= i < |j.hosts| ==> Done(j.hosts[i])
  }

  predicate Inv(j: Job) {
    if j.qSrv then j.hosts == [] && j.resolved == 0 && j.calls == [] && !j.cancelled && Normal(j.o)
    else if j.cancelled then |j.calls| <= 1 && forall i :: 0 <= i < |j.hosts| ==> Done(j.hosts[i])
    else Refusal(j) || Counted(j, |j.hosts|)
  }

  lemma {:induction false} CountNotFull(hosts: seq<Host>, n: nat, i: nat)
    requires n <= |hosts| && i < |hosts| && !Counts(hosts[i], i < n)
    ensures Count(hosts, n) < |hosts|
    decreases i
  {
    hide Counts;
    if i > 0 {
      CountNotFull(hosts[1..], if n > 0 then n - 1 else 0, i - 1);
    }
  }

  /** Hosts keep the server they stand for. */
  predicate SameTarget(h: Host, h': Host) {
    h'.target.(addrs := h.target.addrs) == h.target
  }

  predicate SameTargets(hosts: seq<Host>, hosts': seq<Host>) {
    |hosts| == |hosts'| && forall i :: 0 <= i < |hosts| ==> SameTarget(hosts[i], hosts'[i])
  }

  lemma AnsweredHandles(h: Host, isA: bool, reply: Reply)
    ensures var h' := Answered(h, isA, reply);
            SameTarget(h, h') && if isA then h'.qA == Null && h'.qAaaa == h.qAaaa else h'.qA == h.qA && h'.qAaaa == Null
  {
    hide Append;
  }

  function Own(h: Host, isA: bool): Handle {
    if isA then h.qA else h.qAaaa
  }

  /** Host i has changed, and nothing else but the counter, the last error and the calls. */
  predicate OnlyHost(j: Job, j': Job, i: nat)
    requires i < |j.hosts|
  {
    && |j'.hosts| == |j.hosts| && j'.hosts == j.hosts[i := j'.hosts[i]] && SameTarget(j.hosts[i], j'.hosts[i])
    && j'.o == j.o && j'.qSrv == j.qSrv && j'.cancelled == j.cancelled
  }

  lemma OnlyHostTwice(j: Job, j1: Job, j2: Job, i: nat)
    requires i < |j.hosts| && OnlyHost(j, j1, i) && OnlyHost(j1, j2, i)
    ensures OnlyHost(j, j2, i)
  {
  }

  lemma AnswerEffect(j: Job, i: nat, isA: bool, reply: Reply)
    requires i < |j.hosts|
    ensures var j', h := AddressCallback(j, i, isA, reply), j.hosts[i];
            && OnlyHost(j, j', i) && Own(j'.hosts[i], isA) == Null && Own(j'.hosts[i], !isA) == Own(h, !isA)
            && j'.resolved == j.resolved + (if Own(h, !isA) == Null then 1 else 0)
            && j'.calls == if j'.resolved == |j.hosts| then j.calls + [Final(j'.hosts, j'.lastError)] else j.calls
  {
    hide Final, Answered;
    AnsweredHandles(j.hosts[i], isA, reply);
  }

  /** What starting one lookup does to its host, the counter and the calls. */
  lemma LookupEffect(j: Job, i: nat, isA: bool, s: Start)
    requires i < |j.hosts| && Real(s)
    ensures var (j', status) := StartLookup(j, i, isA, s);
            var h := j.hosts[i];
            && OnlyHost(j, j', i) && (status != SUCCESS <==> s.Refused?)
            && Own(j'.hosts[i], isA) == (if s.Later? then Pending else Null) && Own(j'.hosts[i], !isA) == Own(h, !isA)
            && j'.resolved == j.resolved + (if s.Now? && Own(h, !isA) == Null then 1 else 0)
            && j'.calls == if s.Now? && j'.resolved == |j.hosts| then j.calls + [Final(j'.hosts, j'.lastError)] else j.calls
  {
    hide Final, AddressCallback;
    if s.Now? {
      AnswerEffect(j, i, isA, s.reply);
    }
  }

  /** What the turn of host i does. */
  predicate Turned(j: Job, j': Job, i: nat, st: (Start, Start))
    requires i < |j.hosts|
  {
    var h := j.hosts[i];
    && OnlyHost(j, j', i) && HandlesOk(j'.hosts[i]) && (Done(j'.hosts[i]) <==> Over(h, j.o, st))
    && j'.resolved == j.resolved + (if h.target.addrs == [] && (TurnFails(j.o, st) || TurnOver(j.o, st)) then 1 else 0)
    && (j.resolved < |j.hosts| ==>
         j'.calls == if !Fails(h, j.o, st) && j'.resolved == |j.hosts| then j.calls + [Final(j'.hosts, j'.lastError)] else j.calls)
  }

  lemma Turn(j: Job, i: nat, st: (Start, Start))
    requires i < |j.hosts| && Normal(j.o) && Real(st.0) && Real(st.1) && HandlesOk(j.hosts[i]) && Done(j.hosts[i])
    ensures Turned(j, StartHost(j, i, st.0, st.1).0, i, st)
    ensures StartHost(j, i, st.0, st.1).1 != SUCCESS <==> Fails(j.hosts[i], j.o, st)
  {
    hide Final, StartLookup, OnlyHost;
    if j.hosts[i].target.addrs != [] {
      NothingChanged(j, i);
    } else {
      var p := Prepared(j, i);
      PreparedEffect(j, i);
      if j.o.aaaaOnly {
        LookupEffect(p, i, false, st.1);
        OnlyHostTwice(j, p, StartLookup(p, i, false, st.1).0, i);
        OnlyHostCounter(j, StartLookup(p, i, false, st.1).0, i);
      } else {
        LookupEffect(p, i, true, st.0);
        var (j1, s1) := StartLookup(p, i, true, st.0);
        OnlyHostTwice(j, p, j1, i);
        OnlyHostSize(j, j1, i);
        OnlyHostCounter(j, j1, i);
        if s1 == SUCCESS && j.o.aaaa {
          LookupEffect(j1, i, false, st.1);
          OnlyHostTwice(j, j1, StartLookup(j1, i, false, st.1).0, i);
          OnlyHostCounter(j, StartLookup(j1, i, false, st.1).0, i);
        }
      }
    }
  }

  lemma OnlyHostCounter(j: Job, j1: Job, i: nat)
    requires i < |j.hosts| && OnlyHost(j, j1, i)
    ensures OnlyHost(j, j1.(resolved := j1.resolved + 1), i) && |j1.hosts| == |j.hosts|
  {
  }

  lemma NothingChanged(j: Job, i: nat)
    requires i < |j.hosts|
    ensures OnlyHost(j, j, i)
  {
  }

  lemma OnlyHostSize(j: Job, j': Job, i: nat)
    requires i < |j.hosts| && OnlyHost(j, j', i)
    ensures |j'.hosts| == |j.hosts| && j'.o == j.o
  {
  }

  lemma PreparedEffect(j: Job, i: nat)
    requires i < |j.hosts|
    ensures var p := Prepared(j, i);
            && OnlyHost(j, p, i) && |p.hosts| == |j.hosts| && p.hosts[i].qA == Null
            && p.hosts[i].qAaaa == (if !j.o.aaaaOnly && j.o.aaaa then Dummy else Null)
            && p.resolved == j.resolved && p.calls == j.calls && p.o == j.o
  {
  }

  lemma CountBound(hosts: seq<Host>, n: nat)
    requires n <= |hosts|
    ensures Count(hosts, n) <= |hosts|
  {
  }

  /** A turn that fails with an answer to come counts its host too early. */
  lemma TurnKeepsLoose(j: Job, j': Job, i: nat, st: (Start, Start), d: nat)
    requires Loose(j, i, d) && i < |j.hosts| && Turned(j, j', i, st)
    ensures Loose(j', i + 1, d + if Doubles(j.hosts[i], j.o, st) then 1 else 0)
  {
    hide Final, Count;
    var h := j'.hosts[i];
    CountUpdate(j.hosts, i, i, h);
    CountNext(j'.hosts, i);
    forall k | 0 <= k < |j'.hosts| ensures HandlesOk(j'.hosts[k]) {
      assert k != i ==> j'.hosts[k] == j.hosts[k];
    }
    forall k | i + 1 <= k < |j'.hosts| ensures Done(j'.hosts[k]) {
      assert j'.hosts[k] == j.hosts[k];
    }
  }

  /** The turn of a host keeps the counter right exactly when it does not fail, or fails with
      no answer to come and is not the one that completes the count. */
  lemma HostCountedExactly(j: Job, i: nat, a: Start, aaaa: Start)
    requires Counted(j, i) && i < |j.hosts| && Real(a) && Real(aaaa)
    ensures Counted(StartHost(j, i, a, aaaa).0, i + 1) <==>
      !Fails(j.hosts[i], j.o, (a, aaaa)) || (!TurnDoubles(j.o, (a, aaaa)) && j.resolved + 1 < |j.hosts|)
  {
    hide Final, Count, StartLookup, TurnOver;
    var st := (a, aaaa);
    var j' := StartHost(j, i, a, aaaa).0;
    Turn(j, i, st);
    TurnKeepsLoose(j, j', i, st, 0);
    if j.hosts[i].target.addrs == [] {
      CountNotFull(j.hosts, i, i);
    }
  }

  lemma StartHostCounted(j: Job, i: nat, a: Start, aaaa: Start)
    requires Counted(j, i) && i < |j.hosts| && Real(a) && Real(aaaa) && !Fails(j.hosts[i], j.o, (a, aaaa))
    ensures StartHost(j, i, a, aaaa).1 == SUCCESS && Counted(StartHost(j, i, a, aaaa).0, i + 1)
    ensures SameTargets(j.hosts, StartHost(j, i, a, aaaa).0.hosts)
  {
    hide Final, Count, StartHost, TurnOver;
    Turn(j, i, (a, aaaa));
    HostCountedExactly(j, i, a, aaaa);
    OnlyHostTargets(j, StartHost(j, i, a, aaaa).0, i);
  }

  lemma OnlyHostTargets(j: Job, j': Job, i: nat)
    requires i < |j.hosts| && OnlyHost(j, j', i)
    ensures SameTargets(j.hosts, j'.hosts)
  {
    forall k | 0 <= k < |j.hosts| ensures SameTarget(j.hosts[k], j'.hosts[k]) {
      assert k != i ==> j'.hosts[k] == j.hosts[k];
    }
  }

  lemma SameTargetsItself(a: seq<Host>)
    ensures SameTargets(a, a)
  {
  }

  lemma SameTargetsAfter(a: seq<Host>, b: seq<Host>, c: seq<Host>)
    requires SameTargets(a, b) && SameTargets(b, c)
    ensures SameTargets(a, c)
  {
    forall i | 0 <= i < |a| ensures SameTarget(a[i], c[i]) {
      assert SameTarget(a[i], b[i]) && SameTarget(b[i], c[i]);
    }
  }

  predicate AllReal(starts: seq<(Start, Start)>) {
    forall k :: 0 <= k < |starts| ==> Real(starts[k].0) && Real(starts[k].1)
  }

  /** What later turns see of the hosts does not change. */
  lemma LaterHosts(j: Job, j': Job, i: nat, starts: seq<(Start, Start)>)
    requires i < |j.hosts| <= |starts| && OnlyHost(j, j', i)
    ensures forall k :: i < k < |j.hosts| ==> j'.hosts[k] == j.hosts[k]
    ensures AllFail(j'.hosts, j'.o, i + 1, starts) <==> AllFail(j.hosts, j.o, i + 1, starts)
    ensures NoneDoubles(j'.hosts, j'.o, i + 1, starts) <==> NoneDoubles(j.hosts, j.o, i + 1, starts)
  {
    hide Fails, Doubles;
    forall k | i < k < |j.hosts| ensures j'.hosts[k] == j.hosts[k] {
    }
  }

  lemma AllFailFrom(hosts: seq<Host>, o: Options, i: nat, starts: seq<(Start, Start)>)
    requires i < |hosts| <= |starts|
    ensures AllFail(hosts, o, i, starts) <==> Fails(hosts[i], o, starts[i]) && AllFail(hosts, o, i + 1, starts)
    ensures NoneDoubles(hosts, o, i, starts) <==> !Doubles(hosts[i], o, starts[i]) && NoneDoubles(hosts, o, i + 1, starts)
  {
    hide Fails, Doubles;
  }

  /** resolve_hostnames counts the turns that fail. */
  lemma {:induction false} StartHostsErrors(j: Job, i: nat, d: nat, starts: seq<(Start, Start)>, errors: nat, err: nat)
    requires Loose(j, i, d) && |j.hosts| <= |starts| && AllReal(starts)
    ensures var (j', errors', _) := StartHosts(j, i, starts, errors, err);
            && errors <= errors' <= errors + (|j.hosts| - i) && (errors' == errors + (|j.hosts| - i) <==> AllFail(j.hosts, j.o, i, starts))
            && SameTargets(j.hosts, j'.hosts) && |j'.hosts| == |j.hosts|
    decreases |j.hosts| - i
  {
    hide Loose, StartHost, SameTargets, AllFail, NoneDoubles, Turned, Fails, Doubles;
    SameTargetsItself(j.hosts);
    LooseIs(j, i, d);
    if i < |j.hosts| {
      var j1, d1, bad := TurnStep(j, i, d, starts);
      StartHostsErrors(j1, i + 1, d1, starts, if bad then errors + 1 else errors, if bad then StartHost(j, i, starts[i].0, starts[i].1).1 else err);
      SameTargetsAfter(j.hosts, j1.hosts, StartHosts(j, i, starts, errors, err).0.hosts);
    } else {
      NoneLeft(j.hosts, j.o, i, starts);
    }
  }

  lemma NoneLeft(hosts: seq<Host>, o: Options, i: nat, starts: seq<(Start, Start)>)
    requires i == |hosts| <= |starts|
    ensures AllFail(hosts, o, i, starts) && NoneDoubles(hosts, o, i, starts)
  {
  }

  lemma LooseIs(j: Job, i: nat, d: nat)
    requires Loose(j, i, d)
    ensures i <= |j.hosts| && Normal(j.o) && (i < |j.hosts| ==> HandlesOk(j.hosts[i]) && Done(j.hosts[i]))
  {
  }

  /** One turn of the loop. */
  lemma TurnStep(j: Job, i: nat, d: nat, starts: seq<(Start, Start)>) returns (j1: Job, d1: nat, bad: bool)
    requires Loose(j, i, d) && i < |j.hosts| <= |starts| && AllReal(starts)
    ensures j1 == StartHost(j, i, starts[i].0, starts[i].1).0 && (bad <==> StartHost(j, i, starts[i].0, starts[i].1).1 != SUCCESS)
    ensures bad <==> Fails(j.hosts[i], j.o, starts[i])
    ensures d1 == d + if Doubles(j.hosts[i], j.o, starts[i]) then 1 else 0
    ensures Loose(j1, i + 1, d1) && Turned(j, j1, i, starts[i]) && |j1.hosts| == |j.hosts| && SameTargets(j.hosts, j1.hosts)
    ensures AllFail(j.hosts, j.o, i, starts) <==> bad && AllFail(j1.hosts, j1.o, i + 1, starts)
    ensures NoneDoubles(j.hosts, j.o, i, starts) <==> d1 == d && NoneDoubles(j1.hosts, j1.o, i + 1, starts)
  {
    hide Loose, StartHost, SameTargets, AllFail, NoneDoubles, Turned, Fails, Doubles, OnlyHost;
    LooseIs(j, i, d);
    var st := starts[i];
    Turn(j, i, st);
    j1, bad := StartHost(j, i, st.0, st.1).0, StartHost(j, i, st.0, st.1).1 != SUCCESS;
    assert (st.0, st.1) == st;
    TurnKeepsLoose(j, j1, i, st, d);
    d1 := d + if Doubles(j.hosts[i], j.o, st) then 1 else 0;
    TurnedHost(j, j1, i, st);
    OnlyHostSize(j, j1, i);
    OnlyHostTargets(j, j1, i);
    LaterHosts(j, j1, i, starts);
    AllFailFrom(j.hosts, j.o, i, starts);
  }

  lemma TurnedHost(j: Job, j': Job, i: nat, st: (Start, Start))
    requires i < |j.hosts| && Turned(j, j', i, st)
    ensures OnlyHost(j, j', i)
  {
  }

  /** Hosts counted too early stay so, and their A lookups are pending. */
  lemma {:induction false} StartHostsLoose(j: Job, i: nat, d: nat, starts: seq<(Start, Start)>, errors: nat, err: nat) returns (d': nat)
    requires Loose(j, i, d) && |j.hosts| <= |starts| && AllReal(starts)
    ensures Loose(StartHosts(j, i, starts, errors, err).0, |j.hosts|, d')
    ensures d' >= d && (d' == d <==> NoneDoubles(j.hosts, j.o, i, starts))
    ensures forall k :: 0 <= k < i ==> StartHosts(j, i, starts, errors, err).0.hosts[k] == j.hosts[k]
    ensures d' > d ==> exists k :: 0 <= k < |j.hosts| && !Done(StartHosts(j, i, starts, errors, err).0.hosts[k])
    decreases |j.hosts| - i
  {
    hide Loose, StartHost, SameTargets, AllFail, NoneDoubles, Turned, Fails, Doubles, Done;
    LooseIs(j, i, d);
    if i == |j.hosts| {
      d' := d;
      NoneLeft(j.hosts, j.o, i, starts);
      LooseSize(j, i, d);
    } else {
      var j1, d1, bad := TurnStep(j, i, d, starts);
      d' := StartHostsLoose(j1, i + 1, d1, starts, if bad then errors + 1 else errors, if bad then StartHost(j, i, starts[i].0, starts[i].1).1 else err);
      EarlierHosts(j, j1, i, starts[i]);
      var j3 := StartHosts(j, i, starts, errors, err).0;
      LooseSize(j3, |j.hosts|, d');
      if d1 > d {
        assert j3.hosts[i] == j1.hosts[i];
      }
    }
  }

  lemma LooseSize(j: Job, i: nat, d: nat)
    requires Loose(j, i, d)
    ensures i <= |j.hosts|
  {
  }

  lemma EarlierHosts(j: Job, j': Job, i: nat, st: (Start, Start))
    requires i < |j.hosts| && Turned(j, j', i, st)
    ensures |j'.hosts| == |j.hosts| && forall k :: 0 <= k < i ==> j'.hosts[k] == j.hosts[k]
    ensures Doubles(j.hosts[i], j.o, st) ==> !Done(j'.hosts[i])
  {
  }

  /** When all turns fail the callback is not invoked among them. */
  lemma {:induction false} AllFailQuiet(j: Job, i: nat, d: nat, starts: seq<(Start, Start)>, errors: nat, err: nat)
    requires Loose(j, i, d) && |j.hosts| <= |starts| && AllReal(starts)
    requires AllFail(j.hosts, j.o, i, starts) && j.resolved == i && j.calls == []
    ensures var j' := StartHosts(j, i, starts, errors, err).0; j'.resolved == |j.hosts| && j'.calls == [] && !j'.cancelled && !j'.qSrv
    decreases |j.hosts| - i
  {
    hide StartHost, SameTargets, AllFail, NoneDoubles, Doubles, Count;
    if i < |j.hosts| {
      var j1, d1, bad := TurnStep(j, i, d, starts);
      AllFailQuiet(j1, i + 1, d1, starts, errors + 1, StartHost(j, i, starts[i].0, starts[i].1).1);
    }
  }

  /** Hosts that have an address have no turn. */
  lemma {:induction false} NoTurnsLeft(j: Job, i: nat, starts: seq<(Start, Start)>, errors: nat, err: nat)
    requires i <= |j.hosts| <= |starts| && forall k :: i <= k < |j.hosts| ==> j.hosts[k].target.addrs != []
    ensures StartHosts(j, i, starts, errors, err).0 == j
    decreases |j.hosts| - i
  {
    if i < |j.hosts| {
      NoTurnsLeft(j, i + 1, starts, errors, err);
    }
  }

  /** When no host is counted too early, resolve_hostnames keeps the counter right exactly
      when it does not lose the callback. */
  lemma {:induction false} StartHostsExactly(j: Job, i: nat, starts: seq<(Start, Start)>, errors: nat, err: nat)
    requires Counted(j, i) && |j.hosts| <= |starts| && AllReal(starts) && NoneDoubles(j.hosts, j.o, i, starts)
    ensures var j' := StartHosts(j, i, starts, errors, err).0;
            && Loose(j', |j.hosts|, 0) && (Counted(j', |j.hosts|) <==> !Lost(j.hosts, j.o, i, starts))
            && (Lost(j.hosts, j.o, i, starts) ==> j'.calls == [] && j'.resolved == |j.hosts|)
    decreases |j.hosts| - i
  {
    hide Count, StartHost, Lost, AllFail, NoneDoubles, Turned, TurnFails, TurnDoubles, TurnOver, HandlesOk, SameTargets, Final;
    if i == |j.hosts| {
      NothingLost(j.hosts, j.o, i, starts);
    } else {
      var j1, d1, bad := TurnStep(j, i, 0, starts);
      HostCountedExactly(j, i, starts[i].0, starts[i].1);
      assert (starts[i].0, starts[i].1) == starts[i];
      var errors1, err1 := if bad then errors + 1 else errors, if bad then StartHost(j, i, starts[i].0, starts[i].1).1 else err;
      if Counted(j1, i + 1) {
        StartHostsExactly(j1, i + 1, starts, errors1, err1);
        LostLater(j, j1, i, starts);
      } else {
        CountBound(j1.hosts, i + 1);
        TurnedCounter(j, j1, i, starts[i]);
        LostHere(j, j1, i, starts);
        NoTurnsLeft(j1, i + 1, starts, errors1, err1);
      }
    }
  }

  lemma TurnedCounter(j: Job, j': Job, i: nat, st: (Start, Start))
    requires i < |j.hosts| && Turned(j, j', i, st) && Fails(j.hosts[i], j.o, st)
    ensures j'.resolved == j.resolved + 1
  {
  }

  lemma NothingLost(hosts: seq<Host>, o: Options, i: nat, starts: seq<(Start, Start)>)
    requires |hosts| == i <= |starts|
    ensures !Lost(hosts, o, i, starts)
  {
  }

  /** The last turn that is over at once completes the count. */
  lemma LostLater(j: Job, j1: Job, i: nat, starts: seq<(Start, Start)>)
    requires Counted(j, i) && i < |j.hosts| <= |starts| && Turned(j, j1, i, starts[i]) && Counted(j1, i + 1)
    requires !Doubles(j.hosts[i], j.o, starts[i]) && |j1.hosts| == |j.hosts|
    requires Fails(j.hosts[i], j.o, starts[i]) ==> j.resolved + 1 < |j.hosts|
    ensures Lost(j.hosts, j.o, i, starts) <==> Lost(j1.hosts, j1.o, i + 1, starts)
  {
    hide Count, TurnFails, TurnOver, TurnDoubles, Final, HandlesOk;
    var n := |j.hosts|;
    assert forall k :: 0 <= k < n && k != i ==> j1.hosts[k] == j.hosts[k];
    if Lost(j.hosts, j.o, i, starts) {
      var f :| i <= f < n && FailsLast(j.hosts, j.o, starts, f);
      if f == i {
        CountAll(j1.hosts, i + 1);
        assert forall k :: 0 <= k < n ==> Counts(j1.hosts[k], k < i + 1);
        assert false;
      }
      assert FailsLast(j1.hosts, j1.o, starts, f);
    }
    if Lost(j1.hosts, j1.o, i + 1, starts) {
      var f :| i + 1 <= f < n && FailsLast(j1.hosts, j1.o, starts, f);
      assert FailsLast(j.hosts, j.o, starts, f);
      forall k | 0 <= k < i ensures Done(j.hosts[k]) {
        assert Done(j1.hosts[k]);
      }
      forall k | i <= k < n ensures Over(j.hosts[k], j.o, starts[k]) {
        assert k == i ==> Done(j1.hosts[k]);
      }
    }
  }

  lemma LostHere(j: Job, j1: Job, i: nat, starts: seq<(Start, Start)>)
    requires Counted(j, i) && i < |j.hosts| <= |starts| && Turned(j, j1, i, starts[i]) && Loose(j1, i + 1, 0)
    requires !Doubles(j.hosts[i], j.o, starts[i]) && Fails(j.hosts[i], j.o, starts[i]) && j.resolved + 1 == |j.hosts|
    ensures Lost(j.hosts, j.o, i, starts) && j1.calls == [] && j1.resolved == |j.hosts| == |j1.hosts|
    ensures Loose(j1, |j1.hosts|, 0) && forall k :: i + 1 <= k < |j1.hosts| ==> j1.hosts[k].target.addrs != []
  {
    hide Count, TurnFails, TurnOver, TurnDoubles, Final, HandlesOk;
    var n := |j.hosts|;
    assert forall k :: 0 <= k < n && k != i ==> j1.hosts[k] == j.hosts[k];
    CountAll(j1.hosts, i + 1);
    CountFull(j1.hosts);
    assert forall k :: 0 <= k < n ==> Counts(j1.hosts[k], k < i + 1);
    assert FailsLast(j.hosts, j.o, starts, i);
    forall k | 0 <= k < i ensures Done(j.hosts[k]) {
      assert Counts(j1.hosts[k], true);
    }
    forall k | i <= k < n ensures Over(j.hosts[k], j.o, starts[k]) {
      assert k == i ==> Counts(j1.hosts[k], true);
      assert k > i ==> Counts(j1.hosts[k], false);
    }
  }

  lemma StartHostsCounted(j: Job, starts: seq<(Start, Start)>)
    requires Counted(j, 0) && |j.hosts| <= |starts| && AllReal(starts) && j.resolved < |j.hosts|
    ensures var (j', errors, err) := StartHosts(j, 0, starts, 0, SUCCESS);
            && |j'.hosts| == |j.hosts| && SameTargets(j.hosts, j'.hosts) && (errors == |j.hosts| <==> AllFail(j.hosts, j.o, 0, starts))
            && (errors == |j.hosts| ==> Inv(OnError(j', err)) && SoundStarts(j.hosts, j.o, starts))
            && (errors != |j.hosts| ==> (Inv(j') <==> SoundStarts(j.hosts, j.o, starts)))
  {
    hide Count, StartHosts, Lost, AllFail, NoneDoubles, HandlesOk, SameTargets, Final;
    StartHostsErrors(j, 0, 0, starts, 0, SUCCESS);
    var (j', errors, err) := StartHosts(j, 0, starts, 0, SUCCESS);
    if AllFail(j.hosts, j.o, 0, starts) {
      NoneYet(j, starts);
      AllFailQuiet(j, 0, 0, starts, 0, SUCCESS);
    } else {
      var d := StartHostsLoose(j, 0, 0, starts, 0, SUCCESS);
      if NoneDoubles(j.hosts, j.o, 0, starts) {
        StartHostsExactly(j, 0, starts, 0, SUCCESS);
      }
    }
  }

  lemma NoneYet(j: Job, starts: seq<(Start, Start)>)
    requires Counted(j, 0) && |j.hosts| <= |starts| && AllFail(j.hosts, j.o, 0, starts)
    ensures j.resolved == 0 && j.calls == []
  {
    hide Final, HandlesOk;
    forall i | 0 <= i < |j.hosts| ensures j.hosts[i].target.addrs == [] {
      assert Fails(j.hosts[i], j.o, starts[i]);
    }
    NoneCounted(j.hosts);
  }

  lemma {:induction false} NoneCounted(hosts: seq<Host>)
    requires forall i :: 0 <= i < |hosts| ==> hosts[i].target.addrs == []
    ensures Count(hosts, 0) == 0
    decreases |hosts|
  {
    if hosts != [] {
      NoneCounted(hosts[1..]);
    }
  }

  /** An answer to a pending lookup, in any order. */
  lemma AnswerLoose(j: Job, i: nat, isA: bool, reply: Reply, d: nat)
    requires Loose(j, |j.hosts|, d) && i < |j.hosts| && (if isA then j.hosts[i].qA else j.hosts[i].qAaaa) == Pending
    ensures var j' := AddressCallback(j, i, isA, reply);
            && Loose(j', |j'.hosts|, d) && |j'.hosts| == |j.hosts| && SameTargets(j.hosts, j'.hosts)
            && j'.calls == if j'.resolved == |j.hosts| then j.calls + [Final(j'.hosts, j'.lastError)] else j.calls
  {
    hide Final, Count, AddressCallback;
    AnswerEffect(j, i, isA, reply);
    var j' := AddressCallback(j, i, isA, reply);
    CountUpdate(j.hosts, |j.hosts|, i, j'.hosts[i]);
    OnlyHostTargets(j, j', i);
    forall k | 0 <= k < |j'.hosts| ensures HandlesOk(j'.hosts[k]) {
      assert k != i ==> j'.hosts[k] == j.hosts[k];
    }
  }

  lemma AnswerCounted(j: Job, i: nat, isA: bool, reply: Reply)
    requires Counted(j, |j.hosts|) && i < |j.hosts| && (if isA then j.hosts[i].qA else j.hosts[i].qAaaa) == Pending
    ensures Counted(AddressCallback(j, i, isA, reply), |j.hosts|)
  {
    hide Final, Count, AddressCallback;
    AnswerLoose(j, i, isA, reply, 0);
    CountNotFull(j.hosts, |j.hosts|, i);
  }

  /** The counter is right after the answer to the SRV query exactly when the lookups that it
      starts are sound. */
  lemma SrvCounted(j: Job, srv: SrvReply, starts: seq<(Start, Start)>)
    requires Inv(j) && Enabled(j, SrvAnswer(srv, starts))
    ensures Inv(SrvCallback(j, srv, starts)) <==> Sound(j, SrvAnswer(srv, starts))
    ensures srv.SrvAnswers? && srv.targets != [] ==> SameTargets(FreshHosts(srv.targets), SrvCallback(j, srv, starts).hosts)
  {
    hide Final, Count, StartHosts, SoundStarts, SameTargets;
    if !Hopeless(j, srv) {
      var j2 := Begun(j, srv);
      BegunCounted(j, srv);
      SameTargetsItself(j2.hosts);
      if j2.resolved == |j2.hosts| {
        AllAddressesSound(j2, starts);
      } else {
        assert AllReal(starts);
        StartHostsCounted(j2, starts);
        var (j3, errors, err) := StartHosts(j2, 0, starts, 0, SUCCESS);
        SilencedTargets(j3.hosts);
        SameTargetsAfter(j2.hosts, j3.hosts, AllSilenced(j3.hosts));
        if errors == |j2.hosts| {
          AllFailSound(j2.hosts, j2.o, starts);
        }
      }
    }
  }

  lemma AllFailSound(hosts: seq<Host>, o: Options, starts: seq<(Start, Start)>)
    requires |hosts| <= |starts| && AllFail(hosts, o, 0, starts)
    ensures SoundStarts(hosts, o, starts)
  {
  }

  lemma SilencedTargets(hosts: seq<Host>)
    ensures SameTargets(hosts, AllSilenced(hosts))
  {
  }

  lemma BegunCounted(j: Job, srv: SrvReply)
    requires Inv(j) && j.qSrv
    ensures var j2 := Begun(j, srv); Loose(j2, 0, 0) && j2.calls == [] && (srv.SrvAnswers? && srv.targets != [] ==> j2.hosts == FreshHosts(srv.targets))
  {
    hide Final, Count;
    var ts := if srv.SrvAnswers? then srv.targets else [];
    CountFresh(ts);
    OneFreshHost(j.domain, j.defPort);
  }

  lemma OneFreshHost(domain: Name, port: nat)
    ensures Count([Host(Target.Target(domain, port, 0, 0, 0, []), [], Null, Null)], 0) == 0
  {
  }

  /** With all addresses known there is nothing to start. */
  lemma AllAddressesSound(j: Job, starts: seq<(Start, Start)>)
    requires Loose(j, 0, 0) && j.calls == [] && j.resolved == |j.hosts| <= |starts|
    ensures Inv(Complete(j)) && SoundStarts(j.hosts, j.o, starts)
  {
    hide Count, Final;
    CountAll(j.hosts, 0);
    CountFull(j.hosts);
    forall k | 0 <= k < |j.hosts| ensures j.hosts[k].target.addrs != [] {
      assert Counts(j.hosts[k], false);
    }
  }

  /** Every step keeps the invariant. */
  lemma StepKeepsInv(j: Job, e: Event)
    requires Inv(j) && Enabled(j, e) && Sound(j, e)
    ensures Inv(Step(j, e))
  {
    hide Final, Count, SrvCallback, Sound;
    if e.SrvAnswer? {
      SrvCounted(j, e.srv, e.starts);
    } else if e.AddressAnswer? {
      assert !Done(j.hosts[e.i]);
      AnswerCounted(j, e.i, e.isA, e.reply);
    }
  }
}
