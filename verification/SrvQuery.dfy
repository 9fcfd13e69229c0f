/** pj_dns_srv_async_query as an object: its fields, and the functions of srv_resolver.c that
    update them in place. */
module SrvObject {
  import opened DnsTypes
  import opened SrvTargets
  import opened SrvRun
  import SrvAddresses

  class SrvQuery {
    var qSrv: bool
    var option: Options
    var domain: Name
    var defPort: nat
    var hosts: seq<Host>        // srv[0..srv_cnt)
    var hostResolved: nat
    var lastError: nat
    var calls: seq<Outcome>     // invocations of cb so far
    var cancelled: bool

    ghost function Abs(): Job
      reads this
    {
      Job(qSrv, option, domain, defPort, hosts, hostResolved, lastError, calls, cancelled)
    }

    /** pj_dns_srv_resolve, with the SRV query under way. */
    constructor (option: Options, domain: Name, defPort: nat)
      ensures Abs() == Init(option, domain, defPort)
    {
      this.option := if option.aaaaOnly then option.(aaaa := true) else option;
      this.domain, this.defPort, qSrv, hosts := domain, defPort, true, [];
      hostResolved, lastError, calls, cancelled := 0, SUCCESS, [], false;
    }

    /** The loop over the addresses of a response. */
    method AddAddresses(h: Host, addrs: seq<Address>, isA: bool) returns (h': Host)
      ensures h' == h.(target := h.target.(addrs := Append(h.target.addrs, addrs, isA)))
    {
      h' := h;
      var i := 0;
      assert addrs[0..] == addrs;
      while i < |addrs| && |h'.target.addrs| < MAX_ADDRESSES
        invariant 0 <= i <= |addrs|
        invariant h' == h.(target := h.target.(addrs := h'.target.addrs))
        invariant Append(h.target.addrs, addrs, isA) == Append(h'.target.addrs, addrs[i..], isA)
      {
        assert addrs[i..][1..] == addrs[i + 1..];
        if Matches(isA, addrs[i]) {
          h' := h'.(target := h'.target.(addrs := h'.target.addrs + [addrs[i]]));
        }
        i := i + 1;
      }
    }

    /** The records for the callback: the servers that have an address. */
    method BuildRecords() returns (r: seq<Server>)
      ensures r == Servers(hosts)
    {
      r := [];
      var i := 0;
      assert hosts[0..] == hosts;
      while i < |hosts|
        invariant 0 <= i <= |hosts| && Servers(hosts) == r + Servers(hosts[i..])
      {
        assert hosts[i..][1..] == hosts[i + 1..];
        if |hosts[i].target.addrs| > 0 {
          r := r + [ServerOf(hosts[i])];
        }
        i := i + 1;
      }
    }

    method CallIfAllResolved()
      modifies this`calls
      ensures Abs() == Complete(old(Abs()))
    {
      if hostResolved == |hosts| {
        var servers := BuildRecords();
        var status := SUCCESS;
        if servers == [] {
          status := if lastError == SUCCESS then ENOANSWERREC else lastError;
        }
        calls := calls + [Outcome(status, Some(servers))];
      }
    }

    /** dns_callback in the state PJ_DNS_TYPE_A. */
    method OnAddressAnswer(i: nat, isA: bool, reply: Reply)
      requires i < |hosts|
      modifies this
      ensures Abs() == AddressCallback(old(Abs()), i, isA, reply)
    {
      hide Append, Complete;
      var h := hosts[i];
      var completed;
      if isA {
        completed := h.qAaaa == Null;
        h := h.(qA := Null);
      } else {
        completed := h.qA == Null;
        h := h.(qAaaa := Null);
      }
      if reply.Answers? {
        if h.cname == [] {
          h := h.(cname := reply.alias);
        }
        h := AddAddresses(h, reply.addrs, isA);
      } else if reply.Failed? {
        lastError := reply.status;
      }
      hosts := hosts[i := h];
      if completed {
        hostResolved := hostResolved + 1;
      }
      CallIfAllResolved();
    }

    method BeginLookup(i: nat, isA: bool, s: Start) returns (status: nat)
      requires i < |hosts|
      modifies this
      ensures (Abs(), status) == StartLookup(old(Abs()), i, isA, s)
    {
      if s.Now? {
        OnAddressAnswer(i, isA, s.reply);
        return SUCCESS;
      }
      var handle := if s.Later? then Pending else Null;
      hosts := hosts[i := if isA then hosts[i].(qA := handle) else hosts[i].(qAaaa := handle)];
      return if s.Refused? then s.status else SUCCESS;
    }

    /** The body of the loop in resolve_hostnames. */
    method ResolveHost(i: nat, a: Start, aaaa: Start) returns (status: nat)
      requires i < |hosts|
      modifies this
      ensures (Abs(), status) == StartHost(old(Abs()), i, a, aaaa)
    {
      hide StartLookup;
      if hosts[i].target.addrs != [] {
        return SUCCESS;
      }
      hosts := hosts[i := hosts[i].(qA := Null, qAaaa := Null)];
      status := SUCCESS;
      if !option.aaaaOnly {
        if option.aaaa {
          hosts := hosts[i := hosts[i].(qAaaa := Dummy)];
        }
        assert Abs() == Prepared(old(Abs()), i);
        LookupKeeps(Abs(), i, true, a);
        status := BeginLookup(i, true, a);
      } else {
        assert Abs() == Prepared(old(Abs()), i);
      }
      if status == SUCCESS && option.aaaa {
        status := BeginLookup(i, false, aaaa);
      }
      if status != SUCCESS {
        hostResolved := hostResolved + 1;
      }
    }

    /** resolve_hostnames. */
    method ResolveHostnames(starts: seq<(Start, Start)>) returns (errors: nat, err: nat)
      requires |starts| >= |hosts|
      modifies this
      ensures (Abs(), errors, err) == StartHosts(old(Abs()), 0, starts, 0, SUCCESS)
    {
      hide StartHost;
      errors, err := 0, SUCCESS;
      ghost var whole := StartHosts(Abs(), 0, starts, 0, SUCCESS);
      var i := 0;
      while i < |hosts|
        invariant 0 <= i <= |hosts| <= |starts| && whole == StartHosts(Abs(), i, starts, errors, err)
        decreases |starts| - i
      {
        var status := ResolveHost(i, starts[i].0, starts[i].1);
        if status != SUCCESS {
          errors := errors + 1;
          err := status;
        }
        i := i + 1;
      }
    }

    method ClearHandles() returns (pending: bool)
      modifies this`hosts
      ensures hosts == AllSilenced(old(hosts)) && pending == AnyWaits(old(hosts))
    {
      pending := false;
      ghost var hosts0 := hosts;
      var i := 0;
      while i < |hosts|
        invariant 0 <= i <= |hosts| == |hosts0|
        invariant forall k :: 0 <= k < |hosts0| ==> hosts[k] == if k < i then Silenced(hosts0[k]) else hosts0[k]
        invariant pending <==> exists k :: 0 <= k < i && Waits(hosts0[k])
      {
        if hosts[i].qA != Null || (hosts[i].qAaaa != Null && hosts[i].qAaaa != Dummy) {
          pending := true;
        }
        hosts := hosts[i := hosts[i].(qA := Null, qAaaa := Null)];
        i := i + 1;
      }
    }

    /** pj_dns_srv_cancel_query. */
    method CancelQuery(notify: bool)
      modifies this
      ensures Abs() == Cancel(old(Abs()), notify)
    {
      var pending := ClearHandles();
      if qSrv {
        qSrv, pending := false, true;
      }
      if pending && notify {
        calls := calls + [Outcome(ECANCELLED, None)];
      }
      cancelled := true;
    }

    method ReportError(status: nat)
      modifies this
      ensures Abs() == OnError(old(Abs()), status)
    {
      var _ := ClearHandles();
      qSrv := false;
      calls := calls + [Outcome(status, None)];
    }

    /** dns_callback in the state PJ_DNS_TYPE_SRV; the targets have been built. */
    method OnSrvAnswer(reply: SrvReply, starts: seq<(Start, Start)>)
      requires |starts| >= MAX_TARGETS && hosts == [] && hostResolved == 0 && (reply.SrvAnswers? ==> |reply.targets| <= MAX_TARGETS)
      modifies this
      ensures Abs() == SrvCallback(old(Abs()), reply, starts)
    {
      hide StartHosts, Complete, OnError;
      qSrv := false;
      if reply.SrvAnswers? {
        hosts := FreshHosts(reply.targets);
        hostResolved := SrvAddresses.Resolved(reply.targets);
      } else if reply.SrvFailed? {
        lastError := reply.status;
        if !option.fallbackA && !option.fallbackAaaa {
          ReportError(reply.status);
          return;
        }
      }
      if |hosts| == 0 {
        hosts := [Host(Target.Target(domain, defPort, 0, 0, 0, []), [], Null, Null)];
        var new_option := Options(false, false, false, false);
        if option.fallbackAaaa {
          new_option := new_option.(aaaa := true, aaaaOnly := true);
        }
        if option.fallbackA {
          new_option := new_option.(aaaaOnly := false);
        }
        option := new_option;
      }
      if hostResolved != |hosts| {
        var errors, err := ResolveHostnames(starts);
        if errors == |hosts| {
          ReportError(err);
        }
        return;
      }
      CallIfAllResolved();
    }
  }

  lemma LookupKeeps(j: Job, i: nat, isA: bool, s: Start)
    requires i < |j.hosts|
    ensures var j' := StartLookup(j, i, isA, s).0; |j'.hosts| == |j.hosts| && j'.o == j.o
  {
    hide Answered, Final;
  }
}
