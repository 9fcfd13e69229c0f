/** What the hosts of an SRV query come to hold and which error is remembered, told from the
    answers that the query was given (srv_resolver.c). */
module SrvAnswers {
  import opened DnsTypes
  import opened SrvTargets
  import opened SrvRun
  import opened SrvTheorems
  import SrvAddresses

  /** The response to the A (four) or AAAA lookup of host i. */
  datatype Said = Said(i: nat, four: bool, reply: Reply)

  /** The addresses of one family, in order. */
  function Family(addrs: seq<Address>, four: bool): (r: seq<Address>)
    ensures |r| <= |addrs|
  {
    if addrs == [] then []
    else
      var keep := match addrs[0] { case V4(_) => four case V6(_) => !four };
      (if keep then [addrs[0]] else []) + Family(addrs[1..], four)
  }

  /** The addresses that the answers bring for host i. */
  function Brought(said: seq<Said>, i: nat): seq<Address> {
    if said == [] then []
    else (if said[0].i == i && said[0].reply.Answers? then Family(said[0].reply.addrs, said[0].four) else []) + Brought(said[1..], i)
  }

  /** The first alias that the answers bring for host i, unless there is one already. */
  function AliasOf(have: Name, said: seq<Said>, i: nat): Name
    decreases |said|
  {
    if have != [] || said == [] then have
    else AliasOf(if said[0].i == i && said[0].reply.Answers? then said[0].reply.alias else have, said[1..], i)
  }

  /** The status of the last lookup that failed. */
  function LastFailure(before: nat, said: seq<Said>): nat {
    if said == [] then before
    else if said[|said| - 1].reply.Failed? then said[|said| - 1].reply.status
    else LastFailure(before, said[..|said| - 1])
  }

  /** The first eight. */
  function FirstEight(a: seq<Address>): seq<Address> {
    if |a| <= 8 then a else a[..8]
  }

  // ----- from one state to a later one -----

  predicate HostFollows(h: Host, h': Host, said: seq<Said>, i: nat) {
    h'.target.addrs == FirstEight(h.target.addrs + Brought(said, i)) && h'.cname == AliasOf(h.cname, said, i)
  }

  /** In j' host i holds what it held in j and what was said since, and the error is the last. */
  predicate Follows(j: Job, j': Job, said: seq<Said>, i: nat) {
    && |j'.hosts| == |j.hosts| && j'.lastError == LastFailure(j.lastError, said)
    && (i < |j.hosts| ==> HostFollows(j.hosts[i], j'.hosts[i], said, i))
  }

  lemma {:induction false} BroughtConcat(a: seq<Said>, b: seq<Said>, i: nat)
    ensures Brought(a + b, i) == Brought(a, i) + Brought(b, i)
    decreases |a|
  {
    if a == [] {
      assert a + b == b;
    } else {
      assert (a + b)[1..] == a[1..] + b;
      BroughtConcat(a[1..], b, i);
    }
  }

  lemma {:induction false} AliasConcat(have: Name, a: seq<Said>, b: seq<Said>, i: nat)
    ensures AliasOf(have, a + b, i) == AliasOf(AliasOf(have, a, i), b, i)
    decreases |a|
  {
    if a == [] {
      assert a + b == b;
    } else {
      assert (a + b)[1..] == a[1..] + b;
      AliasConcat(if have == [] && a[0].i == i && a[0].reply.Answers? then a[0].reply.alias else have, a[1..], b, i);
    }
  }

  lemma {:induction false} FailureConcat(before: nat, a: seq<Said>, b: seq<Said>)
    ensures LastFailure(before, a + b) == LastFailure(LastFailure(before, a), b)
    decreases |b|
  {
    if b == [] {
      assert a + b == a;
    } else {
      assert (a + b)[..|a + b| - 1] == a + b[..|b| - 1];
      FailureConcat(before, a, b[..|b| - 1]);
    }
  }

  lemma EightTwice(a: seq<Address>, x: seq<Address>, y: seq<Address>)
    ensures FirstEight(FirstEight(a + x) + y) == FirstEight(a + (x + y))
  {
    assert a + (x + y) == (a + x) + y;
  }

  lemma FollowsOn(j: Job, j1: Job, j2: Job, a: seq<Said>, b: seq<Said>, i: nat)
    requires Follows(j, j1, a, i) && Follows(j1, j2, b, i)
    ensures Follows(j, j2, a + b, i)
  {
    hide Brought, AliasOf, LastFailure, FirstEight;
    FailureConcat(j.lastError, a, b);
    BroughtConcat(a, b, i);
    if i < |j.hosts| {
      AliasConcat(j.hosts[i].cname, a, b, i);
      EightTwice(j.hosts[i].target.addrs, Brought(a, i), Brought(b, i));
    }
  }

  /** Nothing was said: the hosts have at most eight addresses, and only handles changed. */
  predicate Quiet(j: Job, j': Job) {
    && |j'.hosts| == |j.hosts| && j'.lastError == j.lastError
    && forall i :: 0 <= i < |j.hosts| ==> j'.hosts[i].target == j.hosts[i].target && j'.hosts[i].cname == j.hosts[i].cname
  }

  predicate AtMostEight(j: Job) {
    forall i :: 0 <= i < |j.hosts| ==> |j.hosts[i].target.addrs| <= 8
  }

  lemma QuietFollows(j: Job, j': Job, i: nat)
    requires Quiet(j, j') && AtMostEight(j)
    ensures Follows(j, j', [], i)
  {
    assert Brought([], i) == [];
    if i < |j.hosts| {
      assert j.hosts[i].target.addrs + [] == j.hosts[i].target.addrs;
    }
  }

  // ----- one answer -----

  lemma {:induction false} AppendIs(have: seq<Address>, addrs: seq<Address>, isA: bool)
    requires |have| <= 8
    ensures Append(have, addrs, isA) == FirstEight(have + Family(addrs, isA))
    decreases |addrs|
  {
    hide FirstEight;
    if addrs == [] || |have| >= MAX_ADDRESSES {
      EnoughAlready(have, Family(addrs, isA));
    } else {
      var kept: seq<Address> := if Matches(isA, addrs[0]) then [addrs[0]] else [];
      assert Family(addrs, isA) == kept + Family(addrs[1..], isA);
      AppendIs(have + kept, addrs[1..], isA);
      Regrouped(have, kept, Family(addrs[1..], isA));
      assert kept == [] ==> have + kept == have;
    }
  }

  lemma EnoughAlready(have: seq<Address>, more: seq<Address>)
    requires |have| <= 8 && (more == [] || |have| == 8)
    ensures FirstEight(have + more) == have
  {
  }

  lemma Regrouped(a: seq<Address>, b: seq<Address>, c: seq<Address>)
    ensures (a + b) + c == a + (b + c)
  {
  }

  lemma OneSaid(h: Host, isA: bool, reply: Reply, i: nat)
    requires |h.target.addrs| <= 8
    ensures HostFollows(h, Answered(h, isA, reply), [Said(i, isA, reply)], i)
  {
    hide Append, FirstEight, Family;
    var said := [Said(i, isA, reply)];
    assert said[1..] == [];
    assert Brought(said, i) == if reply.Answers? then Family(reply.addrs, isA) else [] by {
      if reply.Answers? { assert Family(reply.addrs, isA) + [] == Family(reply.addrs, isA); }
    }
    if reply.Answers? {
      AppendIs(h.target.addrs, reply.addrs, isA);
    } else {
      EnoughAlready(h.target.addrs, []);
    }
    OneAlias(h.cname, Said(i, isA, reply), i);
  }

  lemma OneAlias(have: Name, s: Said, i: nat)
    ensures AliasOf(have, [s], i) == if have == [] && s.i == i && s.reply.Answers? then s.reply.alias else have
  {
    assert [s][1..] == [];
  }

  lemma OneFailure(before: nat, s: Said)
    ensures LastFailure(before, [s]) == if s.reply.Failed? then s.reply.status else before
  {
    assert [s][..0] == [] && LastFailure(before, []) == before;
  }

  lemma NotSaid(h: Host, i: nat, isA: bool, reply: Reply, x: nat)
    requires |h.target.addrs| <= 8 && x != i
    ensures HostFollows(h, h, [Said(i, isA, reply)], x)
  {
    var said := [Said(i, isA, reply)];
    assert said[1..] == [] && Brought(said, x) == [];
    EnoughAlready(h.target.addrs, []);
    OneAlias(h.cname, said[0], x);
  }

  lemma AnswerFollows(j: Job, i: nat, isA: bool, reply: Reply, x: nat)
    requires i < |j.hosts| && AtMostEight(j)
    ensures Follows(j, AddressCallback(j, i, isA, reply), [Said(i, isA, reply)], x) && AtMostEight(AddressCallback(j, i, isA, reply))
  {
    hide Answered, Final, HostFollows;
    var j' := AddressCallback(j, i, isA, reply);
    OneSaid(j.hosts[i], isA, reply, i);
    OneFailure(j.lastError, Said(i, isA, reply));
    HoldsEight(j.hosts[i], j'.hosts[i], [Said(i, isA, reply)], i);
    if x < |j.hosts| && x != i {
      NotSaid(j.hosts[x], i, isA, reply, x);
    }
  }

  lemma HoldsEight(h: Host, h': Host, said: seq<Said>, i: nat)
    requires HostFollows(h, h', said, i)
    ensures |h'.target.addrs| <= 8
  {
  }

  // ----- the answers that come while the lookups start -----

  /** Which lookups a host gets. */
  datatype Wants = Wants(a: bool, aaaa: bool)

  function TurnSaid(w: Wants, i: nat, st: (Start, Start)): seq<Said> {
    (if w.a && st.0.Now? then [Said(i, true, st.0.reply)] else [])
    + (if w.aaaa && !(w.a && st.0.Refused?) && st.1.Now? then [Said(i, false, st.1.reply)] else [])
  }

  /** From host i on; lookups are started for the hosts without an address. */
  function StartSaid(w: Wants, known: seq<seq<Address>>, i: nat, starts: seq<(Start, Start)>): seq<Said>
    requires i <= |known| <= |starts|
    decreases |known| - i
  {
    if i == |known| then []
    else (if known[i] == [] then TurnSaid(w, i, starts[i]) else []) + StartSaid(w, known, i + 1, starts)
  }

  function WantsOf(o: Options): Wants {
    Wants(!o.aaaaOnly, o.aaaa)
  }

  lemma LookupFollows(j: Job, i: nat, isA: bool, s: Start, x: nat)
    requires i < |j.hosts| && AtMostEight(j)
    ensures Follows(j, StartLookup(j, i, isA, s).0, if s.Now? then [Said(i, isA, s.reply)] else [], x) && AtMostEight(StartLookup(j, i, isA, s).0)
  {
    hide AddressCallback, HostFollows;
    if s.Now? {
      AnswerFollows(j, i, isA, s.reply, x);
    } else {
      QuietFollows(j, StartLookup(j, i, isA, s).0, x);
    }
  }

  lemma TurnFollows(j: Job, i: nat, st: (Start, Start), x: nat)
    requires i < |j.hosts| && AtMostEight(j) && Real(st.0) && Real(st.1) && j.hosts[i].target.addrs == []
    ensures var j' := StartHost(j, i, st.0, st.1).0;
            Follows(j, j', TurnSaid(WantsOf(j.o), i, st), x) && AtMostEight(j')
  {
    hide StartLookup, Follows, Final;
    var w := WantsOf(j.o);
    var p := Prepared(j, i);
    QuietFollows(j, p, x);
    var first: seq<Said> := if w.a && st.0.Now? then [Said(i, true, st.0.reply)] else [];
    var (j1, s1) := if w.a then StartLookup(p, i, true, st.0) else (p, SUCCESS);
    FirstLookup(j, i, st.0, x);
    var second: seq<Said> := if w.aaaa && !(w.a && st.0.Refused?) && st.1.Now? then [Said(i, false, st.1.reply)] else [];
    var (j2, s2) := if s1 == SUCCESS && w.aaaa then StartLookup(j1, i, false, st.1) else (j1, s1);
    SameOptions(p, i, st.0);
    if s1 == SUCCESS && w.aaaa {
      LookupFollows(j1, i, false, st.1, x);
      FollowsOn(j, j1, j2, first, second, x);
    } else {
      QuietFollows(j1, j1, x);
      FollowsOn(j, j1, j1, first, [], x);
    }
    CounterQuiet(j, j2, first + second, x);
  }

  lemma SameOptions(j: Job, i: nat, s: Start)
    requires i < |j.hosts| && Real(s)
    ensures var (j', status) := StartLookup(j, i, true, s); |j'.hosts| == |j.hosts| && (status != SUCCESS <==> s.Refused?)
  {
    hide Final, Answered;
  }

  lemma FirstLookup(j: Job, i: nat, s: Start, x: nat)
    requires i < |j.hosts| && AtMostEight(j)
    ensures var p, w := Prepared(j, i), WantsOf(j.o);
            var j1 := if w.a then StartLookup(p, i, true, s).0 else p;
            Follows(j, j1, if w.a && s.Now? then [Said(i, true, s.reply)] else [], x) && AtMostEight(j1) && |j1.hosts| == |j.hosts|
  {
    hide StartLookup, HostFollows;
    var p, w := Prepared(j, i), WantsOf(j.o);
    QuietFollows(j, p, x);
    if w.a {
      var said: seq<Said> := if s.Now? then [Said(i, true, s.reply)] else [];
      LookupFollows(p, i, true, s, x);
      FollowsOn(j, p, StartLookup(p, i, true, s).0, [], said, x);
      assert [] + said == said;
    }
  }

  lemma CounterQuiet(j: Job, j': Job, said: seq<Said>, x: nat)
    requires Follows(j, j', said, x) && AtMostEight(j')
    ensures Follows(j, j'.(resolved := j'.resolved + 1), said, x) && AtMostEight(j'.(resolved := j'.resolved + 1))
  {
  }

  function Known(hosts: seq<Host>): (r: seq<seq<Address>>)
    ensures |r| == |hosts|
  {
    seq(|hosts|, i requires 0 <= i < |hosts| => hosts[i].target.addrs)
  }

  /** Hosts from i on are as in known. */
  predicate KnownFrom(known: seq<seq<Address>>, hosts: seq<Host>, i: nat) {
    |known| == |hosts| && forall k :: i <= k < |hosts| ==> hosts[k].target.addrs == known[k]
  }

  lemma {:induction false} StartsFollow(j: Job, known: seq<seq<Address>>, i: nat, starts: seq<(Start, Start)>, errors: nat, err: nat, x: nat)
    requires i <= |j.hosts| <= |starts| && AtMostEight(j) && KnownFrom(known, j.hosts, i) && Normal(j.o)
    requires forall k :: 0 <= k < |starts| ==> Real(starts[k].0) && Real(starts[k].1)
    requires forall k :: i <= k < |j.hosts| ==> HandlesOk(j.hosts[k]) && Done(j.hosts[k])
    ensures Follows(j, StartHosts(j, i, starts, errors, err).0, StartSaid(WantsOf(j.o), known, i, starts), x)
    decreases |j.hosts| - i
  {
    hide StartHost, Follows, HandlesOk, Done, Real, TurnSaid;
    if i == |j.hosts| {
      QuietFollows(j, j, x);
    } else {
      var (j', s) := StartHost(j, i, starts[i].0, starts[i].1);
      var said: seq<Said> := if known[i] == [] then TurnSaid(WantsOf(j.o), i, starts[i]) else [];
      OneStart(j, i, starts[i], x);
      Turn(j, i, starts[i]);
      TurnLeaves(j, j', i, starts[i]);
      StartsFollow(j', known, i + 1, starts, if s != SUCCESS then errors + 1 else errors, if s != SUCCESS then s else err, x);
      FollowsOn(j, j', StartHosts(j', i + 1, starts, if s != SUCCESS then errors + 1 else errors, if s != SUCCESS then s else err).0,
                said, StartSaid(WantsOf(j.o), known, i + 1, starts), x);
    }
  }

  lemma OneStart(j: Job, i: nat, st: (Start, Start), x: nat)
    requires i < |j.hosts| && AtMostEight(j) && Real(st.0) && Real(st.1)
    ensures var j' := StartHost(j, i, st.0, st.1).0;
            Follows(j, j', if j.hosts[i].target.addrs == [] then TurnSaid(WantsOf(j.o), i, st) else [], x) && AtMostEight(j')
  {
    hide Follows, StartLookup, TurnSaid;
    if j.hosts[i].target.addrs == [] {
      TurnFollows(j, i, st, x);
    } else {
      QuietFollows(j, j, x);
    }
  }

  lemma TurnLeaves(j: Job, j': Job, i: nat, st: (Start, Start))
    requires i < |j.hosts| && Turned(j, j', i, st)
    ensures |j'.hosts| == |j.hosts| && j'.o == j.o && forall k :: 0 <= k < |j.hosts| && k != i ==> j'.hosts[k] == j.hosts[k]
  {
    hide Final, HandlesOk, Done, Over, Fails;
  }

  // ----- whole runs -----

  /** The addresses that the hosts have before any lookup: those of the servers, or one host,
      the domain itself, when there are none and the query does not end at once. */
  function Starting(o: Options, srv: SrvReply): (r: seq<seq<Address>>)
    ensures srv.SrvAnswers? && srv.targets != [] ==> |r| == |srv.targets|
    ensures !(srv.SrvAnswers? && srv.targets != []) ==> |r| <= 1
  {
    if srv.SrvAnswers? && srv.targets != [] then seq(|srv.targets|, i requires 0 <= i < |srv.targets| => srv.targets[i].addrs)
    else if srv.SrvFailed? && !o.fallbackA && !o.fallbackAaaa then []
    else [[]]
  }

  /** The options say which lookups the servers get, and the fallback options which ones the
      domain gets: A unless only AAAA is asked for. */
  function Wanted(o: Options, srv: SrvReply): Wants {
    if srv.SrvAnswers? && srv.targets != [] then Wants(!o.aaaaOnly, o.aaaa || o.aaaaOnly)
    else Wants(!o.fallbackAaaa || o.fallbackA, o.fallbackAaaa)
  }

  function SaidBy(o: Options, e: Event): seq<Said> {
    match e
    case SrvAnswer(srv, starts) => if |Starting(o, srv)| <= |starts| then StartSaid(Wanted(o, srv), Starting(o, srv), 0, starts) else []
    case AddressAnswer(i, isA, reply) => [Said(i, isA, reply)]
    case CancelQuery(_) => []
  }

  function SaidIn(o: Options, es: seq<Event>): seq<Said> {
    if es == [] then [] else SaidIn(o, es[..|es| - 1]) + SaidBy(o, es[|es| - 1])
  }

  predicate StartsSmall(o: Options, srv: SrvReply) {
    forall i :: 0 <= i < |Starting(o, srv)| ==> |Starting(o, srv)[i]| <= 8
  }

  /** The state of a job in terms of what was said since the SRV answer. */
  predicate Holds(o: Options, srv: SrvReply, j: Job, said: seq<Said>, i: nat) {
    var known := Starting(o, srv);
    && |j.hosts| == |known| && j.lastError == LastFailure(if srv.SrvFailed? then srv.status else 0, said)
    && (i < |known| ==> j.hosts[i].target.addrs == FirstEight(known[i] + Brought(said, i)) && j.hosts[i].cname == AliasOf([], said, i))
  }

  lemma BegunIs(j: Job, o: Options, domain: Name, defPort: nat, srv: SrvReply)
    requires j == Init(o, domain, defPort) && !Hopeless(j, srv) && StartsSmall(o, srv)
    ensures var j2 := Begun(j, srv);
            && Known(j2.hosts) == Starting(o, srv) && WantsOf(j2.o) == Wanted(o, srv) && AtMostEight(j2)
            && j2.lastError == (if srv.SrvFailed? then srv.status else 0) && forall k :: 0 <= k < |j2.hosts| ==> j2.hosts[k].cname == []
  {
    var j2 := Begun(j, srv);
    forall i | 0 <= i < |j2.hosts| ensures |j2.hosts[i].target.addrs| <= 8 {
      assert Known(j2.hosts)[i] == Starting(o, srv)[i];
    }
  }

  lemma FollowsHolds(o: Options, srv: SrvReply, j: Job, j': Job, said: seq<Said>, i: nat)
    requires Follows(j, j', said, i) && Known(j.hosts) == Starting(o, srv) && j.lastError == (if srv.SrvFailed? then srv.status else 0)
    requires forall k :: 0 <= k < |j.hosts| ==> j.hosts[k].cname == []
    ensures Holds(o, srv, j', said, i)
  {
    hide Starting, LastFailure, Brought, AliasOf, FirstEight;
    assert i < |j.hosts| ==> Known(j.hosts)[i] == j.hosts[i].target.addrs;
  }

  lemma {:induction false} AllKnown(w: Wants, known: seq<seq<Address>>, i: nat, starts: seq<(Start, Start)>)
    requires i <= |known| <= |starts| && forall k :: i <= k < |known| ==> known[k] != []
    ensures StartSaid(w, known, i, starts) == []
    decreases |known| - i
  {
    hide TurnSaid;
    if i < |known| {
      AllKnown(w, known, i + 1, starts);
    }
  }

  lemma SrvHolds(j: Job, o: Options, domain: Name, defPort: nat, srv: SrvReply, starts: seq<(Start, Start)>, i: nat)
    requires j == Init(o, domain, defPort) && Enabled(j, SrvAnswer(srv, starts)) && StartsSmall(o, srv)
    ensures Holds(o, srv, SrvCallback(j, srv, starts), SaidBy(o, SrvAnswer(srv, starts)), i)
  {
    hide Final, Holds, StartHosts, Begun, Starting, Count, Known, StartsSmall, Wanted, Inv;
    InitInv(o, domain, defPort);
    if Hopeless(j, srv) {
      HopelessHolds(j, o, domain, defPort, srv, starts, i);
    } else {
      var j2 := Begun(j, srv);
      BegunIs(j, o, domain, defPort, srv);
      BegunCounted(j, srv);
      FewHosts(j, srv);
      if j2.resolved == |j2.hosts| {
        AllResolvedFollows(j2, starts, i);
        FollowsHolds(o, srv, j2, Complete(j2), StartSaid(WantsOf(j2.o), Known(j2.hosts), 0, starts), i);
      } else {
        var j3 := StartHosts(j2, 0, starts, 0, SUCCESS).0;
        StartsFollow(j2, Known(j2.hosts), 0, starts, 0, SUCCESS, i) by { KnownIs(j2.hosts); }
        ErrorFollows(j2, j3, StartHosts(j2, 0, starts, 0, SUCCESS).2, StartSaid(WantsOf(j2.o), Known(j2.hosts), 0, starts), i);
        FollowsHolds(o, srv, j2, SrvCallback(j, srv, starts), StartSaid(WantsOf(j2.o), Known(j2.hosts), 0, starts), i);
      }
    }
  }

  lemma KnownIs(hosts: seq<Host>)
    ensures KnownFrom(Known(hosts), hosts, 0)
  {
  }

  lemma FewHosts(j: Job, srv: SrvReply)
    requires srv.SrvAnswers? ==> |srv.targets| <= MAX_TARGETS
    ensures 1 <= |Begun(j, srv).hosts| <= MAX_TARGETS
  {
  }

  lemma HopelessHolds(j: Job, o: Options, domain: Name, defPort: nat, srv: SrvReply, starts: seq<(Start, Start)>, i: nat)
    requires j == Init(o, domain, defPort) && Enabled(j, SrvAnswer(srv, starts)) && Hopeless(j, srv)
    ensures Holds(o, srv, SrvCallback(j, srv, starts), SaidBy(o, SrvAnswer(srv, starts)), i)
  {
  }

  lemma AllResolvedFollows(j: Job, starts: seq<(Start, Start)>, i: nat)
    requires Loose(j, 0, 0) && j.resolved == |j.hosts| <= |starts| && AtMostEight(j)
    ensures Follows(j, Complete(j), StartSaid(WantsOf(j.o), Known(j.hosts), 0, starts), i)
  {
    hide Count, Final, HandlesOk;
    CountAll(j.hosts, 0);
    forall k | 0 <= k < |j.hosts| ensures Known(j.hosts)[k] != [] {
      assert Counts(j.hosts[k], false);
    }
    AllKnown(WantsOf(j.o), Known(j.hosts), 0, starts);
    QuietFollows(j, Complete(j), i);
  }

  lemma ErrorFollows(j: Job, j': Job, err: nat, said: seq<Said>, i: nat)
    requires Follows(j, j', said, i)
    ensures Follows(j, OnError(j', err), said, i)
  {
    hide Brought, AliasOf, LastFailure, FirstEight;
  }

  /** What each host holds at every point of a run: the addresses that came with the SRV answer,
      then those of its own family that the answers to its lookups brought, in the order in
      which they came, up to eight; the first alias among these answers; and the status of the
      last lookup that failed. */
  lemma {:induction false} HostsHold(o: Options, domain: Name, defPort: nat, js: seq<Job>, es: seq<Event>, k: nat, i: nat)
    requires Run(o, domain, defPort, js, es) && 0 < k < |js| && es[0].SrvAnswer? && StartsSmall(o, es[0].srv)
    ensures Holds(o, es[0].srv, js[k], SaidIn(o, es[..k]), i)
    decreases k, 0
  {
    hide Holds, SaidBy, StartsSmall, Step;
    assert js[0] == Init(o, domain, defPort) && Enabled(js[k - 1], es[k - 1]) && js[k] == Step(js[k - 1], es[k - 1]);
    assert es[..k][..k - 1] == es[..k - 1] && es[..k][k - 1] == es[k - 1];
    if k == 1 {
      FirstHolds(js[0], o, domain, defPort, es[0], i);
      assert SaidIn(o, []) + SaidBy(o, es[0]) == SaidBy(o, es[0]);
    } else {
      NotWaitingSince(o, domain, defPort, js, es, k - 1);
      HostsHold(o, domain, defPort, js, es, k - 1, i);
      StillEight(o, domain, defPort, js, es, k - 1);
      LaterHolds(o, es[0].srv, js[k - 1], es[k - 1], SaidIn(o, es[..k - 1]), i);
    }
  }

  lemma FirstHolds(j: Job, o: Options, domain: Name, defPort: nat, e: Event, i: nat)
    requires j == Init(o, domain, defPort) && e.SrvAnswer? && Enabled(j, e) && StartsSmall(o, e.srv)
    ensures Holds(o, e.srv, Step(j, e), SaidBy(o, e), i)
  {
    hide SrvCallback, Holds, SaidBy, StartsSmall;
    assert e == SrvAnswer(e.srv, e.starts);
    SrvHolds(j, o, domain, defPort, e.srv, e.starts, i);
  }

  /** Every host holds at most eight addresses. */
  lemma StillEight(o: Options, domain: Name, defPort: nat, js: seq<Job>, es: seq<Event>, k: nat)
    requires Run(o, domain, defPort, js, es) && 0 < k < |js| && es[0].SrvAnswer? && StartsSmall(o, es[0].srv)
    ensures AtMostEight(js[k])
    decreases k, 1
  {
    hide Run, StartsSmall;
    forall i | 0 <= i < |js[k].hosts| ensures |js[k].hosts[i].target.addrs| <= 8 {
      HostsHold(o, domain, defPort, js, es, k, i);
    }
  }

  lemma LaterHolds(o: Options, srv: SrvReply, j: Job, e: Event, said: seq<Said>, i: nat)
    requires Holds(o, srv, j, said, i) && Enabled(j, e) && !j.qSrv && AtMostEight(j)
    ensures Holds(o, srv, Step(j, e), said + SaidBy(o, e), i)
  {
    hide Starting, Brought, AliasOf, LastFailure, FirstEight, Final, Answered;
    var j' := Step(j, e);
    if e.AddressAnswer? {
      AnswerFollows(j, e.i, e.isA, e.reply, i);
    } else {
      QuietFollows(j, j', i);
    }
    HoldsOn(o, srv, j, j', said, SaidBy(o, e), i);
  }

  lemma HoldsOn(o: Options, srv: SrvReply, j: Job, j': Job, a: seq<Said>, b: seq<Said>, i: nat)
    requires Holds(o, srv, j, a, i) && Follows(j, j', b, i)
    ensures Holds(o, srv, j', a + b, i)
  {
    hide Starting, Brought, AliasOf, LastFailure, FirstEight;
    var known := Starting(o, srv);
    FailureConcat(if srv.SrvFailed? then srv.status else 0, a, b);
    BroughtConcat(a, b, i);
    AliasConcat([], a, b, i);
    if i < |known| {
      EightTwice(known[i], Brought(a, i), Brought(b, i));
    }
  }

  /** Where the addresses of the answers come from. */
  predicate BroughtBy(s: Said, i: nat, a: Address) {
    s.i == i && s.reply.Answers? && a in s.reply.addrs && (a.V4? <==> s.four)
  }

  lemma {:induction false} FamilyIs(addrs: seq<Address>, four: bool, a: Address)
    ensures a in Family(addrs, four) <==> a in addrs && (a.V4? <==> four)
    decreases |addrs|
  {
    if addrs != [] {
      FamilyIs(addrs[1..], four, a);
    }
  }

  lemma {:induction false} BroughtIs(said: seq<Said>, i: nat, a: Address)
    ensures a in Brought(said, i) <==> exists m :: 0 <= m < |said| && BroughtBy(said[m], i, a)
    decreases |said|
  {
    hide Family;
    if said != [] {
      BroughtIs(said[1..], i, a);
      if said[0].reply.Answers? {
        FamilyIs(said[0].reply.addrs, said[0].four, a);
      }
      assert forall m :: 0 < m < |said| ==> said[m] == said[1..][m - 1];
      if n :| 0 <= n < |said[1..]| && BroughtBy(said[1..][n], i, a) {
        assert BroughtBy(said[n + 1], i, a);
      }
    }
  }

  /** An address of a host was there from the start, or is an IPv4 address of an answer to its A
      lookup or an IPv6 address of one to its AAAA lookup; and none of these is missing unless
      the host holds eight. */
  lemma AddressesComeFrom(o: Options, domain: Name, defPort: nat, js: seq<Job>, es: seq<Event>, k: nat, i: nat, a: Address)
    requires Run(o, domain, defPort, js, es) && 0 < k < |js| && es[0].SrvAnswer? && StartsSmall(o, es[0].srv)
    requires i < |Starting(o, es[0].srv)|
    ensures i < |js[k].hosts|
    ensures var said := SaidIn(o, es[..k]);
            var given := a in Starting(o, es[0].srv)[i] || exists m :: 0 <= m < |said| && BroughtBy(said[m], i, a);
            && (a in js[k].hosts[i].target.addrs ==> given)
            && (given ==> a in js[k].hosts[i].target.addrs || |js[k].hosts[i].target.addrs| == 8)
  {
    hide Run, Starting, Brought, StartsSmall, BroughtBy, AliasOf, LastFailure;
    RunSize(o, domain, defPort, js, es);
    var said := SaidIn(o, es[..k]);
    HostsHold(o, domain, defPort, js, es, k, i);
    BroughtIs(said, i, a);
    InFirstEight(Starting(o, es[0].srv)[i], Brought(said, i), a);
  }

  lemma RunSize(o: Options, domain: Name, defPort: nat, js: seq<Job>, es: seq<Event>)
    requires Run(o, domain, defPort, js, es)
    ensures |js| == |es| + 1
  {
  }

  lemma InFirstEight(x: seq<Address>, y: seq<Address>, a: Address)
    ensures a in FirstEight(x + y) ==> a in x || a in y
    ensures a in x || a in y ==> a in FirstEight(x + y) || |FirstEight(x + y)| == 8
  {
  }

  // ----- the status -----

  /** What the callback is told with the servers: success if there is one, else the status of
      the last lookup that failed, else that there was no answer. */
  lemma StatusTold(o: Options, domain: Name, defPort: nat, js: seq<Job>, es: seq<Event>, k: nat)
    requires Run(o, domain, defPort, js, es) && SoundRun(js, es) && 0 < k < |js| && es[0].SrvAnswer? && StartsSmall(o, es[0].srv)
    requires !js[k].cancelled && js[k].calls != [] && js[k].calls[0].servers.Some?
    ensures var failed := LastFailure(if es[0].srv.SrvFailed? then es[0].srv.status else 0, SaidIn(o, es[..k]));
            js[k].calls[0].status ==
              if exists i :: 0 <= i < |js[k].hosts| && js[k].hosts[i].target.addrs != [] then 0
              else if failed != 0 then failed else 320047
  {
    hide Run, SoundRun, LastFailure, Brought, AliasOf, StartsSmall, Starting, Servers;
    HostsHold(o, domain, defPort, js, es, k, 0);
    ReportsAllServers(o, domain, defPort, js, es, k);
    SomeServers(js[k].hosts);
  }

  lemma {:induction false} SomeServers(hosts: seq<Host>)
    ensures Servers(hosts) != [] <==> exists i :: 0 <= i < |hosts| && hosts[i].target.addrs != []
    decreases |hosts|
  {
    if hosts != [] {
      SomeServers(hosts[1..]);
      assert forall i :: 0 < i < |hosts| ==> hosts[i] == hosts[1..][i - 1];
      if i :| 0 <= i < |hosts[1..]| && hosts[1..][i].target.addrs != [] {
        assert hosts[i + 1].target.addrs != [];
      }
    }
  }

  /** The error of a turn that fails: that of the A lookup if it was asked for and refused. */
  function TurnError(w: Wants, st: (Start, Start)): nat {
    if w.a && st.0.Refused? then st.0.status else if st.1.Refused? then st.1.status else 0
  }

  lemma {:induction false} LastTurnError(j: Job, i: nat, starts: seq<(Start, Start)>, errors: nat, err: nat)
    requires i < |j.hosts| <= |starts| && Normal(j.o) && AllFail(j.hosts, j.o, i, starts)
    requires forall k :: 0 <= k < |starts| ==> Real(starts[k].0) && Real(starts[k].1)
    requires forall k :: i <= k < |j.hosts| ==> HandlesOk(j.hosts[k]) && Done(j.hosts[k])
    ensures StartHosts(j, i, starts, errors, err).2 == TurnError(WantsOf(j.o), starts[|j.hosts| - 1])
    decreases |j.hosts| - i
  {
    hide StartHost, HandlesOk, Done, Real, TurnFails, TurnError;
    var (j', s) := StartHost(j, i, starts[i].0, starts[i].1);
    assert Fails(j.hosts[i], j.o, starts[i]);
    Turn(j, i, starts[i]);
    TurnLeaves(j, j', i, starts[i]);
    ThatTurnError(j, i, starts[i]);
    if i + 1 < |j.hosts| {
      forall k | i + 1 <= k < |j'.hosts| ensures Fails(j'.hosts[k], j'.o, starts[k]) {
        assert Fails(j.hosts[k], j.o, starts[k]);
      }
      LastTurnError(j', i + 1, starts, errors + 1, s);
    }
  }

  lemma ThatTurnError(j: Job, i: nat, st: (Start, Start))
    requires i < |j.hosts| && Normal(j.o) && Real(st.0) && Real(st.1) && Fails(j.hosts[i], j.o, st)
    ensures StartHost(j, i, st.0, st.1).1 == TurnError(WantsOf(j.o), st)
  {
    hide AddressCallback;
  }

  /** When no lookup can be started the error told is that of the last one tried. */
  lemma RefusalTold(o: Options, domain: Name, defPort: nat, srv: SrvReply, starts: seq<(Start, Start)>)
    requires var j := Init(o, domain, defPort); Enabled(j, SrvAnswer(srv, starts)) && !Hopeless(j, srv) && StartsSmall(o, srv)
    requires AllFail(Begun(Init(o, domain, defPort), srv).hosts, Begun(Init(o, domain, defPort), srv).o, 0, starts)
    ensures 0 < |Starting(o, srv)| <= |starts|
    ensures SrvCallback(Init(o, domain, defPort), srv, starts).calls == [Outcome(TurnError(Wanted(o, srv), starts[|Starting(o, srv)| - 1]), None)]
  {
    hide Final, Starting, Wanted, Begun, Known, Count, StartHosts, AllFail, StartsSmall, TurnError;
    var j := Init(o, domain, defPort);
    var j2 := Begun(j, srv);
    InitInv(o, domain, defPort);
    BegunIs(j, o, domain, defPort, srv);
    BegunCounted(j, srv);
    FewHosts(j, srv);
    AllFailNotResolved(j2, starts);
    LastTurnError(j2, 0, starts, 0, SUCCESS);
    NoneYet(j2, starts);
    AllFailQuiet(j2, 0, 0, starts, 0, SUCCESS);
    StartHostsErrors(j2, 0, 0, starts, 0, SUCCESS);
    assert |Starting(o, srv)| == |j2.hosts|;
    var (j3, errors, err) := StartHosts(j2, 0, starts, 0, SUCCESS);
    assert errors == |j3.hosts|;
    assert OnError(j3, err).calls == [Outcome(err, None)];
  }

  lemma AllFailNotResolved(j: Job, starts: seq<(Start, Start)>)
    requires Loose(j, 0, 0) && |j.hosts| <= |starts| && AllFail(j.hosts, j.o, 0, starts)
    ensures j.resolved < |j.hosts|
  {
    hide Count, HandlesOk;
    CountAll(j.hosts, 0);
    assert Fails(j.hosts[0], j.o, starts[0]);
    CountBound(j.hosts, 0);
  }
}
