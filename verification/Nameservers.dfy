/** Nameserver health states: set_nameserver_state and select_nameservers of resolver.c.
    Times are milliseconds. */
module Nameservers {

  datatype Health = Probing | Active | Bad

  datatype Nameserver = Nameserver(addr: int, health: Health, expiry: int, rtDelay: int, qId: int, sentTime: int)

  /** The settings of pj_dns_settings that the resolver reads. */
  datatype Settings = Settings(qretrDelay: nat, qretrCount: nat, cacheMaxTtl: nat, goodNsTtl: nat, badNsTtl: nat)

  const MAX_NS := 16  // PJ_DNS_RESOLVER_MAX_NS

  function Entered(ns: Nameserver, health: Health, now: int, st: Settings): Nameserver {
    var secs := match health
      case Probing => (st.qretrCount + 2) * st.qretrDelay / 1000
      case Active => st.goodNsTtl
      case Bad => st.badNsTtl;
    ns.(health := health, expiry := now + 1000 * secs)
  }

  method SetNameserverState(ns: array<Nameserver>, index: nat, health: Health, now: int, st: Settings)
    requires index < ns.Length
    modifies ns
    ensures ns[..] == old(ns[..])[index := Entered(old(ns[index]), health, now, st)]
  {
    ns[index] := Entered(ns[index], health, now, st);
  }

  /** What one scan does to a nameserver: an expired probing one becomes bad, any other
      expired one becomes probing. */
  function Rechecked(ns: Nameserver, now: int, st: Settings): Nameserver {
    if ns.expiry > now then ns
    else if ns.health == Probing then Entered(ns, Bad, now, st)
    else Entered(ns, Probing, now, st)
  }

  /** m is the first of the quickest active nameservers; -1 if none is active. */
  ghost predicate IsQuickest(nss: seq<Nameserver>, m: int) {
    -1 <= m < |nss| &&
    (m == -1 ==> forall i :: 0 <= i < |nss| ==> nss[i].health != Active) &&
    (m != -1 ==> nss[m].health == Active &&
                 (forall i :: 0 <= i < |nss| && nss[i].health == Active ==> nss[m].rtDelay <= nss[i].rtDelay) &&
                 (forall i :: 0 <= i < m && nss[i].health == Active ==> nss[m].rtDelay < nss[i].rtDelay))
  }

  function Quickest(nss: seq<Nameserver>): (m: int)
    ensures IsQuickest(nss, m)
  {
    if nss == [] then -1
    else
      var n := |nss| - 1;
      var m := Quickest(nss[..n]);
      assert forall i :: 0 <= i < n ==> nss[..n][i] == nss[i];
      if nss[n].health == Active && (m == -1 || nss[n].rtDelay < nss[m].rtDelay) then n else m
  }

  /** The indices below i, other than m, of nameservers in the probing state, in order. */
  function ProbingBelow(nss: seq<Nameserver>, m: int, i: nat): (s: seq<nat>)
    requires i <= |nss|
  {
    if i == 0 then []
    else
      var s := ProbingBelow(nss, m, i - 1);
      if i - 1 != m && nss[i - 1].health == Probing then s + [i - 1] else s
  }

  lemma ProbingBelowIsExact(nss: seq<Nameserver>, m: int, i: nat)
    requires i <= |nss|
    ensures var s := ProbingBelow(nss, m, i);
            && (forall k :: 0 <= k < |s| ==> s[k] < i && s[k] != m && nss[s[k]].health == Probing)
            && (forall j :: 0 <= j < i && j != m && nss[j].health == Probing ==> j in s)
            && (forall k, l :: 0 <= k < l < |s| ==> s[k] < s[l])
            && |s| <= i - (if 0 <= m < i then 1 else 0)
  {
  }

  lemma ProbingBelowDependsOnPrefix(nss: seq<Nameserver>, nss': seq<Nameserver>, m: int, i: nat)
    requires i <= |nss| && i <= |nss'|
    requires forall j :: 0 <= j < i && j != m ==> nss[j] == nss'[j]
    ensures ProbingBelow(nss, m, i) == ProbingBelow(nss', m, i)
  {
  }

  /** The scan stops once the result array is full; with the array no shorter than the
      nameserver table that can only leave out the quickest one, when it is the last. */
  predicate LastNotScanned(nss: seq<Nameserver>, m: int, max: nat, now: int, st: Settings) {
    |nss| == max && m == max - 1 && 0 <= m &&
    forall i :: 0 <= i < m ==> Rechecked(nss[i], now, st).health == Probing
  }

  function RecheckedAll(nss: seq<Nameserver>, m: int, max: nat, now: int, st: Settings): (r: seq<Nameserver>)
    ensures |r| == |nss|
  {
    seq(|nss|, i requires 0 <= i < |nss| =>
      if i == m && LastNotScanned(nss, m, max, now, st) then nss[i] else Rechecked(nss[i], now, st))
  }

  function RecheckedBelow(nss: seq<Nameserver>, n: nat, now: int, st: Settings): (r: seq<Nameserver>)
    ensures |r| == |nss|
  {
    seq(|nss|, i requires 0 <= i < |nss| => if i < n then Rechecked(nss[i], now, st) else nss[i])
  }

  datatype Selection = Selection(nss: seq<Nameserver>, servers: seq<nat>)

  /** The whole effect of select_nameservers. */
  function Select(nss: seq<Nameserver>, max: nat, now: int, st: Settings): Selection {
    var m := Quickest(nss);
    var nss' := RecheckedAll(nss, m, max, now, st);
    Selection(nss', (if m == -1 then [] else [m]) + ProbingBelow(nss', m, |nss'|))
  }

  /** The first loop of select_nameservers. */
  method FindQuickest(ns: array<Nameserver>) returns (min: int)
    ensures min == Quickest(ns[..])
  {
    min := -1;
    var i := 0;
    while i < ns.Length
      invariant 0 <= i <= ns.Length
      invariant IsQuickest(ns[..i], min)
    {
      assert ns[..i + 1][..i] == ns[..i];
      if ns[i].health == Active && (min == -1 || ns[i].rtDelay < ns[min].rtDelay) {
        min := i;
      }
      i := i + 1;
    }
    assert ns[..i] == ns[..];
    ghost var q := Quickest(ns[..]);
    assert min != -1 && q != -1 ==> ns[..][min].rtDelay <= ns[..][q].rtDelay && ns[..][q].rtDelay <= ns[..][min].rtDelay;
  }

  /** select_nameservers: false is PJLIB_UTIL_EDNSNONS. */
  method SelectNameservers(ns: array<Nameserver>, max: nat, now: int, st: Settings) returns (ok: bool, servers: seq<nat>)
    requires 0 < max && ns.Length <= max
    modifies ns
    ensures ok <==> ns.Length > 0
    ensures !ok ==> servers == [] && ns[..] == old(ns[..])
    ensures ok ==> Select(old(ns[..]), max, now, st) == Selection(ns[..], servers)
  {
    servers := [];
    if ns.Length == 0 {
      return false, servers;
    }
    ghost var was := ns[..];
    var min := FindQuickest(ns);
    if min != -1 {
      servers := [min];
    }
    ghost var head, cur := servers, was;
    var i := 0;
    while i < ns.Length && |servers| < max
      invariant 0 <= i <= ns.Length == |was|
      invariant ns[..] == cur == RecheckedBelow(was, i, now, st)
      invariant servers == head + ProbingBelow(cur, min, i)
      invariant i > 0 ==> |head| + |ProbingBelow(cur, min, i - 1)| < max
    {
      var probe := ScanOne(ns, i, now, st);
      if probe && i != min {
        servers := servers + [i];
      }
      ghost var next := ns[..];
      assert next == cur[i := Rechecked(was[i], now, st)];
      ScanStep(was, cur, next, min, i, now, st);
      cur := next;
      i := i + 1;
    }
    ScanIsComplete(was, cur, min, i, max, now, st);
    ok := true;
  }

  /** One turn of the second loop: whether nameserver i is to be probed. */
  method ScanOne(ns: array<Nameserver>, i: nat, now: int, st: Settings) returns (probe: bool)
    requires i < ns.Length
    modifies ns
    ensures ns[..] == old(ns[..])[i := Rechecked(old(ns[i]), now, st)]
    ensures probe == (ns[i].health == Probing)
  {
    probe := false;
    if ns[i].expiry <= now {
      if ns[i].health == Probing {
        SetNameserverState(ns, i, Bad, now, st);
      } else {
        SetNameserverState(ns, i, Probing, now, st);
        probe := true;
      }
    } else if ns[i].health == Probing {
      probe := true;
    }
  }

  lemma ScanStep(was: seq<Nameserver>, cur: seq<Nameserver>, next: seq<Nameserver>, m: int, i: nat, now: int, st: Settings)
    requires i < |was| && cur == RecheckedBelow(was, i, now, st)
    requires next == cur[i := Rechecked(was[i], now, st)]
    ensures next == RecheckedBelow(was, i + 1, now, st)
    ensures ProbingBelow(next, m, i) == ProbingBelow(cur, m, i)
    ensures ProbingBelow(next, m, i + 1) == ProbingBelow(cur, m, i) + if next[i].health == Probing && i != m then [i] else []
  {
    ProbingBelowDependsOnPrefix(cur, next, m, i);
  }

  /** The state in which the scanning loop stops is the one Select describes. */
  lemma ScanIsComplete(was: seq<Nameserver>, nss: seq<Nameserver>, m: int, i: nat, max: nat, now: int, st: Settings)
    requires |was| == |nss| && i <= |nss| <= max && IsQuickest(was, m)
    requires nss == RecheckedBelow(was, i, now, st)
    requires i < |nss| ==> (if m == -1 then 0 else 1) + |ProbingBelow(nss, m, i)| >= max
    requires i > 0 ==> (if m == -1 then 0 else 1) + |ProbingBelow(nss, m, i - 1)| < max
    ensures nss == RecheckedAll(was, m, max, now, st)
    ensures ProbingBelow(nss, m, i) == ProbingBelow(nss, m, |nss|)
  {
    ProbingBelowIsExact(nss, m, i);
    if i < |nss| {
      assert |nss| == max && m == i == max - 1;
      AllProbingIffFull(nss, m, i);
      assert forall j :: 0 <= j < i ==> nss[j] == Rechecked(was[j], now, st);
      assert LastNotScanned(was, m, max, now, st);
    } else if LastNotScanned(was, m, max, now, st) {
      AllProbingIffFull(nss, m, m);
      assert false;
    }
  }

  lemma AllProbingIffFull(nss: seq<Nameserver>, m: int, i: nat)
    requires i <= |nss| && (m < 0 || i <= m)
    ensures |ProbingBelow(nss, m, i)| >= i <==> forall j :: 0 <= j < i ==> nss[j].health == Probing
  {
    if i > 0 {
      ProbingBelowIsExact(nss, m, i - 1);
      AllProbingIffFull(nss, m, i - 1);
    }
  }

  /** What select_nameservers promises: distinct indices; first the quickest nameserver
      that was active on entry, if there is one; and, besides it, exactly the nameservers
      the scan leaves in the probing state. */
  lemma SelectionIsRight(nss: seq<Nameserver>, max: nat, now: int, st: Settings)
    requires |nss| <= max
    ensures var m, sel := Quickest(nss), Select(nss, max, now, st);
            && (forall k, l :: 0 <= k < l < |sel.servers| ==> sel.servers[k] != sel.servers[l])
            && (m != -1 ==> sel.servers != [] && sel.servers[0] == m)
            && (m == -1 <==> forall i :: 0 <= i < |nss| ==> nss[i].health != Active)
            && |sel.nss| == |nss| && |sel.servers| <= |nss|
            && (forall i :: 0 <= i < |nss| ==>
                 (i in sel.servers <==> i == m || Rechecked(nss[i], now, st).health == Probing))
            && (forall i :: 0 <= i < |nss| && i != m ==> sel.nss[i] == Rechecked(nss[i], now, st))
  {
    var m, sel := Quickest(nss), Select(nss, max, now, st);
    var p := ProbingBelow(sel.nss, m, |nss|);
    ProbingBelowIsExact(sel.nss, m, |nss|);
    forall i | 0 <= i < |nss|
      ensures i in sel.servers <==> i == m || Rechecked(nss[i], now, st).health == Probing
    {
      if i != m {
        assert i in sel.servers <==> i in p;
      }
    }
  }

  lemma SelectedInRange(nss: seq<Nameserver>, max: nat, now: int, st: Settings)
    ensures forall k :: 0 <= k < |Select(nss, max, now, st).servers| ==> Select(nss, max, now, st).servers[k] < |nss|
  {
    ProbingBelowIsExact(Select(nss, max, now, st).nss, Quickest(nss), |nss|);
  }
}
