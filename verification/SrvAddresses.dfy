/** The addresses that come with the servers, in the additional section or as a literal target
    name, and build_server_entries as a whole (srv_resolver.c). */
module SrvAddresses {
  import opened DnsTypes
  import opened SrvTargets

  /** Reads a name as a literal address: pj_inet_pton for one family. */
  type Literal = Name -> Option<seq<Byte>>

  predicate Wanted(o: Options, r: Record) {
    r.rdata.Address? && ((r.rtype == TYPE_A && !o.aaaaOnly) || (r.rtype == TYPE_AAAA && o.aaaa))
  }

  function AddressOf(r: Record): Address
    requires r.rdata.Address?
  {
    if r.rtype == TYPE_A then V4(r.rdata.bytes) else V6(r.rdata.bytes)
  }

  predicate Takes(t: Target, name: Name) {
    EqualFold(name, t.name) && |t.addrs| < MAX_ADDRESSES
  }

  function WithAddress(t: Target, a: Address): Target {
    t.(addrs := t.addrs + [a])
  }

  /** The address goes to the first server of that name that has room. */
  function Added(ts: seq<Target>, name: Name, a: Address): (r: seq<Target>)
    ensures |r| == |ts|
  {
    if ts == [] then []
    else if Takes(ts[0], name) then [WithAddress(ts[0], a)] + ts[1..]
    else [ts[0]] + Added(ts[1..], name, a)
  }

  function AddedRecord(o: Options, ts: seq<Target>, r: Record): (ts': seq<Target>)
    ensures |ts'| == |ts|
  {
    if Wanted(o, r) then Added(ts, r.name, AddressOf(r)) else ts
  }

  function Filled(o: Options, ts: seq<Target>, arr: seq<Record>): (r: seq<Target>)
    ensures |r| == |ts|
    decreases |arr|
  {
    if arr == [] then ts else Filled(o, AddedRecord(o, ts, arr[0]), arr[1..])
  }

  function WithLiteral(o: Options, t: Target, v4: Literal, v6: Literal): Target {
    if t.addrs != [] then t
    else if !o.aaaaOnly && v4(t.name).Some? then WithAddress(t, V4(v4(t.name).value))
    else if o.aaaa && v6(t.name).Some? then WithAddress(t, V6(v6(t.name).value))
    else t
  }

  function WithLiterals(o: Options, ts: seq<Target>, v4: Literal, v6: Literal): (r: seq<Target>)
    ensures |r| == |ts|
  {
    seq(|ts|, i requires 0 <= i < |ts| => WithLiteral(o, ts[i], v4, v6))
  }

  /** How many servers have an address. */
  function Resolved(ts: seq<Target>): (n: nat)
    ensures n <= |ts|
  {
    if ts == [] then 0 else (if ts[0].addrs != [] then 1 else 0) + Resolved(ts[1..])
  }

  lemma {:induction false} ResolvedUpdate(ts: seq<Target>, j: nat, t: Target)
    requires j < |ts|
    ensures Resolved(ts[j := t]) == Resolved(ts) - (if ts[j].addrs != [] then 1 else 0) + (if t.addrs != [] then 1 else 0)
    decreases j
  {
    if j > 0 {
      ResolvedUpdate(ts[1..], j - 1, t);
      assert ts[j := t][1..] == ts[1..][j - 1 := t];
    }
  }

  lemma {:induction false} NoneResolved(ts: seq<Target>)
    requires forall i :: 0 <= i < |ts| ==> ts[i].addrs == []
    ensures Resolved(ts) == 0
    decreases |ts|
  {
    if ts != [] {
      NoneResolved(ts[1..]);
    }
  }

  lemma {:induction false} AddedAt(ts: seq<Target>, name: Name, a: Address, j: nat)
    requires j <= |ts| && (forall i :: 0 <= i < j ==> !Takes(ts[i], name)) && (j < |ts| ==> Takes(ts[j], name))
    ensures Added(ts, name, a) == if j < |ts| then ts[j := WithAddress(ts[j], a)] else ts
    decreases j
  {
    hide Takes, WithAddress;
    if j > 0 {
      AddedAt(ts[1..], name, a, j - 1);
    }
  }

  /** One additional record; resolved counts every server once. */
  method AddAddress(srv: array<Target>, n: nat, name: Name, a: Address, count: nat) returns (resolved: nat)
    requires n <= srv.Length && count == Resolved(srv[..n])
    modifies srv
    ensures srv[..n] == Added(old(srv[..n]), name, a) && srv[n..] == old(srv[n..]) && resolved == Resolved(srv[..n])
  {
    hide Takes, Added, Resolved;
    resolved := count;
    var j := 0;
    while j < n && !Takes(srv[j], name)
      invariant 0 <= j <= n && forall i :: 0 <= i < j ==> !Takes(srv[i], name)
    {
      j := j + 1;
    }
    ghost var was := srv[..n];
    AddedAt(was, name, a, j);
    if j < n {
      ResolvedUpdate(was, j, WithAddress(was[j], a));
      if srv[j].addrs == [] {
        resolved := resolved + 1;
      }
      srv[j] := WithAddress(srv[j], a);
      assert srv[..n] == was[j := WithAddress(was[j], a)];
    }
  }

  lemma FilledStep(o: Options, ts: seq<Target>, arr: seq<Record>)
    ensures arr == [] ==> Filled(o, ts, arr) == ts
    ensures arr != [] ==> Filled(o, ts, arr) == Filled(o, AddedRecord(o, ts, arr[0]), arr[1..])
  {
    hide AddedRecord;
  }

  method FillAddresses(srv: array<Target>, n: nat, o: Options, arr: seq<Record>) returns (resolved: nat)
    requires n <= srv.Length && (forall i :: 0 <= i < n ==> srv[i].addrs == []) && forall i :: 0 <= i < |arr| ==> RdataFits(arr[i])
    modifies srv
    ensures srv[..n] == Filled(o, old(srv[..n]), arr) && srv[n..] == old(srv[n..]) && resolved == Resolved(srv[..n])
  {
    hide Filled, Added, Resolved, RdataFits;
    resolved := 0;
    NoneResolved(srv[..n]);
    ghost var whole := Filled(o, srv[..n], arr);
    assert arr[0..] == arr;
    var i := 0;
    while i < |arr|
      invariant 0 <= i <= |arr| && srv[n..] == old(srv[n..]) && resolved == Resolved(srv[..n])
      invariant whole == Filled(o, srv[..n], arr[i..])
    {
      FilledStep(o, srv[..n], arr[i..]);
      assert arr[i..][1..] == arr[i + 1..];
      AddressFits(arr[i]);
      var r := arr[i];
      if (r.rtype == TYPE_A || r.rtype == TYPE_AAAA) && !((r.rtype == TYPE_A && o.aaaaOnly) || (r.rtype == TYPE_AAAA && !o.aaaa)) {
        resolved := AddAddress(srv, n, r.name, AddressOf(r), resolved);
      }
      i := i + 1;
    }
    FilledStep(o, srv[..n], arr[i..]);
  }

  lemma AddressFits(r: Record)
    requires RdataFits(r)
    ensures r.rtype == TYPE_A || r.rtype == TYPE_AAAA ==> r.rdata.Address?
  {
  }

  method FillLiterals(srv: array<Target>, n: nat, o: Options, v4: Literal, v6: Literal, count: nat) returns (resolved: nat)
    requires n <= srv.Length && count == Resolved(srv[..n])
    modifies srv
    ensures srv[..n] == WithLiterals(o, old(srv[..n]), v4, v6) && srv[n..] == old(srv[n..]) && resolved == Resolved(srv[..n])
  {
    hide Resolved;
    resolved := count;
    ghost var ts := srv[..n];
    var i := 0;
    while i < n
      invariant 0 <= i <= n && srv[n..] == old(srv[n..]) && resolved == Resolved(srv[..n])
      invariant forall k :: 0 <= k < n ==> srv[k] == if k < i then WithLiteral(o, ts[k], v4, v6) else ts[k]
    {
      ghost var was := srv[..n];
      ResolvedUpdate(was, i, WithLiteral(o, was[i], v4, v6));
      if srv[i].addrs == [] {
        if !o.aaaaOnly && v4(srv[i].name).Some? {
          srv[i] := WithAddress(srv[i], V4(v4(srv[i].name).value));
          resolved := resolved + 1;
        } else if o.aaaa && v6(srv[i].name).Some? {
          srv[i] := WithAddress(srv[i], V6(v6(srv[i].name).value));
          resolved := resolved + 1;
        }
      }
      assert srv[..n] == was[i := WithLiteral(o, was[i], v4, v6)];
      i := i + 1;
    }
  }

  // ----- what the addresses are -----

  predicate FromAdditional(o: Options, t: Target, a: Address, arr: seq<Record>) {
    exists i :: 0 <= i < |arr| && Wanted(o, arr[i]) && EqualFold(arr[i].name, t.name) && a == AddressOf(arr[i])
  }

  predicate FromLiteral(o: Options, t: Target, a: Address, v4: Literal, v6: Literal) {
    (!o.aaaaOnly && v4(t.name).Some? && a == V4(v4(t.name).value)) || (o.aaaa && v6(t.name).Some? && a == V6(v6(t.name).value))
  }

  predicate KnownAddresses(o: Options, t: Target, arr: seq<Record>, v4: Literal, v6: Literal) {
    forall k :: 0 <= k < |t.addrs| ==> FromAdditional(o, t, t.addrs[k], arr) || FromLiteral(o, t, t.addrs[k], v4, v6)
  }

  /** The server is the same but for its addresses. */
  predicate SameServer(t: Target, t': Target) {
    t'.(addrs := t.addrs) == t
  }

  lemma {:induction false} AddedIs(ts: seq<Target>, name: Name, a: Address, i: nat)
    requires i < |ts|
    ensures Added(ts, name, a)[i] == ts[i] || (EqualFold(name, ts[i].name) && |ts[i].addrs| < MAX_ADDRESSES && Added(ts, name, a)[i] == WithAddress(ts[i], a))
    decreases i
  {
    hide EqualFold;
    if i > 0 && !Takes(ts[0], name) {
      AddedIs(ts[1..], name, a, i - 1);
    }
  }

  /** The addresses held by the servers of a name, one server after the other. */
  function HeldFor(ts: seq<Target>, name: Name): seq<Address> {
    if ts == [] then [] else (if EqualFold(ts[0].name, name) then ts[0].addrs else []) + HeldFor(ts[1..], name)
  }

  /** The wanted addresses that a section has for a name, in order. */
  function GivenFor(o: Options, name: Name, arr: seq<Record>): seq<Address> {
    if arr == [] then []
    else (if Gives(o, arr[0], name) then [GivenAddress(arr[0])] else []) + GivenFor(o, name, arr[1..])
  }

  /** An A record counts unless only AAAA is asked for, an AAAA record only if it is. */
  predicate Gives(o: Options, r: Record, name: Name) {
    r.rdata.Address? && EqualFold(r.name, name) && ((r.rtype == 1 && !o.aaaaOnly) || (r.rtype == 28 && o.aaaa))
  }

  function GivenAddress(r: Record): Address
    requires r.rdata.Address?
  {
    if r.rtype == 28 then V6(r.rdata.bytes) else V4(r.rdata.bytes)
  }

  lemma GivesIs(o: Options, r: Record, name: Name)
    ensures Gives(o, r, name) <==> Wanted(o, r) && EqualFold(r.name, name)
    ensures Wanted(o, r) ==> r.rdata.Address? && GivenAddress(r) == AddressOf(r)
  {
    hide EqualFold;
  }

  function RoomFor(ts: seq<Target>, name: Name): nat {
    if ts == [] then 0 else (if EqualFold(ts[0].name, name) then 8 else 0) + RoomFor(ts[1..], name)
  }

  /** A server of the name has addresses only if those before it are full. */
  predicate Packed(ts: seq<Target>, name: Name) {
    && (forall i :: 0 <= i < |ts| ==> |ts[i].addrs| <= 8)
    && forall i, j :: 0 <= i < j < |ts| && EqualFold(ts[i].name, name) && EqualFold(ts[j].name, name) && ts[j].addrs != [] ==> |ts[i].addrs| == 8
  }

  /** The first max of a sequence. */
  function Upto(a: seq<Address>, max: nat): seq<Address> {
    if |a| <= max then a else a[..max]
  }

  lemma PackedRest(ts: seq<Target>, name: Name)
    requires Packed(ts, name) && ts != []
    ensures Packed(ts[1..], name) && |ts[0].addrs| <= 8
    ensures EqualFold(ts[0].name, name) && |ts[0].addrs| < 8 ==> forall j :: 0 < j < |ts| && EqualFold(ts[j].name, name) ==> ts[j].addrs == []
  {
    hide EqualFold;
    forall i, j | 0 <= i < j < |ts[1..]| && EqualFold(ts[1..][i].name, name) && EqualFold(ts[1..][j].name, name) && ts[1..][j].addrs != []
      ensures |ts[1..][i].addrs| == 8
    {
      assert ts[1..][i] == ts[i + 1] && ts[1..][j] == ts[j + 1];
    }
  }

  lemma {:induction false} NoneHeld(ts: seq<Target>, name: Name)
    requires forall j :: 0 <= j < |ts| && EqualFold(ts[j].name, name) ==> ts[j].addrs == []
    ensures HeldFor(ts, name) == []
    decreases |ts|
  {
    hide EqualFold;
    if ts != [] {
      NoneHeld(ts[1..], name);
    }
  }

  /** One more address for the name goes behind those that its servers hold, if there is room. */
  lemma {:induction false} AddedHeld(ts: seq<Target>, name: Name, x: Name, a: Address)
    requires Packed(ts, name)
    ensures HeldFor(Added(ts, x, a), name) ==
            if EqualFold(x, name) && |HeldFor(ts, name)| < RoomFor(ts, name) then HeldFor(ts, name) + [a] else HeldFor(ts, name)
    ensures |HeldFor(ts, name)| <= RoomFor(ts, name) && RoomFor(Added(ts, x, a), name) == RoomFor(ts, name)
    decreases |ts|
  {
    hide Packed;
    if ts != [] {
      PackedRest(ts, name);
      AddedHeld(ts[1..], name, x, a);
      AddedFirst(ts, name, x, a);
    }
  }

  /** The step of AddedHeld at the first server. */
  lemma AddedFirst(ts: seq<Target>, name: Name, x: Name, a: Address)
    requires ts != [] && |ts[0].addrs| <= 8
    requires EqualFold(ts[0].name, name) && |ts[0].addrs| < 8 ==> forall j :: 0 < j < |ts| && EqualFold(ts[j].name, name) ==> ts[j].addrs == []
    requires var rest := ts[1..];
             && HeldFor(Added(rest, x, a), name) == (if EqualFold(x, name) && |HeldFor(rest, name)| < RoomFor(rest, name) then HeldFor(rest, name) + [a] else HeldFor(rest, name))
             && |HeldFor(rest, name)| <= RoomFor(rest, name) && RoomFor(Added(rest, x, a), name) == RoomFor(rest, name)
    ensures HeldFor(Added(ts, x, a), name) ==
            if EqualFold(x, name) && |HeldFor(ts, name)| < RoomFor(ts, name) then HeldFor(ts, name) + [a] else HeldFor(ts, name)
    ensures |HeldFor(ts, name)| <= RoomFor(ts, name) && RoomFor(Added(ts, x, a), name) == RoomFor(ts, name)
  {
    var t, rest := ts[0], ts[1..];
    if EqualFold(t.name, name) && |t.addrs| < 8 {
      NoneHeld(rest, name);
    }
    SameName(x, t.name, name);
    hide EqualFold;
    if Takes(t, x) {
      assert ([WithAddress(t, a)] + rest)[1..] == rest;
      assert EqualFold(t.name, name) ==> t.addrs + [a] + [] == t.addrs + [] + [a];
    } else {
      assert ([t] + Added(rest, x, a))[1..] == Added(rest, x, a);
      assert EqualFold(t.name, name) ==> t.addrs + (HeldFor(rest, name) + [a]) == t.addrs + HeldFor(rest, name) + [a];
      assert [] + HeldFor(rest, name) == HeldFor(rest, name);
    }
  }

  lemma SameName(x: Name, y: Name, z: Name)
    ensures EqualFold(x, y) ==> (EqualFold(x, z) <==> EqualFold(y, z))
    ensures EqualFold(x, z) && EqualFold(y, z) ==> EqualFold(x, y)
  {
  }

  lemma PackedFirst(ts: seq<Target>, name: Name)
    requires ts != [] && Packed(ts[1..], name) && |ts[0].addrs| <= 8
    requires EqualFold(ts[0].name, name) && |ts[0].addrs| < 8 ==> forall j :: 0 < j < |ts| && EqualFold(ts[j].name, name) ==> ts[j].addrs == []
    ensures Packed(ts, name)
  {
    hide EqualFold;
    forall i | 0 <= i < |ts| ensures |ts[i].addrs| <= 8 {
      if i > 0 { assert ts[i] == ts[1..][i - 1]; }
    }
    forall i, j | 0 <= i < j < |ts| && EqualFold(ts[i].name, name) && EqualFold(ts[j].name, name) && ts[j].addrs != []
      ensures |ts[i].addrs| == 8
    {
      if i > 0 { assert ts[i] == ts[1..][i - 1] && ts[j] == ts[1..][j - 1]; }
    }
  }

  lemma {:induction false} AddedPacked(ts: seq<Target>, name: Name, x: Name, a: Address)
    requires Packed(ts, name)
    ensures Packed(Added(ts, x, a), name)
    decreases |ts|
  {
    hide Packed, EqualFold;
    if ts != [] {
      PackedRest(ts, name);
      AddedPacked(ts[1..], name, x, a);
      var ts' := Added(ts, x, a);
      SameName(x, ts[0].name, name);
      if Takes(ts[0], x) {
        assert ts'[1..] == ts[1..];
        assert forall j :: 0 < j < |ts| ==> ts'[j] == ts[j];
      } else {
        assert ts'[1..] == Added(ts[1..], x, a);
        forall j | 0 < j < |ts| ensures ts'[j] == ts[j] || EqualFold(x, ts[j].name) {
          AddedIs(ts[1..], x, a, j - 1);
        }
        forall j | 0 < j < |ts| && EqualFold(ts[0].name, name) && |ts[0].addrs| < 8 && EqualFold(ts'[j].name, name) ensures ts'[j].addrs == [] {
          AddedIs(ts[1..], x, a, j - 1);
          SameName(x, ts[j].name, name);
        }
      }
      PackedFirst(ts', name);
    }
  }

  /** For every name its servers hold exactly the wanted addresses that the additional section
      has for it, in that order, as far as there is room: eight for each of them. */
  lemma {:induction false} FilledHeld(o: Options, ts: seq<Target>, arr: seq<Record>, name: Name)
    requires Packed(ts, name)
    ensures HeldFor(Filled(o, ts, arr), name) == Upto(HeldFor(ts, name) + GivenFor(o, name, arr), RoomFor(ts, name))
    ensures Packed(Filled(o, ts, arr), name)
    decreases |arr|
  {
    hide Packed, Added, HeldFor, RoomFor, EqualFold, Wanted;
    if arr == [] {
      assert HeldFor(ts, name) + [] == HeldFor(ts, name);
      RoomForAll(ts, name);
    } else {
      var r, ts' := arr[0], AddedRecord(o, ts, arr[0]);
      RoomForAll(ts, name);
      if Wanted(o, r) {
        WantedHasAddress(o, r);
        AddedHeld(ts, name, r.name, AddressOf(r));
        AddedPacked(ts, name, r.name, AddressOf(r));
      }
      FilledHeld(o, ts', arr[1..], name);
      GivenFirst(o, name, arr, HeldFor(ts, name), RoomFor(ts, name));
    }
  }

  lemma RoomForAll(ts: seq<Target>, name: Name)
    requires Packed(ts, name)
    ensures |HeldFor(ts, name)| <= RoomFor(ts, name)
  {
    AddedHeld(ts, name, name, V4([]));
  }

  lemma GivenFirst(o: Options, name: Name, arr: seq<Record>, held: seq<Address>, room: nat)
    requires arr != [] && |held| <= room
    ensures var given := if Wanted(o, arr[0]) && EqualFold(arr[0].name, name) then [AddressOf(arr[0])] else [];
            var held' := if given != [] && |held| < room then held + given else held;
            Upto(held' + GivenFor(o, name, arr[1..]), room) == Upto(held + GivenFor(o, name, arr), room)
  {
    hide EqualFold, Wanted, Gives;
    GivesIs(o, arr[0], name);
    var rest := GivenFor(o, name, arr[1..]);
    if Wanted(o, arr[0]) && EqualFold(arr[0].name, name) {
      WantedHasAddress(o, arr[0]);
      assert held + ([AddressOf(arr[0])] + rest) == held + [AddressOf(arr[0])] + rest;
    } else {
      assert [] + rest == rest;
    }
  }

  /** Literal names come last: a server that has addresses keeps just these, and one that stays
      without has a name that is no literal of a wanted family. */
  lemma LiteralsLast(o: Options, ts: seq<Target>, v4: Literal, v6: Literal, i: nat)
    requires i < |ts|
    ensures var t := WithLiterals(o, ts, v4, v6)[i];
            && (ts[i].addrs != [] ==> t == ts[i]) && (ts[i].addrs == [] ==> |t.addrs| <= 1)
            && (t.addrs == [] ==> (o.aaaaOnly || v4(t.name) == None) && (!o.aaaa || v6(t.name) == None))
            && (forall a :: a in t.addrs && a !in ts[i].addrs ==>
                 if a.V4? then !o.aaaaOnly && v4(t.name) == Some(a.bytes)
                 else o.aaaa && v6(t.name) == Some(a.bytes) && (o.aaaaOnly || v4(t.name) == None))
  {
  }

  /** Servers keep what they are, hold at most eight addresses, and every address that was
      added stands in a wanted additional record of the server's name. */
  lemma {:induction false} FilledFromAdditional(o: Options, ts: seq<Target>, arr: seq<Record>, i: nat)
    requires i < |ts| && |ts[i].addrs| <= MAX_ADDRESSES
    ensures var t := Filled(o, ts, arr)[i];
            && SameServer(ts[i], t) && |t.addrs| <= MAX_ADDRESSES && ts[i].addrs <= t.addrs
            && forall k :: |ts[i].addrs| <= k < |t.addrs| ==> FromAdditional(o, t, t.addrs[k], arr)
    decreases |arr|
  {
    hide EqualFold, Wanted, Added, FromAdditional;
    if arr != [] {
      var ts' := AddedRecord(o, ts, arr[0]);
      if Wanted(o, arr[0]) {
        WantedHasAddress(o, arr[0]);
        AddedIs(ts, arr[0].name, AddressOf(arr[0]), i);
      }
      FilledFromAdditional(o, ts', arr[1..], i);
      var t := Filled(o, ts, arr)[i];
      assert t == Filled(o, ts', arr[1..])[i];
      forall k | |ts[i].addrs| <= k < |t.addrs| ensures FromAdditional(o, t, t.addrs[k], arr) {
        if k < |ts'[i].addrs| {
          FirstRecord(o, t, t.addrs[k], arr);
        } else {
          LaterRecord(o, t, t.addrs[k], arr);
        }
      }
    }
  }

  lemma WantedHasAddress(o: Options, r: Record)
    requires Wanted(o, r)
    ensures r.rdata.Address?
  {
  }

  lemma FirstRecord(o: Options, t: Target, a: Address, arr: seq<Record>)
    requires arr != [] && Wanted(o, arr[0]) && EqualFold(arr[0].name, t.name) && a == AddressOf(arr[0])
    ensures FromAdditional(o, t, a, arr)
  {
    hide EqualFold, Wanted;
  }

  lemma LaterRecord(o: Options, t: Target, a: Address, arr: seq<Record>)
    requires arr != [] && FromAdditional(o, t, a, arr[1..])
    ensures FromAdditional(o, t, a, arr)
  {
    hide EqualFold;
    var i :| 0 <= i < |arr[1..]| && Wanted(o, arr[1..][i]) && EqualFold(arr[1..][i].name, t.name) && a == AddressOf(arr[1..][i]);
    assert arr[i + 1] == arr[1..][i];
  }

  // ----- the whole -----

  lemma {:induction false} CollectedFresh(ans: seq<Record>, room: nat)
    ensures Cleared(Collected(ans, room)) == Collected(ans, room)
    ensures forall i :: 0 <= i < |Collected(ans, room)| ==> Collected(ans, room)[i].addrs == []
    decreases |ans|
  {
    if ans != [] && room > 0 {
      CollectedFresh(ans[1..], if Usable(ans[0]) then room - 1 else room);
      if Usable(ans[0]) {
        ClearedParts([FromRecord(ans[0])], Collected(ans[1..], room - 1));
      }
    }
  }

  lemma PermutedFresh(ts: seq<Target>, us: seq<Target>)
    requires multiset(ts) == multiset(us) && Cleared(us) == us && forall i :: 0 <= i < |us| ==> us[i].addrs == []
    ensures Cleared(ts) == ts && forall i :: 0 <= i < |ts| ==> ts[i].addrs == []
  {
    forall i | 0 <= i < |ts| ensures ts[i].addrs == [] && ts[i].sum == 0 {
      assert ts[i] in multiset(us);
      var j :| 0 <= j < |us| && us[j] == ts[i];
      assert us[j] == Cleared(us)[j];
    }
    assert Cleared(ts) == ts;
  }

  lemma ClearedFresh(ts: seq<Target>)
    requires forall i :: 0 <= i < |Cleared(ts)| ==> Cleared(ts)[i].addrs == []
    ensures forall i :: 0 <= i < |ts| ==> ts[i].addrs == []
  {
    forall i | 0 <= i < |ts| ensures ts[i].addrs == [] {
      assert Cleared(ts)[i].addrs == [];
    }
  }

  lemma {:induction false} AddedCleared(ts: seq<Target>, name: Name, a: Address)
    ensures Cleared(Added(ts, name, a)) == Added(Cleared(ts), name, a)
    decreases |ts|
  {
    if ts != [] {
      hide EqualFold;
      AddedCleared(ts[1..], name, a);
      assert Cleared(ts)[1..] == Cleared(ts[1..]);
    }
  }

  lemma {:induction false} FilledCleared(o: Options, ts: seq<Target>, arr: seq<Record>)
    ensures Cleared(Filled(o, ts, arr)) == Filled(o, Cleared(ts), arr)
    decreases |arr|
  {
    hide Cleared, Added, Wanted;
    if arr != [] {
      if Wanted(o, arr[0]) {
        WantedHasAddress(o, arr[0]);
        AddedCleared(ts, arr[0].name, AddressOf(arr[0]));
      }
      FilledCleared(o, AddedRecord(o, ts, arr[0]), arr[1..]);
    }
  }

  lemma LiteralsCleared(o: Options, ts: seq<Target>, v4: Literal, v6: Literal)
    ensures Cleared(WithLiterals(o, ts, v4, v6)) == WithLiterals(o, Cleared(ts), v4, v6)
  {
  }

  /** build_server_entries: the usable answers in the order of RFC 2782, each with the addresses
      that are known already; rands are the random numbers by place. */
  method BuildServerEntries(srv: array<Target>, o: Options, ans: seq<Record>, arr: seq<Record>, rands: seq<nat>, v4: Literal, v6: Literal)
    returns (n: nat, resolved: nat, ghost order: seq<Target>)
    requires srv.Length == MAX_TARGETS && |rands| >= MAX_TARGETS
    requires (forall i :: 0 <= i < |ans| ==> RdataFits(ans[i])) && forall i :: 0 <= i < |arr| ==> RdataFits(arr[i])
    modifies srv
    ensures n == |Collected(ans, MAX_TARGETS)| == |order| && resolved == Resolved(srv[..n])
    ensures multiset(order) == multiset(Collected(ans, MAX_TARGETS)) && ByPriority(order)
    ensures Cleared(srv[..n]) == WithLiterals(o, Filled(o, Arranged(order, rands), arr), v4, v6)
  {
    hide Collected, Cleared, Arranged, Filled, WithLiterals, Resolved, RdataFits, ByPriority;
    n := CollectTargets(srv, ans);
    ghost var fresh0 := Collected(ans, MAX_TARGETS);
    CollectedFresh(ans, MAX_TARGETS);
    if n == 0 {
      NothingToBuild(o, arr, rands, v4, v6);
      assert srv[..0] == [];
      return 0, 0, [];
    }
    SortByPriority(srv, n);
    order := srv[..n];
    PermutedFresh(order, fresh0);
    ArrangeByWeight(srv, n, rands);
    ArrangedKeeps(order, rands);
    ArrangedFresh(order, rands);
    ClearedFresh(srv[..n]);
    FilledCleared(o, srv[..n], arr);
    resolved := FillAddresses(srv, n, o, arr);
    LiteralsCleared(o, srv[..n], v4, v6);
    resolved := FillLiterals(srv, n, o, v4, v6, resolved);
  }

  lemma NothingToBuild(o: Options, arr: seq<Record>, rands: seq<nat>, v4: Literal, v6: Literal)
    ensures Cleared([]) == WithLiterals(o, Filled(o, Arranged([], rands), arr), v4, v6) && Resolved([]) == 0 && ByPriority([])
  {
    hide Filled, Cleared, Arranged;
    assert |Filled(o, Arranged([], rands), arr)| == 0;
  }

  lemma ArrangedFresh(ts: seq<Target>, rands: seq<nat>)
    requires |rands| >= |ts| && (forall i :: 0 <= i < |ts| ==> ts[i].addrs == []) && multiset(Arranged(ts, rands)) == multiset(ts)
    ensures forall i :: 0 <= i < |ts| ==> Arranged(ts, rands)[i].addrs == []
  {
    hide Arranged;
    forall i | 0 <= i < |ts| ensures Arranged(ts, rands)[i].addrs == [] {
      assert Arranged(ts, rands)[i] in multiset(ts);
    }
  }

  /** The built list has the usable answers' servers, sorted by priority, with at most eight
      addresses each, every one from an additional record or the name itself. */
  lemma ServersAreRight(o: Options, order: seq<Target>, ans: seq<Record>, arr: seq<Record>, rands: seq<nat>, v4: Literal, v6: Literal, ts: seq<Target>)
    requires |rands| >= |order| && multiset(order) == multiset(Collected(ans, MAX_TARGETS)) && ByPriority(order)
    requires ts == WithLiterals(o, Filled(o, Arranged(order, rands), arr), v4, v6)
    ensures ByPriority(ts) && |ts| == |order|
    ensures multiset(seq(|ts|, i requires 0 <= i < |ts| => ts[i].(addrs := []))) == multiset(Collected(ans, MAX_TARGETS))
    ensures forall i :: 0 <= i < |ts| ==> |ts[i].addrs| <= MAX_ADDRESSES && KnownAddresses(o, ts[i], arr, v4, v6)
  {
    hide Collected, Arranged, Filled, KnownAddresses, WithLiteral;
    var placed := Arranged(order, rands);
    var filled := Filled(o, placed, arr);
    ArrangedKeeps(order, rands);
    CollectedFresh(ans, MAX_TARGETS);
    PermutedFresh(order, Collected(ans, MAX_TARGETS));
    ArrangedFresh(order, rands);
    assert |order| == |Collected(ans, MAX_TARGETS)| by { assert |multiset(order)| == |order|; }
    forall i | 0 <= i < |ts|
      ensures ts[i].(addrs := []) == placed[i] && |ts[i].addrs| <= MAX_ADDRESSES
      ensures KnownAddresses(o, ts[i], arr, v4, v6)
    {
      FilledFromAdditional(o, placed, arr, i);
      LiteralIs(o, placed[i], filled[i], arr, v4, v6);
    }
    assert seq(|ts|, i requires 0 <= i < |ts| => ts[i].(addrs := [])) == placed;
    forall i, j | 0 <= i < j < |ts| ensures ts[i].priority <= ts[j].priority {
      assert ts[i].priority == placed[i].priority == order[i].priority && ts[j].priority == placed[j].priority == order[j].priority;
    }
  }

  lemma LiteralIs(o: Options, p: Target, f: Target, arr: seq<Record>, v4: Literal, v6: Literal)
    requires p.addrs == [] && SameServer(p, f) && |f.addrs| <= MAX_ADDRESSES
    requires forall k :: 0 <= k < |f.addrs| ==> FromAdditional(o, f, f.addrs[k], arr)
    ensures var t := WithLiteral(o, f, v4, v6);
            && t.(addrs := []) == p && |t.addrs| <= MAX_ADDRESSES
            && KnownAddresses(o, t, arr, v4, v6)
  {
    hide FromAdditional;
  }
}
