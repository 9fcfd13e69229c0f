/** The servers of a service: build_server_entries (srv_resolver.c), on the fixed array of
    targets in the query. */
module SrvTargets {
  import opened DnsTypes

  const MAX_TARGETS := 8     // PJ_DNS_SRV_MAX_ADDR
  const MAX_ADDRESSES := 8   // PJ_DNS_MAX_IP_IN_A_REC
  const MAX_HOSTNAME := 128  // PJ_MAX_HOSTNAME

  datatype Options = Options(fallbackA: bool, fallbackAaaa: bool, aaaa: bool, aaaaOnly: bool)

  datatype Address = V4(bytes: seq<Byte>) | V6(bytes: seq<Byte>)

  /** struct srv_target, without the lookups that it waits for. */
  datatype Target = Target(name: Name, port: nat, priority: nat, weight: nat, sum: nat, addrs: seq<Address>)

  predicate Usable(r: Record) {
    r.rtype == TYPE_SRV && r.rdata.Service? && |r.rdata.target| <= MAX_HOSTNAME
  }

  function FromRecord(r: Record): Target
    requires Usable(r)
  {
    Target.Target(r.rdata.target, r.rdata.port, r.rdata.prio, r.rdata.weight, 0, [])
  }

  /** At most room targets, from the first usable answers. */
  function Collected(ans: seq<Record>, room: nat): (ts: seq<Target>)
    ensures |ts| <= room && |ts| <= |ans|
  {
    if ans == [] || room == 0 then []
    else if Usable(ans[0]) then [FromRecord(ans[0])] + Collected(ans[1..], room - 1)
    else Collected(ans[1..], room)
  }

  /** How many of the first n answers are usable. */
  function UsableAmong(ans: seq<Record>, n: nat): nat
    requires n <= |ans|
  {
    if n == 0 then 0 else UsableAmong(ans, n - 1) + if IsUsable(ans[n - 1]) then 1 else 0
  }

  /** An SRV record whose target fits into a host name buffer. */
  predicate IsUsable(r: Record) {
    r.rtype == 33 && r.rdata.Service? && |r.rdata.target| <= 128
  }

  /** The record names the server. */
  predicate NamesServer(r: Record, t: Target) {
    r.rdata.Service? && t.name == r.rdata.target && t.port == r.rdata.port && t.priority == r.rdata.prio && t.weight == r.rdata.weight && t.addrs == []
  }

  /** Every usable answer is a target in its turn while there is room, and nothing else is. */
  lemma {:induction false} CollectedIs(ans: seq<Record>, room: nat)
    ensures |Collected(ans, room)| == if UsableAmong(ans, |ans|) < room then UsableAmong(ans, |ans|) else room
    ensures forall i :: 0 <= i < |ans| && IsUsable(ans[i]) && UsableAmong(ans, i) < room ==>
      UsableAmong(ans, i) < |Collected(ans, room)| && NamesServer(ans[i], Collected(ans, room)[UsableAmong(ans, i)])
    decreases |ans|
  {
    hide NamesServer, IsUsable, UsableAmong;
    if ans == [] || room == 0 {
      UsableNone(ans);
    } else {
      var u := if IsUsable(ans[0]) then 1 else 0;
      FirstUsable(ans[0]);
      CollectedIs(ans[1..], room - u);
      UsableShift(ans, |ans|);
      forall i | 0 <= i < |ans| && IsUsable(ans[i]) && UsableAmong(ans, i) < room
        ensures UsableAmong(ans, i) < |Collected(ans, room)| && NamesServer(ans[i], Collected(ans, room)[UsableAmong(ans, i)])
      {
        UsableNone(ans);
        if i > 0 {
          UsableShift(ans, i);
          assert ans[i] == ans[1..][i - 1];
        }
      }
    }
  }

  lemma FirstUsable(r: Record)
    ensures Usable(r) <==> IsUsable(r)
    ensures Usable(r) ==> NamesServer(r, FromRecord(r))
  {
  }

  lemma UsableNone(ans: seq<Record>)
    ensures UsableAmong(ans, 0) == 0
  {
  }

  lemma {:induction false} UsableShift(ans: seq<Record>, n: nat)
    requires 0 < n <= |ans|
    ensures UsableAmong(ans, n) == (if IsUsable(ans[0]) then 1 else 0) + UsableAmong(ans[1..], n - 1)
    decreases n
  {
    hide IsUsable;
    if n > 1 {
      UsableShift(ans, n - 1);
      assert ans[n - 1] == ans[1..][n - 2];
    }
  }

  method CollectTargets(srv: array<Target>, ans: seq<Record>) returns (n: nat)
    requires srv.Length == MAX_TARGETS && forall i :: 0 <= i < |ans| ==> RdataFits(ans[i])
    modifies srv
    ensures n == |Collected(ans, MAX_TARGETS)| && srv[..n] == Collected(ans, MAX_TARGETS)
  {
    hide RdataFits, Collected, Usable;
    n := 0;
    var i := 0;
    ghost var whole, done: seq<Target> := Collected(ans, MAX_TARGETS), [];
    assert ans[0..] == ans && done + whole == whole;
    while i < |ans| && n < MAX_TARGETS
      invariant 0 <= i <= |ans| && 0 <= n <= MAX_TARGETS && n == |done| && srv[..n] == done
      invariant whole == done + Collected(ans[i..], MAX_TARGETS - n)
    {
      CollectedStep(ans, i, MAX_TARGETS - n);
      assert RdataFits(ans[i]);
      UsableIs(ans[i]);
      if ans[i].rtype == TYPE_SRV {
        if |ans[i].rdata.target| <= MAX_HOSTNAME {
          srv[n] := FromRecord(ans[i]);
          assert srv[..n + 1] == srv[..n] + [FromRecord(ans[i])];
          TargetsOn(done, [FromRecord(ans[i])], Collected(ans[i + 1..], MAX_TARGETS - n - 1));
          done := done + [FromRecord(ans[i])];
          n := n + 1;
        }
      }
      i := i + 1;
    }
    CollectedAll(ans, i, MAX_TARGETS - n);
    assert done + [] == done;
  }

  lemma TargetsOn(a: seq<Target>, b: seq<Target>, c: seq<Target>)
    ensures a + (b + c) == a + b + c
  {
  }

  lemma CollectedAll(ans: seq<Record>, i: nat, room: nat)
    requires i <= |ans| && (i == |ans| || room == 0)
    ensures Collected(ans[i..], room) == []
  {
  }

  lemma CollectedStep(ans: seq<Record>, i: nat, room: nat)
    requires i < |ans| && room > 0
    ensures Collected(ans[i..], room) ==
      if Usable(ans[i]) then [FromRecord(ans[i])] + Collected(ans[i + 1..], room - 1) else Collected(ans[i + 1..], room)
  {
    hide Usable;
    assert ans[i..][1..] == ans[i + 1..];
  }

  lemma UsableIs(r: Record)
    requires RdataFits(r)
    ensures r.rtype == TYPE_SRV ==> r.rdata.Service?
    ensures Usable(r) <==> r.rtype == TYPE_SRV && |r.rdata.target| <= MAX_HOSTNAME
  {
  }

  // ----- priority -----

  predicate ByPriority(ts: seq<Target>) {
    forall i, j :: 0 <= i < j < |ts| ==> ts[i].priority <= ts[j].priority
  }

  function Swap<T>(s: seq<T>, i: nat, j: nat): (r: seq<T>)
    requires i < |s| && j < |s|
    ensures |r| == |s|
  {
    s[i := s[j]][j := s[i]]
  }

  lemma SwapKeeps<T>(s: seq<T>, i: nat, j: nat)
    requires i < |s| && j < |s|
    ensures multiset(Swap(s, i, j)) == multiset(s)
  {
  }

  method LeastPriority(srv: array<Target>, i: nat, n: nat) returns (min: nat)
    requires i < n <= srv.Length
    ensures i <= min < n && forall b :: i <= b < n ==> srv[min].priority <= srv[b].priority
  {
    min := i;
    var j := i + 1;
    while j < n
      invariant i < j <= n && i <= min < n && forall b :: i <= b < j ==> srv[min].priority <= srv[b].priority
    {
      if srv[j].priority < srv[min].priority {
        min := j;
      }
      j := j + 1;
    }
  }

  /** The first i are in place. */
  ghost predicate Settled(ts: seq<Target>, i: nat) {
    forall a, b :: 0 <= a < i && a < b < |ts| ==> ts[a].priority <= ts[b].priority
  }

  lemma OneMoreSettled(ts: seq<Target>, i: nat, min: nat)
    requires i <= min < |ts| && Settled(ts, i) && forall b :: i <= b < |ts| ==> ts[min].priority <= ts[b].priority
    ensures Settled(Swap(ts, i, min), i + 1)
  {
  }

  /** First pass: selection sort. */
  method SortByPriority(srv: array<Target>, n: nat)
    requires n <= srv.Length
    modifies srv
    ensures ByPriority(srv[..n]) && multiset(srv[..n]) == multiset(old(srv[..n])) && srv[n..] == old(srv[n..])
  {
    var i := 0;
    while i + 1 < n
      invariant 0 <= i && (n > 0 ==> i < n) && Settled(srv[..n], i)
      invariant multiset(srv[..n]) == multiset(old(srv[..n])) && srv[n..] == old(srv[n..])
    {
      hide Settled;
      var min := LeastPriority(srv, i, n);
      ghost var was := srv[..n];
      OneMoreSettled(was, i, min);
      SwapKeeps(was, i, min);
      srv[i], srv[min] := srv[min], srv[i];
      assert srv[..n] == Swap(was, i, min);
      i := i + 1;
    }
  }

  // ----- weight -----

  function Sum(ws: seq<nat>): nat {
    if ws == [] then 0 else ws[0] + Sum(ws[1..])
  }

  /** The first server whose running sum is at least r. */
  function Drawn(ws: seq<nat>, r: nat): (j: nat)
    requires ws != [] && r <= Sum(ws)
    ensures j < |ws|
  {
    if ws[0] >= r || |ws| == 1 then 0 else 1 + Drawn(ws[1..], r - ws[0])
  }

  /** Which draws select which server. */
  lemma {:induction false} DrawnIs(ws: seq<nat>, r: nat, j: nat)
    requires j < |ws| && r <= Sum(ws)
    ensures Drawn(ws, r) == j <==> (j == 0 || Sum(ws[..j]) < r) && r <= Sum(ws[..j + 1])
    decreases |ws|
  {
    assert ws[..j + 1][1..] == ws[1..][..j];
    if j > 0 {
      assert ws[..j][1..] == ws[1..][..j - 1];
      if ws[0] < r && |ws| > 1 {
        DrawnIs(ws[1..], r - ws[0], j - 1);
        assert ws[1..][..j - 1 + 1] == ws[1..][..j];
        assert j == 1 ==> Sum(ws[..1]) == ws[0];
      }
    } else {
      assert ws[..1] == [ws[0]];
    }
  }

  lemma {:induction false} SumUpTo(ws: seq<nat>, j: nat)
    requires j < |ws|
    ensures Sum(ws[..j + 1]) == Sum(ws[..j]) + ws[j] && Sum(ws[..j + 1]) <= Sum(ws)
    decreases |ws|
  {
    assert ws[..j + 1][1..] == ws[1..][..j];
    if j > 0 {
      SumUpTo(ws[1..], j - 1);
      assert ws[..j][1..] == ws[1..][..j - 1];
      assert ws[1..][..j - 1 + 1] == ws[1..][..j];
    } else {
      assert ws[..0] == [] && ws[..1] == [ws[0]];
    }
  }

  lemma {:induction false} IntervalSize(s: set<nat>, lo: nat, hi: nat)
    requires lo <= hi && forall r: nat :: r in s <==> lo <= r < hi
    ensures |s| == hi - lo
    decreases hi - lo
  {
    if lo == hi {
      assert s == {};
    } else {
      IntervalSize(s - {hi - 1}, lo, hi - 1);
    }
  }

  /** The values 0..sum of a draw that select server j. */
  ghost function DrawsFor(ws: seq<nat>, j: nat): set<nat>
    requires ws != []
  {
    set r: nat | r <= Sum(ws) && Drawn(ws, r) == j
  }

  /** Each server is selected by exactly as many values as its weight says, the first by one
      more. */
  lemma DrawsByWeight(ws: seq<nat>, j: nat)
    requires j < |ws|
    ensures |DrawsFor(ws, j)| == ws[j] + if j == 0 then 1 else 0
  {
    hide Sum, Drawn;
    SumUpTo(ws, j);
    var lo, hi := if j == 0 then 0 else Sum(ws[..j]) + 1, Sum(ws[..j + 1]) + 1;
    forall r: nat ensures r in DrawsFor(ws, j) <==> lo <= r < hi {
      if r <= Sum(ws) {
        DrawnIs(ws, r, j);
      }
    }
    SumOfNothing(ws);
    IntervalSize(DrawsFor(ws, j), lo, hi);
  }

  lemma SumOfNothing(ws: seq<nat>)
    ensures Sum(ws[..0]) == 0
  {
  }

  function Weights(ts: seq<Target>): (ws: seq<nat>)
    ensures |ws| == |ts|
  {
    seq(|ts|, i requires 0 <= i < |ts| => ts[i].weight)
  }

  /** How many servers from the first on share its priority. */
  function GroupSize(ts: seq<Target>): (n: nat)
    ensures n <= |ts| && (ts != [] ==> n > 0)
    ensures forall i :: 0 <= i < n ==> ts[i].priority == ts[0].priority
    ensures 0 < n < |ts| ==> ts[n].priority != ts[0].priority
  {
    if |ts| <= 1 then |ts|
    else if ts[1].priority != ts[0].priority then 1
    else 1 + GroupSize(ts[1..])
  }

  /** The server for the first place, given the random number rand. */
  function Choice(ts: seq<Target>, rand: nat): (j: nat)
    requires ts != []
    ensures j < GroupSize(ts)
  {
    var ws := Weights(ts[..GroupSize(ts)]);
    Drawn(ws, rand % (Sum(ws) + 1))
  }

  function Chosen(ts: seq<Target>, rand: nat): (r: seq<Target>)
    requires ts != []
    ensures |r| == |ts|
  {
    Swap(ts, 0, Choice(ts, rand))
  }

  /** Every place in turn is given to a server drawn from those of its priority. */
  function Arranged(ts: seq<Target>, rands: seq<nat>): (r: seq<Target>)
    requires |rands| >= |ts|
    ensures |r| == |ts|
    decreases |ts|
  {
    if ts == [] then []
    else
      var c := Chosen(ts, rands[0]);
      [c[0]] + Arranged(c[1..], rands[1..])
  }

  /** The first place goes to server j of the highest priority exactly when the draw lies in the
      interval of its weight, above the weights before it; the server that had the first place
      takes the place of j, and the rest is arranged alike. */
  lemma PlacedByDraw(ts: seq<Target>, rands: seq<nat>, j: nat)
    requires ts != [] && |rands| >= |ts| && j < GroupSize(ts)
    requires var ws := Weights(ts[..GroupSize(ts)]);
             var r := rands[0] % (Sum(ws) + 1);
             (j == 0 || Sum(ws[..j]) < r) && r <= Sum(ws[..j + 1])
    ensures Arranged(ts, rands) == [ts[j]] + Arranged(ts[j := ts[0]][1..], rands[1..])
  {
    hide Choice, Sum, GroupSize, Weights;
    ChoiceByInterval(ts, rands[0], j);
    assert Swap(ts, 0, j)[1..] == ts[j := ts[0]][1..];
  }

  lemma ChoiceByInterval(ts: seq<Target>, rand: nat, j: nat)
    requires ts != [] && j < GroupSize(ts)
    requires var ws := Weights(ts[..GroupSize(ts)]);
             var r := rand % (Sum(ws) + 1);
             (j == 0 || Sum(ws[..j]) < r) && r <= Sum(ws[..j + 1])
    ensures Choice(ts, rand) == j
  {
    hide Drawn, Sum, GroupSize;
    var ws := Weights(ts[..GroupSize(ts)]);
    DrawnIs(ws, rand % (Sum(ws) + 1), j);
  }

  lemma ChosenKeeps(ts: seq<Target>, rand: nat)
    requires ts != []
    ensures multiset(Chosen(ts, rand)) == multiset(ts)
    ensures forall i :: 0 <= i < |ts| ==> Chosen(ts, rand)[i].priority == ts[i].priority
  {
    hide Choice;
    SwapKeeps(ts, 0, Choice(ts, rand));
  }

  /** Arranging changes the order only among servers of one priority. */
  lemma {:induction false} ArrangedKeeps(ts: seq<Target>, rands: seq<nat>)
    requires |rands| >= |ts|
    ensures multiset(Arranged(ts, rands)) == multiset(ts)
    ensures forall i :: 0 <= i < |ts| ==> Arranged(ts, rands)[i].priority == ts[i].priority
    decreases |ts|
  {
    hide Chosen;
    if ts != [] {
      var c := Chosen(ts, rands[0]);
      ChosenKeeps(ts, rands[0]);
      ArrangedKeeps(c[1..], rands[1..]);
      assert c == [c[0]] + c[1..];
      var rest := Arranged(c[1..], rands[1..]);
      assert Arranged(ts, rands) == [c[0]] + rest;
      hide Arranged;
      var r := Arranged(ts, rands);
      forall i | 0 <= i < |ts| ensures r[i].priority == ts[i].priority {
        if i > 0 {
          assert r[i] == rest[i - 1] && c[i] == c[1..][i - 1];
        }
      }
    }
  }

  /** The targets apart from the running sums left in them. */
  function Cleared(ts: seq<Target>): (r: seq<Target>)
    ensures |r| == |ts|
  {
    seq(|ts|, i requires 0 <= i < |ts| => ts[i].(sum := 0))
  }

  /** Running sums are set in the first n targets of the group. */
  ghost predicate Summed(ts: seq<Target>, n: nat)
    requires n <= |ts|
  {
    forall k :: 0 <= k < n ==> ts[k].sum == Sum(Weights(ts[..k + 1]))
  }

  lemma {:induction false} SumOfMore(ws: seq<nat>, w: nat)
    ensures Sum(ws + [w]) == Sum(ws) + w
    decreases |ws|
  {
    if ws != [] {
      SumOfMore(ws[1..], w);
      assert (ws + [w])[1..] == ws[1..] + [w];
    }
  }

  lemma WeightsOfMore(ts: seq<Target>, k: nat)
    requires k < |ts|
    ensures Sum(Weights(ts[..k + 1])) == Sum(Weights(ts[..k])) + ts[k].weight
  {
    hide Sum;
    SumOfMore(Weights(ts[..k]), ts[k].weight);
    assert Weights(ts[..k + 1]) == Weights(ts[..k]) + [ts[k].weight];
  }

  lemma WeightsOfCleared(ts: seq<Target>, ts': seq<Target>, k: nat)
    requires Cleared(ts) == Cleared(ts') && k <= |ts|
    ensures |ts'| == |ts| && Weights(ts[..k]) == Weights(ts'[..k]) == Weights(Cleared(ts)[..k])
  {
    assert |Cleared(ts)| == |ts| && |Cleared(ts')| == |ts'|;
    forall i | 0 <= i < |ts| ensures ts[i].weight == ts'[i].weight == Cleared(ts)[i].weight {
      assert Cleared(ts)[i] == Cleared(ts')[i];
    }
  }

  /** One running sum stored. */
  lemma StoredSum(ts: seq<Target>, k: nat, sum: nat)
    requires k < |ts| && Summed(ts, k) && sum == Sum(Weights(ts[..k + 1]))
    ensures var ts' := ts[k := ts[k].(sum := sum)]; Cleared(ts') == Cleared(ts) && Summed(ts', k + 1)
  {
    hide Sum, Weights;
    var ts' := ts[k := ts[k].(sum := sum)];
    assert Cleared(ts') == Cleared(ts);
    forall j | 0 <= j < k + 1 ensures ts'[j].sum == Sum(Weights(ts'[..j + 1])) {
      WeightsOfCleared(ts, ts', j + 1);
    }
  }

  /** The running sums of the servers that share the priority of the first. */
  method RunningSums(srv: array<Target>, i: nat, n: nat) returns (count: nat, sum: nat)
    requires i < n <= srv.Length
    modifies srv
    ensures srv[..i] == old(srv[..i]) && srv[n..] == old(srv[n..]) && Cleared(srv[i..n]) == old(Cleared(srv[i..n]))
    ensures count == GroupSize(Cleared(srv[i..n])) && sum == Sum(Weights(srv[i..n][..count])) && Summed(srv[i..n], count)
  {
    hide Sum, Weights, GroupSize, Cleared, Summed;
    ghost var ks := Cleared(srv[i..n]);
    ghost var was := srv[i..n];
    NothingSummed(was);
    sum := srv[i].weight;
    count := 1;
    WeightsOfMore(was, 0);
    StoredSum(was, 0, sum);
    srv[i] := srv[i].(sum := sum);
    ghost var one := srv[i..n];
    assert one == was[0 := was[0].(sum := sum)];
    WeightsOfCleared(was, one, 1);
    var j := i + 1;
    while j < n && srv[j].priority == srv[i].priority
      invariant i < j <= n && count == j - i && srv[..i] == old(srv[..i]) && srv[n..] == old(srv[n..]) && Cleared(srv[i..n]) == ks
      invariant sum == Sum(Weights(srv[i..n][..count])) && Summed(srv[i..n], count)
      invariant forall k :: i <= k < j ==> srv[k].priority == srv[i].priority
    {
      was := srv[i..n];
      WeightsOfMore(was, count);
      sum := sum + srv[j].weight;
      StoredSum(was, count, sum);
      srv[j] := srv[j].(sum := sum);
      ghost var now := srv[i..n];
      assert now == was[count := was[count].(sum := sum)];
      WeightsOfCleared(was, now, count + 1);
      j := j + 1;
      count := count + 1;
    }
    GroupEnds(srv[i..n], count);
  }

  lemma NothingSummed(ts: seq<Target>)
    requires ts != []
    ensures Summed(ts, 0) && Sum(Weights(ts[..0])) == 0
  {
  }

  lemma {:induction false} GroupEnds(ts: seq<Target>, n: nat)
    requires 0 < n <= |ts| && (forall k :: 0 <= k < n ==> ts[k].priority == ts[0].priority) && (n < |ts| ==> ts[n].priority != ts[0].priority)
    ensures GroupSize(Cleared(ts)) == n
    decreases n
  {
    if n > 1 {
      GroupEnds(ts[1..], n - 1);
      assert Cleared(ts)[1..] == Cleared(ts[1..]);
    }
  }

  /** The loop that selects a server by the running sums. */
  method DrawServer(srv: array<Target>, i: nat, n: nat, count: nat, r: nat) returns (j: nat)
    requires 0 < count && i + count <= n <= srv.Length && Summed(srv[i..n], count) && r <= Sum(Weights(srv[i..n][..count]))
    ensures i <= j < i + count && j - i == Drawn(Weights(srv[i..n][..count]), r)
  {
    hide Sum, Drawn;
    ghost var ts := srv[i..n];
    ghost var ws := Weights(ts[..count]);
    assert ts[..count] == ts[..count - 1 + 1];
    j := i;
    while srv[j].sum < r
      invariant i <= j < i + count && (j > i ==> ts[j - 1 - i].sum < r)
      decreases i + count - j
    {
      assert srv[j].sum == ts[j - i].sum == Sum(Weights(ts[..j - i + 1]));
      j := j + 1;
    }
    ghost var k := j - i;
    assert ws[..k + 1] == Weights(ts[..k + 1]) && (k > 0 ==> ws[..k] == Weights(ts[..k - 1 + 1]));
    DrawnIs(ws, r, k);
  }

  lemma ChoiceIs(ts: seq<Target>, rand: nat, count: nat, j: nat)
    requires ts != [] && count == GroupSize(Cleared(ts))
    requires count > 1 ==> var ws := Weights(ts[..count]); j == Drawn(ws, rand % (Sum(ws) + 1))
    requires count == 1 ==> j == 0
    ensures Choice(Cleared(ts), rand) == j && j < |ts| && Chosen(Cleared(ts), rand) == Cleared(Swap(ts, 0, j))
  {
    hide GroupSize, Sum, Drawn, Weights;
    WeightsOfCleared(ts, ts, count);
  }

  lemma ArrangedStep(ts: seq<Target>, rands: seq<nat>)
    requires ts != [] && |rands| >= |ts|
    ensures var c := Chosen(ts, rands[0]); Arranged(ts, rands) == [c[0]] + Arranged(c[1..], rands[1..])
  {
    hide Chosen;
  }

  lemma ClearedParts(a: seq<Target>, b: seq<Target>)
    ensures Cleared(a + b) == Cleared(a) + Cleared(b)
  {
  }

  /** Place i goes to a server of the same priority. */
  method DrawPlace(srv: array<Target>, i: nat, n: nat, rand: nat)
    requires i < n <= srv.Length
    modifies srv
    ensures srv[..i] == old(srv[..i]) && srv[n..] == old(srv[n..])
    ensures Cleared(srv[i..n]) == Chosen(old(Cleared(srv[i..n])), rand)
  {
    hide Cleared, Chosen, Sum, Drawn, Weights, GroupSize, Summed, Swap;
    var count, sum := RunningSums(srv, i, n);
    ghost var ts := srv[i..n];
    var j := i;
    if count > 1 {
      j := DrawServer(srv, i, n, count, rand % (sum + 1));
    }
    ChoiceIs(ts, rand, count, j - i);
    srv[i], srv[j] := srv[j], srv[i];
    SwapIs(ts, srv[i..n], j - i);
  }

  lemma ClearedAt(srv: seq<Target>, i: nat)
    requires i < |srv|
    ensures Cleared(srv[i..])[1..] == Cleared(srv[i + 1..])
    ensures Cleared(srv[..i + 1]) == Cleared(srv[..i]) + [Cleared(srv[i..])[0]]
  {
    assert srv[i..][1..] == srv[i + 1..] && srv[..i + 1] == srv[..i] + [srv[i]];
  }

  lemma ArrangedOn(whole: seq<Target>, done: seq<Target>, before: seq<Target>, c: seq<Target>, rands: seq<nat>)
    requires before != [] && |rands| >= |before| && c == Chosen(before, rands[0]) && whole == done + Arranged(before, rands)
    ensures whole == done + [c[0]] + Arranged(c[1..], rands[1..])
  {
    hide Chosen, Arranged;
    ArrangedStep(before, rands);
    TargetsOn(done, [c[0]], Arranged(c[1..], rands[1..]));
  }

  /** Second pass: every place in turn, with the random number rands[i] for place i. */
  method ArrangeByWeight(srv: array<Target>, n: nat, rands: seq<nat>)
    requires n <= srv.Length && |rands| >= n
    modifies srv
    ensures Cleared(srv[..n]) == Arranged(old(Cleared(srv[..n])), rands) && srv[n..] == old(srv[n..])
  {
    hide Cleared, Chosen, Arranged;
    ghost var whole := Arranged(Cleared(srv[..n]), rands);
    ghost var done: seq<Target> := [];
    assert srv[..n] == srv[..n][0..] && rands[0..] == rands && done + whole == whole;
    NoneCleared();
    var i := 0;
    while i < n
      invariant 0 <= i <= n && srv[n..] == old(srv[n..]) && done == Cleared(srv[..n][..i])
      invariant whole == done + Arranged(Cleared(srv[..n][i..]), rands[i..])
    {
      ghost var before := Cleared(srv[i..n]);
      assert srv[..n][i..] == srv[i..n] && srv[..n][..i] == srv[..i];
      DrawPlace(srv, i, n, rands[i]);
      assert srv[..n][i..] == srv[i..n] && srv[..n][..i] == srv[..i];
      ArrangedOn(whole, done, before, Cleared(srv[i..n]), rands[i..]);
      ClearedAt(srv[..n], i);
      assert rands[i..][1..] == rands[i + 1..];
      done := done + [Cleared(srv[i..n])[0]];
      i := i + 1;
    }
    assert srv[..n][n..] == [] && srv[..n][..n] == srv[..n];
    NoneArranged(rands[n..]);
    assert done + [] == done;
  }

  lemma NoneCleared()
    ensures Cleared([]) == []
  {
  }

  lemma NoneArranged(rands: seq<nat>)
    ensures Arranged(Cleared([]), rands) == []
  {
  }

  lemma SwapIs(ts: seq<Target>, ts': seq<Target>, j: nat)
    requires j < |ts| && |ts'| == |ts| && ts' == ts[0 := ts[j]][j := ts[0]]
    ensures ts' == Swap(ts, 0, j)
  {
  }
}
