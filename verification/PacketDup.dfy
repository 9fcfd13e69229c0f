/** pj_dns_packet_dup with its name table (dns.c). */
module PacketDup {
  import opened DnsTypes

  const MAX_NAMES := 16  // PJ_DNS_MAX_NAMES_IN_NAMETABLE

  datatype Named = Named(name: Name, table: seq<Name>)

  function FirstFold(table: seq<Name>, src: Name): (i: nat)
    ensures i <= |table|
    ensures i < |table| ==> EqualFold(table[i], src)
    ensures forall j :: 0 <= j < i ==> !EqualFold(table[j], src)
  {
    if table == [] || EqualFold(table[0], src) then 0 else 1 + FirstFold(table[1..], src)
  }

  /** The name stored for src, and the table afterwards. */
  function Shared(table: seq<Name>, src: Name): Named {
    var i := FirstFold(table, src);
    if i < |table| then Named(table[i], table)
    else Named(src, if |table| < MAX_NAMES then table + [src] else table)
  }

  method ApplyNameTable(table: seq<Name>, src: Name) returns (dst: Name, table': seq<Name>)
    ensures Shared(table, src) == Named(dst, table')
  {
    var i := 0;
    while i < |table| && !EqualFold(table[i], src)
      invariant 0 <= i <= |table|
      invariant forall j :: 0 <= j < i ==> !EqualFold(table[j], src)
    {
      i := i + 1;
    }
    ghost var k := FirstFold(table, src);
    assert !(k < i) && !(i < k);
    if i != |table| {
      return table[i], table;
    }
    dst, table' := src, table;
    if |table'| < MAX_NAMES {
      table' := table' + [dst];
    }
  }

  datatype Questions = Questions(q: seq<Question>, table: seq<Name>)
  datatype Records = Records(rs: seq<Record>, table: seq<Name>)

  function CopyQuestions(qs: seq<Question>, table: seq<Name>): (r: Questions)
    ensures |r.q| == |qs|
  {
    if qs == [] then Questions([], table)
    else
      var n := Shared(table, qs[0].name);
      var rest := CopyQuestions(qs[1..], n.table);
      Questions([qs[0].(name := n.name)] + rest.q, rest.table)
  }

  /** copy_rr: the owner name and an SRV target go through the table, other names are
      duplicated as they are. */
  function CopyRecord(r: Record, table: seq<Name>): (Record, seq<Name>) {
    var n := Shared(table, r.name);
    var r' := r.(name := n.name);
    if r.rtype == TYPE_SRV && r.rdata.Service? then
      var t := Shared(n.table, r.rdata.target);
      (r'.(rdata := r.rdata.(target := t.name)), t.table)
    else (r', n.table)
  }

  function CopyRecords(rs: seq<Record>, table: seq<Name>): (c: Records)
    ensures |c.rs| == |rs|
  {
    if rs == [] then Records([], table)
    else
      var (r, t) := CopyRecord(rs[0], table);
      var rest := CopyRecords(rs[1..], t);
      Records([r] + rest.rs, rest.table)
  }

  /** pj_dns_packet_dup(PJ_DNS_NO_NS | PJ_DNS_NO_AR). */
  function Dup(p: Packet): Packet {
    var q := CopyQuestions(p.q, []);
    var a := CopyRecords(p.ans, q.table);
    Packet(p.id, p.flags, q.q, a.rs, [], [])
  }

  method PacketDup(p: Packet) returns (d: Packet)
    ensures d == Dup(p)
  {
    var q: seq<Question>, ans: seq<Record>, table: seq<Name> := [], [], [];
    for i := 0 to |p.q|
      invariant CopyQuestions(p.q, []) == Questions(q + CopyQuestions(p.q[i..], table).q, CopyQuestions(p.q[i..], table).table)
    {
      assert p.q[i..][0] == p.q[i] && p.q[i..][1..] == p.q[i + 1..];
      var name, table' := ApplyNameTable(table, p.q[i].name);
      q, table := q + [p.q[i].(name := name)], table';
    }
    ghost var t0 := table;
    for i := 0 to |p.ans|
      invariant CopyRecords(p.ans, t0).rs == ans + CopyRecords(p.ans[i..], table).rs
    {
      assert p.ans[i..][0] == p.ans[i] && p.ans[i..][1..] == p.ans[i + 1..];
      var r := p.ans[i];
      var name, table' := ApplyNameTable(table, r.name);
      var r' := r.(name := name);
      if r.rtype == TYPE_SRV && r.rdata.Service? {
        var target, table'' := ApplyNameTable(table', r.rdata.target);
        r', table' := r'.(rdata := r.rdata.(target := target)), table'';
      }
      ans, table := ans + [r'], table';
    }
    d := Packet(p.id, p.flags, q, ans, [], []);
  }

  predicate SameQuestion(a: Question, b: Question) {
    EqualFold(a.name, b.name) && a.(name := b.name) == b
  }

  predicate SameRdata(a: Rdata, b: Rdata) {
    if a.Service? && b.Service? then EqualFold(a.target, b.target) && a.(target := b.target) == b
    else a == b
  }

  predicate SameRecord(a: Record, b: Record) {
    EqualFold(a.name, b.name) && SameRdata(a.rdata, b.rdata) && a.(name := b.name, rdata := b.rdata) == b
  }

  /** The copy has the query and answer sections of the original with names equal up to
      case, and nothing in the other two sections. */
  lemma {:induction false} DupKeepsQueriesAndAnswers(p: Packet)
    ensures var d := Dup(p);
            && d.id == p.id && d.flags == p.flags && |d.q| == |p.q| && |d.ans| == |p.ans|
            && (forall i :: 0 <= i < |p.q| ==> SameQuestion(d.q[i], p.q[i]))
            && (forall i :: 0 <= i < |p.ans| ==> SameRecord(d.ans[i], p.ans[i]))
            && d.ns == [] && d.arr == []
  {
    CopyQuestionsSame(p.q, []);
    CopyRecordsSame(p.ans, CopyQuestions(p.q, []).table);
  }

  lemma {:induction false} CopyQuestionsSame(qs: seq<Question>, table: seq<Name>)
    ensures forall i :: 0 <= i < |qs| ==> SameQuestion(CopyQuestions(qs, table).q[i], qs[i])
  {
    if qs != [] {
      CopyQuestionsSame(qs[1..], Shared(table, qs[0].name).table);
      forall i | 0 <= i < |qs| ensures SameQuestion(CopyQuestions(qs, table).q[i], qs[i]) {
        if i > 0 { assert qs[i] == qs[1..][i - 1]; }
      }
    }
  }

  lemma {:induction false} CopyRecordsSame(rs: seq<Record>, table: seq<Name>)
    ensures forall i :: 0 <= i < |rs| ==> SameRecord(CopyRecords(rs, table).rs[i], rs[i])
  {
    if rs != [] {
      CopyRecordsSame(rs[1..], CopyRecord(rs[0], table).1);
      forall i | 0 <= i < |rs| ensures SameRecord(CopyRecords(rs, table).rs[i], rs[i]) {
        if i > 0 { assert rs[i] == rs[1..][i - 1]; }
      }
    }
  }

  /** No two names of the table differ only by case, and it never outgrows its array. */
  predicate TableWellFormed(table: seq<Name>) {
    |table| <= MAX_NAMES && forall i, j :: 0 <= i < j < |table| ==> !EqualFold(table[i], table[j])
  }

  lemma SharedKeepsTable(table: seq<Name>, src: Name)
    requires TableWellFormed(table)
    ensures TableWellFormed(Shared(table, src).table)
    ensures EqualFold(Shared(table, src).name, src)
  {
  }
}
