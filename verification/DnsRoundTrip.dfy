/** What parsing makes of what print_packet wrote, and exactly when it gives the packet back. */
module DnsRoundTrip {
  import opened DnsTypes
  import opened DnsName
  import opened DnsPrint
  import opened DnsParse
  import opened DnsTable

  predicate GoodQuestion(q: Question) {
    IsName(q.name) && q.qtype < 0x1_0000 && q.qclass == 1
  }

  predicate GoodRecord(r: Record) {
    && IsName(r.name) && KnownType(r.rtype) && r.rclass == 1 && r.ttl < 0x1_0000_0000 && RdataFits(r)
    && (r.rdata.Target? ==> IsName(r.rdata.name))
    && (r.rdata.Service? ==>
         IsName(r.rdata.target) && r.rdata.prio < 0x1_0000 && r.rdata.weight < 0x1_0000 && r.rdata.port < 0x1_0000)
  }

  predicate GoodPacket(p: Packet) {
    && p.id < 0x1_0000 && p.flags < 0x1_0000
    && |p.q| < 0x1_0000 && |p.ans| < 0x1_0000 && |p.ns| < 0x1_0000 && |p.arr| < 0x1_0000
    && (forall i :: 0 <= i < |p.q| ==> GoodQuestion(p.q[i]))
    && (forall i :: 0 <= i < |p.ans| ==> GoodRecord(p.ans[i]))
    && (forall i :: 0 <= i < |p.ns| ==> GoodRecord(p.ns[i]))
    && (forall i :: 0 <= i < |p.arr| ==> GoodRecord(p.arr[i]))
  }

  // ----- what a reader gets -----

  function DataNames(d: Rdata): seq<Name> {
    if d.Target? then [d.name] else if d.Service? then [d.target] else []
  }

  /** The names of a record, in the order in which they are printed. */
  function RecordNames(r: Record): seq<Name> {
    [r.name] + DataNames(r.rdata)
  }

  function QuestionsNames(qs: seq<Question>): seq<Name> {
    if qs == [] then [] else [qs[0].name] + QuestionsNames(qs[1..])
  }

  function RecordsNames(rs: seq<Record>): seq<Name> {
    if rs == [] then [] else RecordNames(rs[0]) + RecordsNames(rs[1..])
  }

  function NamesOf(p: Packet): seq<Name> {
    QuestionsNames(p.q) + RecordsNames(p.ans + p.ns + p.arr)
  }

  function DataAsRead(d: Rdata, names: seq<Name>): Rdata {
    if d.Target? then d.(name := ReadAs(names, d.name)) else if d.Service? then d.(target := ReadAs(names, d.target)) else d
  }

  function RecordAsRead(r: Record, names: seq<Name>): Record {
    r.(name := ReadAs(names, r.name), rdata := DataAsRead(r.rdata, Enter(names, r.name)))
  }

  function QuestionsAsRead(qs: seq<Question>, names: seq<Name>): (s: seq<Question>)
    ensures |s| == |qs|
  {
    if qs == [] then [] else [qs[0].(name := ReadAs(names, qs[0].name))] + QuestionsAsRead(qs[1..], Enter(names, qs[0].name))
  }

  function RecordsAsRead(rs: seq<Record>, names: seq<Name>): (s: seq<Record>)
    ensures |s| == |rs|
  {
    if rs == [] then [] else [RecordAsRead(rs[0], names)] + RecordsAsRead(rs[1..], EnterAll(names, RecordNames(rs[0])))
  }

  /** The packet that a reader gets, but for the data lengths: every name that matches an entry of
      the label table is replaced by the name of the entry. */
  function PacketAsRead(p: Packet): Packet {
    var rs := RecordsAsRead(p.ans + p.ns + p.arr, EnterAll([], QuestionsNames(p.q)));
    var m, n := |p.ans|, |p.ans| + |p.ns|;
    p.(q := QuestionsAsRead(p.q, []), ans := rs[..m], ns := rs[m..n], arr := rs[n..])
  }

  lemma {:induction false} QuestionsUnchanged(qs: seq<Question>, names: seq<Name>)
    ensures QuestionsAsRead(qs, names) == qs <==> Clear(names, QuestionsNames(qs))
    decreases |qs|
  {
    hide ReadAs, Enter;
    if qs != [] {
      QuestionsUnchanged(qs[1..], Enter(names, qs[0].name));
      var all, rest := QuestionsNames(qs), QuestionsAsRead(qs[1..], Enter(names, qs[0].name));
      assert all[0] == qs[0].name && all[1..] == QuestionsNames(qs[1..]);
      assert QuestionsAsRead(qs, names)[0] == qs[0].(name := ReadAs(names, qs[0].name)) && QuestionsAsRead(qs, names)[1..] == rest;
      assert qs == [qs[0]] + qs[1..];
    }
  }

  lemma RecordUnchanged(r: Record, names: seq<Name>)
    ensures RecordAsRead(r, names) == r <==> Clear(names, RecordNames(r))
  {
    hide ReadAs, Enter;
    var all := RecordNames(r);
    assert all[0] == r.name && all[1..] == DataNames(r.rdata);
    assert Clear(Enter(names, r.name), DataNames(r.rdata)) <==> DataAsRead(r.rdata, Enter(names, r.name)) == r.rdata by {
      var d := DataNames(r.rdata);
      if d != [] {
        assert d[1..] == [] && Clear(Enter(Enter(names, r.name), d[0]), []);
      }
    }
  }

  lemma {:induction false} RecordsUnchanged(rs: seq<Record>, names: seq<Name>)
    ensures RecordsAsRead(rs, names) == rs <==> Clear(names, RecordsNames(rs))
    decreases |rs|
  {
    hide ReadAs, Enter, Clear, RecordAsRead, RecordNames, EnterAll;
    if rs == [] {
      NothingUnclear(names);
    } else {
      RecordUnchanged(rs[0], names);
      RecordsUnchanged(rs[1..], EnterAll(names, RecordNames(rs[0])));
      ClearConcat(names, RecordNames(rs[0]), RecordsNames(rs[1..]));
      var all := RecordsAsRead(rs, names);
      assert all[0] == RecordAsRead(rs[0], names) && all[1..] == RecordsAsRead(rs[1..], EnterAll(names, RecordNames(rs[0])));
      assert rs == [rs[0]] + rs[1..] && all == [all[0]] + all[1..];
    }
  }

  lemma NothingUnclear(names: seq<Name>)
    ensures Clear(names, [])
  {
  }

  lemma PacketUnchanged(p: Packet)
    ensures PacketAsRead(p) == p <==> Clear([], NamesOf(p))
  {
    hide QuestionsAsRead, RecordsAsRead, Clear, EnterAll, QuestionsNames, RecordsNames;
    var names := EnterAll([], QuestionsNames(p.q));
    var all := p.ans + p.ns + p.arr;
    QuestionsUnchanged(p.q, []);
    RecordsUnchanged(all, names);
    ClearConcat([], QuestionsNames(p.q), RecordsNames(all));
    var rs := RecordsAsRead(all, names);
    var m, n := |p.ans|, |p.ans| + |p.ns|;
    assert rs == rs[..m] + rs[m..n] + rs[n..];
    assert all[..m] == p.ans && all[m..n] == p.ns && all[n..] == p.arr;
  }

  // ----- names in memory -----

  /** Every entry of the table points at its name, written in full below end, which the final
      packet still holds. */
  ghost predicate TableHolds(mem: Memory, max: nat, tab: seq<Entry>, names: seq<Name>, end: nat) {
    end <= max && |tab| == |names| && forall i :: 0 <= i < |tab| ==> EntryHolds(mem, tab[i], names[i], end)
  }

  predicate EntryHolds(mem: Memory, e: Entry, name: Name, end: nat) {
    e.pos < 0x4000 && IsName(name) && e.text == Text(name) && Holds(mem, e.pos, Wire(name)) && e.pos + |Wire(name)| <= end
  }

  lemma TableStillHolds(mem: Memory, max: nat, tab: seq<Entry>, names: seq<Name>, end: nat, end': nat)
    requires TableHolds(mem, max, tab, names, end) && end <= end' <= max
    ensures TableHolds(mem, max, tab, names, end')
  {
    forall i | 0 <= i < |tab| ensures EntryHolds(mem, tab[i], names[i], end') {
      assert EntryHolds(mem, tab[i], names[i], end);
    }
  }

  lemma PointerDecodes(mem: Memory, max: nat, p: nat, pos: nat, name: Name)
    requires Holds(mem, p, Pointer(pos)) && pos < 0x4000 && pos < max
    requires NameAt(mem, max, 1, pos) == NameText(SUCCESS, name) && NameLenAt(mem, max, 1, pos) == NameLen(SUCCESS, |name| + 2, |name|)
    ensures ParseName(mem, max, p) == Parsed(name, 2)
  {
    assert mem(p + 0) == Pointer(pos)[0] && mem(p + 1) == Pointer(pos)[1];
    assert PointerAt(mem, p) == pos;
  }

  lemma SameIndex(mem: Memory, max: nat, tab: seq<Entry>, names: seq<Name>, end: nat, name: Name)
    requires TableHolds(mem, max, tab, names, end)
    ensures FindLabel(tab, name) == Found(names, name)
  {
    hide IsName, Wire, FindLabel, Found, Holds, Text;
    assert forall i :: 0 <= i < |tab| ==> EntryHolds(mem, tab[i], names[i], end);
    assert forall i :: 0 <= i < |tab| ==> tab[i].text == Text(names[i]);
  }

  /** A name printed at p, in full or as a pointer, is read as the name of the entry that it
      matches, or else as itself. */
  lemma NameRoundTrip(mem: Memory, max: nat, p: nat, name: Name, size: int, tab: seq<Entry>, names: seq<Name>)
    requires IsName(name) && TableHolds(mem, max, tab, names, p) && p < 0x4000
    requires PrintName(name, size, p, tab).Printed? && Holds(mem, p, PrintName(name, size, p, tab).bytes)
    requires p + |PrintName(name, size, p, tab).bytes| <= max
    ensures var n := PrintName(name, size, p, tab);
            && ParseName(mem, max, p) == Parsed(ReadAs(names, name), |n.bytes|)
            && TableHolds(mem, max, n.tab, Enter(names, name), p + |n.bytes|)
  {
    hide IsName, Wire, NameAt, NameLenAt, FindLabel, Found;
    var n := PrintName(name, size, p, tab);
    var i := FindLabel(tab, name);
    SameIndex(mem, max, tab, names, p, name);
    TableStillHolds(mem, max, tab, names, p, p + |n.bytes|);
    if i < |tab| {
      assert EntryHolds(mem, tab[i], names[i], p);
      NameUnfolds(names[i]);
      WireDecodes(mem, max, 1, tab[i].pos, names[i]);
      PointerDecodes(mem, max, p, tab[i].pos, names[i]);
    } else {
      WireDecodes(mem, max, 0, p, name);
      NameUnfolds(name);
      assert EntryHolds(mem, NewEntry(name, p), name, p + |n.bytes|);
    }
  }

  // ----- questions and records -----

  lemma Holds16(mem: Memory, p: nat, v: nat)
    requires Holds(mem, p, Be16(v)) && v < 0x1_0000
    ensures U16(mem, p) == v
  {
    assert mem(p + 0) == Be16(v)[0] && mem(p + 1) == Be16(v)[1];
  }

  lemma Holds32(mem: Memory, p: nat, v: nat)
    requires Holds(mem, p, Be32(v)) && v < 0x1_0000_0000
    ensures U32(mem, p) == v
  {
    var hi, lo := v / 65536, v % 65536;
    LowHalf(v);
    hide Be16, U16;
    HoldsParts(mem, p, Be16(hi), Be16(lo));
    Holds16(mem, p, hi);
    Holds16(mem, p + 2, lo);
  }

  lemma LowHalf(v: nat)
    ensures Be16(v) == Be16(v % 65536)
  {
  }

  lemma QuestionRoundTrip(mem: Memory, max: nat, p: nat, q: Question, size: int, tab: seq<Entry>, names: seq<Name>)
    requires GoodQuestion(q) && TableHolds(mem, max, tab, names, p) && p < 0x4000
    requires PrintQuestion(q, size, p, tab).Printed? && Holds(mem, p, PrintQuestion(q, size, p, tab).bytes)
    requires p + |PrintQuestion(q, size, p, tab).bytes| <= max
    ensures var n := PrintQuestion(q, size, p, tab);
            && ParseQuestion(mem, max, p) == Parsed(q.(name := ReadAs(names, q.name)), |n.bytes|)
            && TableHolds(mem, max, n.tab, Enter(names, q.name), p + |n.bytes|)
  {
    hide IsName, PrintName, ParseName, Be16, U16, TableHolds;
    var n := PrintName(q.name, size, p, tab);
    HoldsParts(mem, p, n.bytes, Be16(q.qtype) + Be16(q.qclass));
    HoldsParts(mem, p + |n.bytes|, Be16(q.qtype), Be16(q.qclass));
    NameRoundTrip(mem, max, p, q.name, size, tab, names);
    Holds16(mem, p + |n.bytes|, q.qtype);
    Holds16(mem, p + |n.bytes| + 2, q.qclass);
    TableStillHolds(mem, max, n.tab, Enter(names, q.name), p + |n.bytes|, p + |n.bytes| + 4);
  }

  /** The length the printer writes in front of the data at p. */
  function RdLength(r: Record, size: int, p: nat, tab: seq<Entry>): nat {
    var d := PrintRdata(r, size, p, tab);
    if d.Printed? && |d.bytes| >= 2 then |d.bytes| - 2 else 0
  }

  lemma RdataRoundTrip(mem: Memory, max: nat, p: nat, r: Record, size: int, tab: seq<Entry>, names: seq<Name>)
    requires GoodRecord(r) && TableHolds(mem, max, tab, names, p)
    requires PrintRdata(r, size, p, tab).Printed? && Holds(mem, p, PrintRdata(r, size, p, tab).bytes)
    requires p + |PrintRdata(r, size, p, tab).bytes| <= max <= 0x4000
    ensures var d, n := PrintRdata(r, size, p, tab), RdLength(r, size, p, tab);
            && |d.bytes| == n + 2 && U16(mem, p) == n
            && ParseRdata(mem, max, p + 2, r.rtype, n) == Parsed(DataAsRead(r.rdata, names), n)
            && TableHolds(mem, max, d.tab, EnterAll(names, DataNames(r.rdata)), p + |d.bytes|)
  {
    RdataNotShort(r, size, p, tab);
    match r.rdata
    case Address(a) => AddressRoundTrip(mem, max, p, r, size, tab, names);
    case Target(name) => TargetRoundTrip(mem, max, p, r, size, tab, names);
    case Service(_, _, _, _) => ServiceRoundTrip(mem, max, p, r, size, tab, names);
  }

  lemma AddressRoundTrip(mem: Memory, max: nat, p: nat, r: Record, size: int, tab: seq<Entry>, names: seq<Name>)
    requires GoodRecord(r) && TableHolds(mem, max, tab, names, p) && r.rdata.Address?
    requires PrintRdata(r, size, p, tab).Printed? && Holds(mem, p, PrintRdata(r, size, p, tab).bytes)
    requires p + |PrintRdata(r, size, p, tab).bytes| <= max
    ensures var d, n := PrintRdata(r, size, p, tab), RdLength(r, size, p, tab);
            && |d.bytes| == n + 2 && U16(mem, p) == n
            && ParseRdata(mem, max, p + 2, r.rtype, n) == Parsed(DataAsRead(r.rdata, names), n)
            && TableHolds(mem, max, d.tab, EnterAll(names, DataNames(r.rdata)), p + |d.bytes|)
  {
    hide IsName, Be16, U16, TableHolds;
    var a := r.rdata.bytes;
    HoldsParts(mem, p, Be16(|a|), a);
    Holds16(mem, p, |a|);
    assert Slice(mem, p + 2, |a|) == a;
    TableStillHolds(mem, max, tab, names, p, p + 2 + |a|);
  }

  lemma TargetRoundTrip(mem: Memory, max: nat, p: nat, r: Record, size: int, tab: seq<Entry>, names: seq<Name>)
    requires GoodRecord(r) && TableHolds(mem, max, tab, names, p) && r.rdata.Target? && p + 2 < 0x4000
    requires PrintRdata(r, size, p, tab).Printed? && Holds(mem, p, PrintRdata(r, size, p, tab).bytes)
    requires p + |PrintRdata(r, size, p, tab).bytes| <= max < 0x1_0000
    ensures var d, n := PrintRdata(r, size, p, tab), RdLength(r, size, p, tab);
            && |d.bytes| == n + 2 && U16(mem, p) == n
            && ParseRdata(mem, max, p + 2, r.rtype, n) == Parsed(DataAsRead(r.rdata, names), n)
            && TableHolds(mem, max, d.tab, EnterAll(names, DataNames(r.rdata)), p + |d.bytes|)
  {
    hide IsName, Be16, U16, TableHolds, PrintName, ParseName;
    TableStillHolds(mem, max, tab, names, p, p + 2);
    var n := PrintName(r.rdata.name, size - 2, p + 2, tab);
    HoldsParts(mem, p, Be16(|n.bytes|), n.bytes);
    Holds16(mem, p, |n.bytes|);
    OneEntered(names, r.rdata.name);
    NameRoundTrip(mem, max, p + 2, r.rdata.name, size - 2, tab, names);
  }

  lemma ServiceRoundTrip(mem: Memory, max: nat, p: nat, r: Record, size: int, tab: seq<Entry>, names: seq<Name>)
    requires GoodRecord(r) && TableHolds(mem, max, tab, names, p) && r.rdata.Service? && p + 8 < 0x4000
    requires PrintRdata(r, size, p, tab).Printed? && Holds(mem, p, PrintRdata(r, size, p, tab).bytes)
    requires p + |PrintRdata(r, size, p, tab).bytes| <= max < 0x1_0000
    ensures var d, n := PrintRdata(r, size, p, tab), RdLength(r, size, p, tab);
            && |d.bytes| == n + 2 && U16(mem, p) == n
            && ParseRdata(mem, max, p + 2, r.rtype, n) == Parsed(DataAsRead(r.rdata, names), n)
            && TableHolds(mem, max, d.tab, EnterAll(names, DataNames(r.rdata)), p + |d.bytes|)
  {
    hide IsName, Be16, U16, TableHolds, PrintName, ParseName, ReadAs, Enter, EnterAll, Holds;
    TableStillHolds(mem, max, tab, names, p, p + 8);
    var d := r.rdata;
    var n := PrintName(d.target, size - 8, p + 8, tab);
    ServiceFields(mem, p, |n.bytes| + 6, d.prio, d.weight, d.port, n.bytes);
    OneEntered(names, d.target);
    NameRoundTrip(mem, max, p + 8, d.target, size - 8, tab, names);
  }

  lemma ServiceFields(mem: Memory, p: nat, len: nat, prio: nat, weight: nat, port: nat, rest: seq<Byte>)
    requires Holds(mem, p, Be16(len) + (Be16(prio) + Be16(weight) + Be16(port) + rest))
    requires len < 0x1_0000 && prio < 0x1_0000 && weight < 0x1_0000 && port < 0x1_0000
    ensures U16(mem, p) == len && U16(mem, p + 2) == prio && U16(mem, p + 4) == weight && U16(mem, p + 6) == port
    ensures Holds(mem, p + 8, rest)
  {
    hide Be16, U16, Holds;
    var fixed := Be16(prio) + Be16(weight) + Be16(port);
    HoldsParts(mem, p, Be16(len), fixed + rest);
    HoldsParts(mem, p + 2, fixed, rest);
    HoldsParts(mem, p + 2, Be16(prio) + Be16(weight), Be16(port));
    HoldsParts(mem, p + 2, Be16(prio), Be16(weight));
    Holds16(mem, p, len);
    Holds16(mem, p + 2, prio);
    Holds16(mem, p + 4, weight);
    Holds16(mem, p + 6, port);
  }

  lemma OneEntered(names: seq<Name>, name: Name)
    ensures EnterAll(names, [name]) == Enter(names, name)
  {
  }

  /** What a record becomes: the same, with the length of its data as printed. */
  function AsPrinted(r: Record, size: int, p: nat, tab: seq<Entry>): Record {
    var n := PrintName(r.name, size, p, tab);
    if n.TooSmall? then r else r.(rdlength := RdLength(r, size - |n.bytes| - 8, p + |n.bytes| + 8, n.tab))
  }

  lemma RecordRoundTrip(mem: Memory, max: nat, p: nat, r: Record, size: int, tab: seq<Entry>, names: seq<Name>)
    requires GoodRecord(r) && TableHolds(mem, max, tab, names, p)
    requires PrintRecord(r, size, p, tab).Printed? && Holds(mem, p, PrintRecord(r, size, p, tab).bytes)
    requires p + |PrintRecord(r, size, p, tab).bytes| <= max <= 0x4000
    ensures var n := PrintRecord(r, size, p, tab);
            && ParseRecord(mem, max, p) == Parsed(RecordAsRead(AsPrinted(r, size, p, tab), names), |n.bytes|)
            && TableHolds(mem, max, n.tab, EnterAll(names, RecordNames(r)), p + |n.bytes|)
  {
    hide IsName, Be16, Be32, U16, U32, TableHolds, PrintName, ParseName, PrintRdata, ParseRdata;
    var n := PrintName(r.name, size, p, tab);
    var p1, size1 := p + |n.bytes|, size - |n.bytes| - 8;
    var d := PrintRdata(r, size1, p1 + 8, n.tab);
    HoldsParts(mem, p, n.bytes, Fixed(r) + d.bytes);
    HoldsParts(mem, p1, Fixed(r), d.bytes);
    HoldsParts(mem, p1, Be16(r.rtype) + Be16(r.rclass), Be32(r.ttl));
    HoldsParts(mem, p1, Be16(r.rtype), Be16(r.rclass));
    NameRoundTrip(mem, max, p, r.name, size, tab, names);
    Holds16(mem, p1, r.rtype);
    Holds16(mem, p1 + 2, r.rclass);
    Holds32(mem, p1 + 4, r.ttl);
    TableStillHolds(mem, max, n.tab, Enter(names, r.name), p1, p1 + 8);
    RdataNotShort(r, size1, p1 + 8, n.tab);
    RdataRoundTrip(mem, max, p1 + 8, r, size1, n.tab, Enter(names, r.name));
    OwnerFirst(r, names);
  }

  lemma OwnerFirst(r: Record, names: seq<Name>)
    ensures EnterAll(names, RecordNames(r)) == EnterAll(Enter(names, r.name), DataNames(r.rdata))
  {
    assert RecordNames(r)[1..] == DataNames(r.rdata);
  }

  lemma RdataNotShort(r: Record, size: int, p: nat, tab: seq<Entry>)
    requires GoodRecord(r) && PrintRdata(r, size, p, tab).Printed?
    ensures |PrintRdata(r, size, p, tab).bytes| >= 2
    ensures r.rdata.Target? ==> |PrintRdata(r, size, p, tab).bytes| >= 3
    ensures r.rdata.Service? ==> |PrintRdata(r, size, p, tab).bytes| >= 9
  {
    hide IsName;
  }

  // ----- sections and the packet -----

  lemma {:induction false} QuestionsRoundTrip(mem: Memory, max: nat, p: nat, qs: seq<Question>, size: int, tab: seq<Entry>, names: seq<Name>)
    requires (forall i :: 0 <= i < |qs| ==> GoodQuestion(qs[i])) && TableHolds(mem, max, tab, names, p)
    requires PrintQuestions(qs, size, p, tab).Printed? && Holds(mem, p, PrintQuestions(qs, size, p, tab).bytes)
    requires p + |PrintQuestions(qs, size, p, tab).bytes| <= max <= 0x4000
    ensures var n := PrintQuestions(qs, size, p, tab);
            && ParseQuestions(mem, max, p, |qs|) == Parsed(QuestionsAsRead(qs, names), |n.bytes|)
            && TableHolds(mem, max, n.tab, EnterAll(names, QuestionsNames(qs)), p + |n.bytes|)
    decreases |qs|
  {
    hide PrintQuestion, ParseQuestion, TableHolds, GoodQuestion, ReadAs, Enter;
    if qs != [] {
      var q := PrintQuestion(qs[0], size, p, tab);
      var rest := PrintQuestions(qs[1..], size - |q.bytes| + 4, p + |q.bytes|, q.tab);
      HoldsParts(mem, p, q.bytes, rest.bytes);
      QuestionNotEmpty(qs[0], size, p, tab);
      QuestionRoundTrip(mem, max, p, qs[0], size, tab, names);
      QuestionsRoundTrip(mem, max, p + |q.bytes|, qs[1..], size - |q.bytes| + 4, q.tab, Enter(names, qs[0].name));
      assert QuestionsNames(qs)[1..] == QuestionsNames(qs[1..]);
    }
  }

  lemma QuestionNotEmpty(q: Question, size: int, p: nat, tab: seq<Entry>)
    requires PrintQuestion(q, size, p, tab).Printed?
    ensures |PrintQuestion(q, size, p, tab).bytes| >= 4
  {
  }

  /** The records of a section as they come back. */
  function AllAsPrinted(rs: seq<Record>, size: int, p: nat, tab: seq<Entry>, names: seq<Name>): (s: seq<Record>)
    ensures |s| == |rs|
  {
    if rs == [] then []
    else
      var r := PrintRecord(rs[0], size, p, tab);
      if r.TooSmall? then rs
      else
        var names1 := EnterAll(names, RecordNames(rs[0]));
        [RecordAsRead(AsPrinted(rs[0], size, p, tab), names)] + AllAsPrinted(rs[1..], size - |r.bytes|, p + |r.bytes|, r.tab, names1)
  }

  lemma {:induction false} RecordsRoundTrip(mem: Memory, max: nat, p: nat, rs: seq<Record>, size: int, tab: seq<Entry>, names: seq<Name>)
    requires (forall i :: 0 <= i < |rs| ==> GoodRecord(rs[i])) && TableHolds(mem, max, tab, names, p)
    requires PrintRecords(rs, size, p, tab).Printed? && Holds(mem, p, PrintRecords(rs, size, p, tab).bytes)
    requires p + |PrintRecords(rs, size, p, tab).bytes| <= max <= 0x4000
    ensures ParseRecords(mem, max, p, |rs|) == Parsed(AllAsPrinted(rs, size, p, tab, names), |PrintRecords(rs, size, p, tab).bytes|)
    decreases |rs|
  {
    hide PrintRecord, ParseRecord, TableHolds, GoodRecord, AsPrinted, RecordAsRead, EnterAll, RecordNames;
    if rs != [] {
      var r := PrintRecord(rs[0], size, p, tab);
      var rest := PrintRecords(rs[1..], size - |r.bytes|, p + |r.bytes|, r.tab);
      HoldsParts(mem, p, r.bytes, rest.bytes);
      RecordRoundTrip(mem, max, p, rs[0], size, tab, names);
      RecordsRoundTrip(mem, max, p + |r.bytes|, rs[1..], size - |r.bytes|, r.tab, EnterAll(names, RecordNames(rs[0])));
    }
  }

  /** Apart from the data lengths that is what RecordsAsRead says. */
  lemma {:induction false} AsPrintedSame(rs: seq<Record>, size: int, p: nat, tab: seq<Entry>, names: seq<Name>)
    requires PrintRecords(rs, size, p, tab).Printed?
    ensures SameRecords(AllAsPrinted(rs, size, p, tab, names), RecordsAsRead(rs, names))
    decreases |rs|
  {
    hide PrintRecord, AsPrinted, RecordAsRead, EnterAll, RecordNames;
    if rs != [] {
      var r := PrintRecord(rs[0], size, p, tab);
      var names1 := EnterAll(names, RecordNames(rs[0]));
      var rest := AllAsPrinted(rs[1..], size - |r.bytes|, p + |r.bytes|, r.tab, names1);
      AsPrintedSame(rs[1..], size - |r.bytes|, p + |r.bytes|, r.tab, names1);
      OnlyLengthChanges(rs[0], size, p, tab, names);
      assert AllAsPrinted(rs, size, p, tab, names) == [RecordAsRead(AsPrinted(rs[0], size, p, tab), names)] + rest;
      assert RecordsAsRead(rs, names) == [RecordAsRead(rs[0], names)] + RecordsAsRead(rs[1..], names1);
    }
  }

  lemma OnlyLengthChanges(r: Record, size: int, p: nat, tab: seq<Entry>, names: seq<Name>)
    ensures RecordAsRead(AsPrinted(r, size, p, tab), names).(rdlength := RecordAsRead(r, names).rdlength) == RecordAsRead(r, names)
  {
    hide PrintName, RdLength, ReadAs, Enter;
  }

  predicate SameRecords(a: seq<Record>, b: seq<Record>) {
    |a| == |b| && forall i :: 0 <= i < |a| ==> a[i].(rdlength := b[i].rdlength) == b[i]
  }

  /** Equal but for the data lengths. */
  predicate SamePacket(a: Packet, b: Packet) {
    && a.id == b.id && a.flags == b.flags && a.q == b.q
    && SameRecords(a.ans, b.ans) && SameRecords(a.ns, b.ns) && SameRecords(a.arr, b.arr)
  }

  /** Reading m + n records is reading m and then n. */
  lemma {:induction false} ParseConcat(mem: Memory, max: nat, p: nat, m: nat, n: nat)
    ensures var a := ParseRecords(mem, max, p, m);
            ParseRecords(mem, max, p, m + n) == if a.Error? then a else After(a.value, a.len, ParseRecords(mem, max, p + a.len, n))
    decreases m
  {
    hide ParseRecords, ParseRecord, After;
    OneRecordFirst(mem, max, p, m);
    if m == 0 {
      AfterNothing(ParseRecords(mem, max, p, n));
    } else {
      OneRecordFirst(mem, max, p, m + n);
      var r := ParseRecord(mem, max, p);
      if r.Parsed? {
        ParseConcat(mem, max, p + r.len, m - 1, n);
        var a := ParseRecords(mem, max, p + r.len, m - 1);
        AfterIsError([r.value], r.len, a);
        if a.Parsed? {
          AfterAfter([r.value], r.len, a.value, a.len, ParseRecords(mem, max, p + r.len + a.len, n));
        }
      }
    }
  }

  lemma AfterIsError<T>(xs: seq<T>, len: nat, rest: Parsed<seq<T>>)
    ensures After(xs, len, rest) == if rest.Error? then rest else Parsed(xs + rest.value, len + rest.len)
  {
  }

  lemma {:induction false} ParseCount(mem: Memory, max: nat, p: nat, n: nat)
    requires ParseRecords(mem, max, p, n).Parsed?
    ensures |ParseRecords(mem, max, p, n).value| == n
    decreases n
  {
    hide ParseRecord;
    if n > 0 {
      ParseCount(mem, max, p + ParseRecord(mem, max, p).len, n - 1);
    }
  }

  /** Three sections read in one go are the three read one after the other. */
  lemma ThreeSections(mem: Memory, max: nat, p: nat, x: nat, y: nat, z: nat, s: seq<Record>, len: nat)
    returns (a: Parsed<seq<Record>>, n: Parsed<seq<Record>>, r: Parsed<seq<Record>>)
    requires ParseRecords(mem, max, p, x + y + z) == Parsed(s, len)
    ensures a == ParseRecords(mem, max, p, x) && a.Parsed? && |a.value| == x
    ensures n == ParseRecords(mem, max, p + a.len, y) && n.Parsed? && |n.value| == y
    ensures r == ParseRecords(mem, max, p + a.len + n.len, z) && r.Parsed? && |r.value| == z
    ensures s == a.value + n.value + r.value && len == a.len + n.len + r.len
  {
    hide ParseRecords;
    ParseConcat(mem, max, p, x + y, z);
    ParseConcat(mem, max, p, x, y);
    a := ParseRecords(mem, max, p, x);
    assert a.Parsed?;
    n := ParseRecords(mem, max, p + a.len, y);
    assert n.Parsed?;
    r := ParseRecords(mem, max, p + a.len + n.len, z);
    ParseCount(mem, max, p, x);
    ParseCount(mem, max, p + a.len, y);
    ParseCount(mem, max, p + a.len + n.len, z);
  }

  lemma HeaderRead(mem: Memory, p: Packet)
    requires GoodPacket(p) && Holds(mem, 0, Header(p))
    ensures U16(mem, 0) == p.id && U16(mem, 2) == p.flags && U16(mem, 4) == |p.q|
    ensures U16(mem, 6) == |p.ans| && U16(mem, 8) == |p.ns| && U16(mem, 10) == |p.arr|
  {
    hide Be16, U16, GoodQuestion, GoodRecord;
    var a := Be16(p.id) + Be16(p.flags) + Be16(|p.q|) + Be16(|p.ans|);
    HoldsParts(mem, 0, a + Be16(|p.ns|), Be16(|p.arr|));
    HoldsParts(mem, 0, a, Be16(|p.ns|));
    HoldsParts(mem, 0, Be16(p.id) + Be16(p.flags) + Be16(|p.q|), Be16(|p.ans|));
    HoldsParts(mem, 0, Be16(p.id) + Be16(p.flags), Be16(|p.q|));
    HoldsParts(mem, 0, Be16(p.id), Be16(p.flags));
    Holds16(mem, 0, p.id);
    Holds16(mem, 2, p.flags);
    Holds16(mem, 4, |p.q|);
    Holds16(mem, 6, |p.ans|);
    Holds16(mem, 8, |p.ns|);
    Holds16(mem, 10, |p.arr|);
  }

  /** Parsing what print_packet wrote, whatever bytes follow it in memory, gives back the
      header, the queries and the records apart from rdlength, as they are read with the label
      table, for every message of at most 16384 bytes: the reach of a compression pointer. */
  lemma PrintedPacketReads(p: Packet, size: int, mem: Memory)
    requires GoodPacket(p) && PrintPacket(p, size).Some?
    requires |PrintPacket(p, size).value| <= 0x4000 && Holds(mem, 0, PrintPacket(p, size).value)
    ensures var len := |PrintPacket(p, size).value|;
            var r := ParsePacket(mem, len);
            r.Parsed? && r.len == len && SamePacket(r.value, PacketAsRead(p))
  {
    hide Header, ParseRecords, ParseQuestions, PrintQuestions, PrintRecords, U16, GoodRecord, GoodQuestion, SameRecords, Holds, RecordsAsRead, QuestionsAsRead, EnterAll, QuestionsNames;
    var b := PrintSections(p, size - 12, 12);
    var max := 12 + |b.bytes|;
    HoldsParts(mem, 0, Header(p), b.bytes);
    HeaderRead(mem, p);
    SectionsRoundTrip(p, size - 12, mem, max);
    var q := PrintQuestions(p.q, size - 12, 12, []);
    var all := ParseRecords(mem, max, 12 + |q.bytes|, |p.ans| + |p.ns| + |p.arr|);
    var a, n, r := ThreeSections(mem, max, 12 + |q.bytes|, |p.ans|, |p.ns|, |p.arr|, all.value, all.len);
    SectionsSplit(PacketAsRead(p), a.value, n.value, r.value);
  }

  lemma SectionsRoundTrip(p: Packet, size: int, mem: Memory, max: nat)
    requires GoodPacket(p) && PrintSections(p, size, 12).Printed? && max == 12 + |PrintSections(p, size, 12).bytes| <= 0x4000
    requires Holds(mem, 12, PrintSections(p, size, 12).bytes)
    ensures var q, s := PrintQuestions(p.q, size, 12, []), PacketAsRead(p);
            && ParseQuestions(mem, max, 12, |p.q|) == Parsed(s.q, |q.bytes|)
            && |s.ans| == |p.ans| && |s.ns| == |p.ns| && |s.arr| == |p.arr|
            && var r := ParseRecords(mem, max, 12 + |q.bytes|, |p.ans| + |p.ns| + |p.arr|);
            r.Parsed? && SameRecords(r.value, s.ans + s.ns + s.arr) && r.len == max - 12 - |q.bytes|
  {
    hide ParseRecords, ParseQuestions, PrintQuestions, PrintRecords, GoodRecord, GoodQuestion, Holds, AllAsPrinted, RecordsAsRead, QuestionsAsRead, EnterAll, QuestionsNames;
    var q := PrintQuestions(p.q, size, 12, []);
    var names := EnterAll([], QuestionsNames(p.q));
    var size1, rs, pos := size - |q.bytes| + 4 * |p.q|, p.ans + p.ns + p.arr, 12 + |q.bytes|;
    HoldsParts(mem, 12, q.bytes, PrintRecords(rs, size1, pos, q.tab).bytes);
    QuestionsRoundTrip(mem, max, 12, p.q, size, [], []);
    RecordsRoundTrip(mem, max, pos, rs, size1, q.tab, names);
    AsPrintedSame(rs, size1, pos, q.tab, names);
    var s := PacketAsRead(p);
    assert s.ans + s.ns + s.arr == RecordsAsRead(rs, names);
  }

  /** The packet comes back if and only if no name that is printed in it matches the entry of
      another one. */
  lemma PrintedPacketParses(p: Packet, size: int, mem: Memory)
    requires GoodPacket(p) && PrintPacket(p, size).Some?
    requires |PrintPacket(p, size).value| <= 0x4000 && Holds(mem, 0, PrintPacket(p, size).value)
    ensures var len := |PrintPacket(p, size).value|;
            var r := ParsePacket(mem, len);
            r.Parsed? && r.len == len && (SamePacket(r.value, p) <==> Clear([], NamesOf(p)))
  {
    hide GoodPacket, PrintPacket, ParsePacket, Holds, SameRecords, PacketAsRead, Clear, NamesOf;
    PrintedPacketReads(p, size, mem);
    PacketUnchanged(p);
    LengthsKept(p);
    var r := ParsePacket(mem, |PrintPacket(p, size).value|).value;
    if SamePacket(r, p) {
      SameTwice(r.ans, p.ans, PacketAsRead(p).ans);
      SameTwice(r.ns, p.ns, PacketAsRead(p).ns);
      SameTwice(r.arr, p.arr, PacketAsRead(p).arr);
    }
  }

  predicate SameLengths(a: seq<Record>, b: seq<Record>) {
    |a| == |b| && forall i :: 0 <= i < |a| ==> a[i].rdlength == b[i].rdlength
  }

  lemma {:induction false} RecordLengthsKept(rs: seq<Record>, names: seq<Name>)
    ensures SameLengths(RecordsAsRead(rs, names), rs)
    decreases |rs|
  {
    hide ReadAs, Enter, DataAsRead, EnterAll, RecordNames;
    if rs != [] {
      RecordLengthsKept(rs[1..], EnterAll(names, RecordNames(rs[0])));
      assert rs == [rs[0]] + rs[1..];
    }
  }

  lemma LengthsKept(p: Packet)
    ensures var s := PacketAsRead(p);
            && s.id == p.id && s.flags == p.flags
            && SameLengths(s.ans, p.ans) && SameLengths(s.ns, p.ns) && SameLengths(s.arr, p.arr)
  {
    hide RecordsAsRead, QuestionsAsRead, EnterAll, QuestionsNames;
    var all := p.ans + p.ns + p.arr;
    RecordLengthsKept(all, EnterAll([], QuestionsNames(p.q)));
    var m, n := |p.ans|, |p.ans| + |p.ns|;
    assert all[..m] == p.ans && all[m..n] == p.ns && all[n..] == p.arr;
  }

  lemma SameTwice(r: seq<Record>, a: seq<Record>, b: seq<Record>)
    requires SameRecords(r, a) && SameRecords(r, b) && SameLengths(b, a)
    ensures a == b
  {
    forall i | 0 <= i < |a| ensures a[i] == b[i] {
      assert r[i].(rdlength := a[i].rdlength) == a[i] && r[i].(rdlength := b[i].rdlength) == b[i];
    }
  }

  /** Packets of safe host names come back. */
  lemma SafePacketParses(p: Packet, size: int, mem: Memory)
    requires GoodPacket(p) && PrintPacket(p, size).Some? && forall i :: 0 <= i < |NamesOf(p)| ==> Safe(NamesOf(p)[i])
    requires |PrintPacket(p, size).value| <= 0x4000 && Holds(mem, 0, PrintPacket(p, size).value)
    ensures var r := ParsePacket(mem, |PrintPacket(p, size).value|); r.Parsed? && SamePacket(r.value, p)
  {
    hide GoodPacket, PrintPacket, ParsePacket, Holds, SamePacket, Clear, NamesOf, Safe;
    PrintedPacketParses(p, size, mem);
    SafeNamesClear([], NamesOf(p));
  }

  function TwoQuestions(id: nat, flags: nat, a: Name, t: nat, b: Name, u: nat): Packet {
    Packet(id, flags, [Question(a, t, 1), Question(b, u, 1)], [], [], [])
  }

  /** A name after one whose text it is comes back as that one: for every name that is not its own
      text, as long as the text is a name. */
  lemma TextComesBackAsName(a: Name, id: nat, flags: nat, t: nat, u: nat, size: int, mem: Memory)
    requires IsName(a) && IsName(Text(a)) && Text(a) != a && id < 0x1_0000 && flags < 0x1_0000 && t < 0x1_0000 && u < 0x1_0000
    requires var m := PrintPacket(TwoQuestions(id, flags, a, t, Text(a), u), size); m.Some? && |m.value| <= 0x4000 && Holds(mem, 0, m.value)
    ensures var r := ParsePacket(mem, |PrintPacket(TwoQuestions(id, flags, a, t, Text(a), u), size).value|);
            r.Parsed? && SamePacket(r.value, TwoQuestions(id, flags, a, t, a, u))
  {
    hide PrintPacket, ParsePacket, Holds, IsName, Text;
    var p := TwoQuestions(id, flags, a, t, Text(a), u);
    assert GoodPacket(p);
    PrintedPacketReads(p, size, mem);
    SecondMisread(a, t, u);
    NoRecordsRead(p);
  }

  lemma SecondMisread(a: Name, t: nat, u: nat)
    requires Text(a) != a
    ensures QuestionsAsRead([Question(a, t, 1), Question(Text(a), u, 1)], []) == [Question(a, t, 1), Question(a, u, 1)]
  {
    hide Text;
    var qs := [Question(a, t, 1), Question(Text(a), u, 1)];
    assert Found([], a) == 0 && Enter([], a) == [a];
    assert Found([a], Text(a)) == 0;
    assert qs[1..] == [qs[1]] && qs[1..][1..] == [];
  }

  lemma NoRecordsRead(p: Packet)
    requires p.ans == p.ns == p.arr == []
    ensures var s := PacketAsRead(p); s.id == p.id && s.flags == p.flags && s.q == QuestionsAsRead(p.q, []) && s.ans == s.ns == s.arr == []
  {
  }

  lemma SectionsSplit(p: Packet, a: seq<Record>, n: seq<Record>, r: seq<Record>)
    requires SameRecords(a + n + r, p.ans + p.ns + p.arr) && |a| == |p.ans| && |n| == |p.ns|
    ensures SameRecords(a, p.ans) && SameRecords(n, p.ns) && SameRecords(r, p.arr)
  {
    SplitSame(a + n, r, p.ans + p.ns, p.arr);
    SplitSame(a, n, p.ans, p.ns);
  }

  lemma SplitSame(a: seq<Record>, b: seq<Record>, x: seq<Record>, y: seq<Record>)
    requires SameRecords(a + b, x + y) && |a| == |x|
    ensures SameRecords(a, x) && SameRecords(b, y)
  {
    var s, t := a + b, x + y;
    forall i | 0 <= i < |a| ensures a[i].(rdlength := x[i].rdlength) == x[i] { assert a[i] == s[i] && x[i] == t[i]; }
    forall i | 0 <= i < |b| ensures b[i].(rdlength := y[i].rdlength) == y[i] { assert b[i] == s[|a| + i] && y[i] == t[|a| + i]; }
  }
}
