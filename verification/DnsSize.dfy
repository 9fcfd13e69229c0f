/** How the size that print_packet is told limits what it writes (dns_server.c). The four bytes
    after each question's name are not taken off the size that is left. */
module DnsSize {
  import opened DnsTypes
  import opened DnsName
  import opened DnsPrint

  /** A name printed in two sizes is printed alike. */
  lemma NameInAnySize(name: Name, size: int, size': int, pos: nat, tab: seq<Entry>)
    requires PrintName(name, size, pos, tab).Printed? && size' >= |PrintName(name, size, pos, tab).bytes|
    ensures PrintName(name, size', pos, tab) == PrintName(name, size, pos, tab)
  {
    hide Wire, FindLabel;
  }

  /** A pointer has two bytes, and of names in full only the empty one has less. */
  lemma NameBytes(name: Name, size: int, pos: nat, tab: seq<Entry>)
    requires PrintName(name, size, pos, tab).Printed?
    ensures var n := |PrintName(name, size, pos, tab).bytes|; n >= 1 && (n == 1 ==> name == [])
  {
    hide Labels;
  }

  /** The data is a target name of one byte: the printer asks for one byte more than it takes. */
  predicate ShortData(r: Record, data: seq<Byte>) {
    (r.rdata.Target? && |data| == 3) || (r.rdata.Service? && |data| == 9)
  }

  predicate EmptyTarget(r: Record) {
    (r.rdata.Target? && r.rdata.name == []) || (r.rdata.Service? && r.rdata.target == [])
  }

  function One(b: bool): nat {
    if b then 1 else 0
  }

  lemma RdataInSize(r: Record, size: int, size': int, pos: nat, tab: seq<Entry>)
    requires PrintRdata(r, size, pos, tab).Printed?
    ensures var d := PrintRdata(r, size, pos, tab);
            && |d.bytes| >= 2 && (ShortData(r, d.bytes) ==> EmptyTarget(r))
            && PrintRdata(r, size', pos, tab) == if size' >= |d.bytes| + One(ShortData(r, d.bytes)) then d else TooSmall
  {
    hide Be16, PrintName;
    if r.rdata.Target? {
      TargetInSize(r.rdata.name, size - 2, size' - 2, pos + 2, tab);
    } else if r.rdata.Service? {
      TargetInSize(r.rdata.target, size - 8, size' - 8, pos + 8, tab);
    }
  }

  lemma TargetInSize(name: Name, size: int, size': int, pos: nat, tab: seq<Entry>)
    requires PrintName(name, size, pos, tab).Printed?
    ensures var n := PrintName(name, size, pos, tab);
            && |n.bytes| >= 1 && (|n.bytes| == 1 ==> name == [])
            && (size' >= |n.bytes| ==> PrintName(name, size', pos, tab) == n)
            && (2 <= size' < |n.bytes| ==> PrintName(name, size', pos, tab).TooSmall?)
  {
    hide Wire, FindLabel;
    NameBytes(name, size, pos, tab);
  }

  /** The shortest data of a record as printed. */
  function DataOf(r: Record, size: int, pos: nat, tab: seq<Entry>): seq<Byte> {
    var n := PrintName(r.name, size, pos, tab);
    if n.TooSmall? then []
    else
      var d := PrintRdata(r, size - |n.bytes| - 8, pos + |n.bytes| + 8, n.tab);
      if d.TooSmall? then [] else d.bytes
  }

  lemma RecordInSize(r: Record, size: int, size': int, pos: nat, tab: seq<Entry>)
    requires PrintRecord(r, size, pos, tab).Printed?
    ensures var p, short := PrintRecord(r, size, pos, tab), ShortData(r, DataOf(r, size, pos, tab));
            && |p.bytes| >= 11 && (short ==> EmptyTarget(r))
            && PrintRecord(r, size', pos, tab) == if size' >= |p.bytes| + One(short) then p else TooSmall
  {
    hide Wire, FindLabel, PrintRdata, ShortData, EmptyTarget, Fixed, PrintName;
    var n := PrintName(r.name, size, pos, tab);
    var n' := PrintName(r.name, size', pos, tab);
    NameBytes(r.name, size, pos, tab);
    RdataInSize(r, size - |n.bytes| - 8, size' - |n.bytes| - 8, pos + |n.bytes| + 8, n.tab);
    if size' >= |n.bytes| {
      NameInAnySize(r.name, size, size', pos, tab);
    } else if n'.Printed? && size' >= |n'.bytes| {
      NameInAnySize(r.name, size', size, pos, tab);
    }
  }

  /** Whether the last of the records ends in a target name of one byte. */
  predicate ShortEnd(rs: seq<Record>, size: int, pos: nat, tab: seq<Entry>) {
    rs != [] &&
    var r := PrintRecord(rs[0], size, pos, tab);
    if |rs| == 1 then ShortData(rs[0], DataOf(rs[0], size, pos, tab))
    else r.Printed? && ShortEnd(rs[1..], size - |r.bytes|, pos + |r.bytes|, r.tab)
  }

  lemma {:induction false} RecordsInSize(rs: seq<Record>, size: int, size': int, pos: nat, tab: seq<Entry>)
    requires rs != [] && PrintRecords(rs, size, pos, tab).Printed?
    ensures var p, short := PrintRecords(rs, size, pos, tab), ShortEnd(rs, size, pos, tab);
            && |p.bytes| >= 11 && (short ==> EmptyTarget(rs[|rs| - 1]))
            && PrintRecords(rs, size', pos, tab) == if size' >= |p.bytes| + One(short) then p else TooSmall
    decreases |rs|
  {
    hide PrintRecord, ShortData, EmptyTarget, DataOf;
    var r := PrintRecord(rs[0], size, pos, tab);
    RecordInSize(rs[0], size, size', pos, tab);
    if |rs| > 1 {
      RecordsInSize(rs[1..], size - |r.bytes|, size' - |r.bytes|, pos + |r.bytes|, r.tab);
    } else {
      assert rs[1..] == [];
    }
  }

  /** The questions are printed exactly when the size reaches to the end of the last name and
      four bytes more, the types and classes of all others not counted. */
  lemma {:induction false} QuestionsInSize(qs: seq<Question>, size: int, size': int, pos: nat, tab: seq<Entry>)
    requires qs != [] && PrintQuestions(qs, size, pos, tab).Printed?
    ensures |PrintQuestions(qs, size, pos, tab).bytes| >= 4 * |qs|
    ensures PrintQuestions(qs, size', pos, tab) ==
      if size' >= |PrintQuestions(qs, size, pos, tab).bytes| - 4 * (|qs| - 1) then PrintQuestions(qs, size, pos, tab) else TooSmall
    decreases |qs|
  {
    hide PrintName;
    var n := PrintName(qs[0].name, size, pos, tab);
    var q := PrintQuestion(qs[0], size, pos, tab);
    var n' := PrintName(qs[0].name, size', pos, tab);
    if size' >= |n.bytes| {
      NameInAnySize(qs[0].name, size, size', pos, tab);
    } else if n'.Printed? && size' - |n'.bytes| >= 4 {
      NameInAnySize(qs[0].name, size', size, pos, tab);
    }
    if |qs| > 1 {
      QuestionsInSize(qs[1..], size - |q.bytes| + 4, size' - |q.bytes| + 4, pos + |q.bytes|, q.tab);
    } else {
      assert qs[1..] == [];
    }
  }

  /** Whether the message ends in a target name of one byte. */
  predicate EndsShort(p: Packet, size: int) {
    var q := PrintQuestions(p.q, size - 12, 12, []);
    q.Printed? && ShortEnd(p.ans + p.ns + p.arr, size - 12 - |q.bytes| + 4 * |p.q|, 12 + |q.bytes|, q.tab)
  }

  /** The least size in which a message of len bytes is printed: four bytes less for every
      question, but for the last question when no record follows. */
  function LeastSize(p: Packet, len: nat, short: bool): int {
    if p.ans + p.ns + p.arr != [] then len - 4 * |p.q| + One(short)
    else if p.q != [] then len - 4 * (|p.q| - 1)
    else len
  }

  /** Every message is printed exactly in the sizes from its least size on, and always alike. With
      a question and a record, or with two questions, the least size is below the length: there
      the printer writes past the size it is told. */
  lemma WritesPastSize(p: Packet, size: int, size': int)
    requires PrintPacket(p, size).Some?
    ensures var m := PrintPacket(p, size);
            PrintPacket(p, size') == if size' >= LeastSize(p, |m.value|, EndsShort(p, size)) then m else None
    ensures EndsShort(p, size) ==> var rs := p.ans + p.ns + p.arr; rs != [] && EmptyTarget(rs[|rs| - 1])
  {
    hide PrintQuestions, PrintRecords, ShortEnd, Header, EmptyTarget;
    var rs := p.ans + p.ns + p.arr;
    var q := PrintQuestions(p.q, size - 12, 12, []);
    var n, n' := size - 12 - |q.bytes| + 4 * |p.q|, size' - 12 - |q.bytes| + 4 * |p.q|;
    NothingInSize(size - 12, size' - 12, 12, n, n', 12 + |q.bytes|, q.tab);
    if rs != [] {
      RecordsInSize(rs, n, n', 12 + |q.bytes|, q.tab);
    }
    if p.q != [] {
      QuestionsInSize(p.q, size - 12, size' - 12, 12, []);
    }
  }

  lemma NothingInSize(size: int, size': int, pos: nat, n: int, n': int, pos': nat, tab: seq<Entry>)
    ensures PrintQuestions([], size, pos, []) == PrintQuestions([], size', pos, []) == Printed([], [])
    ensures PrintRecords([], n, pos', tab) == PrintRecords([], n', pos', tab) == Printed([], tab)
    ensures !ShortEnd([], n, pos', tab)
  {
  }
}
