/** Messages as other servers write them: names in full or cut short by a pointer (section
    4.1.4 of RFC 1035), and records of all types. What the parser of dns.c reads from them. */
module DnsMessage {
  import opened DnsTypes
  import opened DnsName
  import opened DnsPrint
  import opened DnsParse
  import opened DnsRoundTrip

  // ----- names -----

  /** How a name is written: in full, or as some labels and then a pointer to the rest. */
  datatype Spelling = Whole(name: Name) | Cut(labels: Name, pos: nat, rest: Spelling)

  function Spelled(sp: Spelling): Name {
    match sp
    case Whole(name) => name
    case Cut(labels, _, rest) => if labels == [] then Spelled(rest) else labels + [DOT] + Spelled(rest)
  }

  function NameBytes(sp: Spelling): seq<Byte> {
    match sp
    case Whole(name) => Wire(name)
    case Cut(labels, pos, _) => Labels(labels) + Pointer(pos)
  }

  function Cuts(sp: Spelling): nat {
    if sp.Whole? then 0 else 1 + Cuts(sp.rest)
  }

  /** The root or non-empty labels; labels are not cut off in front of the root. */
  predicate GoodSpelling(sp: Spelling) {
    match sp
    case Whole(name) => name == [] || IsName(name)
    case Cut(labels, pos, rest) => pos < 0x4000 && GoodSpelling(rest) && (labels == [] || (IsName(labels) && Spelled(rest) != []))
  }

  /** Every pointer points at the rest of the name. */
  predicate PointsWell(mem: Memory, max: nat, sp: Spelling) {
    sp.Cut? ==> sp.pos + |NameBytes(sp.rest)| <= max && Holds(mem, sp.pos, NameBytes(sp.rest)) && PointsWell(mem, max, sp.rest)
  }

  /** What reading labels in front of something makes of what is read there. */
  lemma {:induction false} LabelsThen(mem: Memory, max: nat, depth: nat, p: nat, labels: Name)
    requires IsName(labels) && depth <= MAX_DEPTH && Holds(mem, p, Labels(labels)) && p + |Labels(labels)| < max && mem(p + |Labels(labels)|) != 0
    ensures var q := p + |Labels(labels)|;
            var t, n := NameAt(mem, max, depth, q), NameLenAt(mem, max, depth, q);
            && (if t.status == SUCCESS then NameAt(mem, max, depth, p) == NameText(SUCCESS, labels + [DOT] + t.text) else NameAt(mem, max, depth, p).status == t.status)
            && (if n.status == SUCCESS then NameLenAt(mem, max, depth, p) == NameLen(SUCCESS, |Labels(labels)| + n.parsed, |labels| + 1 + n.len)
                else NameLenAt(mem, max, depth, p).status == n.status)
    decreases |labels|
  {
    hide NameAt, NameLenAt, Labels, LabelEnd, IsName;
    var k := LabelEnd(labels);
    LabelEndIsFirstDot(labels);
    LabelsUnfold(labels);
    var rest: seq<Byte> := if k < |labels| then Labels(labels[k + 1..]) else [];
    HoldsParts(mem, p, [k] + labels[..k], rest);
    HoldsParts(mem, p, [k], labels[..k]);
    HoldsFirst(mem, p, [k]);
    SliceHeld(mem, p + 1, labels[..k]);
    var p' := p + k + 1;
    if k < |labels| {
      StartsWithLabel(mem, p', labels[k + 1..]);
      LabelRead(mem, max, depth, p, k);
      LabelsThen(mem, max, depth, p', labels[k + 1..]);
      assert labels == labels[..k] + [DOT] + labels[k + 1..];
    } else {
      LabelRead(mem, max, depth, p, k);
      assert labels == labels[..k];
    }
  }

  lemma HoldsFirst(mem: Memory, p: nat, s: seq<Byte>)
    requires Holds(mem, p, s) && s != []
    ensures mem(p) == s[0]
  {
    assert mem(p + 0) == s[0];
  }

  lemma SliceHeld(mem: Memory, p: nat, s: seq<Byte>)
    requires Holds(mem, p, s)
    ensures Slice(mem, p, |s|) == s
  {
  }

  lemma StartsWithLabel(mem: Memory, p: nat, name: Name)
    requires IsName(name) && Holds(mem, p, Labels(name))
    ensures mem(p) != 0
  {
    LabelsUnfold(name);
    HoldsFirst(mem, p, Labels(name));
  }

  lemma LabelRead(mem: Memory, max: nat, depth: nat, p: nat, k: nat)
    requires depth <= MAX_DEPTH && 0 < k < 192 && mem(p) == k && p + k + 1 < max && mem(p + k + 1) != 0
    ensures var t, n := NameAt(mem, max, depth, p + k + 1), NameLenAt(mem, max, depth, p + k + 1);
            && (if t.status == SUCCESS then NameAt(mem, max, depth, p) == NameText(SUCCESS, Slice(mem, p + 1, k) + [DOT] + t.text)
                else NameAt(mem, max, depth, p).status == t.status)
            && (if n.status == SUCCESS then NameLenAt(mem, max, depth, p) == NameLen(SUCCESS, k + 1 + n.parsed, k + 1 + n.len)
                else NameLenAt(mem, max, depth, p).status == n.status)
  {
  }

  /** A name is read as it is spelled exactly while its pointers stay within the limit. */
  lemma {:induction false} SpellingReads(mem: Memory, max: nat, depth: nat, p: nat, sp: Spelling)
    requires GoodSpelling(sp) && PointsWell(mem, max, sp) && Holds(mem, p, NameBytes(sp)) && p + |NameBytes(sp)| <= max
    ensures if depth + Cuts(sp) <= MAX_DEPTH then
              NameAt(mem, max, depth, p) == NameText(SUCCESS, Spelled(sp)) && NameLenAt(mem, max, depth, p) == NameLen(SUCCESS, |NameBytes(sp)|, |Spelled(sp)|)
            else NameAt(mem, max, depth, p).status == NameLenAt(mem, max, depth, p).status == EINNAMEPTR
    decreases sp
  {
    if depth > MAX_DEPTH {
    } else if sp.Whole? {
      if sp.name == [] {
        HoldsFirst(mem, p, Wire([]));
        EndOfName(mem, max, depth, p);
      } else {
        WireDecodes(mem, max, depth, p, sp.name);
        NameUnfolds(sp.name);
      }
    } else {
      SpellingReads(mem, max, depth + 1, sp.pos, sp.rest);
      CutReads(mem, max, depth, p, sp);
    }
  }

  lemma CutReads(mem: Memory, max: nat, depth: nat, p: nat, sp: Spelling)
    requires sp.Cut? && GoodSpelling(sp) && depth <= MAX_DEPTH && Holds(mem, p, NameBytes(sp)) && p + |NameBytes(sp)| <= max && sp.pos < max
    ensures var t, n := NameAt(mem, max, depth + 1, sp.pos), NameLenAt(mem, max, depth + 1, sp.pos);
            var before: Name := if sp.labels == [] then [] else sp.labels + [DOT];
            && (if t.status == SUCCESS then NameAt(mem, max, depth, p) == NameText(SUCCESS, before + t.text) else NameAt(mem, max, depth, p).status == t.status)
            && (if n.status == SUCCESS then NameLenAt(mem, max, depth, p) == NameLen(SUCCESS, |NameBytes(sp)|, |before| + n.len)
                else NameLenAt(mem, max, depth, p).status == n.status)
  {
    hide NameAt, NameLenAt, Labels, IsName, Spelled;
    var k := |Labels(sp.labels)|;
    HoldsParts(mem, p, Labels(sp.labels), Pointer(sp.pos));
    PointerRead(mem, max, depth, p + k, sp.pos);
    if sp.labels == [] {
      NoLabels();
    } else {
      LabelsThen(mem, max, depth, p, sp.labels);
    }
  }

  lemma NoLabels()
    ensures Labels([]) == []
  {
  }

  lemma PointerRead(mem: Memory, max: nat, depth: nat, p: nat, pos: nat)
    requires Holds(mem, p, Pointer(pos)) && pos < 0x4000 && pos < max && depth <= MAX_DEPTH
    ensures mem(p) != 0
    ensures var t, n := NameAt(mem, max, depth + 1, pos), NameLenAt(mem, max, depth + 1, pos);
            && (if t.status == SUCCESS then NameAt(mem, max, depth, p) == t else NameAt(mem, max, depth, p).status == t.status)
            && (if n.status == SUCCESS then NameLenAt(mem, max, depth, p) == NameLen(SUCCESS, 2, n.len) else NameLenAt(mem, max, depth, p).status == n.status)
  {
    assert mem(p + 0) == Pointer(pos)[0] && mem(p + 1) == Pointer(pos)[1];
    assert PointerAt(mem, p) == pos;
  }

  lemma SpelledParses(mem: Memory, max: nat, p: nat, sp: Spelling)
    requires GoodSpelling(sp) && PointsWell(mem, max, sp) && Holds(mem, p, NameBytes(sp)) && p + |NameBytes(sp)| <= max
    ensures ParseName(mem, max, p) == if Cuts(sp) <= MAX_DEPTH then Parsed(Spelled(sp), |NameBytes(sp)|) else Error(EINNAMEPTR)
  {
    hide NameAt, NameLenAt;
    SpellingReads(mem, max, 0, p, sp);
  }

  // ----- records of all types -----

  datatype Data =
    | Bytes(bytes: seq<Byte>)
    | ToName(name: Spelling)
    | ToService(prio: nat, weight: nat, port: nat, target: Spelling)

  /** A record as it is written. */
  datatype Written = Written(owner: Spelling, rtype: nat, rclass: nat, ttl: nat, data: Data)

  datatype Asked = Asked(owner: Spelling, qtype: nat, qclass: nat)

  datatype Message = Message(id: nat, flags: nat, q: seq<Asked>, ans: seq<Written>, ns: seq<Written>, arr: seq<Written>)

  function DataBytes(d: Data): seq<Byte> {
    match d
    case Bytes(b) => b
    case ToName(name) => NameBytes(name)
    case ToService(prio, weight, port, target) => Be16(prio) + Be16(weight) + Be16(port) + NameBytes(target)
  }

  /** Type, class, time to live and the length of the data. */
  function FixedBytes(w: Written): (s: seq<Byte>)
    ensures |s| == 10
  {
    Be16(w.rtype) + Be16(w.rclass) + Be32(w.ttl) + Be16(|DataBytes(w.data)|)
  }

  function RecordBytes(w: Written): seq<Byte> {
    NameBytes(w.owner) + (FixedBytes(w) + DataBytes(w.data))
  }

  function AskedBytes(a: Asked): seq<Byte> {
    NameBytes(a.owner) + (Be16(a.qtype) + Be16(a.qclass))
  }

  function RecordsBytes(ws: seq<Written>): seq<Byte> {
    if ws == [] then [] else RecordBytes(ws[0]) + RecordsBytes(ws[1..])
  }

  function AskedAllBytes(qs: seq<Asked>): seq<Byte> {
    if qs == [] then [] else AskedBytes(qs[0]) + AskedAllBytes(qs[1..])
  }

  function CountBytes(m: Message): (s: seq<Byte>)
    ensures |s| == 12
  {
    Be16(m.id) + Be16(m.flags) + Be16(|m.q|) + Be16(|m.ans|) + Be16(|m.ns|) + Be16(|m.arr|)
  }

  function MessageBytes(m: Message): seq<Byte> {
    CountBytes(m) + (AskedAllBytes(m.q) + (RecordsBytes(m.ans) + (RecordsBytes(m.ns) + RecordsBytes(m.arr))))
  }

  // ----- the same as a parsed packet -----

  function AsRdata(w: Written): Rdata {
    match w.data
    case Bytes(b) => if w.rtype == 1 || w.rtype == 28 then Address(b) else Raw(b)
    case ToName(name) => Target(Spelled(name))
    case ToService(prio, weight, port, target) => Service(prio, weight, port, Spelled(target))
  }

  function AsRecord(w: Written): Record {
    Record(Spelled(w.owner), w.rtype, w.rclass, w.ttl, |DataBytes(w.data)|, AsRdata(w))
  }

  function AsRecords(ws: seq<Written>): (rs: seq<Record>)
    ensures |rs| == |ws|
  {
    if ws == [] then [] else [AsRecord(ws[0])] + AsRecords(ws[1..])
  }

  function AsQuestions(qs: seq<Asked>): (rs: seq<Question>)
    ensures |rs| == |qs|
  {
    if qs == [] then [] else [Question(Spelled(qs[0].owner), qs[0].qtype, qs[0].qclass)] + AsQuestions(qs[1..])
  }

  function AsPacket(m: Message): Packet {
    Packet(m.id, m.flags, AsQuestions(m.q), AsRecords(m.ans), AsRecords(m.ns), AsRecords(m.arr))
  }

  // ----- what can be written -----

  /** The data of the types that the parser knows: 1 A, 28 AAAA, 5 CNAME, 2 NS, 12 PTR, 33 SRV. */
  predicate DataFits(w: Written) {
    if w.rtype == 1 then w.data.Bytes? && |w.data.bytes| == 4
    else if w.rtype == 28 then w.data.Bytes? && |w.data.bytes| == 16
    else if w.rtype == 5 || w.rtype == 2 || w.rtype == 12 then w.data.ToName?
    else if w.rtype == 33 then w.data.ToService? && w.data.prio < 0x1_0000 && w.data.weight < 0x1_0000 && w.data.port < 0x1_0000
    else w.data.Bytes?
  }

  predicate Names(w: Written) {
    w.rtype in {1, 28, 5, 2, 12, 33}
  }

  predicate GoodWritten(mem: Memory, max: nat, w: Written) {
    && w.rtype < 0x1_0000 && w.rclass < 0x1_0000 && w.ttl < 0x1_0000_0000 && |DataBytes(w.data)| < 0x1_0000 && DataFits(w)
    && GoodSpelling(w.owner) && PointsWell(mem, max, w.owner)
    && (w.data.ToName? ==> GoodSpelling(w.data.name) && PointsWell(mem, max, w.data.name))
    && (w.data.ToService? ==> GoodSpelling(w.data.target) && PointsWell(mem, max, w.data.target))
  }

  predicate GoodAsked(mem: Memory, max: nat, a: Asked) {
    a.qtype < 0x1_0000 && a.qclass < 0x1_0000 && GoodSpelling(a.owner) && PointsWell(mem, max, a.owner)
  }

  /** No pointer chain is too long, and the types that the parser knows are of class IN. */
  predicate Readable(w: Written) {
    && Cuts(w.owner) <= MAX_DEPTH && (Names(w) ==> w.rclass == 1)
    && (w.data.ToName? ==> Cuts(w.data.name) <= MAX_DEPTH) && (w.data.ToService? ==> Cuts(w.data.target) <= MAX_DEPTH)
  }

  predicate AllReadable(ws: seq<Written>) {
    forall i :: 0 <= i < |ws| ==> Readable(ws[i])
  }

  predicate AllGood(mem: Memory, max: nat, ws: seq<Written>) {
    forall i :: 0 <= i < |ws| ==> GoodWritten(mem, max, ws[i])
  }

  lemma DataReads(mem: Memory, max: nat, p: nat, w: Written)
    requires GoodWritten(mem, max, w) && Holds(mem, p, DataBytes(w.data)) && p + |DataBytes(w.data)| <= max
    ensures ParseRdata(mem, max, p, w.rtype, |DataBytes(w.data)|) ==
            if (w.data.ToName? && Cuts(w.data.name) > MAX_DEPTH) || (w.data.ToService? && Cuts(w.data.target) > MAX_DEPTH) then Error(EINNAMEPTR)
            else Parsed(AsRdata(w), |DataBytes(w.data)|)
  {
    hide ParseName, GoodSpelling, PointsWell, NameBytes, Spelled, Cuts, U16, Be16, Holds;
    match w.data {
      case Bytes(b) => SliceHeld(mem, p, b);
      case ToName(name) => SpelledParses(mem, max, p, name);
      case ToService(prio, weight, port, target) =>
        HoldsParts(mem, p, Be16(prio) + Be16(weight) + Be16(port), NameBytes(target));
        HoldsParts(mem, p, Be16(prio) + Be16(weight), Be16(port));
        HoldsParts(mem, p, Be16(prio), Be16(weight));
        Holds16(mem, p, prio);
        Holds16(mem, p + 2, weight);
        Holds16(mem, p + 4, port);
        SpelledParses(mem, max, p + 6, target);
    }
  }

  lemma FixedReads(mem: Memory, max: nat, p: nat, w: Written)
    requires GoodWritten(mem, max, w) && Holds(mem, p, FixedBytes(w))
    ensures U16(mem, p) == w.rtype && U16(mem, p + 2) == w.rclass && U32(mem, p + 4) == w.ttl && U16(mem, p + 8) == |DataBytes(w.data)|
  {
    hide GoodSpelling, PointsWell, DataBytes, U16, U32, Be16, Be32, Holds, DataFits;
    HoldsParts(mem, p, Be16(w.rtype) + Be16(w.rclass) + Be32(w.ttl), Be16(|DataBytes(w.data)|));
    HoldsParts(mem, p, Be16(w.rtype) + Be16(w.rclass), Be32(w.ttl));
    HoldsParts(mem, p, Be16(w.rtype), Be16(w.rclass));
    Holds16(mem, p, w.rtype);
    Holds16(mem, p + 2, w.rclass);
    Holds32(mem, p + 4, w.ttl);
    Holds16(mem, p + 8, |DataBytes(w.data)|);
  }

  /** A record is read exactly when it is readable, and then with the very data written. */
  lemma RecordReads(mem: Memory, max: nat, p: nat, w: Written)
    requires GoodWritten(mem, max, w) && Holds(mem, p, RecordBytes(w)) && p + |RecordBytes(w)| <= max
    ensures Readable(w) ==> ParseRecord(mem, max, p) == Parsed(AsRecord(w), |RecordBytes(w)|)
    ensures !Readable(w) ==> ParseRecord(mem, max, p).Error?
  {
    hide ParseName, ParseRdata, GoodSpelling, PointsWell, NameBytes, DataBytes, FixedBytes, Spelled, Cuts, U16, U32, Holds, DataFits, AsRdata;
    var q := p + |NameBytes(w.owner)|;
    HoldsParts(mem, p, NameBytes(w.owner), FixedBytes(w) + DataBytes(w.data));
    HoldsParts(mem, q, FixedBytes(w), DataBytes(w.data));
    SpelledParses(mem, max, p, w.owner);
    FixedReads(mem, max, q, w);
    DataReads(mem, max, q + 10, w);
  }

  lemma AskedReads(mem: Memory, max: nat, p: nat, a: Asked)
    requires GoodAsked(mem, max, a) && Holds(mem, p, AskedBytes(a)) && p + |AskedBytes(a)| <= max
    ensures Cuts(a.owner) <= MAX_DEPTH ==> ParseQuestion(mem, max, p) == Parsed(Question(Spelled(a.owner), a.qtype, a.qclass), |AskedBytes(a)|)
    ensures Cuts(a.owner) > MAX_DEPTH ==> ParseQuestion(mem, max, p).Error?
  {
    hide ParseName, GoodSpelling, PointsWell, NameBytes, Spelled, Cuts, U16, Be16, Holds;
    var q := p + |NameBytes(a.owner)|;
    HoldsParts(mem, p, NameBytes(a.owner), Be16(a.qtype) + Be16(a.qclass));
    HoldsParts(mem, q, Be16(a.qtype), Be16(a.qclass));
    SpelledParses(mem, max, p, a.owner);
    Holds16(mem, q, a.qtype);
    Holds16(mem, q + 2, a.qclass);
  }

  lemma {:induction false} RecordsRead(mem: Memory, max: nat, p: nat, ws: seq<Written>)
    requires AllGood(mem, max, ws) && Holds(mem, p, RecordsBytes(ws)) && p + |RecordsBytes(ws)| <= max
    ensures AllReadable(ws) ==> ParseRecords(mem, max, p, |ws|) == Parsed(AsRecords(ws), |RecordsBytes(ws)|)
    ensures !AllReadable(ws) ==> ParseRecords(mem, max, p, |ws|).Error?
    decreases |ws|
  {
    hide ParseRecord, GoodWritten, Readable, RecordBytes, AsRecord, Holds;
    if ws != [] {
      HoldsParts(mem, p, RecordBytes(ws[0]), RecordsBytes(ws[1..]));
      RecordReads(mem, max, p, ws[0]);
      RecordsRead(mem, max, p + |RecordBytes(ws[0])|, ws[1..]);
      FirstReadable(ws);
    }
  }

  lemma FirstReadable(ws: seq<Written>)
    requires ws != []
    ensures AllReadable(ws) <==> Readable(ws[0]) && AllReadable(ws[1..])
  {
    hide Readable;
    if Readable(ws[0]) && AllReadable(ws[1..]) {
      forall i | 0 <= i < |ws| ensures Readable(ws[i]) {
        if i > 0 { assert ws[i] == ws[1..][i - 1]; }
      }
    }
  }

  predicate AllAskable(qs: seq<Asked>) {
    forall i :: 0 <= i < |qs| ==> Cuts(qs[i].owner) <= MAX_DEPTH
  }

  lemma {:induction false} AskedRead(mem: Memory, max: nat, p: nat, qs: seq<Asked>)
    requires (forall i :: 0 <= i < |qs| ==> GoodAsked(mem, max, qs[i])) && Holds(mem, p, AskedAllBytes(qs)) && p + |AskedAllBytes(qs)| <= max
    ensures AllAskable(qs) ==> ParseQuestions(mem, max, p, |qs|) == Parsed(AsQuestions(qs), |AskedAllBytes(qs)|)
    ensures !AllAskable(qs) ==> ParseQuestions(mem, max, p, |qs|).Error?
    decreases |qs|
  {
    hide ParseQuestion, GoodAsked, AskedBytes, Holds, Cuts, Spelled;
    if qs != [] {
      HoldsParts(mem, p, AskedBytes(qs[0]), AskedAllBytes(qs[1..]));
      AskedReads(mem, max, p, qs[0]);
      AskedRead(mem, max, p + |AskedBytes(qs[0])|, qs[1..]);
      FirstAskable(qs);
    }
  }

  lemma FirstAskable(qs: seq<Asked>)
    requires qs != []
    ensures AllAskable(qs) <==> Cuts(qs[0].owner) <= MAX_DEPTH && AllAskable(qs[1..])
  {
    hide Cuts;
    if Cuts(qs[0].owner) <= MAX_DEPTH && AllAskable(qs[1..]) {
      forall i | 0 <= i < |qs| ensures Cuts(qs[i].owner) <= MAX_DEPTH {
        if i > 0 { assert qs[i] == qs[1..][i - 1]; }
      }
    }
  }

  // ----- messages -----

  predicate GoodMessage(mem: Memory, max: nat, m: Message) {
    && m.id < 0x1_0000 && m.flags < 0x1_0000
    && |m.q| < 0x1_0000 && |m.ans| < 0x1_0000 && |m.ns| < 0x1_0000 && |m.arr| < 0x1_0000
    && (forall i :: 0 <= i < |m.q| ==> GoodAsked(mem, max, m.q[i]))
    && AllGood(mem, max, m.ans) && AllGood(mem, max, m.ns) && AllGood(mem, max, m.arr)
  }

  lemma CountsRead(mem: Memory, max: nat, m: Message)
    requires GoodMessage(mem, max, m) && Holds(mem, 0, CountBytes(m))
    ensures U16(mem, 0) == m.id && U16(mem, 2) == m.flags && U16(mem, 4) == |m.q|
    ensures U16(mem, 6) == |m.ans| && U16(mem, 8) == |m.ns| && U16(mem, 10) == |m.arr|
  {
    hide Be16, U16, GoodAsked, AllGood, Holds;
    var a := Be16(m.id) + Be16(m.flags) + Be16(|m.q|) + Be16(|m.ans|);
    HoldsParts(mem, 0, a + Be16(|m.ns|), Be16(|m.arr|));
    HoldsParts(mem, 0, a, Be16(|m.ns|));
    HoldsParts(mem, 0, Be16(m.id) + Be16(m.flags) + Be16(|m.q|), Be16(|m.ans|));
    HoldsParts(mem, 0, Be16(m.id) + Be16(m.flags), Be16(|m.q|));
    HoldsParts(mem, 0, Be16(m.id), Be16(m.flags));
    Holds16(mem, 0, m.id);
    Holds16(mem, 2, m.flags);
    Holds16(mem, 4, |m.q|);
    Holds16(mem, 6, |m.ans|);
    Holds16(mem, 8, |m.ns|);
    Holds16(mem, 10, |m.arr|);
  }

  /** A whole message, with records of any type in any section and its names cut short anywhere:
      the parser reads it to its end and gives every record with the data that was written, if
      and only if no chain of pointers is longer than the limit and all records of the types
      that it knows are of class IN. */
  lemma MessageReads(m: Message, mem: Memory)
    requires GoodMessage(mem, |MessageBytes(m)|, m) && Holds(mem, 0, MessageBytes(m))
    ensures var len := |MessageBytes(m)|;
            if AllAskable(m.q) && AllReadable(m.ans) && AllReadable(m.ns) && AllReadable(m.arr) then ParsePacket(mem, len) == Parsed(AsPacket(m), len)
            else ParsePacket(mem, len).Error?
  {
    hide ParseRecords, ParseQuestions, U16, Holds, GoodAsked, AllGood, RecordsBytes, AskedAllBytes, CountBytes, AllReadable, AllAskable, AsRecords, AsQuestions;
    var max := |MessageBytes(m)|;
    var q, a, n, r := AskedAllBytes(m.q), RecordsBytes(m.ans), RecordsBytes(m.ns), RecordsBytes(m.arr);
    HoldsParts(mem, 0, CountBytes(m), q + (a + (n + r)));
    HoldsParts(mem, 12, q, a + (n + r));
    HoldsParts(mem, 12 + |q|, a, n + r);
    HoldsParts(mem, 12 + |q| + |a|, n, r);
    CountsRead(mem, max, m);
    AskedRead(mem, max, 12, m.q);
    RecordsRead(mem, max, 12 + |q|, m.ans);
    RecordsRead(mem, max, 12 + |q| + |a|, m.ns);
    RecordsRead(mem, max, 12 + |q| + |a| + |n|, m.arr);
  }

  // ----- messages cut short -----

  /** What is read within a smaller size is read alike within the larger one. */
  lemma {:induction false} SameName(mem: Memory, size: nat, max: nat, depth: nat, p: nat)
    requires size <= max
    ensures NameAt(mem, size, depth, p).status == SUCCESS ==> NameAt(mem, max, depth, p) == NameAt(mem, size, depth, p)
    ensures NameLenAt(mem, size, depth, p).status == SUCCESS ==> NameLenAt(mem, max, depth, p) == NameLenAt(mem, size, depth, p)
    decreases if depth <= MAX_DEPTH then MAX_DEPTH + 1 - depth else 0, if p < size then size - p else 0
  {
    if depth <= MAX_DEPTH && mem(p) != 0 {
      if mem(p) >= 192 {
        if PointerAt(mem, p) < size {
          SameName(mem, size, max, depth + 1, PointerAt(mem, p));
        }
      } else if p + mem(p) + 1 < size {
        SameName(mem, size, max, depth, p + mem(p) + 1);
      }
    }
  }

  lemma SameParsedName(mem: Memory, size: nat, max: nat, p: nat)
    requires size <= max
    ensures ParseName(mem, size, p).Parsed? ==> ParseName(mem, max, p) == ParseName(mem, size, p)
  {
    hide NameAt, NameLenAt;
    SameName(mem, size, max, 0, p);
    LengthPassFitsCopyPass(mem, size, 0, p);
  }

  lemma SameRecord(mem: Memory, size: nat, max: nat, p: nat)
    requires size <= max
    ensures ParseRecord(mem, size, p).Parsed? ==> ParseRecord(mem, max, p) == ParseRecord(mem, size, p)
    ensures ParseRecord(mem, size, p).Parsed? ==>
      ParseName(mem, size, p).Parsed? && var q := p + ParseName(mem, size, p).len; q + 10 + U16(mem, q + 8) <= size
  {
    hide ParseName, U16;
    SameParsedName(mem, size, max, p);
    var n := ParseName(mem, size, p);
    if n.Parsed? {
      SameParsedName(mem, size, max, p + n.len + 10);
      SameParsedName(mem, size, max, p + n.len + 16);
    }
  }

  /** A record that is read ends within the size. */
  lemma RecordInside(mem: Memory, size: nat, max: nat, p: nat, w: Written)
    requires size <= max && GoodWritten(mem, max, w) && Readable(w) && Holds(mem, p, RecordBytes(w)) && p + |RecordBytes(w)| <= max
    requires ParseRecord(mem, size, p).Parsed?
    ensures ParseRecord(mem, size, p).len == |RecordBytes(w)| && p + |RecordBytes(w)| <= size
  {
    hide ParseName, ParseRecord, GoodSpelling, PointsWell, NameBytes, DataBytes, FixedBytes, Spelled, Cuts, U16, U32, Holds, DataFits, AsRdata;
    var q := p + |NameBytes(w.owner)|;
    SameRecord(mem, size, max, p);
    RecordReads(mem, max, p, w);
    HoldsParts(mem, p, NameBytes(w.owner), FixedBytes(w) + DataBytes(w.data));
    HoldsParts(mem, q, FixedBytes(w), DataBytes(w.data));
    SpelledParses(mem, max, p, w.owner);
    SameParsedName(mem, size, max, p);
    FixedReads(mem, max, q, w);
  }

  lemma {:induction false} RecordsInside(mem: Memory, size: nat, max: nat, p: nat, ws: seq<Written>)
    requires size <= max && AllGood(mem, max, ws) && AllReadable(ws) && Holds(mem, p, RecordsBytes(ws)) && p + |RecordsBytes(ws)| <= max
    requires ParseRecords(mem, size, p, |ws|).Parsed?
    ensures ParseRecords(mem, size, p, |ws|).len == |RecordsBytes(ws)| && (ws != [] ==> p + |RecordsBytes(ws)| <= size)
    decreases |ws|
  {
    hide ParseRecord, GoodWritten, Readable, RecordBytes, Holds;
    if ws != [] {
      HoldsParts(mem, p, RecordBytes(ws[0]), RecordsBytes(ws[1..]));
      RecordInside(mem, size, max, p, ws[0]);
      FirstReadable(ws);
      RecordsInside(mem, size, max, p + |RecordBytes(ws[0])|, ws[1..]);
      OnlyOneLeft(ws);
    }
  }

  lemma OnlyOneLeft(ws: seq<Written>)
    ensures |ws| == 1 ==> RecordsBytes(ws) == RecordBytes(ws[0])
  {
    hide RecordBytes;
    if |ws| == 1 {
      assert RecordsBytes(ws[1..]) == [] && RecordBytes(ws[0]) + [] == RecordBytes(ws[0]);
    }
  }

  lemma SameQuestion(mem: Memory, size: nat, max: nat, p: nat)
    requires size <= max
    ensures ParseQuestion(mem, size, p).Parsed? ==> ParseQuestion(mem, max, p) == ParseQuestion(mem, size, p)
  {
    hide ParseName, U16;
    SameParsedName(mem, size, max, p);
  }

  lemma {:induction false} SameQuestions(mem: Memory, size: nat, max: nat, p: nat, n: nat)
    requires size <= max
    ensures ParseQuestions(mem, size, p, n).Parsed? ==> ParseQuestions(mem, max, p, n) == ParseQuestions(mem, size, p, n)
    decreases n
  {
    hide ParseQuestion;
    if n > 0 {
      SameQuestion(mem, size, max, p);
      if ParseQuestion(mem, size, p).Parsed? {
        SameQuestions(mem, size, max, p + ParseQuestion(mem, size, p).len, n - 1);
      }
    }
  }

  /** A message that is cut short anywhere before the end of its last record is refused. */
  lemma CutMessageRefused(m: Message, mem: Memory, size: nat)
    requires GoodMessage(mem, |MessageBytes(m)|, m) && Holds(mem, 0, MessageBytes(m)) && size < |MessageBytes(m)|
    requires AllAskable(m.q) && AllReadable(m.ans) && AllReadable(m.ns) && AllReadable(m.arr) && (m.ans != [] || m.ns != [] || m.arr != [])
    ensures ParsePacket(mem, size).Error?
  {
    hide ParseRecords, ParseQuestions, U16, Holds, GoodAsked, AllGood, RecordsBytes, AskedAllBytes, CountBytes, AllReadable, AllAskable, AsRecords, AsQuestions;
    var max := |MessageBytes(m)|;
    var q, a, n, r := AskedAllBytes(m.q), RecordsBytes(m.ans), RecordsBytes(m.ns), RecordsBytes(m.arr);
    HoldsParts(mem, 0, CountBytes(m), q + (a + (n + r)));
    HoldsParts(mem, 12, q, a + (n + r));
    HoldsParts(mem, 12 + |q|, a, n + r);
    HoldsParts(mem, 12 + |q| + |a|, n, r);
    CountsRead(mem, max, m);
    AskedRead(mem, max, 12, m.q);
    SameQuestions(mem, size, max, 12, |m.q|);
    SectionInside(mem, size, max, 12 + |q|, m.ans);
    SectionInside(mem, size, max, 12 + |q| + |a|, m.ns);
    SectionInside(mem, size, max, 12 + |q| + |a| + |n|, m.arr);
  }

  lemma SectionInside(mem: Memory, size: nat, max: nat, p: nat, ws: seq<Written>)
    requires size <= max && AllGood(mem, max, ws) && AllReadable(ws) && Holds(mem, p, RecordsBytes(ws)) && p + |RecordsBytes(ws)| <= max
    ensures ParseRecords(mem, size, p, |ws|).Parsed? ==>
      ParseRecords(mem, size, p, |ws|).len == |RecordsBytes(ws)| && (if ws == [] then |RecordsBytes(ws)| == 0 else p + |RecordsBytes(ws)| <= size)
  {
    if ParseRecords(mem, size, p, |ws|).Parsed? {
      RecordsInside(mem, size, max, p, ws);
    }
  }
}
