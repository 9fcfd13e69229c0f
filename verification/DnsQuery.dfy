/** pj_dns_make_query (dns.c): the message that the resolver sends, and what the parser makes
    of it. */
module DnsQuery {
  import opened DnsTypes
  import opened DnsName
  import opened DnsParse
  import DnsPrint
  import DnsPrinter
  import DnsRoundTrip

  const EINVAL := 70004            // PJ_EINVAL
  const EDNSQRYTOOSMALL := 320040  // PJLIB_UTIL_EDNSQRYTOOSMALL
  const RD := 0x0100               // PJ_DNS_SET_RD(1)

  /** The question goes out as one packet without compression. */
  function Query(id: nat, qtype: nat, name: Name): seq<Byte> {
    DnsPrint.Header(Packet(id, RD, [Question(name, qtype, 1)], [], [], [])) + (Wire(name) + (DnsPrint.Be16(qtype) + DnsPrint.Be16(1)))
  }

  /** The size the function asks of its caller. */
  function RequiredSize(name: Name): nat {
    12 + |name| + 4
  }

  predicate EndsInDot(name: Name) {
    name != [] && name[|name| - 1] == DOT
  }

  lemma {:induction false} LabelsLength(name: Name)
    ensures |Labels(name)| == |name| + if name == [] || EndsInDot(name) then 0 else 1
    decreases |name|
  {
    if name != [] {
      LabelEndIsFirstDot(name);
      var k := LabelEnd(name);
      if k < |name| {
        LabelsLength(name[k + 1..]);
      }
    }
  }

  /** A name without trailing dot takes slen + 18 bytes; the size that is asked for is always
      short of what is written, by two bytes exactly for these names and by one otherwise. */
  lemma RequiredSizeIsShort(id: nat, qtype: nat, name: Name)
    ensures |Query(id, qtype, name)| == RequiredSize(name) + if name == [] || EndsInDot(name) then 1 else 2
  {
    LabelsLength(name);
  }

  /** The function as it runs on a buffer that holds the message; *size is in and out. */
  method MakeQuery(packet: array<Byte>, size: nat, id: nat, qtype: nat, name: Name) returns (status: nat, size': nat)
    requires |Query(id, qtype, name)| <= packet.Length
    modifies packet
    ensures status == if qtype == 0 then EINVAL else if size < RequiredSize(name) then EDNSQRYTOOSMALL else SUCCESS
    ensures status == SUCCESS ==> size' == |Query(id, qtype, name)| && packet[..] == Query(id, qtype, name) + old(packet[size'..])
    ensures status != SUCCESS ==> size' == size && packet[..] == old(packet[..])
  {
    hide Wire, DnsPrint.Be16, DnsPrint.Header;
    if qtype == 0 {
      return EINVAL, size;
    }
    if size < RequiredSize(name) {
      return EDNSQRYTOOSMALL, size;
    }
    ghost var buf0, header := old(packet[..]), DnsPrint.Header(Packet(id, RD, [Question(name, qtype, 1)], [], [], []));
    WriteQueryHeader(packet, id, qtype, name);
    assert packet[..12] == header;
    assert packet[12..] == buf0[12..];
    ghost var buf1 := packet[..];
    var p := WriteQueryName(packet, name, header);
    assert buf1[p..] == buf1[12..][p - 12..] && buf0[p..] == buf0[12..][p - 12..];
    Write16After(packet, p, qtype, header + Wire(name));
    Write16After(packet, p + 2, 1, header + Wire(name) + DnsPrint.Be16(qtype));
    assert header + Wire(name) + DnsPrint.Be16(qtype) + DnsPrint.Be16(1) == Query(id, qtype, name);
    assert buf0[p..][2..][2..] == buf0[p + 4..];
    return SUCCESS, p + 4;
  }

  /** write16 right after what has been written. */
  method Write16After(packet: array<Byte>, p: nat, v: nat, ghost done: seq<Byte>)
    requires p == |done| && p + 2 <= packet.Length && done <= packet[..]
    modifies packet
    ensures packet[..] == done + DnsPrint.Be16(v) + old(packet[p..][2..])
  {
    hide DnsPrint.Be16;
    ghost var rest := packet[p..];
    assert packet[..] == done + rest;
    DnsPrinter.Write16(packet, p, v);
  }

  /** The buffer after writing done over what it held. */
  ghost predicate Filled(buf: seq<Byte>, done: seq<Byte>, buf0: seq<Byte>) {
    |done| <= |buf0| && buf == done + buf0[|done|..]
  }

  /** The loop over the labels, and the final zero. */
  method WriteQueryName(packet: array<Byte>, name: Name, ghost header: seq<Byte>) returns (p: nat)
    requires |header| == 12 && 12 + |Wire(name)| <= packet.Length && packet[..12] == header
    modifies packet
    ensures p == 12 + |Wire(name)| && packet[..] == header + Wire(name) + old(packet[..])[p..]
  {
    hide Labels, LabelEnd, Filled, Wire;
    p := 12;
    var start := 0;
    ghost var buf0 := old(packet[..]);
    ghost var out, labels: seq<Byte> := [], Labels(name);
    WireIs(name, labels);
    assert name[0..] == name && out + labels == labels;
    NothingFilled(packet[..], header);
    assert header + out == header;
    while start < |name|
      invariant 0 <= start <= |name| && p == 12 + |out| && 12 + |labels| + 1 <= packet.Length
      invariant labels == out + Labels(name[start..])
      invariant Filled(packet[..], header + out, buf0)
    {
      var end := DnsPrinter.FindDot(name, start);
      DnsPrinter.LabelsStep(name, start, end);
      ghost var piece: seq<Byte> := [(end - start) % 256] + name[start..end];
      var next := if end < |name| then end + 1 else end;
      DnsPrinter.Gather(labels, out, piece, Labels(name[next..]));
      WriteLabelAfter(packet, p, name[start..end], header + out, buf0);
      DnsPrinter.Reassociated(header, out, piece);
      p := p + (end - start + 1);
      out := out + piece;
      start := next;
    }
    DnsPrinter.LabelsOfNothing();
    WriteEnd(packet, p, header + out, buf0);
    DnsPrinter.Reassociated(header, out, [0]);
    p := p + 1;
  }

  lemma NothingFilled(buf: seq<Byte>, header: seq<Byte>)
    requires header <= buf
    ensures Filled(buf, header, buf)
  {
  }

  lemma WireIs(name: Name, labels: seq<Byte>)
    requires labels == Labels(name)
    ensures Wire(name) == labels + [0]
  {
  }

  method WriteEnd(packet: array<Byte>, p: nat, ghost done: seq<Byte>, ghost buf0: seq<Byte>)
    requires p == |done| < packet.Length && Filled(packet[..], done, buf0)
    modifies packet
    ensures packet[..] == done + [0] + buf0[p + 1..]
  {
    packet[p] := 0;
  }

  method WriteLabelAfter(packet: array<Byte>, p: nat, text: Name, ghost done: seq<Byte>, ghost buf0: seq<Byte>)
    requires p == |done| && p + 1 + |text| <= packet.Length && Filled(packet[..], done, buf0)
    modifies packet
    ensures Filled(packet[..], done + ([|text| % 256] + text), buf0)
  {
    DnsPrinter.WriteLabel(packet, p, text);
  }

  /** The header is zeroed first, then three fields are set. */
  method WriteQueryHeader(packet: array<Byte>, id: nat, ghost qtype: nat, ghost name: Name)
    requires 12 <= packet.Length
    modifies packet
    ensures packet[..] == DnsPrint.Header(Packet(id, RD, [Question(name, qtype, 1)], [], [], [])) + old(packet[12..])
  {
    forall i | 0 <= i < 12 {
      packet[i] := 0;
    }
    ghost var rest := packet[6..];
    assert rest == NoSections() + old(packet[12..]);
    DnsPrinter.WriteFixed(packet, 0, id, RD, 1);
    HeaderParts(id, qtype, name);
  }

  /** The counts of the three empty sections. */
  function NoSections(): (s: seq<Byte>)
    ensures |s| == 6 && forall i :: 0 <= i < 6 ==> s[i] == 0
  {
    DnsPrint.Be16(0) + DnsPrint.Be16(0) + DnsPrint.Be16(0)
  }

  lemma HeaderParts(id: nat, qtype: nat, name: Name)
    ensures DnsPrint.Header(Packet(id, RD, [Question(name, qtype, 1)], [], [], [])) ==
      (DnsPrint.Be16(id) + DnsPrint.Be16(RD) + DnsPrint.Be16(1)) + NoSections()
  {
    hide DnsPrint.Be16;
  }

  // ----- reading it back -----

  /** No label can be taken for a pointer or overflow its length byte. */
  predicate ShortLabels(name: Name)
    decreases |name|
  {
    name != [] ==>
      var k := LabelEnd(name);
      k < 192 && (k < |name| ==> ShortLabels(name[k + 1..]))
  }

  /** No dot at the start, at the end, or beside another dot. */
  predicate NoEmptyLabel(name: Name) {
    forall i :: 0 <= i < |name| && name[i] == DOT ==> 0 < i && i + 1 < |name| && name[i - 1] != DOT && name[i + 1] != DOT
  }

  /** The labels before the first empty one. */
  function Visible(name: Name): (r: Name)
    decreases |name|
  {
    var k := LabelEnd(name);
    if k == 0 then []
    else
      var rest := if k < |name| then Visible(name[k + 1..]) else [];
      name[..k] + Dot(rest) + rest
  }

  /** What stands before the rest of a name that goes on. */
  function Dot(rest: Name): Name {
    if rest == [] then [] else [DOT]
  }

  lemma TailHasNoEmptyLabel(name: Name, k: nat)
    requires 0 < k == LabelEnd(name) < |name|
    ensures NoEmptyLabel(name) <==> name[k + 1..] != [] && NoEmptyLabel(name[k + 1..])
  {
    var tail := name[k + 1..];
    LabelEndIsFirstDot(name);
    assert name[k] == DOT;
    if NoEmptyLabel(name) {
      forall i | 0 <= i < |tail| && tail[i] == DOT ensures 0 < i && i + 1 < |tail| && tail[i - 1] != DOT && tail[i + 1] != DOT {
        assert name[k + 1 + i] == DOT;
      }
    } else if tail != [] && NoEmptyLabel(tail) {
      forall i | 0 <= i < |name| && name[i] == DOT ensures 0 < i && i + 1 < |name| && name[i - 1] != DOT && name[i + 1] != DOT {
        if i > k {
          assert tail[i - k - 1] == DOT;
        }
      }
    }
  }

  lemma {:induction false} VisibleIsAll(name: Name)
    ensures Visible(name) == name <==> NoEmptyLabel(name)
    ensures |Visible(name)| <= |name|
    decreases |name|
  {
    hide NoEmptyLabel, Visible, LabelEnd;
    NothingHidden();
    if name != [] {
      var k := LabelEnd(name);
      VisibleStep(name);
      if k > 0 {
        var rest := Rest(name);
        RestLength(name);
        VisibleIsAll(rest);
        VisibleParts(name, Visible(rest));
        TailOrNothing(name);
      }
    }
  }

  lemma RestLength(name: Name)
    requires name != []
    ensures |Rest(name)| < |name|
  {
  }

  /** The visible part is the whole name when the rest is visible, and there is a rest after a dot. */
  lemma VisibleParts(name: Name, v: Name)
    requires name != [] && |v| <= |Rest(name)|
    ensures var k := LabelEnd(name); var w := name[..k] + Dot(v) + v;
            |w| <= |name| && (w == name <==> v == Rest(name) && (k == |name| || v != []))
  {
    hide LabelEnd;
    LabelEndIsFirstDot(name);
    var k := LabelEnd(name);
    if k < |name| {
      assert name == name[..k] + [DOT] + Rest(name);
    } else {
      assert name[..k] + [] + [] == name;
    }
  }

  lemma TailOrNothing(name: Name)
    requires name != [] && LabelEnd(name) > 0
    ensures NoEmptyLabel(name) <==> NoEmptyLabel(Rest(name)) && (LabelEnd(name) == |name| || Rest(name) != [])
  {
    hide LabelEnd;
    var k := LabelEnd(name);
    LabelEndIsFirstDot(name);
    if k < |name| {
      TailHasNoEmptyLabel(name, k);
    }
  }

  lemma {:induction false} WireReadsAs(mem: Memory, max: nat, p: nat, name: Name)
    requires ShortLabels(name) && Holds(mem, p, Wire(name)) && p + |Wire(name)| <= max
    ensures NameAt(mem, max, 0, p) == NameText(SUCCESS, Visible(name)) && NameLenAt(mem, max, 0, p).status == SUCCESS
    ensures NoEmptyLabel(name) ==> NameLenAt(mem, max, 0, p).parsed == |Wire(name)|
    ensures mem(p) == 0 <==> Visible(name) == []
    decreases |name|
  {
    hide NameAt, NameLenAt, LabelEnd, NoEmptyLabel, Labels, Wire, ShortLabels, Visible, Holds, Rest, Slice;
    if name == [] {
      NoLabels(mem, p);
      NothingHidden();
      EndOfName(mem, max, 0, p);
    } else {
      var k := LabelEnd(name);
      WireStep(mem, p, name);
      VisibleStep(name);
      if k == 0 {
        EndOfName(mem, max, 0, p);
      } else {
        WireNotEmpty(Rest(name));
        WireReadsAs(mem, max, p + k + 1, Rest(name));
        LabelStep(mem, max, p, k);
      }
    }
  }

  lemma NoLabels(mem: Memory, p: nat)
    requires Holds(mem, p, Wire([]))
    ensures mem(p) == 0 && |Wire([])| == 1
  {
    assert Wire([]) == [0];
    assert mem(p + 0) == Wire([])[0];
  }

  lemma VisibleStep(name: Name)
    requires name != []
    ensures var k, rest := LabelEnd(name), Visible(Rest(name));
            && (k == 0 ==> Visible(name) == [] && !NoEmptyLabel(name))
            && (k > 0 ==> Visible(name) == name[..k] + Dot(rest) + rest && Visible(name) != [])
            && (k > 0 && NoEmptyLabel(name) ==> NoEmptyLabel(Rest(name)))
  {
    var k := LabelEnd(name);
    NothingHidden();
    VisibleBy(name, k);
    hide LabelEnd, NoEmptyLabel, Visible, Dot;
    if k == 0 {
      StartsWithDot(name);
    } else if k < |name| {
      TailHasNoEmptyLabel(name, k);
    }
  }

  lemma VisibleBy(name: Name, k: nat)
    requires name != [] && k == LabelEnd(name)
    ensures k == 0 ==> Visible(name) == []
    ensures k > 0 ==> var rest := Visible(Rest(name)); Visible(name) == name[..k] + Dot(rest) + rest
  {
    NothingHidden();
    hide LabelEnd, Dot, NoEmptyLabel;
  }

  lemma WireNotEmpty(name: Name)
    ensures |Wire(name)| > 0
  {
    hide Labels;
  }

  lemma StartsWithDot(name: Name)
    requires name != [] && LabelEnd(name) == 0
    ensures !NoEmptyLabel(name)
  {
    assert name[0] == DOT;
  }

  lemma NothingHidden()
    ensures NoEmptyLabel([]) && Visible([]) == []
  {
  }

  function Rest(name: Name): (r: Name)
    ensures name != [] ==> |r| < |name|
  {
    var k := LabelEnd(name);
    if k < |name| then name[k + 1..] else []
  }

  lemma WireStep(mem: Memory, p: nat, name: Name)
    requires name != [] && ShortLabels(name) && Holds(mem, p, Wire(name))
    ensures var k := LabelEnd(name);
            && k < 192 && mem(p) == k && Slice(mem, p + 1, k) == name[..k]
            && Holds(mem, p + k + 1, Wire(Rest(name))) && |Wire(name)| == k + 1 + |Wire(Rest(name))| && ShortLabels(Rest(name))
  {
    var k := LabelEnd(name);
    WirePieces(name, k);
    hide Wire, Labels, LabelEnd, Rest, ShortLabels;
    HoldsParts(mem, p, [k], name[..k] + Wire(Rest(name)));
    HoldsParts(mem, p + 1, name[..k], Wire(Rest(name)));
    assert mem(p + 0) == [k][0];
  }

  lemma WirePieces(name: Name, k: nat)
    requires name != [] && ShortLabels(name) && k == LabelEnd(name)
    ensures k < 192 && Wire(name) == [k] + (name[..k] + Wire(Rest(name))) && ShortLabels(Rest(name))
  {
    assert k < 192 && k % 256 == k;
    var b: Byte := k;
    DnsPrinter.LabelsBy(name, k);
    DnsPrinter.LabelsOfNothing();
    hide Labels, LabelEnd, ShortLabels;
    assert Labels(name) == [b] + name[..k] + Labels(Rest(name));
    Regroup([b], name[..k], Labels(Rest(name)));
  }

  /** One label, in both passes. */
  lemma LabelStep(mem: Memory, max: nat, p: nat, k: nat)
    requires 0 < k < 192 && mem(p) == k && p + k + 1 < max
    ensures var t, n := NameAt(mem, max, 0, p + k + 1), NameLenAt(mem, max, 0, p + k + 1);
            && (t.status == SUCCESS && (mem(p + k + 1) == 0 <==> t.text == []) ==>
                 NameAt(mem, max, 0, p) == NameText(SUCCESS, Slice(mem, p + 1, k) + Dot(t.text) + t.text))
            && (n.status == SUCCESS ==> NameLenAt(mem, max, 0, p).status == SUCCESS && NameLenAt(mem, max, 0, p).parsed == k + 1 + n.parsed)
  {
  }

  /** The parser reads a query back as it was made exactly when no label of its name is empty;
      otherwise it sees only the labels before the empty one. */
  lemma QueryParsesBack(id: nat, qtype: nat, name: Name, mem: Memory)
    requires id < 0x1_0000 && qtype < 0x1_0000 && ShortLabels(name) && Holds(mem, 0, Query(id, qtype, name))
    ensures var len := |Query(id, qtype, name)|;
            ParsePacket(mem, len) == Parsed(Packet(id, RD, [Question(name, qtype, 1)], [], [], []), len) <==> NoEmptyLabel(name)
    ensures var r := ParsePacket(mem, |Query(id, qtype, name)|);
            r.Parsed? && |r.value.q| == 1 && r.value.q[0].name == Visible(name) && r.value.id == id
  {
    hide Wire, NoEmptyLabel, Visible, ShortLabels, NameAt, NameLenAt, DnsPrint.Be16, U16, IsName;
    var p := Packet(id, RD, [Question(name, qtype, 1)], [], [], []);
    var tail := DnsPrint.Be16(qtype) + DnsPrint.Be16(1);
    var len := |Query(id, qtype, name)|;
    HoldsParts(mem, 0, DnsPrint.Header(p), Wire(name) + tail);
    HeaderOfQuery(mem, p);
    HoldsParts(mem, 12, Wire(name), tail);
    HoldsParts(mem, 12 + |Wire(name)|, DnsPrint.Be16(qtype), DnsPrint.Be16(1));
    DnsRoundTrip.Holds16(mem, 12 + |Wire(name)|, qtype);
    DnsRoundTrip.Holds16(mem, 12 + |Wire(name)| + 2, 1);
    WireReadsAs(mem, len, 12, name);
    VisibleIsAll(name);
    OneQuestion(mem, len);
  }

  lemma HeaderOfQuery(mem: Memory, p: Packet)
    requires p.id < 0x1_0000 && p.flags < 0x1_0000 && |p.q| == 1 && p.ans == p.ns == p.arr == []
    requires Holds(mem, 0, DnsPrint.Header(p))
    ensures U16(mem, 0) == p.id && U16(mem, 2) == p.flags && U16(mem, 4) == 1
    ensures U16(mem, 6) == 0 && U16(mem, 8) == 0 && U16(mem, 10) == 0
  {
    var h := DnsPrint.Header(p);
    forall i | 0 <= i < 12 ensures mem(i) == h[i] {
      assert mem(0 + i) == h[i];
    }
  }

  lemma OneQuestion(mem: Memory, len: nat)
    requires len >= 12 && U16(mem, 4) == 1 && U16(mem, 6) == 0 && U16(mem, 8) == 0 && U16(mem, 10) == 0
    ensures var q := ParseQuestion(mem, len, 12);
            q.Parsed? ==> ParsePacket(mem, len) == Parsed(Packet(U16(mem, 0), U16(mem, 2), [q.value], [], [], []), 12 + q.len)
  {
    hide ParseQuestion, U16;
    OneQuestionFirst(mem, len, 12, 1);
    var q := ParseQuestion(mem, len, 12);
    if q.Parsed? {
      OneQuestionFirst(mem, len, 12 + q.len, 0);
      assert [q.value] + [] == [q.value];
    }
  }
}
