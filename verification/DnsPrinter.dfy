/** print_name, print_rr and print_packet as they run: through a moving position in the
    packet buffer, with label table entries that point back into it (dns_server.c). */
module DnsPrinter {
  import opened DnsTypes
  import opened DnsName
  import opened DnsPrint

  /** An entry of struct label_tab: its label is the len bytes after pos. */
  datatype Mark = Mark(pos: nat, len: nat)

  ghost predicate MarksIn(marks: seq<Mark>, n: nat) {
    forall i :: 0 <= i < |marks| ==> marks[i].pos + 1 + marks[i].len <= n
  }

  /** What the entries are compared by, given the buffer. */
  ghost function Entries(buf: seq<Byte>, marks: seq<Mark>): seq<Entry>
    requires MarksIn(marks, |buf|)
  {
    seq(|marks|, i requires 0 <= i < |marks| => Entry(marks[i].pos, buf[marks[i].pos + 1..marks[i].pos + 1 + marks[i].len]))
  }

  lemma EntriesBelow(buf: seq<Byte>, buf': seq<Byte>, marks: seq<Mark>, n: nat)
    requires MarksIn(marks, n) && n <= |buf| && n <= |buf'| && buf[..n] == buf'[..n]
    ensures Entries(buf, marks) == Entries(buf', marks)
  {
    forall i | 0 <= i < |marks| ensures Entries(buf, marks)[i] == Entries(buf', marks)[i] {
      var a, b := marks[i].pos + 1, marks[i].pos + 1 + marks[i].len;
      assert buf[a..b] == buf[..n][a..b] && buf'[a..b] == buf'[..n][a..b];
    }
  }

  /** The buffer after printing at pos: a negative length for a message that does not fit,
      otherwise the bytes in place and the table as it should be. */
  ghost predicate Wrote(buf0: seq<Byte>, buf: seq<Byte>, pos: nat, len: int, n: Printed, marks: seq<Mark>) {
    && pos <= |buf| == |buf0| && buf[..pos] == buf0[..pos]
    && (n.TooSmall? <==> len < 0)
    && (len >= 0 ==>
         pos + len <= |buf| && buf[pos..pos + len] == n.bytes && MarksIn(marks, pos + len) && Entries(buf, marks) == n.tab)
  }

  method FindMark(pkt: array<Byte>, marks: seq<Mark>, name: Name) returns (i: nat)
    requires MarksIn(marks, pkt.Length)
    ensures i == FindLabel(Entries(pkt[..], marks), name)
  {
    i := 0;
    ghost var k := FindLabel(Entries(pkt[..], marks), name);
    while i < |marks| && pkt[marks[i].pos + 1..marks[i].pos + 1 + marks[i].len] != name
      invariant 0 <= i <= |marks|
      invariant forall j :: 0 <= j < i ==> Entries(pkt[..], marks)[j].text != name
    {
      assert Entries(pkt[..], marks)[i].text == pkt[marks[i].pos + 1..marks[i].pos + 1 + marks[i].len];
      i := i + 1;
    }
    assert i < |marks| ==> Entries(pkt[..], marks)[i].text == name;
    assert !(k < i) && !(i < k);
  }

  method Write16(pkt: array<Byte>, p: nat, v: nat)
    requires p + 2 <= pkt.Length
    modifies pkt
    ensures pkt[..] == old(pkt[..p]) + Be16(v) + old(pkt[p + 2..])
  {
    pkt[p] := v / 256 % 256;
    pkt[p + 1] := v % 256;
  }

  /** The label loop of print_name; negative when the labels and the final zero do not fit. */
  method PrintLabels(pkt: array<Byte>, size: int, pos: nat, name: Name) returns (len: int)
    requires pos <= pkt.Length && pos + size <= pkt.Length
    modifies pkt
    ensures pkt[..pos] == old(pkt[..pos])
    ensures len < 0 <==> size < |Wire(name)|
    ensures len >= 0 ==> len == |Wire(name)| && pkt[pos..pos + len] == Wire(name)
  {
    hide Labels, LabelEnd;
    var p, start, left := pos, 0, size;
    ghost var labels, out: seq<Byte> := Labels(name), [];
    assert name[0..] == name && out + labels == labels;
    while start < |name|
      invariant 0 <= start <= |name| && pos <= p <= pkt.Length && left == size - (p - pos)
      invariant pkt[..pos] == old(pkt[..pos])
      invariant pkt[pos..p] == out && labels == out + Labels(name[start..])
    {
      var end := FindDot(name, start);
      LabelsStep(name, start, end);
      ghost var piece := [(end - start) % 256] + name[start..end];
      var next := if end < |name| then end + 1 else end;
      if left < end - start + 1 {
        assert |labels| == |out| + |piece| + |Labels(name[next..])|;
        return -1;
      }
      WriteLabel(pkt, p, name[start..end]);
      Gather(labels, out, piece, Labels(name[next..]));
      left := left - (end - start + 1);
      p := p + (end - start + 1);
      assert pkt[pos..p] == out + piece;
      out := out + piece;
      start := next;
    }
    LabelsOfNothing();
    if left <= 0 {
      return -1;
    }
    pkt[p] := 0;
    assert pkt[pos..p + 1] == out + [0];
    return p + 1 - pos;
  }

  lemma Gather(whole: seq<Byte>, a: seq<Byte>, b: seq<Byte>, c: seq<Byte>)
    requires whole == a + (b + c)
    ensures whole == a + b + c
  {
  }

  lemma LabelsOfNothing()
    ensures Labels([]) == []
  {
  }

  method WriteLabel(pkt: array<Byte>, p: nat, text: Name)
    requires p + 1 + |text| <= pkt.Length
    modifies pkt
    ensures pkt[..] == old(pkt[..p]) + ([|text| % 256] + text) + old(pkt[p + 1 + |text|..])
  {
    pkt[p] := |text| % 256;
    forall i | 0 <= i < |text| {
      pkt[p + 1 + i] := text[i];
    }
  }

  method FindDot(name: Name, start: nat) returns (end: nat)
    requires start < |name|
    ensures end == start + LabelEnd(name[start..])
  {
    end := start;
    assert name[start..][0..] == name[start..];
    while end < |name| && name[end] != DOT
      invariant start <= end <= |name|
      invariant LabelEnd(name[start..]) == end - start + LabelEnd(name[end..])
    {
      assert name[end..][1..] == name[end + 1..];
      end := end + 1;
    }
  }

  lemma LabelsStep(name: Name, start: nat, end: nat)
    requires start < |name| && end == start + LabelEnd(name[start..])
    ensures Labels(name[start..]) == [(end - start) % 256] + name[start..end] + Labels(name[if end < |name| then end + 1 else end..])
  {
    hide Labels, LabelEnd;
    var rest, k := name[start..], end - start;
    LabelsBy(rest, k);
    assert rest[..k] == name[start..end];
    assert end < |name| ==> rest[k + 1..] == name[end + 1..];
    assert end == |name| ==> name[end..] == [];
  }

  lemma LabelsBy(name: Name, k: nat)
    requires name != [] && k == LabelEnd(name)
    ensures Labels(name) == [k % 256] + name[..k] + (if k < |name| then Labels(name[k + 1..]) else [])
    ensures Labels([]) == []
  {
    hide LabelEnd;
  }

  method PrintNameTo(pkt: array<Byte>, size: int, pos: nat, name: Name, marks: seq<Mark>) returns (len: int, marks': seq<Mark>)
    requires pos + 2 <= pkt.Length && pos + size <= pkt.Length && MarksIn(marks, pos)
    modifies pkt
    ensures Wrote(old(pkt[..]), pkt[..], pos, len, PrintName(name, size, pos, Entries(old(pkt[..]), marks)), marks')
    ensures marks' == marks || marks' == marks + [Mark(pos, |name|)]
  {
    hide Wire, Labels, FindLabel;
    ghost var buf0 := pkt[..];
    marks' := marks;
    var i := FindMark(pkt, marks, name);
    if i != |marks| {
      pkt[pos] := 192 + marks[i].pos / 256 % 64;
      pkt[pos + 1] := marks[i].pos % 256;
      assert pkt[pos..pos + 2] == Pointer(marks[i].pos);
      EntriesBelow(buf0, pkt[..], marks, pos);
      return 2, marks';
    }
    if |marks| < MAX_LABEL {
      marks' := marks + [Mark(pos, |name|)];
    }
    len := PrintLabels(pkt, size, pos, name);
    if len >= 0 {
      NameEntered(buf0, pkt[..], marks, pos, name);
    }
  }

  lemma NameEntered(buf0: seq<Byte>, buf: seq<Byte>, marks: seq<Mark>, pos: nat, name: Name)
    requires MarksIn(marks, pos) && pos + |Wire(name)| <= |buf| == |buf0| && buf[..pos] == buf0[..pos]
    requires buf[pos..pos + |Wire(name)|] == Wire(name)
    ensures Entries(buf, marks) == Entries(buf0, marks)
    ensures MarksIn(marks + [Mark(pos, |name|)], pos + |Wire(name)|)
    ensures Entries(buf, marks + [Mark(pos, |name|)]) == Entries(buf0, marks) + [NewEntry(name, pos)]
  {
    hide Wire, Entries;
    EntriesBelow(buf0, buf, marks, pos);
    WireLonger(name);
    SliceOfSlice(buf, pos, pos + |Wire(name)|, 1, 1 + |name|);
    EntriesMore(buf, marks, pos, |name|);
  }

  lemma WireLonger(name: Name)
    ensures |Wire(name)| > |name|
  {
  }

  lemma EntriesMore(buf: seq<Byte>, marks: seq<Mark>, pos: nat, n: nat)
    requires MarksIn(marks, pos) && pos + 1 + n <= |buf|
    ensures Entries(buf, marks + [Mark(pos, n)]) == Entries(buf, marks) + [Entry(pos, buf[pos + 1..pos + 1 + n])]
  {
  }

  lemma SliceOfSlice(s: seq<Byte>, i: nat, j: nat, a: nat, b: nat)
    requires i <= j <= |s| && a <= b <= j - i
    ensures s[i..j][a..b] == s[i + a..i + b]
  {
    forall k | 0 <= k < b - a ensures s[i..j][a..b][k] == s[i + a..i + b][k] { }
  }

  // ----- records -----

  /** Plain bytes at pos: no table entry changes. */
  lemma PlainWrote(buf0: seq<Byte>, buf: seq<Byte>, pos: nat, bytes: seq<Byte>, marks: seq<Mark>)
    requires MarksIn(marks, pos) && pos + |bytes| <= |buf| == |buf0| && buf[..pos] == buf0[..pos] && buf[pos..pos + |bytes|] == bytes
    ensures Wrote(buf0, buf, pos, |bytes|, Printed(bytes, Entries(buf0, marks)), marks)
  {
    EntriesBelow(buf0, buf, marks, pos);
  }

  /** A name printed after a gap, and then the gap filled. */
  lemma GapFilled(buf0: seq<Byte>, buf1: seq<Byte>, buf2: seq<Byte>, pos: nat, gap: seq<Byte>, len: int, n: Printed, marks: seq<Mark>, marks': seq<Mark>, k: nat)
    requires MarksIn(marks, pos) && pos + |gap| <= |buf0| && Wrote(buf0, buf1, pos + |gap|, len, n, marks') && len >= 0
    requires marks' == marks || marks' == marks + [Mark(pos + |gap|, k)]
    requires buf2 == buf1[..pos] + gap + buf1[pos + |gap|..]
    ensures Wrote(buf0, buf2, pos, |gap| + len, Printed(gap + n.bytes, n.tab), marks')
  {
    var g := |gap|;
    assert buf2[..pos] == buf0[..pos] by {
      assert buf1[..pos] == buf1[..pos + g][..pos] && buf0[..pos] == buf0[..pos + g][..pos];
    }
    assert buf2[pos..pos + g + len] == gap + buf1[pos + g..pos + g + len];
    forall i | 0 <= i < |marks'| ensures Entries(buf2, marks')[i] == Entries(buf1, marks')[i] {
      var a, b := marks'[i].pos + 1, marks'[i].pos + 1 + marks'[i].len;
      if i < |marks| {
        assert b <= pos && buf2[a..b] == buf2[..pos][a..b] && buf1[a..b] == buf1[..pos][a..b];
      } else {
        assert forall k :: a <= k < b ==> buf2[k] == buf1[k];
      }
    }
    assert Entries(buf2, marks') == Entries(buf1, marks');
  }

  method PrintRdataTo(pkt: array<Byte>, size: int, pos: nat, r: Record, marks: seq<Mark>) returns (len: int, marks': seq<Mark>)
    requires pos <= pkt.Length && pos + size <= pkt.Length && MarksIn(marks, pos) && RdataFits(r)
    modifies pkt
    ensures Wrote(old(pkt[..]), pkt[..], pos, len, PrintRdata(r, size, pos, Entries(old(pkt[..]), marks)), marks')
  {
    hide PrintName, Entries;
    ghost var buf0 := pkt[..];
    marks' := marks;
    if r.rtype == TYPE_A || r.rtype == TYPE_AAAA {
      var a := r.rdata.bytes;
      if size < 2 + |a| {
        return -1, marks';
      }
      Write16(pkt, pos, |a|);
      forall i | 0 <= i < |a| {
        pkt[pos + 2 + i] := a[i];
      }
      assert pkt[pos..pos + 2 + |a|] == Be16(|a|) + a;
      PlainWrote(buf0, pkt[..], pos, Be16(|a|) + a, marks);
      return 2 + |a|, marks';
    } else if IsTargetType(r.rtype) {
      if size < 4 {
        return -1, marks';
      }
      MarksGrow(marks, pos, pos + 2);
      len, marks' := PrintNameTo(pkt, size - 2, pos + 2, r.rdata.name, marks);
      if len < 0 {
        BelowKept(buf0, pkt[..], pos, pos + 2);
        return;
      }
      ghost var buf1 := pkt[..];
      Write16(pkt, pos, len);
      GapFilled(buf0, buf1, pkt[..], pos, Be16(len), len, PrintName(r.rdata.name, size - 2, pos + 2, Entries(buf0, marks)), marks, marks', |r.rdata.name|);
      len := len + 2;
    } else if r.rtype == TYPE_SRV {
      len, marks' := PrintServiceTo(pkt, size, pos, r, marks);
    } else {
      len := -1;
    }
  }

  lemma MarksGrow(marks: seq<Mark>, m: nat, n: nat)
    requires MarksIn(marks, m) && m <= n
    ensures MarksIn(marks, n)
  {
  }

  lemma BelowKept(buf0: seq<Byte>, buf: seq<Byte>, m: nat, n: nat)
    requires m <= n <= |buf| == |buf0| && buf[..n] == buf0[..n]
    ensures buf[..m] == buf0[..m]
  {
    assert buf[..m] == buf[..n][..m] && buf0[..m] == buf0[..n][..m];
  }

  method PrintServiceTo(pkt: array<Byte>, size: int, pos: nat, r: Record, marks: seq<Mark>) returns (len: int, marks': seq<Mark>)
    requires pos <= pkt.Length && pos + size <= pkt.Length && MarksIn(marks, pos) && r.rtype == TYPE_SRV && r.rdata.Service?
    modifies pkt
    ensures Wrote(old(pkt[..]), pkt[..], pos, len, PrintRdata(r, size, pos, Entries(old(pkt[..]), marks)), marks')
  {
    hide PrintName, Entries;
    ghost var buf0 := pkt[..];
    marks' := marks;
    if size < 10 {
      return -1, marks';
    }
    var d := r.rdata;
    WriteFixed(pkt, pos + 2, d.prio, d.weight, d.port);
    ghost var buf1, fixed := pkt[..], Be16(d.prio) + Be16(d.weight) + Be16(d.port);
    BelowKept(buf0, buf1, pos, pos + 2);
    EntriesBelow(buf0, buf1, marks, pos);
    MarksGrow(marks, pos, pos + 8);
    len, marks' := PrintNameTo(pkt, size - 8, pos + 8, d.target, marks);
    ghost var buf2 := pkt[..];
    BelowKept(buf1, buf2, pos, pos + 8);
    if len < 0 {
      return;
    }
    Write16(pkt, pos, len + 6);
    ghost var n := PrintName(d.target, size - 8, pos + 8, Entries(buf0, marks));
    GapPieces(buf1, buf2, pkt[..], pos, Be16(len + 6), fixed);
    GapFilled(buf1, buf2, pkt[..], pos, Be16(len + 6) + fixed, len, n, marks, marks', |d.target|);
    Reassociated(Be16(len + 6), fixed, n.bytes);
    len := len + 8;
  }

  lemma Reassociated(a: seq<Byte>, b: seq<Byte>, c: seq<Byte>)
    ensures a + b + c == a + (b + c)
  {
  }

  /** The length written last and the fields written first make one filled gap. */
  lemma GapPieces(buf1: seq<Byte>, buf2: seq<Byte>, buf3: seq<Byte>, pos: nat, a: seq<Byte>, b: seq<Byte>)
    requires pos + |a| + |b| <= |buf1| == |buf2| && buf1[pos + |a|..pos + |a| + |b|] == b
    requires buf2[..pos + |a| + |b|] == buf1[..pos + |a| + |b|]
    requires buf3 == buf2[..pos] + a + buf2[pos + |a|..]
    ensures buf3 == buf2[..pos] + (a + b) + buf2[pos + |a| + |b|..]
  {
    var m, n := pos + |a|, pos + |a| + |b|;
    assert buf2[m..n] == buf2[..n][m..] && buf1[m..n] == buf1[..n][m..];
    assert buf2[m..] == b + buf2[n..];
    assert buf2[..pos] + a + (b + buf2[n..]) == buf2[..pos] + (a + b) + buf2[n..];
  }

  method WriteFixed(pkt: array<Byte>, p: nat, x: nat, y: nat, z: nat)
    requires p + 6 <= pkt.Length
    modifies pkt
    ensures pkt[..] == old(pkt[..p]) + (Be16(x) + Be16(y) + Be16(z)) + old(pkt[p + 6..])
  {
    hide Be16;
    ghost var buf0 := pkt[..];
    Write16(pkt, p, x);
    ghost var buf1 := pkt[..];
    Write16(pkt, p + 2, y);
    ghost var buf2 := pkt[..];
    WriteOn(buf0, buf1, buf2, p, Be16(x), Be16(y));
    Write16(pkt, p + 4, z);
    WriteOn(buf0, buf2, pkt[..], p, Be16(x) + Be16(y), Be16(z));
  }

  /** One piece written right after another. */
  lemma WriteOn(buf0: seq<Byte>, buf1: seq<Byte>, buf2: seq<Byte>, p: nat, a: seq<Byte>, b: seq<Byte>)
    requires p + |a| + |b| <= |buf0| && buf1 == buf0[..p] + a + buf0[p + |a|..]
    requires buf2 == buf1[..p + |a|] + b + buf1[p + |a| + |b|..]
    ensures buf2 == buf0[..p] + (a + b) + buf0[p + |a| + |b|..]
  {
    assert buf1[..p + |a|] == buf0[..p] + a;
    assert buf1[p + |a| + |b|..] == buf0[p + |a|..][|b|..] == buf0[p + |a| + |b|..];
  }

  // ----- records, questions and the packet -----

  method WriteRecordFields(pkt: array<Byte>, p: nat, r: Record)
    requires p + 8 <= pkt.Length
    modifies pkt
    ensures pkt[..p] == old(pkt[..p]) && pkt[p..p + 8] == Fixed(r)
  {
    WriteFixed(pkt, p, r.rtype, r.rclass, r.ttl / 65536);
    ghost var buf := pkt[..];
    Write16(pkt, p + 6, r.ttl);
    assert pkt[..p] == buf[..p] && pkt[p..p + 6] == buf[p..p + 6];
    assert pkt[p..p + 8] == pkt[p..p + 6] + Be16(r.ttl);
  }

  /** Printing on after what has been printed. */
  lemma WroteMore(buf0: seq<Byte>, buf1: seq<Byte>, buf2: seq<Byte>, pos: nat, len: int, len': int, n: Printed, n': Printed, marks: seq<Mark>, marks': seq<Mark>)
    requires Wrote(buf0, buf1, pos, len, n, marks) && len >= 0 && Wrote(buf1, buf2, pos + len, len', n', marks')
    ensures len' >= 0 ==> Wrote(buf0, buf2, pos, len + len', Printed(n.bytes + n'.bytes, n'.tab), marks')
    ensures len' < 0 ==> Wrote(buf0, buf2, pos, len', TooSmall, marks')
  {
    BelowKept(buf1, buf2, pos, pos + len);
    if len' >= 0 {
      assert buf2[pos..pos + len] == buf2[..pos + len][pos..] && buf1[pos..pos + len] == buf1[..pos + len][pos..];
      assert buf2[pos..pos + len + len'] == buf2[pos..pos + len] + buf2[pos + len..pos + len + len'];
    }
  }

  method PrintRecordTo(pkt: array<Byte>, size: int, pos: nat, r: Record, marks: seq<Mark>) returns (len: int, marks': seq<Mark>)
    requires pos + 2 <= pkt.Length && pos + size <= pkt.Length && MarksIn(marks, pos) && RdataFits(r)
    modifies pkt
    ensures Wrote(old(pkt[..]), pkt[..], pos, len, PrintRecord(r, size, pos, Entries(old(pkt[..]), marks)), marks')
  {
    hide PrintName, PrintRdata, Entries, Fixed;
    ghost var buf0 := pkt[..];
    len, marks' := PrintNameTo(pkt, size, pos, r.name, marks);
    if len < 0 {
      return;
    }
    ghost var buf1, n := pkt[..], PrintName(r.name, size, pos, Entries(buf0, marks));
    var left := size - len;
    if left < 8 {
      len := -1;
      return;
    }
    WriteRecordFields(pkt, pos + len, r);
    ghost var buf2, marks1 := pkt[..], marks';
    PlainWrote(buf1, buf2, pos + len, Fixed(r), marks');
    WroteMore(buf0, buf1, buf2, pos, len, 8, n, Printed(Fixed(r), n.tab), marks', marks');
    var more;
    more, marks' := PrintRdataTo(pkt, left - 8, pos + len + 8, r, marks');
    ghost var d := PrintRdata(r, left - 8, pos + len + 8, n.tab);
    WroteMore(buf0, buf2, pkt[..], pos, len + 8, more, Printed(n.bytes + Fixed(r), n.tab), d, marks1, marks');
    if more < 0 {
      len := -1;
    } else {
      Reassociated(n.bytes, Fixed(r), d.bytes);
      len := len + 8 + more;
    }
  }

  method PrintQuestionTo(pkt: array<Byte>, size: int, pos: nat, q: Question, marks: seq<Mark>) returns (len: int, marks': seq<Mark>)
    requires pos + 2 <= pkt.Length && pos + size <= pkt.Length && MarksIn(marks, pos)
    modifies pkt
    ensures Wrote(old(pkt[..]), pkt[..], pos, len, PrintQuestion(q, size, pos, Entries(old(pkt[..]), marks)), marks')
  {
    hide PrintName, Entries;
    ghost var buf0 := pkt[..];
    len, marks' := PrintNameTo(pkt, size, pos, q.name, marks);
    if len < 0 {
      return;
    }
    ghost var buf1, n := pkt[..], PrintName(q.name, size, pos, Entries(buf0, marks));
    if size - len < 4 {
      len := -1;
      return;
    }
    Write16(pkt, pos + len, q.qtype);
    Write16(pkt, pos + len + 2, q.qclass);
    ghost var fields := Be16(q.qtype) + Be16(q.qclass);
    assert pkt[..pos + len] == buf1[..pos + len] && pkt[pos + len..pos + len + 4] == fields;
    PlainWrote(buf1, pkt[..], pos + len, fields, marks');
    WroteMore(buf0, buf1, pkt[..], pos, len, 4, n, Printed(fields, n.tab), marks', marks');
    len := len + 4;
  }

  lemma RecordFits(r: Record, size: int, pos: nat, tab: seq<Entry>)
    requires PrintRecord(r, size, pos, tab).Printed?
    ensures |PrintRecord(r, size, pos, tab).bytes| <= size
  {
    hide Wire;
  }

  function Then(n: Printed, rest: Printed): Printed
    requires n.Printed?
  {
    if rest.TooSmall? then TooSmall else Printed(n.bytes + rest.bytes, rest.tab)
  }

  lemma ThenThen(a: Printed, b: Printed, c: Printed)
    requires a.Printed? && b.Printed?
    ensures Then(a, Then(b, c)) == Then(Printed(a.bytes + b.bytes, b.tab), c)
  {
    if c.Printed? {
      Reassociated(a.bytes, b.bytes, c.bytes);
    }
  }

  lemma ThenNothing(a: Printed)
    requires a.Printed?
    ensures Then(a, Printed([], a.tab)) == a
  {
    assert a.bytes + [] == a.bytes;
  }

  lemma NothingThen(a: Printed, tab: seq<Entry>)
    ensures Then(Printed([], tab), a) == a
  {
    if a.Printed? {
      assert [] + a.bytes == a.bytes;
    }
  }

  lemma RecordsStep(rs: seq<Record>, i: nat, size: int, pos: nat, tab: seq<Entry>)
    requires i <= |rs|
    ensures i == |rs| ==> PrintRecords(rs[i..], size, pos, tab) == Printed([], tab)
    ensures i < |rs| ==>
      var r := PrintRecord(rs[i], size, pos, tab);
      PrintRecords(rs[i..], size, pos, tab) ==
      if r.TooSmall? then TooSmall else Then(r, PrintRecords(rs[i + 1..], size - |r.bytes|, pos + |r.bytes|, r.tab))
  {
    hide PrintRecord;
    if i < |rs| {
      assert rs[i..][1..] == rs[i + 1..];
    }
  }

  lemma QuestionsStep(qs: seq<Question>, i: nat, size: int, pos: nat, tab: seq<Entry>)
    requires i <= |qs|
    ensures i == |qs| ==> PrintQuestions(qs[i..], size, pos, tab) == Printed([], tab)
    ensures i < |qs| ==>
      var q := PrintQuestion(qs[i], size, pos, tab);
      PrintQuestions(qs[i..], size, pos, tab) ==
      if q.TooSmall? then TooSmall else Then(q, PrintQuestions(qs[i + 1..], size - |q.bytes| + 4, pos + |q.bytes|, q.tab))
  {
    hide PrintQuestion;
    if i < |qs| {
      assert qs[i..][1..] == qs[i + 1..];
    }
  }

  lemma WroteNothing(buf: seq<Byte>, pos: nat, marks: seq<Mark>)
    requires pos <= |buf| && MarksIn(marks, pos)
    ensures Wrote(buf, buf, pos, 0, Printed([], Entries(buf, marks)), marks)
  {
  }

  /** The loop over one section of records. */
  method PrintRecordsTo(pkt: array<Byte>, size: nat, pos: nat, rs: seq<Record>, marks: seq<Mark>) returns (len: int, marks': seq<Mark>)
    requires pos + size + 2 <= pkt.Length && MarksIn(marks, pos) && forall i :: 0 <= i < |rs| ==> RdataFits(rs[i])
    modifies pkt
    ensures Wrote(old(pkt[..]), pkt[..], pos, len, PrintRecords(rs, size, pos, Entries(old(pkt[..]), marks)), marks')
    ensures len <= size
  {
    hide PrintRecords, PrintRecord, Entries, RdataFits, Then;
    ghost var buf0 := pkt[..];
    ghost var whole, done := PrintRecords(rs, size, pos, Entries(buf0, marks)), Printed([], Entries(buf0, marks));
    WroteNothing(buf0, pos, marks);
    NothingThen(whole, done.tab);
    assert rs[0..] == rs;
    len, marks' := 0, marks;
    var i := 0;
    while i < |rs|
      invariant 0 <= i <= |rs| && 0 <= len <= size
      invariant done.Printed? && Wrote(buf0, pkt[..], pos, len, done, marks')
      invariant whole == Then(done, PrintRecords(rs[i..], size - len, pos + len, done.tab))
    {
      ghost var buf1, marks1 := pkt[..], marks';
      RecordsStep(rs, i, size - len, pos + len, done.tab);
      var more;
      more, marks' := PrintRecordTo(pkt, size - len, pos + len, rs[i], marks');
      ghost var r := PrintRecord(rs[i], size - len, pos + len, done.tab);
      WroteMore(buf0, buf1, pkt[..], pos, len, more, done, r, marks1, marks');
      ThenIs(done, TooSmall);
      if more < 0 {
        len := -1;
        return;
      }
      RecordFits(rs[i], size - len, pos + len, done.tab);
      ThenThen(done, r, PrintRecords(rs[i + 1..], size - len - more, pos + len + more, r.tab));
      done := Printed(done.bytes + r.bytes, r.tab);
      len := len + more;
      i := i + 1;
    }
    RecordsStep(rs, i, size - len, pos + len, done.tab);
    ThenNothing(done);
  }

  /** The loop over the questions: the size left is not reduced by the type and class. */
  method PrintQuestionsTo(pkt: array<Byte>, size: nat, pos: nat, qs: seq<Question>) returns (len: int, marks': seq<Mark>)
    requires pos + size + 4 * |qs| + 2 <= pkt.Length
    modifies pkt
    ensures Wrote(old(pkt[..]), pkt[..], pos, len, PrintQuestions(qs, size, pos, []), marks')
    ensures len <= size + 4 * |qs|
  {
    hide PrintQuestions, PrintQuestion, Entries;
    ghost var buf0 := pkt[..];
    ghost var whole, done := PrintQuestions(qs, size, pos, []), Printed([], []);
    len, marks' := 0, [];
    NoEntries(buf0);
    WroteNothing(buf0, pos, []);
    NothingThen(whole, []);
    assert qs[0..] == qs;
    var i, left := 0, size;
    while i < |qs|
      invariant 0 <= i <= |qs| && 0 <= len && 0 <= left && left == size - len + 4 * i
      invariant done.Printed? && Wrote(buf0, pkt[..], pos, len, done, marks')
      invariant whole == Then(done, PrintQuestions(qs[i..], left, pos + len, done.tab))
    {
      ghost var buf1, marks1 := pkt[..], marks';
      QuestionsStep(qs, i, left, pos + len, done.tab);
      var more;
      more, marks' := PrintQuestionTo(pkt, left, pos + len, qs[i], marks');
      ghost var q := PrintQuestion(qs[i], left, pos + len, done.tab);
      WroteMore(buf0, buf1, pkt[..], pos, len, more, done, q, marks1, marks');
      if more < 0 {
        len := -1;
        return;
      }
      QuestionFits(qs[i], left, pos + len, done.tab);
      ThenThen(done, q, PrintQuestions(qs[i + 1..], left - more + 4, pos + len + more, q.tab));
      done := Printed(done.bytes + q.bytes, q.tab);
      left := left - (more - 4);
      len := len + more;
      i := i + 1;
    }
    QuestionsStep(qs, i, left, pos + len, done.tab);
    ThenNothing(done);
  }

  lemma NoEntries(buf: seq<Byte>)
    ensures Entries(buf, []) == []
  {
  }

  lemma QuestionFits(q: Question, size: int, pos: nat, tab: seq<Entry>)
    requires PrintQuestion(q, size, pos, tab).Printed?
    ensures |PrintQuestion(q, size, pos, tab).bytes| <= size
  {
  }

  lemma {:induction false} RecordsConcat(xs: seq<Record>, ys: seq<Record>, size: int, pos: nat, tab: seq<Entry>)
    ensures var x := PrintRecords(xs, size, pos, tab);
            PrintRecords(xs + ys, size, pos, tab) ==
            if x.TooSmall? then TooSmall else Then(x, PrintRecords(ys, size - |x.bytes|, pos + |x.bytes|, x.tab))
    decreases |xs|
  {
    hide PrintRecord, PrintRecords, Then;
    RecordsStep(xs, 0, size, pos, tab);
    RecordsStep(xs + ys, 0, size, pos, tab);
    assert xs[0..] == xs && (xs + ys)[0..] == xs + ys;
    if xs == [] {
      assert xs + ys == ys;
      NothingThen(PrintRecords(ys, size, pos, tab), tab);
    } else {
      assert (xs + ys)[1..] == xs[1..] + ys;
      var r := PrintRecord(xs[0], size, pos, tab);
      if r.Printed? {
        RecordsConcat(xs[1..], ys, size - |r.bytes|, pos + |r.bytes|, r.tab);
        var rest := PrintRecords(xs[1..], size - |r.bytes|, pos + |r.bytes|, r.tab);
        ThenIs(r, rest);
        ThenIs(r, TooSmall);
        if rest.Printed? {
          ThenThen(r, rest, PrintRecords(ys, size - |r.bytes| - |rest.bytes|, pos + |r.bytes| + |rest.bytes|, rest.tab));
        }
      }
    }
  }

  lemma ThenIs(n: Printed, rest: Printed)
    requires n.Printed?
    ensures Then(n, rest) == if rest.TooSmall? then TooSmall else Printed(n.bytes + rest.bytes, rest.tab)
  {
  }

  /** PrintRecords after what n printed, in the size that n leaves. */
  function AndRecords(n: Printed, rs: seq<Record>, size: int, pos: nat): Printed
    requires n.Printed?
  {
    Then(n, PrintRecords(rs, size - |n.bytes|, pos + |n.bytes|, n.tab))
  }

  lemma AndRecordsConcat(n: Printed, xs: seq<Record>, ys: seq<Record>, size: int, pos: nat)
    requires n.Printed?
    ensures var x := AndRecords(n, xs, size, pos);
            AndRecords(n, xs + ys, size, pos) == if x.TooSmall? then TooSmall else AndRecords(x, ys, size, pos)
  {
    hide PrintRecords, Then;
    var x := PrintRecords(xs, size - |n.bytes|, pos + |n.bytes|, n.tab);
    RecordsConcat(xs, ys, size - |n.bytes|, pos + |n.bytes|, n.tab);
    ThenIs(n, x);
    ThenIs(n, TooSmall);
    if x.Printed? {
      ThenThen(n, x, PrintRecords(ys, size - |n.bytes| - |x.bytes|, pos + |n.bytes| + |x.bytes|, x.tab));
    }
  }

  lemma SectionsAre(p: Packet, size: int, pos: nat)
    ensures var q := PrintQuestions(p.q, size, pos, []);
            PrintSections(p, size, pos) == if q.TooSmall? then TooSmall else AndRecords(q, p.ans + p.ns + p.arr, size + 4 * |p.q|, pos)
  {
    hide PrintQuestions, PrintRecords;
  }

  method WriteHeader(pkt: array<Byte>, p: Packet)
    requires 12 <= pkt.Length
    modifies pkt
    ensures pkt[..12] == Header(p)
  {
    Write16(pkt, 0, p.id);
    Write16(pkt, 2, p.flags);
    Write16(pkt, 4, |p.q|);
    assert pkt[..6] == Be16(p.id) + Be16(p.flags) + Be16(|p.q|);
    ghost var half := pkt[..6];
    Write16(pkt, 6, |p.ans|);
    Write16(pkt, 8, |p.ns|);
    Write16(pkt, 10, |p.arr|);
    assert pkt[..12] == half + Be16(|p.ans|) + Be16(|p.ns|) + Be16(|p.arr|);
  }

  /** One section of records after the len bytes that n stands for. */
  method AddRecords(pkt: array<Byte>, size: nat, pos: nat, len: nat, rs: seq<Record>, marks: seq<Mark>, ghost n: Printed, ghost buf0: seq<Byte>)
    returns (len': int, marks': seq<Mark>)
    requires len <= size && pos + size + 2 <= pkt.Length && forall i :: 0 <= i < |rs| ==> RdataFits(rs[i])
    requires n.Printed? && Wrote(buf0, pkt[..], pos, len, n, marks)
    modifies pkt
    ensures Wrote(buf0, pkt[..], pos, len', AndRecords(n, rs, size, pos), marks') && len' <= size
  {
    hide PrintRecords, Entries, RdataFits;
    ghost var buf1 := pkt[..];
    var more;
    more, marks' := PrintRecordsTo(pkt, size - len, pos + len, rs, marks);
    WroteMore(buf0, buf1, pkt[..], pos, len, more, n, PrintRecords(rs, size - len, pos + len, n.tab), marks, marks');
    len' := if more < 0 then -1 else len + more;
  }

  /** print_packet. The questions' types and classes and a table pointer may go past size, so
      the buffer must have room for them. */
  method PrintPacketTo(pkt: array<Byte>, size: int, p: Packet) returns (len: int)
    requires size + 4 * |p.q| + 2 <= pkt.Length
    requires forall i :: 0 <= i < |p.ans + p.ns + p.arr| ==> RdataFits((p.ans + p.ns + p.arr)[i])
    modifies pkt
    ensures len < 0 <==> PrintPacket(p, size) == None
    ensures len >= 0 ==> len <= pkt.Length && PrintPacket(p, size) == Some(pkt[..len])
  {
    hide PrintQuestions, PrintRecords, PrintSections, AndRecords, Wrote, RdataFits, Header;
    if size < 12 {
      return -1;
    }
    WriteHeader(pkt, p);
    SectionsAre(p, size - 12, 12);
    ghost var buf0 := pkt[..];
    var marks;
    var room := size - 12 + 4 * |p.q|;
    len, marks := PrintQuestionsTo(pkt, size - 12, 12, p.q);
    ghost var q := PrintQuestions(p.q, size - 12, 12, []);
    WroteIs(buf0, pkt[..], 12, len, q, marks);
    if len < 0 {
      return -1;
    }
    AndRecordsConcat(q, p.ans + p.ns, p.arr, room, 12);
    AndRecordsConcat(q, p.ans, p.ns, room, 12);
    SectionsOf(p);
    len, marks := AddRecords(pkt, room, 12, len, p.ans, marks, q, buf0);
    ghost var a := AndRecords(q, p.ans, room, 12);
    WroteIs(buf0, pkt[..], 12, len, a, marks);
    if len < 0 {
      return -1;
    }
    len, marks := AddRecords(pkt, room, 12, len, p.ns, marks, a, buf0);
    ghost var b := AndRecords(a, p.ns, room, 12);
    WroteIs(buf0, pkt[..], 12, len, b, marks);
    if len < 0 {
      return -1;
    }
    len, marks := AddRecords(pkt, room, 12, len, p.arr, marks, b, buf0);
    WroteIs(buf0, pkt[..], 12, len, AndRecords(b, p.arr, room, 12), marks);
    if len >= 0 {
      len := 12 + len;
    }
  }

  lemma WroteIs(buf0: seq<Byte>, buf: seq<Byte>, pos: nat, len: int, n: Printed, marks: seq<Mark>)
    requires Wrote(buf0, buf, pos, len, n, marks)
    ensures n.TooSmall? <==> len < 0
    ensures len >= 0 ==> pos + len <= |buf| == |buf0| && buf[..pos + len] == buf0[..pos] + n.bytes
  {
    hide Entries;
  }

  lemma SectionsOf(p: Packet)
    requires forall i :: 0 <= i < |p.ans + p.ns + p.arr| ==> RdataFits((p.ans + p.ns + p.arr)[i])
    ensures forall i :: 0 <= i < |p.ans| ==> RdataFits(p.ans[i])
    ensures forall i :: 0 <= i < |p.ns| ==> RdataFits(p.ns[i])
    ensures forall i :: 0 <= i < |p.arr| ==> RdataFits(p.arr[i])
  {
    hide RdataFits;
    var all := p.ans + p.ns + p.arr;
    assert forall i :: 0 <= i < |p.ans| ==> p.ans[i] == all[i];
    assert forall i :: 0 <= i < |p.ns| ==> p.ns[i] == all[|p.ans| + i];
    assert forall i :: 0 <= i < |p.arr| ==> p.arr[i] == all[|p.ans| + |p.ns| + i];
  }
}
