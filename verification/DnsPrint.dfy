/** Writing a message with name compression: print_name with its label table, print_rr and
    print_packet (dns_server.c), as the bytes that they produce. */
module DnsPrint {
  import opened DnsTypes
  import opened DnsName

  const MAX_LABEL := 32

  /** A label table entry: where a name was written in full, and the bytes after its first
      length byte, as many as the name has characters. */
  datatype Entry = Entry(pos: nat, text: seq<Byte>)

  datatype Printed = TooSmall | Printed(bytes: seq<Byte>, tab: seq<Entry>)

  function Be16(v: nat): (s: seq<Byte>)
    ensures |s| == 2
  {
    [v / 256 % 256, v % 256]
  }

  function Be32(v: nat): (s: seq<Byte>)
    ensures |s| == 4
  {
    Be16(v / 65536) + Be16(v)
  }

  /** pos | (0xc0 << 8), as two bytes. */
  function Pointer(pos: nat): (s: seq<Byte>)
    ensures |s| == 2
  {
    [192 + pos / 256 % 64, pos % 256]
  }

  function FindLabel(tab: seq<Entry>, name: Name): (i: nat)
    ensures i <= |tab|
    ensures i < |tab| ==> tab[i].text == name
    ensures forall j :: 0 <= j < i ==> tab[j].text != name
  {
    if tab == [] || tab[0].text == name then 0 else 1 + FindLabel(tab[1..], name)
  }

  function NewEntry(name: Name, pos: nat): Entry {
    Entry(pos, Wire(name)[1..1 + |name|])
  }

  function PrintName(name: Name, size: int, pos: nat, tab: seq<Entry>): Printed {
    var i := FindLabel(tab, name);
    if i < |tab| then Printed(Pointer(tab[i].pos), tab)
    else if size < |Wire(name)| then TooSmall
    else Printed(Wire(name), if |tab| < MAX_LABEL then tab + [NewEntry(name, pos)] else tab)
  }

  function Fixed(r: Record): (s: seq<Byte>)
    ensures |s| == 8
  {
    Be16(r.rtype) + Be16(r.rclass) + Be32(r.ttl)
  }

  /** RDLENGTH and RDATA at pos. */
  function PrintRdata(r: Record, size: int, pos: nat, tab: seq<Entry>): Printed {
    match r.rdata
    case Address(a) =>
      if r.rtype != TYPE_A && r.rtype != TYPE_AAAA then TooSmall
      else if size < 2 + |a| then TooSmall
      else Printed(Be16(|a|) + a, tab)
    case Target(name) =>
      if !IsTargetType(r.rtype) || size < 4 then TooSmall
      else
        var n := PrintName(name, size - 2, pos + 2, tab);
        if n.TooSmall? then TooSmall else Printed(Be16(|n.bytes|) + n.bytes, n.tab)
    case Service(prio, weight, port, target) =>
      if r.rtype != TYPE_SRV || size < 10 then TooSmall
      else
        var n := PrintName(target, size - 8, pos + 8, tab);
        if n.TooSmall? then TooSmall
        else Printed(Be16(|n.bytes| + 6) + (Be16(prio) + Be16(weight) + Be16(port) + n.bytes), n.tab)
    case Raw(_) => TooSmall
  }

  function PrintRecord(r: Record, size: int, pos: nat, tab: seq<Entry>): Printed {
    var n := PrintName(r.name, size, pos, tab);
    if n.TooSmall? || size - |n.bytes| < 8 then TooSmall
    else
      var d := PrintRdata(r, size - |n.bytes| - 8, pos + |n.bytes| + 8, n.tab);
      if d.TooSmall? then TooSmall else Printed(n.bytes + (Fixed(r) + d.bytes), d.tab)
  }

  function PrintQuestion(q: Question, size: int, pos: nat, tab: seq<Entry>): Printed {
    var n := PrintName(q.name, size, pos, tab);
    if n.TooSmall? || size - |n.bytes| < 4 then TooSmall
    else Printed(n.bytes + (Be16(q.qtype) + Be16(q.qclass)), n.tab)
  }

  /** Questions: the size left is not reduced by the four bytes after each name. */
  function PrintQuestions(qs: seq<Question>, size: int, pos: nat, tab: seq<Entry>): Printed {
    if qs == [] then Printed([], tab)
    else
      var q := PrintQuestion(qs[0], size, pos, tab);
      if q.TooSmall? then TooSmall
      else
        var rest := PrintQuestions(qs[1..], size - |q.bytes| + 4, pos + |q.bytes|, q.tab);
        if rest.TooSmall? then TooSmall else Printed(q.bytes + rest.bytes, rest.tab)
  }

  function PrintRecords(rs: seq<Record>, size: int, pos: nat, tab: seq<Entry>): Printed {
    if rs == [] then Printed([], tab)
    else
      var r := PrintRecord(rs[0], size, pos, tab);
      if r.TooSmall? then TooSmall
      else
        var rest := PrintRecords(rs[1..], size - |r.bytes|, pos + |r.bytes|, r.tab);
        if rest.TooSmall? then TooSmall else Printed(r.bytes + rest.bytes, rest.tab)
  }

  function Header(p: Packet): (s: seq<Byte>)
    ensures |s| == 12
  {
    Be16(p.id) + Be16(p.flags) + Be16(|p.q|) + Be16(|p.ans|) + Be16(|p.ns|) + Be16(|p.arr|)
  }

  /** The four sections one after the other, from pos on. */
  function PrintSections(p: Packet, size: int, pos: nat): Printed {
    var q := PrintQuestions(p.q, size, pos, []);
    if q.TooSmall? then TooSmall
    else
      var n := size - |q.bytes| + 4 * |p.q|;
      var a := PrintRecords(p.ans + p.ns + p.arr, n, pos + |q.bytes|, q.tab);
      if a.TooSmall? then TooSmall else Printed(q.bytes + a.bytes, a.tab)
  }

  /** print_packet: the message, if it fits. */
  function PrintPacket(p: Packet, size: int): Option<seq<Byte>> {
    if size < 12 then None
    else
      var b := PrintSections(p, size - 12, 12);
      if b.TooSmall? then None else Some(Header(p) + b.bytes)
  }
}
