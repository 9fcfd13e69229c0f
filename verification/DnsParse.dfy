/** Reading a message: parse_query, parse_rr and pj_dns_parse_packet (dns.c). */
module DnsParse {
  import opened DnsTypes
  import opened DnsName

  const EINCLASS := 320042  // PJLIB_UTIL_EDNSINCLASS

  datatype Parsed<T> = Error(status: nat) | Parsed(value: T, len: nat)

  function U16(mem: Memory, p: nat): nat {
    mem(p) * 256 + mem(p + 1)
  }

  function U32(mem: Memory, p: nat): nat {
    U16(mem, p) * 65536 + U16(mem, p + 2)
  }

  function ParseName(mem: Memory, max: nat, p: nat): Parsed<Name> {
    var l := NameLenAt(mem, max, 0, p);
    if l.status != SUCCESS then Error(l.status) else Parsed(NameAt(mem, max, 0, p).text, l.parsed)
  }

  function ParseQuestion(mem: Memory, max: nat, p: nat): Parsed<Question> {
    var n := ParseName(mem, max, p);
    if n.Error? then Error(n.status)
    else Parsed(Question(n.value, U16(mem, p + n.len), U16(mem, p + n.len + 2)), n.len + 4)
  }

  predicate KnownType(t: nat) {
    t == TYPE_A || t == TYPE_AAAA || IsTargetType(t) || t == TYPE_SRV
  }

  /** RDATA at p, after the fixed fields of r. */
  function ParseRdata(mem: Memory, max: nat, p: nat, rtype: nat, rdlength: nat): Parsed<Rdata> {
    if rtype == TYPE_A then Parsed(Address(Slice(mem, p, 4)), 4)
    else if rtype == TYPE_AAAA then Parsed(Address(Slice(mem, p, 16)), 16)
    else if IsTargetType(rtype) then
      var n := ParseName(mem, max, p);
      if n.Error? then Error(n.status) else Parsed(Target(n.value), n.len)
    else if rtype == TYPE_SRV then
      var n := ParseName(mem, max, p + 6);
      if n.Error? then Error(n.status)
      else Parsed(Service(U16(mem, p), U16(mem, p + 2), U16(mem, p + 4), n.value), n.len + 6)
    else Parsed(Raw(Slice(mem, p, rdlength)), rdlength)
  }

  function ParseRecord(mem: Memory, max: nat, start: nat): Parsed<Record> {
    var n := ParseName(mem, max, start);
    if n.Error? then Error(n.status)
    else
      var p := start + n.len;
      if p + 10 > max then Error(EINSIZE)
      else
        var rtype, rclass, ttl, rdlength := U16(mem, p), U16(mem, p + 2), U32(mem, p + 4), U16(mem, p + 8);
        if rclass != 1 && KnownType(rtype) then Error(EINCLASS)
        else if p + 10 + rdlength > max then Error(EINSIZE)
        else
          var d := ParseRdata(mem, max, p + 10, rtype, rdlength);
          if d.Error? then Error(d.status)
          else Parsed(Record(n.value, rtype, rclass, ttl, rdlength, d.value), n.len + 10 + d.len)
  }

  function ParseQuestions(mem: Memory, max: nat, p: nat, n: nat): Parsed<seq<Question>>
    decreases n
  {
    if n == 0 then Parsed([], 0)
    else
      var q := ParseQuestion(mem, max, p);
      if q.Error? then Error(q.status)
      else
        var rest := ParseQuestions(mem, max, p + q.len, n - 1);
        if rest.Error? then rest else Parsed([q.value] + rest.value, q.len + rest.len)
  }

  function ParseRecords(mem: Memory, max: nat, p: nat, n: nat): Parsed<seq<Record>>
    decreases n
  {
    if n == 0 then Parsed([], 0)
    else
      var r := ParseRecord(mem, max, p);
      if r.Error? then Error(r.status)
      else
        var rest := ParseRecords(mem, max, p + r.len, n - 1);
        if rest.Error? then rest else Parsed([r.value] + rest.value, r.len + rest.len)
  }

  /** pj_dns_parse_packet on the size bytes at address 0. */
  function ParsePacket(mem: Memory, size: nat): Parsed<Packet> {
    if size < 12 then Error(EINSIZE)
    else
      var q := ParseQuestions(mem, size, 12, U16(mem, 4));
      if q.Error? then Error(q.status)
      else
        var a := ParseRecords(mem, size, 12 + q.len, U16(mem, 6));
        if a.Error? then Error(a.status)
        else
          var n := ParseRecords(mem, size, 12 + q.len + a.len, U16(mem, 8));
          if n.Error? then Error(n.status)
          else
            var r := ParseRecords(mem, size, 12 + q.len + a.len + n.len, U16(mem, 10));
            if r.Error? then Error(r.status)
            else Parsed(Packet(U16(mem, 0), U16(mem, 2), q.value, a.value, n.value, r.value), 12 + q.len + a.len + n.len + r.len)
  }

  // ----- the functions as they run -----

  method ReadName(mem: Memory, max: nat, p: nat) returns (r: Parsed<Name>)
    ensures r == ParseName(mem, max, p)
  {
    var status, parsed, len := GetNameLen(mem, max, 0, p);
    if status != SUCCESS {
      return Error(status);
    }
    var name;
    status, name := GetName(mem, max, 0, p, []);
    LengthPassFitsCopyPass(mem, max, 0, p);
    if status != SUCCESS {
      return Error(status);
    }
    assert [] + NameAt(mem, max, 0, p).text == NameAt(mem, max, 0, p).text;
    return Parsed(name, parsed);
  }

  method ReadQuestion(mem: Memory, max: nat, start: nat) returns (r: Parsed<Question>)
    ensures r == ParseQuestion(mem, max, start)
  {
    var n := ReadName(mem, max, start);
    if n.Error? {
      return Error(n.status);
    }
    var p := start + n.len;
    var qtype := U16(mem, p);
    p := p + 2;
    var qclass := U16(mem, p);
    p := p + 2;
    return Parsed(Question(n.value, qtype, qclass), p - start);
  }

  method ReadRecord(mem: Memory, max: nat, start: nat) returns (r: Parsed<Record>)
    ensures r == ParseRecord(mem, max, start)
  {
    hide ParseName, ParseRdata;
    var n := ReadName(mem, max, start);
    if n.Error? {
      return Error(n.status);
    }
    var p := start + n.len;
    if p + 10 > max {
      return Error(EINSIZE);
    }
    var rtype, rclass := U16(mem, p), U16(mem, p + 2);
    p := p + 4;
    if rclass != 1 {
      if KnownType(rtype) {
        return Error(EINCLASS);
      }
    }
    var ttl := U32(mem, p);
    p := p + 4;
    var rdlength := U16(mem, p);
    p := p + 2;
    if p + rdlength > max {
      return Error(EINSIZE);
    }
    var d := ReadRdata(mem, max, p, rtype, rdlength);
    if d.Error? {
      return Error(d.status);
    }
    return Parsed(Record(n.value, rtype, rclass, ttl, rdlength, d.value), p + d.len - start);
  }

  /** The part of parse_rr that reads the data of a record by its type. */
  method ReadRdata(mem: Memory, max: nat, p: nat, rtype: nat, rdlength: nat) returns (r: Parsed<Rdata>)
    ensures r == ParseRdata(mem, max, p, rtype, rdlength)
  {
    hide ParseName;
    if rtype == TYPE_A {
      return Parsed(Address(Slice(mem, p, 4)), 4);
    } else if rtype == TYPE_AAAA {
      return Parsed(Address(Slice(mem, p, 16)), 16);
    } else if IsTargetType(rtype) {
      var t := ReadName(mem, max, p);
      if t.Error? {
        return Error(t.status);
      }
      return Parsed(Target(t.value), t.len);
    } else if rtype == TYPE_SRV {
      var prio, weight, port := U16(mem, p), U16(mem, p + 2), U16(mem, p + 4);
      var t := ReadName(mem, max, p + 6);
      if t.Error? {
        return Error(t.status);
      }
      return Parsed(Service(prio, weight, port, t.value), 6 + t.len);
    } else {
      return Parsed(Raw(Slice(mem, p, rdlength)), rdlength);
    }
  }

  /** The result of going on after the values xs have been read from len bytes. */
  function After<T>(xs: seq<T>, len: nat, rest: Parsed<seq<T>>): Parsed<seq<T>> {
    if rest.Error? then rest else Parsed(xs + rest.value, len + rest.len)
  }

  lemma AfterNothing<T>(r: Parsed<seq<T>>)
    ensures After([], 0, r) == r
  {
    if r.Parsed? {
      assert [] + r.value == r.value;
    }
  }

  lemma AfterAfter<T>(xs: seq<T>, m: nat, ys: seq<T>, n: nat, rest: Parsed<seq<T>>)
    ensures After(xs, m, After(ys, n, rest)) == After(xs + ys, m + n, rest)
  {
    if rest.Parsed? {
      assert xs + (ys + rest.value) == xs + ys + rest.value;
    }
  }

  lemma OneQuestionFirst(mem: Memory, max: nat, p: nat, n: nat)
    ensures n == 0 ==> ParseQuestions(mem, max, p, n) == Parsed([], 0)
    ensures var x := ParseQuestion(mem, max, p);
            n > 0 ==> ParseQuestions(mem, max, p, n) == if x.Error? then Error(x.status) else After([x.value], x.len, ParseQuestions(mem, max, p + x.len, n - 1))
  {
    hide ParseQuestion;
  }

  method ReadQuestions(mem: Memory, max: nat, start: nat, count: nat) returns (r: Parsed<seq<Question>>)
    ensures r == ParseQuestions(mem, max, start, count)
  {
    hide ParseQuestion, ParseQuestions;
    var p, i, xs := start, 0, [];
    ghost var whole := ParseQuestions(mem, max, start, count);
    AfterNothing(whole);
    while i < count
      invariant 0 <= i <= count && start <= p
      invariant whole == After(xs, p - start, ParseQuestions(mem, max, p, count - i))
    {
      var x := ReadQuestion(mem, max, p);
      OneQuestionFirst(mem, max, p, count - i);
      if x.Error? {
        return Error(x.status);
      }
      AfterAfter(xs, p - start, [x.value], x.len, ParseQuestions(mem, max, p + x.len, count - i - 1));
      xs, p, i := xs + [x.value], p + x.len, i + 1;
    }
    OneQuestionFirst(mem, max, p, 0);
    assert xs + [] == xs;
    return Parsed(xs, p - start);
  }

  lemma OneRecordFirst(mem: Memory, max: nat, p: nat, n: nat)
    ensures n == 0 ==> ParseRecords(mem, max, p, n) == Parsed([], 0)
    ensures var x := ParseRecord(mem, max, p);
            n > 0 ==> ParseRecords(mem, max, p, n) == if x.Error? then Error(x.status) else After([x.value], x.len, ParseRecords(mem, max, p + x.len, n - 1))
  {
    hide ParseRecord;
  }

  method ReadRecords(mem: Memory, max: nat, start: nat, count: nat) returns (r: Parsed<seq<Record>>)
    ensures r == ParseRecords(mem, max, start, count)
  {
    hide ParseRecord, ParseRecords;
    var p, i, xs := start, 0, [];
    ghost var whole := ParseRecords(mem, max, start, count);
    AfterNothing(whole);
    while i < count
      invariant 0 <= i <= count && start <= p
      invariant whole == After(xs, p - start, ParseRecords(mem, max, p, count - i))
    {
      var x := ReadRecord(mem, max, p);
      OneRecordFirst(mem, max, p, count - i);
      if x.Error? {
        return Error(x.status);
      }
      AfterAfter(xs, p - start, [x.value], x.len, ParseRecords(mem, max, p + x.len, count - i - 1));
      xs, p, i := xs + [x.value], p + x.len, i + 1;
    }
    OneRecordFirst(mem, max, p, 0);
    assert xs + [] == xs;
    return Parsed(xs, p - start);
  }

  method ReadPacket(mem: Memory, size: nat) returns (r: Parsed<Packet>)
    ensures r == ParsePacket(mem, size)
  {
    hide ParseQuestions, ParseRecords, U16;
    if size < 12 {
      return Error(EINSIZE);
    }
    var start := 12;
    var q := ReadQuestions(mem, size, start, U16(mem, 4));
    if q.Error? {
      return Error(q.status);
    }
    start := start + q.len;
    var a := ReadRecords(mem, size, start, U16(mem, 6));
    if a.Error? {
      return Error(a.status);
    }
    start := start + a.len;
    var n := ReadRecords(mem, size, start, U16(mem, 8));
    if n.Error? {
      return Error(n.status);
    }
    start := start + n.len;
    var arr := ReadRecords(mem, size, start, U16(mem, 10));
    if arr.Error? {
      return Error(arr.status);
    }
    return Parsed(Packet(U16(mem, 0), U16(mem, 2), q.value, a.value, n.value, arr.value), start + arr.len);
  }
}
