/** pj_json_writef with the writer of pj_json_write, which copies into a buffer (json.c). */
module JsonWriter {
  import opened DnsTypes
  import opened ScanText
  import opened JsonText

  const ESC_BUF_LEN := 64

  lemma {:induction false} EscapeMore(a: Bytes, b: Bytes)
    ensures Escape(a + b) == Escape(a) + Escape(b)
    decreases |a|
  {
    hide Escaped;
    if a == [] {
      assert a + b == b;
    } else {
      assert (a + b)[1..] == a[1..] + b;
      EscapeMore(a[1..], b);
    }
  }

  lemma EscapeOne(c: Byte)
    ensures Escape([c]) == Escaped(c)
  {
    hide Escaped;
    assert Escape([c]) == Escaped(c) + [];
  }

  /** struct buf_writer_data: what has been written, and the room that is left. */
  class Writer {
    var out: Bytes
    var room: nat

    constructor (size: nat)
      ensures out == [] && room == size
    {
      out, room := [], size;
    }

    /** The state after a text has been written, or not. */
    twostate predicate Wrote(ok: bool, text: Bytes)
      reads this
    {
      ok == (|text| + 1 < old(room)) && (ok ==> out == old(out) + text && room == old(room) - |text|)
    }

    /** buf_writer: one byte more than the text must be left. */
    method Write(s: Bytes) returns (ok: bool)
      modifies this
      ensures Wrote(ok, s)
    {
      if |s| + 1 >= room {
        return false;
      }
      out, room := out + s, room - |s|;
      return true;
    }

    /** The inner loop of write_string_escaped: as much as the 64-byte buffer takes. */
    method FillBuffer(value: Bytes, start: nat) returns (buf: Bytes, ip: nat)
      requires start < |value|
      ensures start < ip <= |value| && |buf| <= ESC_BUF_LEN && buf == Escape(value[start..ip])
    {
      hide Escape;
      buf, ip := [], start;
      assert value[start..start] == [];
      assert Escape([]) == [] by { EscapeNothing(); }
      while ip < |value| && |buf| < ESC_BUF_LEN
        invariant start <= ip <= |value| && |buf| <= ESC_BUF_LEN && buf == Escape(value[start..ip])
        invariant buf != [] ==> start < ip
      {
        if ESC_BUF_LEN - |buf| < 2 {
          break;
        }
        var c := value[ip];
        var e := Escaped(c);
        if |e| > 2 && ESC_BUF_LEN - |buf| < 6 {
          break;
        }
        assert value[start..ip + 1] == value[start..ip] + [c];
        EscapeMore(value[start..ip], [c]);
        EscapeOne(c);
        buf := buf + e;
        ip := ip + 1;
      }
      assert ip == start ==> buf == [];
    }

    /** write_string_escaped: chunk by chunk, the same as at once. */
    method WriteStringEscaped(value: Bytes) returns (ok: bool)
      modifies this
      ensures value != [] ==> Wrote(ok, Escape(value))
      ensures value == [] ==> ok && out == old(out) && room == old(room)
    {
      hide Escape, Escaped;
      var ip := 0;
      assert value[..0] == [];
      EscapeNothing();
      assert out == old(out) + [];
      while ip < |value|
        invariant 0 <= ip <= |value| && out == old(out) + Escape(value[..ip]) && room == old(room) - |Escape(value[..ip])|
        invariant ip > 0 ==> |Escape(value[..ip])| + 1 < old(room)
        invariant ip == 0 ==> out == old(out) && room == old(room)
      {
        var buf, next := FillBuffer(value, ip);
        assert value[..next] == value[..ip] + value[ip..next];
        EscapeMore(value[..ip], value[ip..next]);
        assert value == value[..next] + value[next..];
        EscapeMore(value[..next], value[next..]);
        label L:
        ok := Write(buf);
        if !ok {
          return false;
        }
        assert old@L(out) + buf == old(out) + (Escape(value[..ip]) + buf);
        ip := next;
      }
      assert value[..|value|] == value;
      return true;
    }

    /** The text done has been written since the writer held out0 and room0. */
    ghost predicate Done(out0: Bytes, room0: nat, done: Bytes)
      reads this
    {
      out == out0 + done && room + |done| == room0
    }

    /** Writing on. */
    method Add(s: Bytes, ghost out0: Bytes, ghost room0: nat, ghost done: Bytes) returns (ok: bool)
      requires Done(out0, room0, done)
      modifies this
      ensures ok == (|done| + |s| + 1 < room0) && (ok ==> Done(out0, room0, done + s))
    {
      ok := Write(s);
      assert out0 + done + s == out0 + (done + s);
    }

    method AddEscaped(s: Bytes, ghost out0: Bytes, ghost room0: nat, ghost done: Bytes) returns (ok: bool)
      requires Done(out0, room0, done) && |done| + 1 < room0
      modifies this
      ensures ok == (|done| + |Escape(s)| + 1 < room0) && (ok ==> Done(out0, room0, done + Escape(s)))
    {
      hide Escape;
      EscapeNothing();
      ok := WriteStringEscaped(s);
      assert out0 + done + Escape(s) == out0 + (done + Escape(s));
      assert s == [] ==> done + Escape(s) == done;
    }

    /** The name of an element. */
    method AddName(name: Bytes, indent: nat, noName: bool, ghost out0: Bytes, ghost room0: nat, ghost done: Bytes) returns (ok: bool)
      requires Done(out0, room0, done) && name != [] && indent <= MAX_INDENT
      modifies this
      ensures ok == (|done| + |NameText(name, indent, noName)| + 1 < room0)
      ensures ok ==> Done(out0, room0, done + NameText(name, indent, noName))
    {
      hide Escape, Done;
      ok := Add(Spaces(indent), out0, room0, done);
      if ok && !noName {
        ghost var d1 := done + Spaces(indent);
        ok := Add([QUOTE], out0, room0, d1);
        if !ok {
          return;
        }
        ok := AddEscaped(name, out0, room0, d1 + [QUOTE]);
        if !ok {
          return;
        }
        ghost var d2 := d1 + [QUOTE] + Escape(name);
        ok := Add([QUOTE, COLON, SPACE], out0, room0, d2);
        if !ok {
          return;
        }
        if |name| < NAME_MIN_LEN {
          ok := Add(Spaces(NAME_MIN_LEN - |name|), out0, room0, d2 + [QUOTE, COLON, SPACE]);
        }
        NameParts(name, indent, done);
      }
    }

    /** elem_write: the name, then the value. */
    method AddElem(e: Elem, indent: nat, noName: bool, ghost out0: Bytes, ghost room0: nat, ghost done: Bytes) returns (ok: bool)
      requires Done(out0, room0, done) && Writable(e.value, indent) && indent <= MAX_INDENT
      modifies this
      ensures ok == (|done| + |ElemText(e, indent, noName)| + 1 < room0)
      ensures ok ==> Done(out0, room0, done + ElemText(e, indent, noName))
      decreases e, 1
    {
      hide NameText, ValueText, Done;
      ghost var name := NameText(e.name, indent, noName);
      NoNameNoText(indent, noName);
      assert done + [] == done;
      if e.name != [] {
        ok := AddName(e.name, indent, noName, out0, room0, done);
        if !ok {
          return;
        }
      }
      ok := AddValue(e.value, indent, out0, room0, done + name);
      assert done + name + ValueText(e.value, indent) == done + (name + ValueText(e.value, indent));
    }

    method AddValue(v: Value, indent: nat, ghost out0: Bytes, ghost room0: nat, ghost done: Bytes) returns (ok: bool)
      requires Done(out0, room0, done) && Writable(v, indent) && indent <= MAX_INDENT
      modifies this
      ensures ok == (|done| + |ValueText(v, indent)| + 1 < room0)
      ensures ok ==> Done(out0, room0, done + ValueText(v, indent))
      decreases v, 1
    {
      hide ChildrenText, Done, Escape, Digits;
      match v {
        case Null =>
          ok := Add(NULL(), out0, room0, done);
        case Bool(b) =>
          ok := Add(if b then TRUE() else FALSE(), out0, room0, done);
        case Number(n) =>
          ok := Add(Decimal(n.Floor), out0, room0, done);
        case Str(s) =>
          ok := AddString(s, out0, room0, done);
        case List(items) =>
          ok := AddChildren(items, indent, true, OPEN_LIST, CLOSE_LIST, out0, room0, done);
        case Obj(members) =>
          ok := AddChildren(members, indent, false, OPEN_OBJ, CLOSE_OBJ, out0, room0, done);
      }
    }

    method AddString(s: Bytes, ghost out0: Bytes, ghost room0: nat, ghost done: Bytes) returns (ok: bool)
      requires Done(out0, room0, done)
      modifies this
      ensures ok == (|done| + |Escape(s)| + 2 + 1 < room0)
      ensures ok ==> Done(out0, room0, done + ([QUOTE] + Escape(s) + [QUOTE]))
    {
      hide Escape, Done;
      ok := Add([QUOTE], out0, room0, done);
      if !ok {
        return;
      }
      ok := AddEscaped(s, out0, room0, done + [QUOTE]);
      if !ok {
        return;
      }
      ok := Add([QUOTE], out0, room0, done + [QUOTE] + Escape(s));
      assert done + [QUOTE] + Escape(s) + [QUOTE] == done + ([QUOTE] + Escape(s) + [QUOTE]);
    }

    /** write_children. */
    method AddChildren(es: seq<Elem>, indent: nat, noName: bool, open: Byte, close: Byte, ghost out0: Bytes, ghost room0: nat, ghost done: Bytes) returns (ok: bool)
      requires Done(out0, room0, done) && WritableAll(es, ChildIndent(es, indent)) && indent <= MAX_INDENT
      modifies this
      ensures var text := [open, SPACE] + ChildrenText(es, indent, noName) + [close];
        ok == (|done| + |text| + 1 < room0) && (ok ==> Done(out0, room0, done + text))
      decreases es, 2
    {
      hide Separated, Done, ElemText, Writable;
      ok := Add([open], out0, room0, done);
      if !ok {
        return;
      }
      ok := Add([SPACE], out0, room0, done + [open]);
      if !ok {
        return;
      }
      ghost var d := done + [open] + [SPACE];
      ghost var text := ChildrenText(es, indent, noName);
      assert d + [] == d;
      if es != [] {
        if es[0].name == [] {
          ok := AddSeparated(es, indent, noName, [COMMA, SPACE], out0, room0, d);
          if !ok {
            return;
          }
        } else {
          var inner := if indent < MAX_INDENT then indent + INDENT_SIZE else indent;
          ghost var s := Separated(es, inner, noName, [COMMA, LF]);
          ok := Add([LF], out0, room0, d);
          if !ok {
            return;
          }
          ok := AddSeparated(es, inner, noName, [COMMA, LF], out0, room0, d + [LF]);
          if !ok {
            return;
          }
          ok := Add([LF], out0, room0, d + [LF] + s);
          if !ok {
            return;
          }
          ok := Add(Spaces(indent), out0, room0, d + [LF] + s + [LF]);
          if !ok {
            return;
          }
          assert d + [LF] + s + [LF] + Spaces(indent) == d + ([LF] + s + [LF] + Spaces(indent));
        }
      }
      ok := Add([close], out0, room0, d + text);
      assert d + text + [close] == done + ([open, SPACE] + text + [close]);
    }

    /** The loop over the children. */
    method AddSeparated(es: seq<Elem>, indent: nat, noName: bool, sep: Bytes, ghost out0: Bytes, ghost room0: nat, ghost done: Bytes) returns (ok: bool)
      requires Done(out0, room0, done) && es != [] && WritableAll(es, indent)
      modifies this
      ensures ok == (|done| + |Separated(es, indent, noName, sep)| + 1 < room0)
      ensures ok ==> Done(out0, room0, done + Separated(es, indent, noName, sep))
      decreases es, 1
    {
      hide Done, ElemText, Writable, Separated;
      ghost var all, d := Separated(es, indent, noName, sep), done;
      var i := 0;
      assert es[0..] == es;
      while i < |es|
        invariant 0 <= i <= |es| && Done(out0, room0, d) && WritableAll(es[i..], indent)
        invariant done + all == d + Separated(es[i..], indent, noName, sep)
        invariant i > 0 ==> |d| + 1 < room0
      {
        SeparatedStep(es, i, indent, noName, sep, d);
        ok := AddElem(es[i], indent, noName, out0, room0, d);
        if !ok {
          return;
        }
        d := d + ElemText(es[i], indent, noName);
        if i + 1 != |es| {
          ok := Add(sep, out0, room0, d);
          if !ok {
            return;
          }
          d := d + sep;
        }
        i := i + 1;
      }
      SeparatedNothing(es[i..], indent, noName, sep);
      assert d + [] == d;
      return true;
    }
  }

  lemma SeparatedStep(es: seq<Elem>, i: nat, indent: nat, noName: bool, sep: Bytes, d: Bytes)
    requires i < |es| && WritableAll(es[i..], indent)
    ensures Writable(es[i].value, indent) && WritableAll(es[i + 1..], indent)
    ensures d + Separated(es[i..], indent, noName, sep) ==
      d + ElemText(es[i], indent, noName) + (if i + 1 != |es| then sep else []) + Separated(es[i + 1..], indent, noName, sep)
    ensures |Separated(es[i..], indent, noName, sep)| >= |ElemText(es[i], indent, noName)| + if i + 1 != |es| then |sep| else 0
  {
    hide ElemText, Writable;
    assert es[i..][1..] == es[i + 1..] && es[i..][0] == es[i];
    var here, tail := es[i..], es[i + 1..];
    assert forall k :: 0 <= k < |tail| ==> tail[k] == es[i + 1 + k] == here[1 + k];
    var t, more := ElemText(es[i], indent, noName), Separated(es[i + 1..], indent, noName, sep);
    if i + 1 == |es| {
      assert more == [];
      assert d + t + [] + [] == d + t;
    } else {
      assert d + (t + sep + more) == d + t + sep + more;
    }
  }

  lemma SeparatedNothing(es: seq<Elem>, indent: nat, noName: bool, sep: Bytes)
    requires es == [] && WritableAll(es, indent)
    ensures Separated(es, indent, noName, sep) == []
  {
  }

  lemma NameParts(name: Bytes, indent: nat, done: Bytes)
    requires name != []
    ensures var n := done + Spaces(indent) + [QUOTE] + Escape(name) + [QUOTE, COLON, SPACE];
            done + NameText(name, indent, false) == n + Spaces(Padding(name)) && (Padding(name) == 0 ==> done + NameText(name, indent, false) == n)
  {
    hide Escape;
    var e, p := Escape(name), Spaces(Padding(name));
    assert done + (Spaces(indent) + ([QUOTE] + e + [QUOTE, COLON, SPACE] + p)) == done + Spaces(indent) + [QUOTE] + e + [QUOTE, COLON, SPACE] + p;
  }

  lemma NoNameNoText(indent: nat, noName: bool)
    ensures NameText([], indent, noName) == []
  {
  }

  /** pj_json_write into size bytes: it writes the whole text exactly when the buffer has at
      least two bytes more, one of them for the final zero. */
  method WriteDocument(e: Elem, size: nat) returns (ok: bool, text: Bytes)
    requires Writable(e.value, 0)
    ensures ok == (|ElemText(e, 0, false)| + 1 < size) && (ok ==> text == ElemText(e, 0, false))
  {
    hide ElemText, Writable;
    var w := new Writer(size);
    assert [] + [] == w.out;
    ok := w.AddElem(e, 0, false, [], size, []);
    text := w.out;
    assert [] + ([] + ElemText(e, 0, false)) == ElemText(e, 0, false);
  }

  lemma EscapeNothing()
    ensures Escape([]) == []
  {
  }
}
