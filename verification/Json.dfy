/** pj_json_parse, and pj_json_write with its buffer writer, as they run (json.c). */
module Json {
  import opened DnsTypes
  import opened ScanText
  import opened ScannerObject
  import opened JsonText

  // ----- parsing -----

  /** What the function returns and where it leaves the scanner. */
  ghost predicate Yields<T(!new)>(r: Option<T>, sc: Scanner, want: Option<(T, Bytes)>)
    reads sc
  {
    sc.Valid() && match want
    case None => r.None?
    case Some(w) => r == Some(w.0) && sc.Rest() == w.1
  }

  function Onto(out: Bytes, r: Option<Bytes>): Option<Bytes> {
    if r.None? then None else Some(out + r.value)
  }

  lemma OntoPrepend(out: Bytes, c: Byte, r: Option<Bytes>)
    ensures Onto(out, Prepend(c, r)) == Onto(out + [c], r)
  {
    if r.Some? {
      assert out + ([c] + r.value) == out + [c] + r.value;
    }
  }

  /** The copying loop of parse_quoted_string. */
  method RemoveEscapes(token: Bytes) returns (r: Option<Bytes>)
    ensures r == Unescape(token)
  {
    hide HexValue;
    var out: Bytes := [];
    var ip := 0;
    assert token[0..] == token;
    assert Onto([], Unescape(token)) == Unescape(token) by { OntoNothing(Unescape(token)); }
    while ip < |token|
      invariant 0 <= ip <= |token| && Unescape(token) == Onto(out, Unescape(token[ip..]))
      decreases |token| - ip
    {
      ghost var t := token[ip..];
      var c: Byte, used;
      if token[ip] != BACKSLASH {
        c, used := token[ip], 1;
      } else if ip + 1 == |token| {
        return None;
      } else if token[ip + 1] == 117 {
        if |token| - (ip + 2) < 4 {
          return None;
        }
        c, used := (HexValue(token[ip + 4]) * 16 + HexValue(token[ip + 5])) % 256, 6;
      } else if token[ip + 1] == QUOTE || token[ip + 1] == BACKSLASH || token[ip + 1] == SLASH {
        c, used := token[ip + 1], 2;
      } else if token[ip + 1] == 98 {
        c, used := 8, 2;
      } else if token[ip + 1] == 102 {
        c, used := 12, 2;
      } else if token[ip + 1] == 110 {
        c, used := LF, 2;
      } else if token[ip + 1] == 114 {
        c, used := CR, 2;
      } else if token[ip + 1] == 116 {
        c, used := TAB, 2;
      } else {
        return None;
      }
      assert t[used..] == token[ip + used..];
      assert Unescape(t) == Prepend(c, Unescape(t[used..]));
      OntoPrepend(out, c, Unescape(t[used..]));
      out := out + [c];
      ip := ip + used;
    }
    assert out + [] == out;
    return Some(out);
  }

  lemma OntoNothing(r: Option<Bytes>)
    ensures Onto([], r) == r
  {
    if r.Some? {
      assert [] + r.value == r.value;
    }
  }

  /** Without a backslash there is nothing to remove. */
  lemma {:induction false} NoEscapes(t: Bytes)
    requires BACKSLASH !in t
    ensures Unescape(t) == Some(t)
    decreases |t|
  {
    if t != [] {
      assert BACKSLASH !in t[1..];
      NoEscapes(t[1..]);
      assert [t[0]] + t[1..] == t;
    }
  }

  method ReadString(sc: Scanner) returns (r: Option<Value>)
    requires sc.Valid()
    modifies sc
    ensures Yields(r, sc, ParseString(old(sc.Rest())))
  {
    hide Unescape;
    var ok, token := sc.TakeQuotes({QUOTE});
    if !ok {
      return None;
    }
    if BACKSLASH !in token {
      NoEscapes(token);
      return Some(Str(token));
    }
    var s := RemoveEscapes(token);
    if s.None? {
      return None;
    }
    return Some(Str(s.value));
  }

  method ReadNumber(sc: Scanner, neg: bool) returns (r: Option<Value>)
    requires sc.Valid()
    modifies sc
    ensures Yields(r, sc, ParseNumber(old(sc.Rest()), neg))
  {
    hide NumberOf;
    var ok, token := sc.TakeSpec(NUMERIC);
    if !ok {
      return None;
    }
    var val := NumberOf(token);
    if neg {
      val := -val;
    }
    return Some(Number(val));
  }

  method ReadWord(sc: Scanner) returns (r: Option<Value>)
    requires sc.Valid()
    modifies sc
    ensures Yields(r, sc, ParseWord(old(sc.Rest())))
  {
    var c := sc.Compare(FALSE());
    if c.None? {
      return None;
    }
    var ok;
    if c.value {
      ok := sc.Advance(5, true);
      return Some(Bool(false));
    }
    c := sc.Compare(TRUE());
    if c.value {
      ok := sc.Advance(4, true);
      return Some(Bool(true));
    }
    c := sc.Compare(NULL());
    if c.value {
      ok := sc.Advance(4, true);
      return Some(Null);
    }
    return None;
  }

  method ReadStart(sc: Scanner) returns (s: Start)
    requires sc.Valid()
    modifies sc
    ensures sc.Valid() && s == ParseStart(old(sc.Rest())) && (s.Named? || s.Whole? ==> sc.Rest() == s.rest)
  {
    if sc.Peek(0) != QUOTE {
      return Named([], sc.text[sc.curptr..]);
    }
    var ok := sc.TakeChar();
    if !ok {
      return Failed;
    }
    var token;
    ok, token := sc.TakeUntil({QUOTE});
    if !ok {
      return Failed;
    }
    ok := sc.TakeChar();
    if !ok {
      return Failed;
    }
    if sc.Peek(0) == COLON {
      ok := sc.TakeChar();
      return if ok then Named(token, sc.text[sc.curptr..]) else Failed;
    }
    if token != [] {
      return Whole(token, sc.text[sc.curptr..]);
    }
    return Named([], sc.text[sc.curptr..]);
  }

  method ReadValue(sc: Scanner) returns (r: Option<Value>)
    requires sc.Valid()
    modifies sc
    ensures Yields(r, sc, ParseValue(old(sc.Rest())))
    decreases |sc.Rest()|, 0
  {
    hide ParseNumber, ParseString, ParseWord, ParseChildren, SkipWhite;
    var h := sc.Peek(0);
    if h in NUMERIC {
      r := ReadNumber(sc, false);
    } else if h == MINUS {
      var ok := sc.TakeChar();
      r := ReadNumber(sc, true);
    } else if h == QUOTE {
      r := ReadString(sc);
    } else if IsAlpha(h) {
      r := ReadWord(sc);
    } else if h == OPEN_LIST {
      var ok := sc.TakeChar();
      var c := ReadChildren(sc, CLOSE_LIST);
      r := if c.None? then None else Some(List(c.value));
    } else if h == OPEN_OBJ {
      var ok := sc.TakeChar();
      var c := ReadChildren(sc, CLOSE_OBJ);
      r := if c.None? then None else Some(Obj(c.value));
    } else {
      r := None;
    }
  }

  /** parse_elem_throw. */
  method ReadElem(sc: Scanner) returns (r: Option<Elem>)
    requires sc.Valid()
    modifies sc
    ensures Yields(r, sc, ParseElem(old(sc.Rest())))
    decreases |sc.Rest()|, 1
  {
    hide ParseStart, ParseValue;
    var s := ReadStart(sc);
    if s.Failed? {
      return None;
    }
    if s.Whole? {
      return Some(Elem([], Str(s.text)));
    }
    var v := ReadValue(sc);
    if v.None? {
      return None;
    }
    return Some(Elem(s.name, v.value));
  }

  /** The elements es come before what the rest yields. */
  function Before(es: seq<Elem>, r: Option<(seq<Elem>, Bytes)>): Option<(seq<Elem>, Bytes)> {
    if r.None? then None else Some((es + r.value.0, r.value.1))
  }

  lemma BeforeMore(es: seq<Elem>, e: Elem, r: Option<(seq<Elem>, Bytes)>)
    ensures Before(es, Before([e], r)) == Before(es + [e], r)
  {
    if r.Some? {
      assert es + ([e] + r.value.0) == es + [e] + r.value.0;
    }
  }

  lemma BeforeNothing(r: Option<(seq<Elem>, Bytes)>)
    ensures Before([], r) == r
  {
    if r.Some? {
      assert [] + r.value.0 == r.value.0;
    }
  }

  /** parse_children without the recursion, after the commas. */
  lemma ChildrenAre(t: Bytes, end: Byte)
    requires end != 0
    ensures var u := SkipCommas(t);
            && (Head(u) == end ==> GetChar(u).Some? && ParseChildren(t, end) == Some(([], GetChar(u).value)))
            && (Head(u) != end ==>
                 var e := ParseElem(u);
                 ParseChildren(t, end) == if e.None? then None else Before([e.value.0], ParseChildren(e.value.1, end)))
  {
    hide ParseElem, SkipWhite;
  }

  method SkipAllCommas(sc: Scanner)
    requires sc.Valid()
    modifies sc
    ensures sc.Valid() && sc.Rest() == SkipCommas(old(sc.Rest()))
  {
    hide SkipWhite;
    while sc.Peek(0) == COMMA
      invariant sc.Valid() && SkipCommas(old(sc.Rest())) == SkipCommas(sc.Rest())
      decreases |sc.Rest()|
    {
      var ok := sc.TakeChar();
    }
  }

  lemma EndIsNoComma(t: Bytes, end: Byte)
    requires Head(t) == end && end != COMMA
    ensures SkipCommas(t) == t
  {
  }

  /** parse_children, after the opening bracket. */
  method ReadChildren(sc: Scanner, end: Byte) returns (r: Option<seq<Elem>>)
    requires sc.Valid() && end != 0 && end != COMMA
    modifies sc
    ensures Yields(r, sc, ParseChildren(old(sc.Rest()), end))
    decreases |sc.Rest()|, 2
  {
    hide ParseElem, ParseChildren, SkipCommas, SkipWhite;
    ghost var t0 := sc.Rest();
    var es := [];
    BeforeNothing(ParseChildren(t0, end));
    while true
      invariant sc.Valid() && |sc.Rest()| <= |t0| && ParseChildren(t0, end) == Before(es, ParseChildren(sc.Rest(), end))
      decreases |sc.Rest()|
    {
      ghost var t := sc.Rest();
      ChildrenAre(t, end);
      if sc.Peek(0) == end {
        EndIsNoComma(t, end);
        break;
      }
      SkipAllCommas(sc);
      if sc.Peek(0) == end {
        break;
      }
      var e := ReadElem(sc);
      if e.None? {
        return None;
      }
      BeforeMore(es, e.value, ParseChildren(sc.Rest(), end));
      es := es + [e.value];
    }
    var ok := sc.TakeChar();
    assert es + [] == es;
    return Some(es);
  }

  /** pj_json_parse; left is the number of bytes after the element. */
  method ReadDocument(buffer: Bytes) returns (r: Option<Elem>, left: nat)
    ensures r.None? <==> Parse(buffer) == None
    ensures r.Some? ==> Parse(buffer) == Some((r.value, left))
  {
    hide ParseElem, SkipWhite;
    if buffer == [] {
      return None, 0;
    }
    var sc := new Scanner(buffer);
    r := ReadElem(sc);
    left := |buffer| - sc.curptr;
  }
}
