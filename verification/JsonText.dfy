/** JSON elements, the text that pj_json_writef writes for them, and what pj_json_parse makes of
    a text (json.c; section 2 of RFC 4627). */
module JsonText {
  import opened DnsTypes
  import opened ScanText

  const COMMA: Byte := 44
  const MINUS: Byte := 45
  const SLASH: Byte := 47
  const COLON: Byte := 58
  const OPEN_LIST: Byte := 91
  const CLOSE_LIST: Byte := 93
  const OPEN_OBJ: Byte := 123
  const CLOSE_OBJ: Byte := 125

  const MAX_INDENT := 100
  const NAME_MIN_LEN := 20
  const INDENT_SIZE := 3

  /** Numbers are floats; rounding is not modelled. */
  datatype Value = Null | Bool(isTrue: bool) | Number(num: real) | Str(text: Bytes) | List(items: seq<Elem>) | Obj(members: seq<Elem>)

  datatype Elem = Elem(name: Bytes, value: Value)

  // ----- writing strings and numbers -----

  function HexDigit(d: nat): Byte
    requires d < 16
  {
    if d < 10 then 48 + d else 87 + d
  }

  /** The escape of one byte; the short escapes, or the byte itself if it is printable. */
  function Escaped(c: Byte): (e: Bytes)
    ensures 1 <= |e| <= 6
  {
    if c == QUOTE || c == BACKSLASH || c == SLASH then [BACKSLASH, c]
    else if c == 8 then [BACKSLASH, 98]
    else if c == 12 then [BACKSLASH, 102]
    else if c == LF then [BACKSLASH, 110]
    else if c == CR then [BACKSLASH, 114]
    else if c == TAB then [BACKSLASH, 116]
    else if 32 <= c < 127 then [c]
    else [BACKSLASH, 117, 48, 48, HexDigit(c / 16), HexDigit(c % 16)]
  }

  function Escape(s: Bytes): Bytes {
    if s == [] then [] else Escaped(s[0]) + Escape(s[1..])
  }

  function Digits(n: nat): (d: Bytes)
    ensures |d| > 0
  {
    if n < 10 then [48 + n] else Digits(n / 10) + [48 + n % 10]
  }

  /** %d. */
  function Decimal(n: int): Bytes {
    if n < 0 then [MINUS] + Digits(-n) else Digits(n)
  }

  // ----- writing elements -----

  function Spaces(n: nat): (s: Bytes)
    ensures |s| == n
  {
    seq(n, i requires 0 <= i < n => SPACE)
  }

  /** Numbers are whole and fit an int, and indentation stays within the indentation buffer. */
  predicate Writable(v: Value, indent: nat)
    decreases v, 0
  {
    match v
    case Number(n) => n == n.Floor as real && -0x8000_0000 <= n.Floor < 0x8000_0000
    case List(items) => WritableAll(items, ChildIndent(items, indent))
    case Obj(members) => WritableAll(members, ChildIndent(members, indent))
    case _ => true
  }

  predicate WritableAll(es: seq<Elem>, indent: nat)
    decreases es, 0
  {
    indent <= MAX_INDENT && forall i :: 0 <= i < |es| ==> Writable(es[i].value, indent)
  }

  /** Named children go on lines of their own, further in. */
  function ChildIndent(es: seq<Elem>, indent: nat): nat {
    if es == [] || es[0].name == [] then indent else if indent < MAX_INDENT then indent + INDENT_SIZE else indent
  }

  function NameText(name: Bytes, indent: nat, noName: bool): Bytes {
    if name == [] then []
    else if noName then Spaces(indent)
    else Spaces(indent) + ([QUOTE] + Escape(name) + [QUOTE, COLON, SPACE] + Spaces(Padding(name)))
  }

  function Padding(name: Bytes): nat {
    if |name| < NAME_MIN_LEN then NAME_MIN_LEN - |name| else 0
  }

  function ElemText(e: Elem, indent: nat, noName: bool): Bytes
    requires Writable(e.value, indent)
    decreases e, 1
  {
    NameText(e.name, indent, noName) + ValueText(e.value, indent)
  }

  function TRUE(): Bytes { [116, 114, 117, 101] }

  function FALSE(): Bytes { [102, 97, 108, 115, 101] }

  function NULL(): Bytes { [110, 117, 108, 108] }

  function ValueText(v: Value, indent: nat): Bytes
    requires Writable(v, indent)
    decreases v, 1
  {
    match v
    case Null => NULL()
    case Bool(b) => if b then TRUE() else FALSE()
    case Number(n) => Decimal(n.Floor)
    case Str(s) => [QUOTE] + Escape(s) + [QUOTE]
    case List(items) => [OPEN_LIST, SPACE] + ChildrenText(items, indent, true) + [CLOSE_LIST]
    case Obj(members) => [OPEN_OBJ, SPACE] + ChildrenText(members, indent, false) + [CLOSE_OBJ]
  }

  function ChildrenText(es: seq<Elem>, indent: nat, noName: bool): Bytes
    requires WritableAll(es, ChildIndent(es, indent))
    decreases es, 2
  {
    if es == [] then []
    else if es[0].name == [] then Separated(es, indent, noName, [COMMA, SPACE])
    else [LF] + Separated(es, ChildIndent(es, indent), noName, [COMMA, LF]) + [LF] + Spaces(indent)
  }

  function Separated(es: seq<Elem>, indent: nat, noName: bool, sep: Bytes): Bytes
    requires WritableAll(es, indent)
    decreases es, 1
  {
    if es == [] then []
    else if |es| == 1 then ElemText(es[0], indent, noName)
    else ElemText(es[0], indent, noName) + sep + Separated(es[1..], indent, noName, sep)
  }

  // ----- parsing -----

  /** pj_hex_digit_to_val, on any byte. */
  function HexValue(c: Byte): (v: nat)
    ensures v < 16
  {
    if c <= 57 then (c + 208) % 16 else if c <= 70 then (c + 201) % 16 else (c + 169) % 16
  }

  /** The loop of parse_quoted_string; None at an invalid escape. */
  function Unescape(t: Bytes): Option<Bytes>
    decreases |t|
  {
    if t == [] then Some([])
    else if t[0] != BACKSLASH then Prepend(t[0], Unescape(t[1..]))
    else if |t| == 1 then None
    else if t[1] == 117 then
      if |t| < 6 then None else Prepend((HexValue(t[4]) * 16 + HexValue(t[5])) % 256, Unescape(t[6..]))
    else if t[1] == QUOTE || t[1] == BACKSLASH || t[1] == SLASH then Prepend(t[1], Unescape(t[2..]))
    else if t[1] == 98 then Prepend(8, Unescape(t[2..]))
    else if t[1] == 102 then Prepend(12, Unescape(t[2..]))
    else if t[1] == 110 then Prepend(LF, Unescape(t[2..]))
    else if t[1] == 114 then Prepend(CR, Unescape(t[2..]))
    else if t[1] == 116 then Prepend(TAB, Unescape(t[2..]))
    else None
  }

  function Prepend(c: Byte, r: Option<Bytes>): Option<Bytes> {
    if r.None? then None else Some([c] + r.value)
  }

  function ParseString(t: Bytes): (r: Option<(Value, Bytes)>)
    ensures r.Some? ==> |r.value.1| < |t|
  {
    var q := GetQuotes(t, {QUOTE});
    if q.None? then None
    else
      var u := Unescape(q.value.0);
      if u.None? then None else Some((Str(u.value), q.value.1))
  }

  const NUMERIC: set<Byte> := {46, 48, 49, 50, 51, 52, 53, 54, 55, 56, 57}

  function DigitsValue(t: Bytes): nat {
    if t == [] then 0 else DigitsValue(t[..|t| - 1]) * 10 + if t[|t| - 1] >= 48 then t[|t| - 1] - 48 else 0
  }

  function TenTo(n: nat): (p: nat)
    ensures p > 0
  {
    if n == 0 then 1 else 10 * TenTo(n - 1)
  }

  /** pj_strtof on digits and dots: what follows a second dot does not count. */
  function NumberOf(t: Bytes): real {
    var k := Span(t, {46});
    if k == |t| then DigitsValue(t) as real
    else
      var f := t[k + 1..];
      var m := Span(f, {46});
      DigitsValue(t[..k]) as real + DigitsValue(f[..m]) as real / TenTo(m) as real
  }

  function ParseNumber(t: Bytes, neg: bool): (r: Option<(Value, Bytes)>)
    ensures r.Some? ==> |r.value.1| < |t|
  {
    var g := Get(t, NUMERIC);
    if g.None? then None else Some((Number(if neg then -NumberOf(g.value.0) else NumberOf(g.value.0)), g.value.1))
  }

  predicate IsAlpha(b: Byte) {
    65 <= b <= 90 || 97 <= b <= 122
  }

  /** A word; a comparison past the end is a syntax error. */
  function ParseWord(t: Bytes): (r: Option<(Value, Bytes)>)
    ensures r.Some? ==> |r.value.1| < |t|
  {
    if StrCmp(t, FALSE()).None? then None
    else if StrCmp(t, FALSE()).value then Some((Bool(false), SkipWhite(t[5..])))
    else if StrCmp(t, TRUE()).value then Some((Bool(true), SkipWhite(t[4..])))
    else if StrCmp(t, NULL()).value then Some((Null, SkipWhite(t[4..])))
    else None
  }

  function ParseValue(t: Bytes): (r: Option<(Value, Bytes)>)
    ensures r.Some? ==> |r.value.1| < |t|
    decreases |t|, 0
  {
    var h := Head(t);
    if h in NUMERIC then ParseNumber(t, false)
    else if h == MINUS then
      var g := GetChar(t);
      if g.None? then None else ParseNumber(g.value, true)
    else if h == QUOTE then ParseString(t)
    else if IsAlpha(h) then ParseWord(t)
    else if h == OPEN_LIST then
      var c := ParseChildren(GetChar(t).value, CLOSE_LIST);
      if c.None? then None else Some((List(c.value.0), c.value.1))
    else if h == OPEN_OBJ then
      var c := ParseChildren(GetChar(t).value, CLOSE_OBJ);
      if c.None? then None else Some((Obj(c.value.0), c.value.1))
    else None
  }

  /** The start of an element: a name, or a string without a name. */
  datatype Start = Failed | Named(name: Bytes, rest: Bytes) | Whole(text: Bytes, rest: Bytes)

  function ParseStart(t: Bytes): (s: Start)
    ensures s.Named? ==> |s.rest| <= |t|
    ensures s.Whole? ==> |s.rest| < |t|
  {
    if Head(t) != QUOTE then Named([], t)
    else
      var q := GetChar(t);
      if q.None? then Failed
      else
        var u := Until(q.value, {QUOTE});
        if u.None? then Failed
        else
          var e := GetChar(u.value.1);
          if e.None? then Failed
          else if Head(e.value) == COLON then
            var c := GetChar(e.value);
            if c.None? then Failed else Named(u.value.0, c.value)
          else if u.value.0 != [] then Whole(u.value.0, e.value)
          else Named([], e.value)
  }

  /** parse_elem_throw. */
  function ParseElem(t: Bytes): (r: Option<(Elem, Bytes)>)
    ensures r.Some? ==> |r.value.1| < |t|
    decreases |t|, 1
  {
    match ParseStart(t)
    case Failed => None
    case Whole(s, rest) => Some((Elem([], Str(s)), rest))
    case Named(name, rest) =>
      var v := ParseValue(rest);
      if v.None? then None else Some((Elem(name, v.value.0), v.value.1))
  }

  function SkipCommas(t: Bytes): (r: Bytes)
    ensures |r| <= |t|
    decreases |t|
  {
    if Head(t) == COMMA then SkipCommas(GetChar(t).value) else t
  }

  /** parse_children, after the opening bracket. */
  function ParseChildren(t: Bytes, end: Byte): (r: Option<(seq<Elem>, Bytes)>)
    requires end != 0
    ensures r.Some? ==> |r.value.1| < |t|
    decreases |t|, 2
  {
    var u := SkipCommas(t);
    if Head(u) == end then Some(([], GetChar(u).value))
    else
      var e := ParseElem(u);
      if e.None? then None
      else
        var rest := ParseChildren(e.value.1, end);
        if rest.None? then None else Some(([e.value.0] + rest.value.0, rest.value.1))
  }

  /** pj_json_parse: the root element and the number of bytes that are left. */
  function Parse(t: Bytes): Option<(Elem, nat)> {
    if t == [] then None
    else
      var r := ParseElem(SkipWhite(t));
      if r.None? then None else Some((r.value.0, |r.value.1|))
  }
}
