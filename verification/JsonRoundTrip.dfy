/** Parsing what pj_json_writef wrote gives back the tree (json.c). */
module JsonRoundTrip {
  import opened DnsTypes
  import opened ScanText
  import opened JsonText

  /** Text that needs no escape, is not empty and does not start with a space. */
  predicate Plain(s: Bytes) {
    s != [] && s[0] != SPACE && forall i :: 0 <= i < |s| ==> PlainByte(s[i])
  }

  predicate PlainByte(c: Byte) {
    32 <= c < 127 && c != QUOTE && c != BACKSLASH && c != SLASH
  }

  /** Members are named, list items are not, and strings among list items are plain. */
  predicate Good(v: Value) {
    match v
    case List(items) => forall i :: 0 <= i < |items| ==> GoodItem(items[i])
    case Obj(members) => forall i :: 0 <= i < |members| ==> GoodMember(members[i])
    case _ => true
  }

  predicate GoodItem(e: Elem) {
    e.name == [] && if e.value.Str? then Plain(e.value.text) else Good(e.value)
  }

  predicate GoodMember(e: Elem) {
    Plain(e.name) && Good(e.value)
  }

  // ----- strings -----

  lemma HexBack(c: Byte)
    ensures HexValue(HexDigit(c / 16)) * 16 + HexValue(HexDigit(c % 16)) == c
  {
    HexDigitBack(c / 16);
    HexDigitBack(c % 16);
  }

  lemma HexDigitBack(d: nat)
    requires d < 16
    ensures HexValue(HexDigit(d)) == d
  {
  }

  lemma OneBack(c: Byte, t: Bytes)
    ensures Unescape(Escaped(c) + t) == Prepend(c, Unescape(t))
  {
    var e := Escaped(c);
    EscapedShape(c);
    assert (e + t)[|e|..] == t;
    assert forall i :: 0 <= i < |e| ==> (e + t)[i] == e[i];
    if |e| == 6 {
      HexEscape(c);
      HexBack(c);
      hide Escaped, HexValue, HexDigit;
      HexUnescape(e + t);
    } else {
      ShortUnescape(e + t, c);
    }
  }

  lemma HexEscape(c: Byte)
    ensures |Escaped(c)| == 6 ==> Escaped(c) == [BACKSLASH, 117, 48, 48, HexDigit(c / 16), HexDigit(c % 16)]
  {
  }

  lemma HexUnescape(s: Bytes)
    requires |s| >= 6 && s[0] == BACKSLASH && s[1] == 117
    ensures Unescape(s) == Prepend((HexValue(s[4]) * 16 + HexValue(s[5])) % 256, Unescape(s[6..]))
  {
    hide HexValue;
  }

  lemma ShortUnescape(s: Bytes, c: Byte)
    requires |Escaped(c)| <= 2 && |s| >= |Escaped(c)| && forall i :: 0 <= i < |Escaped(c)| ==> s[i] == Escaped(c)[i]
    ensures Unescape(s) == Prepend(c, Unescape(s[|Escaped(c)|..]))
  {
    assert s[0] == Escaped(c)[0] && (|Escaped(c)| == 2 ==> s[1] == Escaped(c)[1]);
  }

  /** Escaping is undone, for all bytes. */
  lemma {:induction false} EscapeBack(s: Bytes)
    ensures Unescape(Escape(s)) == Some(s)
    decreases |s|
  {
    hide Escaped, Unescape;
    if s == [] {
      NothingBack();
    } else {
      OneBack(s[0], Escape(s[1..]));
      EscapeBack(s[1..]);
      assert [s[0]] + s[1..] == s;
    }
  }

  lemma NothingBack()
    ensures Unescape([]) == Some([])
  {
  }

  /** The quote scan passes over one escape. */
  lemma QuoteScanOver(t: Bytes, s: nat, c: Byte)
    requires 1 <= s && s + |Escaped(c)| < |t| && t[s..s + |Escaped(c)|] == Escaped(c) && Trailing(t[1..s]) % 2 == 0
    ensures QuoteEnd(t, QUOTE, s) == QuoteEnd(t, QUOTE, s + |Escaped(c)|)
    ensures Trailing(t[1..s + |Escaped(c)|]) % 2 == 0
  {
    var e := Escaped(c);
    EscapedShape(c);
    hide Escaped, Trailing, QuoteEnd;
    assert e[0] == t[s];
    OneOver(t, s);
    if |e| == 2 {
      assert e[1] == t[s + 1];
      OneOver(t, s + 1);
    } else if |e| == 6 {
      OthersOver(t, s + 1, e[1..]);
    }
  }

  lemma EscapedShape(c: Byte)
    ensures var e := Escaped(c);
      && (|e| == 1 || |e| == 2 || |e| == 6) && (|e| == 1 ==> PlainByte(e[0])) && (|e| > 1 ==> e[0] == BACKSLASH && e[1] != LF)
      && (|e| == 6 ==> forall i :: 1 <= i < 6 ==> e[i] != BACKSLASH && e[i] != QUOTE && e[i] != LF)
  {
  }

  lemma {:induction false} QuoteScanEnds(t: Bytes, s: nat, text: Bytes)
    requires 1 <= s && s + |Escape(text)| < |t| && t[s..s + |Escape(text)|] == Escape(text) && t[s + |Escape(text)|] == QUOTE
    requires Trailing(t[1..s]) % 2 == 0
    ensures QuoteEnd(t, QUOTE, s) == s + |Escape(text)|
    decreases |text|
  {
    hide Escaped, Trailing;
    if text != [] {
      var e, rest := Escaped(text[0]), Escape(text[1..]);
      var whole := t[s..s + |Escape(text)|];
      assert whole == e + rest;
      assert t[s..s + |e|] == whole[..|e|] == e;
      assert t[s + |e|..s + |e| + |rest|] == whole[|e|..] == rest;
      QuoteScanOver(t, s, text[0]);
      QuoteScanEnds(t, s + |e|, text[1..]);
    }
  }

  /** A written string is read back, whatever bytes it holds. */
  lemma StringBack(s: Bytes, post: Bytes)
    ensures ParseString([QUOTE] + Escape(s) + [QUOTE] + post) == Some((Str(s), SkipWhite(post)))
  {
    hide Escape, Unescape, QuoteEnd;
    var e := Escape(s);
    var t := [QUOTE] + e + [QUOTE] + post;
    assert t[1..1 + |e|] == e && t[1 + |e|] == QUOTE && t[1..1] == [] && t[|e| + 2..] == post;
    QuoteScanEnds(t, 1, s);
    EscapeBack(s);
  }

  lemma {:induction false} PlainEscape(s: Bytes)
    requires forall i :: 0 <= i < |s| ==> PlainByte(s[i])
    ensures Escape(s) == s
    decreases |s|
  {
    if s != [] {
      PlainEscape(s[1..]);
      assert [s[0]] + s[1..] == s;
    }
  }

  // ----- numbers -----

  lemma {:induction false} DigitsBack(n: nat)
    ensures DigitsValue(Digits(n)) == n
    ensures forall i :: 0 <= i < |Digits(n)| ==> 48 <= Digits(n)[i] <= 57
    decreases n
  {
    if n >= 10 {
      DigitsBack(n / 10);
      var d := Digits(n);
      assert d[..|d| - 1] == Digits(n / 10);
    } else {
      assert Digits(n)[..0] == [];
    }
  }

  lemma NumberBack(n: nat, post: Bytes)
    requires Head(post) !in NUMERIC
    ensures Get(Digits(n) + post, NUMERIC) == Some((Digits(n), SkipWhite(post))) && NumberOf(Digits(n)) == n as real
    ensures Head(Digits(n) + post) in NUMERIC
  {
    hide Digits, DigitsValue;
    DigitsBack(n);
    var d := Digits(n);
    var t := d + post;
    assert forall i :: 0 <= i < |d| ==> d[i] in NUMERIC;
    assert |d| < |t| ==> t[|d|] == Head(post);
    SpanInIs(t, NUMERIC, |d|);
    assert t[..|d|] == d && t[|d|..] == post;
    SpanIs(d, {46}, |d|);
    assert t[0] == d[0];
  }

  // ----- elements -----

  /** What may follow a value: a separator or the end of the list. */
  predicate Follows(post: Bytes) {
    post != [] && (post[0] == COMMA || post[0] == LF || post[0] == CLOSE_LIST)
  }

  lemma WordBack(v: Value, post: Bytes)
    requires (v.Bool? || v.Null?) && post != []
    ensures var w := ValueText(v, 0); ParseWord(w + post) == Some((v, SkipWhite(post))) && IsAlpha((w + post)[0])
  {
    var w := ValueText(v, 0);
    var t := w + post;
    assert t[|w|..] == post && t[..|w|] == w;
    assert t[0] == w[0];
    assert t[..5][0] == t[0] && (w != FALSE() ==> t[0] != FALSE()[0]);
    assert w == NULL() ==> t[..4][0] != TRUE()[0];
  }

  /** Values begin with a byte that is no white space, no separator and no closing bracket. */
  lemma ValueStart(v: Value, indent: nat)
    requires Writable(v, indent)
    ensures ValueText(v, indent) != []
    ensures var h := ValueText(v, indent)[0];
      !IsWhite(h) && h != 0 && h != COMMA && h != CLOSE_LIST && h != CLOSE_OBJ && (h == QUOTE <==> v.Str?)
  {
    if v.Number? {
      var n := v.num.Floor;
      DigitsBack(if n < 0 then -n else n);
    }
  }

  /** ParseValue by the first byte. */
  lemma ParseValueIs(t: Bytes)
    ensures Head(t) in NUMERIC ==> ParseValue(t) == ParseNumber(t, false)
    ensures Head(t) == MINUS ==> ParseValue(t) == ParseNumber(SkipWhite(t[1..]), true)
    ensures Head(t) == QUOTE ==> ParseValue(t) == ParseString(t)
    ensures IsAlpha(Head(t)) ==> ParseValue(t) == ParseWord(t)
    ensures Head(t) == OPEN_LIST ==>
      var c := ParseChildren(SkipWhite(t[1..]), CLOSE_LIST); ParseValue(t) == if c.None? then None else Some((List(c.value.0), c.value.1))
    ensures Head(t) == OPEN_OBJ ==>
      var c := ParseChildren(SkipWhite(t[1..]), CLOSE_OBJ); ParseValue(t) == if c.None? then None else Some((Obj(c.value.0), c.value.1))
  {
    hide ParseNumber, ParseString, ParseWord, ParseChildren, SkipWhite;
  }

  lemma WholeNumber(num: real, n: int)
    requires num == num.Floor as real && n == num.Floor
    ensures n as real == num && (n < 0 ==> -((-n) as real) == num)
  {
  }

  lemma NumberValueBack(v: Value, indent: nat, post: Bytes)
    requires v.Number? && Writable(v, indent) && Follows(post)
    ensures ParseValue(ValueText(v, indent) + post) == Some((v, SkipWhite(post)))
  {
    hide Digits, NumberOf, ParseValue, Get;
    var n := v.num.Floor;
    var t := ValueText(v, indent) + post;
    ParseValueIs(t);
    WholeNumber(v.num, n);
    if n < 0 {
      var d := Digits(-n);
      assert t[0] == MINUS && t[1..] == d + post;
      NumberBack(-n, post);
      NumericStart(d + post);
      assert ParseNumber(d + post, true) == Some((v, SkipWhite(post)));
    } else {
      NumberBack(n, post);
      assert Head(t) in NUMERIC;
      assert ParseNumber(t, false) == Some((v, SkipWhite(post)));
    }
  }

  lemma NumericStart(t: Bytes)
    requires Head(t) in NUMERIC
    ensures SkipWhite(t) == t
  {
    SkipWhiteHere(t);
  }

  lemma SimpleValueBack(v: Value, indent: nat, post: Bytes)
    requires !v.List? && !v.Obj? && Writable(v, indent) && Follows(post)
    ensures ParseValue(ValueText(v, indent) + post) == Some((v, SkipWhite(post)))
  {
    hide Escape, ParseValue, ParseWord, ParseString, SkipWhite;
    if v.Number? {
      NumberValueBack(v, indent, post);
    } else if v.Str? {
      var t := [QUOTE] + Escape(v.text) + [QUOTE] + post;
      StringBack(v.text, post);
      assert Head(t) == QUOTE;
      ParseValueIs(t);
    } else {
      WordBack(v, post);
      ParseValueIs(ValueText(v, 0) + post);
    }
  }

  /** ParseStart, from the steps of the scanner. */
  lemma ParseStartIs(t: Bytes, q: Bytes, token: Bytes, after: Bytes, next: Bytes)
    requires Head(t) == QUOTE && GetChar(t) == Some(q) && Until(q, {QUOTE}) == Some((token, after)) && GetChar(after) == Some(next)
    ensures Head(next) == COLON && GetChar(next).Some? ==> ParseStart(t) == Named(token, GetChar(next).value)
    ensures Head(next) != COLON && token != [] ==> ParseStart(t) == Whole(token, next)
  {
    hide GetChar, Until;
  }

  /** A quoted plain text, up to its closing quote. */
  lemma PlainToken(s: Bytes, after: Bytes)
    requires Plain(s) && Head(after) == QUOTE
    ensures GetChar([QUOTE] + (s + after)) == Some(s + after) && Until(s + after, {QUOTE}) == Some((s, after))
  {
    GetCharIs(QUOTE, s + after);
    assert (s + after)[0] == s[0] && PlainByte(s[0]);
    SkipWhiteHere(s + after);
    assert forall i :: 0 <= i < |s| ==> s[i] !in {QUOTE} by {
      assert forall i :: 0 <= i < |s| ==> PlainByte(s[i]);
    }
    UntilToken(s, after, {QUOTE});
    SkipWhiteHere(after);
  }

  lemma PlainIsEscaped(s: Bytes)
    requires Plain(s)
    ensures Escape(s) == s
  {
    PlainEscape(s);
  }

  /** A plain name with its colon and padding. */
  lemma NameBack(name: Bytes, rest: Bytes)
    requires Plain(name) && rest != [] && !IsWhite(rest[0])
    ensures ParseStart([QUOTE] + Escape(name) + [QUOTE, COLON, SPACE] + Spaces(Padding(name)) + rest) == Named(name, rest)
  {
    PlainIsEscaped(name);
    hide Escape, GetChar, Until, ParseStart, SkipWhite, Plain;
    var white := [SPACE] + Spaces(Padding(name));
    var after := [QUOTE] + ([COLON] + (white + rest));
    assert [QUOTE] + Escape(name) + [QUOTE, COLON, SPACE] + Spaces(Padding(name)) + rest == [QUOTE] + (name + after);
    PlainToken(name, after);
    GetCharIs(QUOTE, [COLON] + (white + rest));
    SkipWhiteHere([COLON] + (white + rest));
    GetCharIs(COLON, white + rest);
    SkipWhiteOver(white, rest);
    SkipWhiteHere(rest);
    ParseStartIs([QUOTE] + (name + after), name + after, name, after, [COLON] + (white + rest));
  }

  /** A plain string among list items. */
  lemma ItemStringBack(s: Bytes, post: Bytes)
    requires Plain(s) && post != [] && (post[0] == COMMA || post[0] == CLOSE_LIST)
    ensures ParseStart([QUOTE] + Escape(s) + [QUOTE] + post) == Whole(s, SkipWhite(post))
  {
    PlainIsEscaped(s);
    SkipWhiteHere(post);
    PlainNotEmpty(s);
    hide Escape, GetChar, Until, ParseStart, SkipWhite, Plain;
    var after := [QUOTE] + post;
    assert [QUOTE] + Escape(s) + [QUOTE] + post == [QUOTE] + (s + after);
    PlainToken(s, after);
    GetCharIs(QUOTE, post);
    ParseStartIs([QUOTE] + (s + after), s + after, s, after, post);
  }

  lemma PlainNotEmpty(s: Bytes)
    requires Plain(s)
    ensures s != []
  {
  }

  // ----- lists of elements -----

  /** ParseElem, from its start and its value. */
  lemma ParseElemIs(t: Bytes)
    ensures var s := ParseStart(t);
      && (s.Whole? ==> ParseElem(t) == Some((Elem([], Str(s.text)), s.rest)))
      && (s.Named? && ParseValue(s.rest).Some? ==> ParseElem(t) == Some((Elem(s.name, ParseValue(s.rest).value.0), ParseValue(s.rest).value.1)))
  {
    hide ParseStart, ParseValue;
  }

  /** An element begins where its white space ends, with no separator or bracket. */
  predicate Starts(t: Bytes) {
    var h := Head(t);
    !IsWhite(h) && h != 0 && h != COMMA && h != CLOSE_LIST && h != CLOSE_OBJ
  }

  function NameOnly(name: Bytes): Bytes {
    [QUOTE] + Escape(name) + [QUOTE, COLON, SPACE] + Spaces(Padding(name))
  }

  lemma MemberText(e: Elem, indent: nat, post: Bytes)
    requires e.name != [] && Writable(e.value, indent)
    ensures SkipWhite(ElemText(e, indent, false) + post) == NameOnly(e.name) + (ValueText(e.value, indent) + post)
    ensures Starts(NameOnly(e.name) + (ValueText(e.value, indent) + post))
  {
    hide ValueText, Escape, SkipWhite;
    var x := NameOnly(e.name) + (ValueText(e.value, indent) + post);
    assert ElemText(e, indent, false) + post == Spaces(indent) + x;
    assert x[0] == QUOTE;
    SkipWhiteOver(Spaces(indent), x);
    SkipWhiteHere(x);
  }

  lemma {:induction false} MemberBack(e: Elem, indent: nat, post: Bytes)
    requires GoodMember(e) && Writable(e.value, indent) && Follows(post)
    ensures var t := SkipWhite(ElemText(e, indent, false) + post); Starts(t) && ParseElem(t) == Some((e, SkipWhite(post)))
    decreases e, 0
  {
    hide ValueText, Escape, SkipWhite, ParseStart, ParseValue, ParseElem, Plain, Good, Follows, Spaces;
    PlainNotEmpty(e.name);
    MemberText(e, indent, post);
    ValueStart(e.value, indent);
    var rest := ValueText(e.value, indent) + post;
    NameBack(e.name, rest);
    ValueBack(e.value, indent, post);
    ParseElemIs(NameOnly(e.name) + rest);
  }

  lemma {:induction false} ItemBack(e: Elem, indent: nat, post: Bytes)
    requires GoodItem(e) && Writable(e.value, indent) && post != [] && (post[0] == COMMA || post[0] == CLOSE_LIST)
    ensures var t := SkipWhite(ElemText(e, indent, true) + post); Starts(t) && ParseElem(t) == Some((e, SkipWhite(post)))
    decreases e, 0
  {
    var t := ValueText(e.value, indent) + post;
    assert ElemText(e, indent, true) + post == t;
    ValueStart(e.value, indent);
    SkipWhiteHere(t);
    ParseElemIs(t);
    if e.value.Str? {
      ItemStringBack(e.value.text, post);
    } else {
      hide ParseElem, ParseValue, ValueText, SkipWhite, Good;
      ValueBack(e.value, indent, post);
      assert ParseStart(t) == Named([], t);
    }
  }

  lemma CommasFirst(t: Bytes, end: Byte)
    requires end != 0
    ensures ParseChildren(t, end) == ParseChildren(SkipCommas(t), end)
  {
    SkipCommasTwice(t);
    hide SkipCommas, ParseElem;
  }

  lemma {:induction false} SkipCommasTwice(t: Bytes)
    ensures SkipCommas(SkipCommas(t)) == SkipCommas(t)
    decreases |t|
  {
    if Head(t) == COMMA {
      SkipCommasTwice(GetChar(t).value);
    }
  }

  /** The end of the children. */
  lemma NoMoreChildren(post: Bytes, end: Byte)
    requires end == CLOSE_LIST || end == CLOSE_OBJ
    ensures ParseChildren([end] + post, end) == Some(([], SkipWhite(post)))
  {
    GetCharIs(end, post);
    hide SkipWhite, GetChar;
  }

  /** One child more. */
  lemma OneMoreChild(t: Bytes, end: Byte)
    requires (end == CLOSE_LIST || end == CLOSE_OBJ) && Starts(t) && ParseElem(t).Some?
    ensures var e, rest := ParseElem(t).value.0, ParseChildren(ParseElem(t).value.1, end);
            ParseChildren(t, end) == if rest.None? then None else Some(([e] + rest.value.0, rest.value.1))
  {
    hide ParseElem;
    assert SkipCommas(t) == t;
  }

  lemma AfterSeparator(x: Byte, t: Bytes, end: Byte)
    requires IsWhite(x) && (end == CLOSE_LIST || end == CLOSE_OBJ) && Starts(SkipWhite(t))
    ensures ParseChildren([COMMA, x] + t, end) == ParseChildren(SkipWhite(t), end)
  {
    assert [COMMA, x] + t == [COMMA] + ([x] + t);
    GetCharIs(COMMA, [x] + t);
    SkipWhiteOver([x], t);
    hide SkipWhite;
    assert SkipCommas(SkipWhite(t)) == SkipWhite(t);
    CommasFirst([COMMA, x] + t, end);
  }

  /** What stands between the last child and what follows the list. */
  function Closing(noName: bool, indent: nat): Bytes {
    if noName then [CLOSE_LIST] else [LF] + Spaces(indent) + [CLOSE_OBJ]
  }

  function Between(noName: bool): (s: Bytes)
    ensures |s| == 2
  {
    if noName then [COMMA, SPACE] else [COMMA, LF]
  }

  lemma ClosingSkipped(noName: bool, outer: nat, post: Bytes)
    ensures SkipWhite(Closing(noName, outer) + post) == [if noName then CLOSE_LIST else CLOSE_OBJ] + post
    ensures Follows(Closing(noName, outer) + post) && (noName ==> (Closing(noName, outer) + post)[0] == CLOSE_LIST)
  {
    if noName {
      SkipWhiteHere([CLOSE_LIST] + post);
    } else {
      var w := [LF] + Spaces(outer);
      assert Closing(noName, outer) + post == w + ([CLOSE_OBJ] + post);
      SkipWhiteOver(w, [CLOSE_OBJ] + post);
      SkipWhiteHere([CLOSE_OBJ] + post);
    }
  }

  predicate GoodChild(e: Elem, noName: bool) {
    if noName then GoodItem(e) else GoodMember(e)
  }

  /** One child, before a separator or the closing bracket. */
  lemma {:induction false} ChildBack(e: Elem, indent: nat, noName: bool, post: Bytes)
    requires GoodChild(e, noName) && Writable(e.value, indent) && Follows(post) && (noName ==> post[0] != LF)
    ensures var t := SkipWhite(ElemText(e, indent, noName) + post); Starts(t) && ParseElem(t) == Some((e, SkipWhite(post)))
    decreases e, 1
  {
    hide ElemText, ParseElem, SkipWhite, Starts, GoodItem, GoodMember;
    if noName {
      ItemBack(e, indent, post);
    } else {
      MemberBack(e, indent, post);
    }
  }

  lemma {:induction false} ChildrenBack(es: seq<Elem>, indent: nat, noName: bool, outer: nat, post: Bytes)
    requires es != [] && WritableAll(es, indent) && forall i :: 0 <= i < |es| ==> GoodChild(es[i], noName)
    ensures var t := SkipWhite(Separated(es, indent, noName, Between(noName)) + (Closing(noName, outer) + post));
            Starts(t) && ParseChildren(t, if noName then CLOSE_LIST else CLOSE_OBJ) == Some((es, SkipWhite(post)))
    decreases es, 2
  {
    hide ElemText, ParseElem, SkipWhite, Starts, GoodChild, ParseChildren, Closing, Follows, Writable;
    var end := if noName then CLOSE_LIST else CLOSE_OBJ;
    var tail := Closing(noName, outer) + post;
    ClosingSkipped(noName, outer, post);
    if |es| == 1 {
      ChildBack(es[0], indent, noName, tail);
      OneMoreChild(SkipWhite(ElemText(es[0], indent, noName) + tail), end);
      NoMoreChildren(post, end);
      assert [es[0]] + [] == es;
    } else {
      var sep, more := Between(noName), Separated(es[1..], indent, noName, Between(noName)) + tail;
      SeparatedMore(es, indent, noName, tail);
      SeparatorFollows(noName, more);
      ChildBack(es[0], indent, noName, sep + more);
      OneMoreChild(SkipWhite(ElemText(es[0], indent, noName) + (sep + more)), end);
      ChildrenBack(es[1..], indent, noName, outer, post);
      AfterSeparator(sep[1], more, end);
      assert [es[0]] + es[1..] == es && sep == [COMMA, sep[1]];
    }
  }

  lemma SeparatedMore(es: seq<Elem>, indent: nat, noName: bool, tail: Bytes)
    requires |es| > 1 && WritableAll(es, indent)
    ensures WritableAll(es[1..], indent)
    ensures Separated(es, indent, noName, Between(noName)) + tail ==
      ElemText(es[0], indent, noName) + (Between(noName) + (Separated(es[1..], indent, noName, Between(noName)) + tail))
  {
    hide ElemText, Writable;
    Reassociated(ElemText(es[0], indent, noName), Between(noName), Separated(es[1..], indent, noName, Between(noName)), tail);
  }

  lemma Reassociated(a: Bytes, b: Bytes, c: Bytes, d: Bytes)
    ensures a + b + c + d == a + (b + (c + d))
  {
  }

  lemma SeparatorFollows(noName: bool, more: Bytes)
    ensures var t := Between(noName) + more; SkipWhite(t) == t && Follows(t) && t[0] == COMMA && IsWhite(Between(noName)[1])
  {
    SkipWhiteHere(Between(noName) + more);
  }

  function Children(v: Value): seq<Elem>
    requires v.List? || v.Obj?
  {
    if v.List? then v.items else v.members
  }

  lemma {:induction false} ListBack(v: Value, indent: nat, post: Bytes)
    requires (v.List? || v.Obj?) && Good(v) && Writable(v, indent)
    ensures ParseValue(ValueText(v, indent) + post) == Some((v, SkipWhite(post)))
    decreases v, 0
  {
    hide ParseValue, ParseChildren, SkipWhite, Separated, Writable, GoodItem, GoodMember, Starts, ValueText, Closing, Between;
    var noName, es := v.List?, Children(v);
    var open, end := if noName then OPEN_LIST else OPEN_OBJ, if noName then CLOSE_LIST else CLOSE_OBJ;
    if es == [] {
      EmptyText(v, indent);
      assert ValueText(v, indent) + post == [open] + ([SPACE] + ([end] + post));
      SkipWhiteOver([SPACE], [end] + post);
      SkipWhiteHere([end] + post);
      NoMoreChildren(post, end);
      ParseValueAfter(open, [SPACE] + ([end] + post));
    } else {
      ListText(v, indent, post);
      var inner := ChildIndent(es, indent);
      var body := Separated(es, inner, noName, Between(noName));
      SkipWhiteOver(Opening(noName), body + (Closing(noName, indent) + post));
      assert forall i :: 0 <= i < |es| ==> GoodChild(es[i], noName);
      ChildrenBack(es, inner, noName, indent, post);
      ParseValueAfter(open, Opening(noName) + (body + (Closing(noName, indent) + post)));
    }
  }

  lemma ParseValueAfter(open: Byte, rest: Bytes)
    requires open == OPEN_LIST || open == OPEN_OBJ
    ensures var c := ParseChildren(SkipWhite(rest), if open == OPEN_LIST then CLOSE_LIST else CLOSE_OBJ);
            ParseValue([open] + rest) ==
            if c.None? then None else Some((if open == OPEN_LIST then List(c.value.0) else Obj(c.value.0), c.value.1))
  {
    ParseValueIs([open] + rest);
    hide ParseValue, ParseChildren, SkipWhite;
    assert ([open] + rest)[1..] == rest;
  }

  function Opening(noName: bool): (w: Bytes)
    ensures forall i :: 0 <= i < |w| ==> IsWhite(w[i])
  {
    if noName then [SPACE] else [SPACE, LF]
  }

  lemma ListText(v: Value, indent: nat, post: Bytes)
    requires (v.List? || v.Obj?) && Good(v) && Writable(v, indent) && Children(v) != []
    ensures var es, noName := Children(v), v.List?;
            WritableAll(es, ChildIndent(es, indent)) &&
            ValueText(v, indent) + post == [if noName then OPEN_LIST else OPEN_OBJ] + (Opening(noName) +
              (Separated(es, ChildIndent(es, indent), noName, Between(noName)) + (Closing(noName, indent) + post)))
  {
    WritableChildren(v, indent);
    NamesDecide(v, indent);
    var es, noName := Children(v), v.List?;
    var s := Separated(es, ChildIndent(es, indent), noName, Between(noName));
    if noName {
      assert ValueText(v, indent) == [OPEN_LIST, SPACE] + s + [CLOSE_LIST];
      hide Separated, Writable, ValueText;
      OneLine(OPEN_LIST, s, CLOSE_LIST, post);
    } else {
      assert ValueText(v, indent) == [OPEN_OBJ, SPACE] + ([LF] + s + [LF] + Spaces(indent)) + [CLOSE_OBJ];
      hide Separated, Writable, ValueText, Spaces;
      SeveralLines(OPEN_OBJ, s, Spaces(indent), CLOSE_OBJ, post);
    }
  }

  lemma OneLine(o: Byte, s: Bytes, c: Byte, post: Bytes)
    ensures [o, SPACE] + s + [c] + post == [o] + ([SPACE] + (s + ([c] + post)))
  {
  }

  lemma SeveralLines(o: Byte, s: Bytes, w: Bytes, c: Byte, post: Bytes)
    ensures [o, SPACE] + ([LF] + s + [LF] + w) + [c] + post == [o] + ([SPACE, LF] + (s + ([LF] + w + [c] + post)))
  {
  }

  lemma EmptyText(v: Value, indent: nat)
    requires Writable(v, indent) && ((v.List? && v.items == []) || (v.Obj? && v.members == []))
    ensures ValueText(v, indent) == if v.List? then [OPEN_LIST, SPACE, CLOSE_LIST] else [OPEN_OBJ, SPACE, CLOSE_OBJ]
  {
    if v.List? {
      assert ChildrenText(v.items, indent, true) == [];
    } else {
      assert ChildrenText(v.members, indent, false) == [];
    }
  }

  lemma WritableChildren(v: Value, indent: nat)
    requires (v.List? || v.Obj?) && Writable(v, indent)
    ensures var es := if v.List? then v.items else v.members; WritableAll(es, ChildIndent(es, indent))
  {
  }

  /** Lists are written on one line and objects over several. */
  lemma NamesDecide(v: Value, indent: nat)
    requires (v.List? || v.Obj?) && Good(v) && Writable(v, indent)
    ensures var es := if v.List? then v.items else v.members;
            es != [] ==>
              && (v.List? ==> es[0].name == [] && ChildrenText(es, indent, true) == Separated(es, indent, true, Between(true)))
              && (v.Obj? ==> es[0].name != [])
              && (v.Obj? ==> ChildrenText(es, indent, false) == [LF] + Separated(es, ChildIndent(es, indent), false, Between(false)) + [LF] + Spaces(indent))
  {
    hide Separated, Writable;
  }

  /** Parsing a written value gives it back, with the white space after it skipped. */
  lemma {:induction false} ValueBack(v: Value, indent: nat, post: Bytes)
    requires Good(v) && Writable(v, indent) && (v.Obj? || Follows(post))
    ensures ParseValue(ValueText(v, indent) + post) == Some((v, SkipWhite(post)))
    decreases v, 1
  {
    hide ParseValue, ValueText, SkipWhite, Good, Writable;
    if v.List? || v.Obj? {
      ListBack(v, indent, post);
    } else {
      SimpleValueBack(v, indent, post);
    }
  }

  /** A root object, with a plain name or none, comes back whole, and nothing is left. */
  lemma RootBack(e: Elem)
    requires e.value.Obj? && Good(e.value) && Writable(e.value, 0) && (e.name == [] || Plain(e.name))
    ensures Parse(ElemText(e, 0, false)) == Some((e, 0))
  {
    hide ParseValue, ValueText, Good, Writable, ParseStart, ParseElem, Plain;
    var t := ElemText(e, 0, false);
    ValueStart(e.value, 0);
    ValueBack(e.value, 0, []);
    assert ValueText(e.value, 0) + [] == ValueText(e.value, 0);
    if e.name == [] {
      assert t == ValueText(e.value, 0);
      SkipWhiteHere(t);
      assert ParseStart(t) == Named([], t) by { StartUnnamed(t); }
      ParseElemIs(t);
    } else {
      MemberText(e, 0, []);
      assert t + [] == t;
      NameBack(e.name, ValueText(e.value, 0));
      ParseElemIs(NameOnly(e.name) + ValueText(e.value, 0));
    }
  }

  lemma StartUnnamed(t: Bytes)
    requires Head(t) != QUOTE
    ensures ParseStart(t) == Named([], t)
  {
  }

  // ----- strings in lists that do not come back -----

  lemma {:induction false} EscapeGrows(s: Bytes)
    ensures |Escape(s)| >= |s|
    ensures |Escape(s)| == |s| ==> forall i :: 0 <= i < |s| ==> PlainByte(s[i])
    decreases |s|
  {
    hide Escaped;
    if s != [] {
      EscapedLength(s[0]);
      EscapeGrows(s[1..]);
      if |Escape(s)| == |s| {
        forall i | 0 <= i < |s| ensures PlainByte(s[i]) {
          assert i > 0 ==> s[i] == s[1..][i - 1];
        }
      }
    }
  }

  lemma EscapedLength(c: Byte)
    ensures |Escaped(c)| == 1 ==> Escaped(c) == [c] && PlainByte(c)
    ensures c != QUOTE ==> QUOTE !in Escaped(c)
    ensures IsWhite(Escaped(c)[0]) ==> c == SPACE
    ensures Escaped(c)[0] != QUOTE
  {
  }

  lemma {:induction false} NoQuoteAdded(s: Bytes)
    requires QUOTE !in s
    ensures QUOTE !in Escape(s)
    decreases |s|
  {
    hide Escaped;
    if s != [] {
      EscapedLength(s[0]);
      assert QUOTE !in s[1..];
      NoQuoteAdded(s[1..]);
    }
  }

  /** Where the token of a written string begins, it is empty only for a string of spaces. */
  lemma {:induction false} TokenStart(s: Bytes, after: Bytes)
    requires after != [] && after[0] == QUOTE
    ensures var q := SkipWhite(Escape(s) + after);
            q != [] && !IsWhite(q[0]) && (q[0] == QUOTE ==> q == after)
    decreases |s|
  {
    hide Escaped, SkipWhite;
    if s == [] {
      assert Escape(s) + after == after;
      SkipWhiteHere(after);
    } else {
      var t := Escape(s) + after;
      EscapedLength(s[0]);
      assert t[0] == Escaped(s[0])[0];
      if IsWhite(t[0]) {
        SpaceEscaped();
        assert t == [SPACE] + (Escape(s[1..]) + after);
        SkipWhiteOver([SPACE], Escape(s[1..]) + after);
        TokenStart(s[1..], after);
      } else {
        SkipWhiteHere(t);
      }
    }
  }

  lemma SpaceEscaped()
    ensures Escaped(SPACE) == [SPACE]
  {
  }

  /** The token of a string is the string only if nothing in it was escaped. */
  lemma TokenIsString(s: Bytes, after: Bytes, q: Bytes, token: Bytes, rest: Bytes)
    requires after != [] && after[0] == QUOTE && q == SkipWhite(Escape(s) + after) && Until(q, {QUOTE}) == Some((token, rest))
    requires s == token && s != []
    ensures Plain(s)
  {
    hide SkipWhite, Escaped;
    TokenStart(s, after);
    var k := Span(q, {QUOTE});
    assert s == q[..k] && forall i :: 0 <= i < k ==> s[i] == q[i];
    assert QUOTE !in s;
    NoQuoteAdded(s);
    EscapedLength(s[0]);
    var t := Escape(s) + after;
    assert t[0] == Escaped(s[0])[0];
    assert s[0] == q[0] && s[0] != SPACE;
    SkipWhiteHere(t);
    assert forall i :: 0 <= i < |Escape(s)| ==> t[i] == Escape(s)[i] && t[i] !in {QUOTE};
    assert t[|Escape(s)|] == QUOTE;
    SpanIs(t, {QUOTE}, |Escape(s)|);
    EscapeGrows(s);
  }

  /** Among list items exactly the plain strings come back as they were. */
  lemma ListStringExactly(s: Bytes, post: Bytes)
    requires post != [] && (post[0] == COMMA || post[0] == CLOSE_LIST)
    ensures var r := ParseElem([QUOTE] + Escape(s) + [QUOTE] + post);
            r.Some? && r.value.0 == Elem([], Str(s)) <==> Plain(s)
  {
    hide Escape, Until, SkipWhite, ParseElem, ParseStart, Plain, ParseValue;
    var t, after := [QUOTE] + Escape(s) + [QUOTE] + post, [QUOTE] + post;
    ParseElemIs(t);
    if Plain(s) {
      ItemStringBack(s, post);
    } else if ParseElem(t).Some? && ParseElem(t).value.0 == Elem([], Str(s)) {
      var q := SkipWhite(Escape(s) + after);
      assert t == [QUOTE] + (Escape(s) + after);
      GetCharIs(QUOTE, Escape(s) + after);
      TokenStart(s, after);
      ItemIsToken(t, q, s, after, post);
    }
  }

  /** An unnamed string comes from a token, not from the value after an empty one. */
  lemma ItemIsToken(t: Bytes, q: Bytes, s: Bytes, after: Bytes, post: Bytes)
    requires post != [] && (post[0] == COMMA || post[0] == CLOSE_LIST) && after == [QUOTE] + post
    requires Head(t) == QUOTE && GetChar(t) == Some(q) && q == SkipWhite(Escape(s) + after) && q != [] && (q[0] == QUOTE ==> q == after)
    requires ParseElem(t).Some? && ParseElem(t).value.0 == Elem([], Str(s))
    ensures Plain(s)
  {
    hide Escape, SkipWhite, ParseValue, Plain, Span;
    var u := Until(q, {QUOTE});
    var token, rest := u.value.0, u.value.1;
    if token == [] {
      EmptyToken(q);
      SkipWhiteHere(after);
      GetCharIs(QUOTE, post);
      SkipWhiteHere(post);
      NothingToParse(post);
    } else {
      TokenIsString(s, after, q, token, rest);
    }
  }

  lemma EmptyToken(q: Bytes)
    requires q != [] && Until(q, {QUOTE}).Some? && Until(q, {QUOTE}).value.0 == []
    ensures q[0] == QUOTE && Until(q, {QUOTE}).value.1 == SkipWhite(q)
  {
    assert Span(q, {QUOTE}) == 0;
  }

  lemma NothingToParse(post: Bytes)
    requires post != [] && (post[0] == COMMA || post[0] == CLOSE_LIST)
    ensures ParseValue(post).None?
  {
  }
}
