/** JSON as others write it (RFC 4627): any white space, every escape, fractions, separators
    left out or repeated. What the parser of json.c reads from it. */
module JsonWritten {
  import opened DnsTypes
  import opened ScanText
  import opened JsonText
  import opened JsonRoundTrip

  // ----- strings -----

  /** A character as it is, after a backslash by its letter, or by four hexadecimal digits. */
  datatype Piece = Raw(c: Byte) | Short(letter: Byte) | Hex(a: Byte, b: Byte, h: Byte, l: Byte)

  predicate IsHex(c: Byte) {
    48 <= c <= 57 || 65 <= c <= 70 || 97 <= c <= 102
  }

  function HexOf(c: Byte): (v: nat)
    requires IsHex(c)
    ensures v < 16
  {
    if c <= 57 then c - 48 else if c <= 70 then c - 55 else c - 87
  }

  predicate GoodPiece(p: Piece) {
    match p
    case Raw(c) => c != QUOTE && c != BACKSLASH && c != LF
    case Short(x) => x in {34, 92, 47, 98, 102, 110, 114, 116}
    case Hex(a, b, h, l) => IsHex(a) && IsHex(b) && IsHex(h) && IsHex(l)
  }

  function PieceText(p: Piece): (t: Bytes)
    ensures |t| > 0
  {
    match p
    case Raw(c) => [c]
    case Short(x) => [BACKSLASH, x]
    case Hex(a, b, h, l) => [BACKSLASH, 117, a, b, h, l]
  }

  /** Only the last two of the four digits count. */
  function PieceByte(p: Piece): Byte
    requires GoodPiece(p)
  {
    match p
    case Raw(c) => c
    case Short(x) => if x == 98 then 8 else if x == 102 then 12 else if x == 110 then 10 else if x == 114 then 13 else if x == 116 then 9 else x
    case Hex(_, _, h, l) => HexOf(h) * 16 + HexOf(l)
  }

  predicate GoodPieces(ps: seq<Piece>) {
    forall i :: 0 <= i < |ps| ==> GoodPiece(ps[i])
  }

  function PiecesText(ps: seq<Piece>): Bytes {
    if ps == [] then [] else PieceText(ps[0]) + PiecesText(ps[1..])
  }

  function PiecesBytes(ps: seq<Piece>): Bytes
    requires GoodPieces(ps)
  {
    if ps == [] then [] else [PieceByte(ps[0])] + PiecesBytes(ps[1..])
  }

  lemma HexIs(c: Byte)
    requires IsHex(c)
    ensures HexValue(c) == HexOf(c)
  {
  }

  lemma OnePiece(p: Piece, t: Bytes)
    requires GoodPiece(p)
    ensures Unescape(PieceText(p) + t) == Prepend(PieceByte(p), Unescape(t))
  {
    hide Unescape, HexValue, HexOf, IsHex;
    var s := PieceText(p) + t;
    assert s[|PieceText(p)|..] == t;
    if p.Hex? {
      HexIs(p.h);
      HexIs(p.l);
      HexUnescape(s);
    } else if p.Short? {
      LetterUnescape(s);
    } else {
      RawUnescape(s);
    }
  }

  lemma RawUnescape(s: Bytes)
    requires s != [] && s[0] != BACKSLASH
    ensures Unescape(s) == Prepend(s[0], Unescape(s[1..]))
  {
  }

  lemma LetterUnescape(s: Bytes)
    requires |s| >= 2 && s[0] == BACKSLASH && GoodPiece(Short(s[1]))
    ensures Unescape(s) == Prepend(PieceByte(Short(s[1])), Unescape(s[2..]))
  {
  }

  lemma {:induction false} PiecesBack(ps: seq<Piece>)
    requires GoodPieces(ps)
    ensures Unescape(PiecesText(ps)) == Some(PiecesBytes(ps))
    decreases |ps|
  {
    hide PieceText, PieceByte, GoodPiece, Unescape;
    if ps == [] {
      NothingBack();
    } else {
      OnePiece(ps[0], PiecesText(ps[1..]));
      PiecesBack(ps[1..]);
    }
  }

  lemma PieceOver(t: Bytes, s: nat, p: Piece)
    requires GoodPiece(p) && 1 <= s && s + |PieceText(p)| < |t| && t[s..s + |PieceText(p)|] == PieceText(p) && Trailing(t[1..s]) % 2 == 0
    ensures QuoteEnd(t, QUOTE, s) == QuoteEnd(t, QUOTE, s + |PieceText(p)|)
    ensures Trailing(t[1..s + |PieceText(p)|]) % 2 == 0
  {
    var e := PieceText(p);
    hide Trailing, QuoteEnd;
    assert e[0] == t[s];
    OneOver(t, s);
    if p.Short? {
      assert e[1] == t[s + 1];
      OneOver(t, s + 1);
    } else if p.Hex? {
      assert t[s + 1..s + 6] == e[1..];
      OthersOver(t, s + 1, e[1..]);
    }
  }

  lemma {:induction false} PiecesScan(t: Bytes, s: nat, ps: seq<Piece>)
    requires GoodPieces(ps) && 1 <= s && s + |PiecesText(ps)| < |t|
    requires t[s..s + |PiecesText(ps)|] == PiecesText(ps) && t[s + |PiecesText(ps)|] == QUOTE && Trailing(t[1..s]) % 2 == 0
    ensures QuoteEnd(t, QUOTE, s) == s + |PiecesText(ps)|
    decreases |ps|
  {
    hide PieceText, GoodPiece, Trailing;
    if ps != [] {
      var e, rest := PieceText(ps[0]), PiecesText(ps[1..]);
      var whole := t[s..s + |PiecesText(ps)|];
      assert whole == e + rest;
      assert t[s..s + |e|] == whole[..|e|] == e;
      assert t[s + |e|..s + |e| + |rest|] == whole[|e|..] == rest;
      PieceOver(t, s, ps[0]);
      PiecesScan(t, s + |e|, ps[1..]);
    }
  }

  /** Every way to write a string is read as the string. */
  lemma StringReads(ps: seq<Piece>, post: Bytes)
    requires GoodPieces(ps)
    ensures ParseString([QUOTE] + PiecesText(ps) + [QUOTE] + post) == Some((Str(PiecesBytes(ps)), SkipWhite(post)))
  {
    hide PiecesText, Unescape, QuoteEnd, GoodPieces, PiecesBytes;
    var e := PiecesText(ps);
    var t := [QUOTE] + e + [QUOTE] + post;
    assert t[1..1 + |e|] == e && t[1 + |e|] == QUOTE && t[1..1] == [] && t[|e| + 2..] == post;
    PiecesScan(t, 1, ps);
    PiecesBack(ps);
  }

  // ----- numbers -----

  predicate AllDigits(ds: Bytes) {
    forall i :: 0 <= i < |ds| ==> 48 <= ds[i] <= 57
  }

  function Digit(c: Byte): int {
    c as int - 48
  }

  /** The number before the point, digit by digit. */
  function WholeOf(ds: Bytes): int {
    if ds == [] then 0 else Digit(ds[0]) * Power(|ds| - 1) + WholeOf(ds[1..])
  }

  function Power(n: nat): int {
    if n == 0 then 1 else 10 * Power(n - 1)
  }

  /** The number after the point: a tenth of the first digit and of what follows. */
  function FractionOf(ds: Bytes): real {
    if ds == [] then 0.0 else (Digit(ds[0]) as real + FractionOf(ds[1..])) / 10.0
  }

  lemma {:induction false} WholeIs(ds: Bytes)
    requires AllDigits(ds)
    ensures DigitsValue(ds) == WholeOf(ds)
    decreases |ds|
  {
    if |ds| > 1 {
      var front := ds[..|ds| - 1];
      WholeIs(front);
      WholeIs(ds[1..]);
      WholeSnoc(ds);
    } else if |ds| == 1 {
      assert ds[..0] == [] && ds[1..] == [];
    }
  }

  lemma {:induction false} WholeSnoc(ds: Bytes)
    requires ds != []
    ensures WholeOf(ds) == WholeOf(ds[..|ds| - 1]) * 10 + Digit(ds[|ds| - 1])
    decreases |ds|
  {
    if |ds| > 1 {
      WholeSnoc(ds[1..]);
      assert ds[1..][..|ds| - 2] == ds[..|ds| - 1][1..];
      assert Power(|ds| - 1) == 10 * Power(|ds| - 2);
    } else {
      assert ds[..0] == [] && ds[1..] == [];
    }
  }

  lemma {:induction false} FractionIs(ds: Bytes)
    requires AllDigits(ds)
    ensures Power(|ds|) as real * FractionOf(ds) == WholeOf(ds) as real && TenTo(|ds|) == Power(|ds|)
    decreases |ds|
  {
    hide Digit;
    if ds != [] {
      FractionIs(ds[1..]);
      FractionStep(Power(|ds| - 1), Digit(ds[0]), FractionOf(ds[1..]), WholeOf(ds[1..]));
      PowerStep(|ds|);
      assert Power(|ds|) as real * FractionOf(ds) == WholeOf(ds) as real;
    }
  }

  lemma PowerStep(n: nat)
    requires n > 0
    ensures Power(n) == 10 * Power(n - 1) && TenTo(n) == 10 * TenTo(n - 1)
  {
  }

  lemma FractionStep(p: int, d: int, f: real, w: int)
    requires p as real * f == w as real
    ensures (10 * p) as real * ((d as real + f) / 10.0) == (d * p + w) as real
  {
    assert (10 * p) as real * ((d as real + f) / 10.0) == p as real * (d as real + f);
    assert (d * p) as real == d as real * p as real;
  }

  lemma Divided(n: int, p: nat, f: real)
    requires p > 0 && p as real * f == n as real
    ensures n as real / p as real == f
  {
  }

  function Fraction(frac: Option<Bytes>): Bytes {
    if frac.Some? then [46] + frac.value else []
  }

  function FractionValue(frac: Option<Bytes>): real {
    if frac.Some? then FractionOf(frac.value) else 0.0
  }

  /** Digits with or without a point and more digits. */
  lemma NumberReads(whole: Bytes, frac: Option<Bytes>)
    requires AllDigits(whole) && (frac.Some? ==> AllDigits(frac.value))
    ensures NumberOf(whole + Fraction(frac)) == WholeOf(whole) as real + FractionValue(frac)
    ensures forall i :: 0 <= i < |whole + Fraction(frac)| ==> (whole + Fraction(frac))[i] in NUMERIC
  {
    hide DigitsValue, WholeOf, FractionOf, Span, NumberOf, TenTo, Power;
    var t := whole + Fraction(frac);
    WholeIs(whole);
    if frac.Some? {
      var f := frac.value;
      assert t == whole + [46] + f;
      PointRead(whole, f);
      WholeIs(f);
      FractionIs(f);
      Divided(WholeOf(f), TenTo(|f|), FractionOf(f));
    } else {
      assert t == whole;
      NoPointRead(whole);
    }
  }

  lemma PointRead(whole: Bytes, f: Bytes)
    requires AllDigits(whole) && AllDigits(f)
    ensures NumberOf(whole + [46] + f) == DigitsValue(whole) as real + DigitsValue(f) as real / TenTo(|f|) as real
  {
    hide DigitsValue, TenTo, NumberOf, Span;
    var t := whole + [46] + f;
    assert t[|whole|] == 46 && t[..|whole|] == whole && t[|whole| + 1..] == f;
    SpanIs(t, {46}, |whole|);
    SpanIs(f, {46}, |f|);
    NumberSplit(t, whole, f);
  }

  lemma NumberSplit(t: Bytes, a: Bytes, f: Bytes)
    requires Span(t, {46}) == |a| < |t| && t[..|a|] == a && t[|a| + 1..] == f && Span(f, {46}) == |f|
    ensures NumberOf(t) == DigitsValue(a) as real + DigitsValue(f) as real / TenTo(|f|) as real
  {
    hide Span, DigitsValue, TenTo;
    assert f[..|f|] == f;
  }

  lemma NoPointRead(whole: Bytes)
    requires AllDigits(whole)
    ensures NumberOf(whole) == DigitsValue(whole) as real
  {
    hide DigitsValue;
    SpanIs(whole, {46}, |whole|);
  }

  // ----- values and their children -----

  /** A value as written, up to its last byte. */
  datatype Doc =
    | DNull
    | DBool(isTrue: bool)
    | DNumber(neg: bool, gap: Bytes, whole: Bytes, frac: Option<Bytes>)   // gap: after the minus
    | DString(pieces: seq<Piece>)
    | DList(open: Bytes, items: seq<Item>)                                // open: after the bracket
    | DObj(open: Bytes, members: seq<Item>)

  /** A child with the white space and commas after it. A text among list items is read as it
      stands, without escapes. */
  datatype Item =
    | Member(lead: Bytes, name: Bytes, w1: Bytes, w2: Bytes, value: Doc, after: Bytes)   // "name" w1 : w2 value
    | Unnamed(value: Doc, after: Bytes)
    | Text(lead: Bytes, text: Bytes, after: Bytes)

  predicate White(w: Bytes) {
    forall i :: 0 <= i < |w| ==> w[i] == 32 || w[i] == 9 || w[i] == 10 || w[i] == 13
  }

  predicate Separators(w: Bytes) {
    forall i :: 0 <= i < |w| ==> w[i] == 44 || w[i] == 32 || w[i] == 9 || w[i] == 10 || w[i] == 13
  }

  function DocText(d: Doc): Bytes
    decreases d
  {
    match d
    case DNull => NULL()
    case DBool(b) => if b then TRUE() else FALSE()
    case DNumber(neg, gap, whole, frac) => (if neg then [MINUS] + gap else []) + (whole + Fraction(frac))
    case DString(ps) => [QUOTE] + PiecesText(ps) + [QUOTE]
    case DList(open, items) => [OPEN_LIST] + (open + ItemsText(items) + [CLOSE_LIST])
    case DObj(open, members) => [OPEN_OBJ] + (open + ItemsText(members) + [CLOSE_OBJ])
  }

  /** Without what comes after it. */
  function ItemText(i: Item): Bytes
    decreases i
  {
    match i
    case Member(lead, name, w1, w2, value, _) => [QUOTE] + (lead + (name + ([QUOTE] + (w1 + ([COLON] + (w2 + DocText(value)))))))
    case Unnamed(value, _) => DocText(value)
    case Text(lead, text, _) => [QUOTE] + (lead + (text + [QUOTE]))
  }

  function ItemsText(items: seq<Item>): Bytes
    decreases items
  {
    if items == [] then [] else ItemText(items[0]) + (items[0].after + ItemsText(items[1..]))
  }

  /** A token between quotes, without the white space before it. */
  predicate GoodToken(lead: Bytes, token: Bytes) {
    White(lead) && (token != [] ==> !IsWhite(token[0])) && QUOTE !in token
  }

  predicate GoodDoc(d: Doc)
    decreases d
  {
    match d
    case DNumber(neg, gap, whole, frac) => White(gap) && AllDigits(whole) && (frac.Some? ==> AllDigits(frac.value)) && (whole != [] || frac.Some?)
    case DString(ps) => GoodPieces(ps)
    case DList(open, items) => Separators(open) && GoodItems(items)
    case DObj(open, members) => Separators(open) && GoodItems(members)
    case _ => true
  }

  predicate GoodItems(items: seq<Item>)
    decreases items
  {
    forall i :: 0 <= i < |items| ==> GoodWritten(items[i]) && (i + 1 < |items| && NumberLast(items[i]) ==> items[i].after != [])
  }

  /** A number before another child needs something between them. */
  predicate NumberLast(i: Item) {
    !i.Text? && i.value.DNumber?
  }

  predicate GoodWritten(i: Item)
    decreases i
  {
    && Separators(i.after)
    && match i
       case Member(lead, name, w1, w2, value, _) => GoodToken(lead, name) && White(w1) && White(w2) && GoodDoc(value)
       case Unnamed(value, _) => GoodDoc(value) && !value.DString?
       case Text(lead, text, _) => GoodToken(lead, text) && text != []
  }

  // ----- what they mean -----

  function Meaning(d: Doc): Value
    requires GoodDoc(d)
    decreases d
  {
    match d
    case DNull => Null
    case DBool(b) => Bool(b)
    case DNumber(neg, _, whole, frac) =>
      var n := WholeOf(whole) as real + FractionValue(frac);
      Number(if neg then -n else n)
    case DString(ps) => Str(PiecesBytes(ps))
    case DList(_, items) => List(Meanings(items))
    case DObj(_, members) => Obj(Meanings(members))
  }

  function MeaningOf(i: Item): Elem
    requires GoodWritten(i)
    decreases i
  {
    match i
    case Member(_, name, _, _, value, _) => Elem(name, Meaning(value))
    case Unnamed(value, _) => Elem([], Meaning(value))
    case Text(_, text, _) => Elem([], Str(text))
  }

  function Meanings(items: seq<Item>): seq<Elem>
    requires GoodItems(items)
    decreases items
  {
    if items == [] then []
    else
      GoodRest(items);
      [MeaningOf(items[0])] + Meanings(items[1..])
  }

  lemma GoodRest(items: seq<Item>)
    requires GoodItems(items) && items != []
    ensures GoodItems(items[1..]) && GoodWritten(items[0])
  {
    forall i | 0 <= i < |items[1..]|
      ensures GoodWritten(items[1..][i]) && (i + 1 < |items[1..]| && NumberLast(items[1..][i]) ==> items[1..][i].after != [])
    {
      assert items[1..][i] == items[i + 1];
    }
  }

  // ----- white space -----

  lemma WhiteSkipped(w: Bytes, t: Bytes)
    requires White(w) && t != [] && !IsWhite(t[0])
    ensures SkipWhite(w + t) == t
  {
    SkipWhiteOver(w, t);
    SkipWhiteHere(t);
  }

  /** A byte with which something begins. */
  predicate Firm(t: Bytes) {
    t != [] && !IsWhite(t[0]) && t[0] != 0 && t[0] != COMMA
  }

  lemma {:induction false} SeparatorsSkipped(w: Bytes, t: Bytes)
    requires Separators(w) && Firm(t)
    ensures SkipCommas(SkipWhite(w + t)) == t
    decreases |w|
  {
    var u := w + t;
    if w == [] {
      assert u == t;
      SkipWhiteHere(t);
    } else {
      var rest := w[1..] + t;
      assert u == [w[0]] + rest && u[1..] == rest && u[0] == w[0];
      SeparatorsSkipped(w[1..], t);
      if IsWhite(w[0]) {
        SkipWhiteOver([w[0]], rest);
      } else {
        SkipWhiteHere(u);
        GetCharIs(COMMA, rest);
      }
    }
  }

  lemma DocStart(d: Doc)
    requires GoodDoc(d)
    ensures Firm(DocText(d)) && DocText(d)[0] != COLON && DocText(d)[0] != CLOSE_LIST && DocText(d)[0] != CLOSE_OBJ && (DocText(d)[0] == QUOTE <==> d.DString?)
  {
    hide PiecesText, ItemsText, GoodPieces, GoodItems, WholeOf, FractionValue, NumberOf;
    if d.DNumber? {
      NumberReads(d.whole, d.frac);
      SomeDigits(d.whole, d.frac);
      assert (d.whole + Fraction(d.frac))[0] in NUMERIC;
    }
  }

  lemma ItemStart(i: Item)
    requires GoodWritten(i)
    ensures Firm(ItemText(i)) && ItemText(i)[0] != CLOSE_LIST && ItemText(i)[0] != CLOSE_OBJ && ItemText(i)[0] != COLON
    ensures i.Unnamed? ==> ItemText(i)[0] != QUOTE
  {
    if i.Unnamed? {
      DocStart(i.value);
    }
  }

  // ----- reading them -----

  lemma DigitsRead(whole: Bytes, frac: Option<Bytes>, post: Bytes)
    requires AllDigits(whole) && (frac.Some? ==> AllDigits(frac.value)) && (whole != [] || frac.Some?) && Head(post) !in NUMERIC
    ensures var n := whole + Fraction(frac);
            && Head(n + post) in NUMERIC && SkipWhite(n + post) == n + post
            && forall neg :: ParseNumber(n + post, neg) == Some((Number(if neg then -(WholeOf(whole) as real + FractionValue(frac)) else WholeOf(whole) as real + FractionValue(frac)), SkipWhite(post)))
  {
    hide NumberOf, WholeOf, FractionValue, SkipWhite, Fraction;
    var n := whole + Fraction(frac);
    NumberReads(whole, frac);
    SomeDigits(whole, frac);
    var t := n + post;
    assert |n| < |t| ==> t[|n|] == Head(post);
    assert forall i :: 0 <= i < |n| ==> t[i] == n[i];
    SpanInIs(t, NUMERIC, |n|);
    assert t[..|n|] == n && t[|n|..] == post;
    NumericStart(t);
  }

  lemma SomeDigits(whole: Bytes, frac: Option<Bytes>)
    requires whole != [] || frac.Some?
    ensures whole + Fraction(frac) != []
  {
  }

  lemma NumberDocReads(d: Doc, post: Bytes)
    requires d.DNumber? && GoodDoc(d) && Head(post) !in NUMERIC
    ensures ParseValue(DocText(d) + post) == Some((Meaning(d), SkipWhite(post)))
  {
    hide ParseNumber, ParseValue, SkipWhite, WholeOf, FractionValue, Fraction, AllDigits;
    var n := d.whole + Fraction(d.frac);
    var t := DocText(d) + post;
    DigitsRead(d.whole, d.frac, post);
    ParseValueIs(t);
    if d.neg {
      assert t == [MINUS] + (d.gap + (n + post)) && t[1..] == d.gap + (n + post);
      SkipWhiteOver(d.gap, n + post);
      assert ParseNumber(n + post, true).Some?;
    } else {
      assert t == n + post;
      assert ParseNumber(n + post, false).Some?;
    }
  }

  lemma SimpleReads(d: Doc, post: Bytes)
    requires !d.DList? && !d.DObj? && GoodDoc(d) && post != [] && (d.DNumber? ==> Head(post) !in NUMERIC)
    ensures ParseValue(DocText(d) + post) == Some((Meaning(d), SkipWhite(post)))
  {
    hide ParseValue, ParseWord, ParseString, SkipWhite, GoodPieces, PiecesText, PiecesBytes;
    if d.DNumber? {
      NumberDocReads(d, post);
    } else if d.DString? {
      StringReads(d.pieces, post);
      assert Head(DocText(d) + post) == QUOTE;
      ParseValueIs(DocText(d) + post);
    } else {
      WordBack(if d.DNull? then Null else Bool(d.isTrue), post);
      ParseValueIs(DocText(d) + post);
    }
  }

  /** The name of a member with everything up to its value, or a text that is no name. */
  lemma TokenReads(lead: Bytes, token: Bytes, rest: Bytes, next: Bytes)
    requires GoodToken(lead, token) && next == SkipWhite(rest)
    ensures var t := [QUOTE] + (lead + (token + ([QUOTE] + rest)));
            && (Head(next) == COLON && GetChar(next).Some? ==> ParseStart(t) == Named(token, GetChar(next).value))
            && (Head(next) != COLON && token != [] ==> ParseStart(t) == Whole(token, next))
  {
    hide SkipWhite, GetChar, Until, ParseStart;
    var after := [QUOTE] + rest;
    var t := [QUOTE] + (lead + (token + after));
    GetCharIs(QUOTE, lead + (token + after));
    assert (token + after)[0] == if token == [] then QUOTE else token[0];
    WhiteSkipped(lead, token + after);
    assert forall i :: 0 <= i < |token| ==> token[i] in token && token[i] !in {QUOTE};
    UntilToken(token, after, {QUOTE});
    SkipWhiteHere(after);
    GetCharIs(QUOTE, rest);
    ParseStartIs(t, token + after, token, after, next);
  }

  lemma MemberReads(i: Item, post: Bytes)
    requires i.Member? && GoodWritten(i)
    ensures ParseStart(ItemText(i) + post) == Named(i.name, DocText(i.value) + post)
  {
    hide SkipWhite, GetChar, Until, ParseStart, DocText, GoodDoc, GoodToken;
    var v := DocText(i.value) + post;
    DocStart(i.value);
    var rest := i.w1 + ([COLON] + (i.w2 + v));
    MemberTextIs(i, post);
    WhiteSkipped(i.w1, [COLON] + (i.w2 + v));
    GetCharIs(COLON, i.w2 + v);
    WhiteSkipped(i.w2, v);
    TokenReads(i.lead, i.name, rest, [COLON] + (i.w2 + v));
  }

  lemma MemberTextIs(i: Item, post: Bytes)
    requires i.Member?
    ensures ItemText(i) + post == [QUOTE] + (i.lead + (i.name + ([QUOTE] + (i.w1 + ([COLON] + (i.w2 + (DocText(i.value) + post)))))))
  {
    hide DocText;
    var v := DocText(i.value);
    var a := [COLON] + (i.w2 + v);
    assert a + post == [COLON] + (i.w2 + (v + post));
    var b := [QUOTE] + (i.w1 + a);
    assert b + post == [QUOTE] + (i.w1 + (a + post));
    assert ([QUOTE] + (i.lead + (i.name + b))) + post == [QUOTE] + (i.lead + (i.name + (b + post)));
  }

  lemma {:induction false} ItemReads(i: Item, post: Bytes)
    requires GoodWritten(i) && post != [] && (NumberLast(i) ==> Head(post) !in NUMERIC) && Head(SkipWhite(post)) != COLON
    ensures ParseElem(ItemText(i) + post) == Some((MeaningOf(i), SkipWhite(post)))
    decreases i, 0
  {
    hide SkipWhite, ParseStart, ParseValue, ParseElem, DocText, GoodDoc, Meaning, GoodToken;
    var t := ItemText(i) + post;
    ParseElemIs(t);
    match i {
      case Member(_, name, _, _, value, _) =>
        MemberReads(i, post);
        ValueReads(value, post);
      case Unnamed(value, _) =>
        ItemStart(i);
        assert t[0] == ItemText(i)[0];
        StartUnnamed(t);
        ValueReads(value, post);
      case Text(lead, text, _) =>
        assert t == [QUOTE] + (lead + (text + ([QUOTE] + post)));
        TokenReads(lead, text, post, SkipWhite(post));
    }
  }

  lemma AfterSeparators(w: Bytes, t: Bytes, end: Byte)
    requires Separators(w) && Firm(t) && (end == CLOSE_LIST || end == CLOSE_OBJ)
    ensures ParseChildren(SkipWhite(w + t), end) == ParseChildren(t, end)
    ensures Head(SkipWhite(w + t)) == COMMA || Head(SkipWhite(w + t)) == t[0]
  {
    SeparatorsSkipped(w, t);
    CommasFirst(SkipWhite(w + t), end);
    hide ParseChildren;
    if Head(SkipWhite(w + t)) != COMMA {
      assert SkipWhite(w + t) == t;
    }
  }

  lemma {:induction false} ItemsRead(items: seq<Item>, end: Byte, post: Bytes)
    requires GoodItems(items) && (end == CLOSE_LIST || end == CLOSE_OBJ)
    ensures ParseChildren(ItemsText(items) + ([end] + post), end) == Some((Meanings(items), SkipWhite(post)))
    ensures Firm(ItemsText(items) + ([end] + post)) && (ItemsText(items) + ([end] + post))[0] != COLON
    decreases items, 1
  {
    hide ParseChildren, SkipWhite, ItemText, ParseElem, GoodWritten, MeaningOf;
    if items == [] {
      assert ItemsText(items) + ([end] + post) == [end] + post;
      NoMoreChildren(post, end);
    } else {
      var i, more := items[0], ItemsText(items[1..]) + ([end] + post);
      GoodRest(items);
      ItemsRead(items[1..], end, post);
      ItemStart(i);
      var t := ItemText(i) + (i.after + more);
      assert ItemsText(items) + ([end] + post) == t;
      assert t[0] == ItemText(i)[0];
      AfterGood(i);
      AfterSeparators(i.after, more, end);
      NumberEnds(items, end, post);
      ItemReads(i, i.after + more);
      OneMoreChild(t, end);
    }
  }

  lemma AfterGood(i: Item)
    requires GoodWritten(i)
    ensures Separators(i.after)
  {
  }

  lemma NoItems()
    ensures ItemsText([]) == []
  {
  }

  lemma NumberEnds(items: seq<Item>, end: Byte, post: Bytes)
    requires GoodItems(items) && items != [] && (end == CLOSE_LIST || end == CLOSE_OBJ)
    ensures var rest := items[0].after + (ItemsText(items[1..]) + ([end] + post));
            rest != [] && (NumberLast(items[0]) ==> Head(rest) !in NUMERIC)
  {
    hide ItemText, NumberLast, GoodWritten, ItemsText;
    AfterGood(items[0]);
    var rest := items[0].after + (ItemsText(items[1..]) + ([end] + post));
    if |items| == 1 {
      NoItems();
      assert items[1..] == [] && rest == items[0].after + ([end] + post);
    }
    if items[0].after != [] {
      assert rest[0] == items[0].after[0];
    }
  }

  lemma {:induction false} ListReads(d: Doc, post: Bytes)
    requires (d.DList? || d.DObj?) && GoodDoc(d)
    ensures ParseValue(DocText(d) + post) == Some((Meaning(d), SkipWhite(post)))
    decreases d, 0
  {
    hide ParseValue, ParseChildren, SkipWhite, ItemsText, GoodItems, Meanings;
    var items := if d.DList? then d.items else d.members;
    var open, end := if d.DList? then OPEN_LIST else OPEN_OBJ, if d.DList? then CLOSE_LIST else CLOSE_OBJ;
    var rest := ItemsText(items) + ([end] + post);
    assert DocText(d) + post == [open] + (d.open + rest);
    ItemsRead(items, end, post);
    AfterSeparators(d.open, rest, end);
    ParseValueAfter(open, d.open + rest);
  }

  /** A value as others write it is read as what it means, with what follows it left. */
  lemma {:induction false} ValueReads(d: Doc, post: Bytes)
    requires GoodDoc(d) && (d.DList? || d.DObj? || post != []) && (d.DNumber? ==> Head(post) !in NUMERIC)
    ensures ParseValue(DocText(d) + post) == Some((Meaning(d), SkipWhite(post)))
    decreases d, 1
  {
    hide ParseValue, DocText, SkipWhite, GoodDoc, Meaning;
    if d.DList? || d.DObj? {
      ListReads(d, post);
    } else {
      SimpleReads(d, post);
    }
  }

  /** A whole document, an object or list with white space before and after it: it is read as
      what it means, and nothing is left. */
  lemma DocumentReads(before: Bytes, d: Doc, after: Bytes)
    requires White(before) && White(after) && GoodDoc(d) && (d.DList? || d.DObj?)
    ensures Parse(before + (DocText(d) + after)) == Some((Elem([], Meaning(d)), 0))
  {
    hide ParseValue, ParseElem, ParseStart, DocText, GoodDoc, Meaning;
    var t := DocText(d) + after;
    DocStart(d);
    WhiteSkipped(before, t);
    StartUnnamed(t);
    ValueReads(d, after);
    ParseElemIs(t);
    SkipWhiteOver(after, []);
    assert after + [] == after;
  }
}
