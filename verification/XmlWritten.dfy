/** XML as others write it: white space, comments and instructions, either kind of quotes,
    attributes without value, end tags in other letters, and sections. What the parser of xml.c
    reads from it. */
module XmlWritten {
  import opened DnsTypes
  import opened ScanText
  import opened XmlText
  import opened XmlRoundTrip
  import opened XmlSections

  predicate White(w: Bytes) {
    forall i :: 0 <= i < |w| ==> w[i] == 32 || w[i] == 9 || w[i] == 10 || w[i] == 13
  }

  lemma WhiteSkipped(w: Bytes, t: Bytes)
    requires White(w) && t != [] && !IsWhite(t[0])
    ensures SkipWhite(w + t) == t
  {
    SkipWhiteOver(w, t);
    SkipWhiteHere(t);
  }

  // ----- what is passed over -----

  /** "<?" text "?>" or "<!" text ">", and white space. */
  datatype Misc = Instruction(text: Bytes, after: Bytes) | Comment(text: Bytes, after: Bytes)

  function MiscText(m: Misc): Bytes {
    match m
    case Instruction(text, after) => [LT, QUESTION] + (text + ([QUESTION, GT] + after))
    case Comment(text, after) => [LT, BANG] + (text + ([GT] + after))
  }

  /** The end does not stand in the text. */
  predicate GoodMisc(m: Misc) {
    White(m.after) &&
    match m
    case Instruction(text, _) => forall i :: 0 <= i && i + 1 < |text| ==> !(text[i] == QUESTION && text[i + 1] == GT)
    case Comment(text, _) => GT !in text
  }

  function MiscsText(ms: seq<Misc>): Bytes {
    if ms == [] then [] else MiscText(ms[0]) + MiscsText(ms[1..])
  }

  lemma {:induction false} InstructionOver(text: Bytes, t: Bytes)
    requires forall i :: 0 <= i && i + 1 < |text| ==> !(text[i] == QUESTION && text[i + 1] == GT)
    ensures SkipInstruction(text + ([QUESTION, GT] + t)) == Some(SkipWhite(t))
    decreases |text|
  {
    hide SkipWhite, Span;
    var end := [QUESTION, GT] + t;
    var u := text + end;
    var k := Span(text, {QUESTION});
    if k == |text| {
      UntilToken(text, end, {QUESTION});
      SkipWhiteHere(end);
      assert end[2..] == t;
    } else {
      var token, more := text[..k], text[k + 1..];
      assert text == token + ([QUESTION] + more);
      assert u == token + ([QUESTION] + (more + end));
      UntilToken(token, [QUESTION] + (more + end), {QUESTION});
      var v := [QUESTION] + (more + end);
      SkipWhiteHere(v);
      assert v[1] == if more == [] then QUESTION else text[k + 1];
      assert v[1..] == more + end;
      InstructionOver(more, t);
    }
  }

  lemma MiscSkipped(m: Misc, t: Bytes)
    requires GoodMisc(m) && t != [] && !IsWhite(t[0])
    ensures ParseNode(MiscText(m) + t) == ParseNode(t)
    ensures Head(MiscText(m) + t) == LT && |MiscText(m) + t| > 1 && (MiscText(m) + t)[1] == if m.Comment? then BANG else QUESTION
  {
    hide SkipWhite, ParseNode;
    WhiteSkipped(m.after, t);
    match m {
      case Instruction(text, after) =>
        Parts([LT, QUESTION], text, [QUESTION, GT], after, t);
        InstructionReads(text, after + t);
      case Comment(text, after) =>
        Parts([LT, BANG], text, [GT], after, t);
        CommentReads(text, after + t);
    }
  }

  lemma Parts(a: Bytes, b: Bytes, c: Bytes, d: Bytes, t: Bytes)
    ensures a + (b + (c + d)) + t == a + (b + (c + (d + t)))
    ensures |a| >= 2 ==> |a + (b + (c + (d + t)))| >= 2 && (a + (b + (c + (d + t))))[0] == a[0] && (a + (b + (c + (d + t))))[1] == a[1]
  {
  }

  lemma InstructionReads(text: Bytes, rest: Bytes)
    requires forall i :: 0 <= i && i + 1 < |text| ==> !(text[i] == QUESTION && text[i + 1] == GT)
    ensures ParseNode([LT, QUESTION] + (text + ([QUESTION, GT] + rest))) == ParseNode(SkipWhite(rest))
  {
    hide SkipWhite, ParseNode, SkipInstruction;
    var u := [LT, QUESTION] + (text + ([QUESTION, GT] + rest));
    assert u[2..] == text + ([QUESTION, GT] + rest);
    InstructionOver(text, rest);
    InstructionPassed(u);
  }

  lemma CommentReads(text: Bytes, rest: Bytes)
    requires GT !in text
    ensures ParseNode([LT, BANG] + (text + ([GT] + rest))) == ParseNode(SkipWhite(rest))
  {
    hide SkipWhite, ParseNode, Until, Span;
    var end := [GT] + rest;
    var u := [LT, BANG] + (text + end);
    assert u[2..] == text + end && u[..2] == [LT, BANG];
    assert forall i :: 0 <= i < |text| ==> text[i] in text && text[i] !in {GT};
    UntilToken(text, end, {GT});
    SkipWhiteHere(end);
    assert end[1..] == rest;
    CommentPassed(u);
  }

  lemma InstructionPassed(u: Bytes)
    requires |u| >= 2 && u[0] == LT && u[1] == QUESTION && SkipInstruction(u[2..]).Some?
    ensures ParseNode(u) == ParseNode(SkipInstruction(u[2..]).value)
  {
    hide SkipInstruction, SkipComment, ParseAttrs, ParseBody;
  }

  lemma CommentPassed(u: Bytes)
    requires |u| >= 2 && u[..2] == [LT, BANG] && SkipComment(u[2..]).Some?
    ensures ParseNode(u) == ParseNode(SkipComment(u[2..]).value)
  {
    hide SkipInstruction, SkipComment, ParseAttrs, ParseBody;
    assert u[0] == u[..2][0] && u[1] == u[..2][1];
  }

  predicate GoodMiscs(ms: seq<Misc>) {
    forall i :: 0 <= i < |ms| ==> GoodMisc(ms[i])
  }

  lemma {:induction false} MiscsSkipped(ms: seq<Misc>, t: Bytes)
    requires GoodMiscs(ms) && t != [] && !IsWhite(t[0])
    ensures ParseNode(MiscsText(ms) + t) == ParseNode(t)
    ensures ms != [] ==> NodeAhead(MiscsText(ms) + t) == ms[0].Instruction? && Head(MiscsText(ms) + t) == LT
    decreases |ms|
  {
    hide ParseNode, MiscText, GoodMisc;
    if ms == [] {
      assert MiscsText(ms) + t == t;
    } else {
      var rest := MiscsText(ms[1..]) + t;
      assert MiscsText(ms) + t == MiscText(ms[0]) + rest;
      MiscsSkipped(ms[1..], t);
      assert ms[1..] == [] ==> rest == t;
      MiscSkipped(ms[0], rest);
    }
  }

  // ----- attributes -----

  /** "= value" after a name, with white space on both sides of the sign. */
  datatype Quoted = Quoted(before: Bytes, gap: Bytes, quote: Byte, text: Bytes)

  datatype Given = Given(name: Bytes, value: Option<Quoted>, after: Bytes)

  function QuotedText(q: Quoted): Bytes {
    q.before + ([EQ] + (q.gap + ([q.quote] + (q.text + [q.quote]))))
  }

  function GivenText(a: Given): Bytes {
    a.name + ((if a.value.Some? then QuotedText(a.value.value) else []) + a.after)
  }

  /** The value ends at its own kind of quote, if no odd number of backslashes is before it. */
  predicate GoodQuoted(q: Quoted) {
    && White(q.before) && White(q.gap) && (q.quote == QUOTE || q.quote == APOS)
    && q.quote !in q.text && LF !in q.text && Trailing(q.text) % 2 == 0
  }

  predicate GoodGiven(a: Given) {
    && (forall i :: 0 <= i < |a.name| ==> a.name[i] !in {61, 62, 32, 9, 13, 10}) && a.name != [] && a.name[0] != SLASH
    && White(a.after) && (a.value.Some? ==> GoodQuoted(a.value.value))
  }

  function GivensText(gs: seq<Given>): Bytes {
    if gs == [] then [] else GivenText(gs[0]) + GivensText(gs[1..])
  }

  /** A name without a value is ended by white space or the end of the tag. */
  predicate GoodGivens(gs: seq<Given>, tail: Bytes) {
    (forall i :: 0 <= i < |gs| ==> GoodGiven(gs[i]))
    && forall i :: 0 <= i < |gs| && gs[i].value.None? && gs[i].after == [] ==> i == |gs| - 1 && Head(tail) == GT
  }

  function AttrOf(a: Given): Attr {
    Attr(a.name, if a.value.Some? then a.value.value.text else [])
  }

  function AttrsOf(gs: seq<Given>): (r: seq<Attr>)
    ensures |r| == |gs|
  {
    if gs == [] then [] else [AttrOf(gs[0])] + AttrsOf(gs[1..])
  }

  lemma {:induction false} QuoteScan(t: Bytes, quote: Byte, s: nat, e: nat)
    requires 1 <= s <= e < |t| && quote != LF && t[e] == quote && Trailing(t[1..e]) % 2 == 0
    requires forall i :: s <= i < e ==> t[i] != quote && t[i] != LF
    ensures QuoteEnd(t, quote, s) == e
    decreases e - s
  {
    hide Trailing;
    if s < e {
      QuoteScan(t, quote, s + 1, e);
    }
  }

  lemma QuotedReads(q: Quoted, more: Bytes)
    requires GoodQuoted(q)
    ensures GetQuotes([q.quote] + (q.text + ([q.quote] + more)), {QUOTE, APOS}) == Some((q.text, SkipWhite(more)))
  {
    hide QuoteEnd, Trailing;
    var t := [q.quote] + (q.text + ([q.quote] + more));
    var e := 1 + |q.text|;
    assert t[1..e] == q.text && t[e] == q.quote && t[e + 1..] == more;
    forall i | 1 <= i < e ensures t[i] != q.quote && t[i] != LF {
      assert t[i] == q.text[i - 1] && q.text[i - 1] in q.text;
    }
    QuoteScan(t, q.quote, 1, e);
  }

  lemma NameUntil(name: Bytes, rest: Bytes)
    requires (forall i :: 0 <= i < |name| ==> name[i] !in {61, 62, 32, 9, 13, 10}) && rest != [] && rest[0] in {61, 62, 32, 9, 13, 10}
    ensures Until(name + rest, ATTR_END) == Some((name, SkipWhite(rest)))
  {
    UntilToken(name, rest, ATTR_END);
  }

  lemma GivenReads(a: Given, more: Bytes)
    requires GoodGiven(a) && more != [] && !IsWhite(more[0]) && more[0] != EQ && (a.value.None? && a.after == [] ==> more[0] == GT)
    ensures var t := GivenText(a) + more;
            t != [] && t[0] == a.name[0] && ParseAttr(t) == Some((AttrOf(a), more))
  {
    hide SkipWhite, GetQuotes, Span, Until, QuoteEnd, Trailing, GetChar;
    var t := GivenText(a) + more;
    WhiteSkipped(a.after, more);
    if a.value.Some? {
      var q := a.value.value;
      var quoted := [q.quote] + (q.text + ([q.quote] + (a.after + more)));
      var rest := q.before + ([EQ] + (q.gap + quoted));
      assert t == a.name + rest by { ValueTextIs(a, more); }
      assert rest[0] == if q.before == [] then EQ else q.before[0];
      NameUntil(a.name, rest);
      WhiteSkipped(q.before, [EQ] + (q.gap + quoted));
      GetCharIs(EQ, q.gap + quoted);
      WhiteSkipped(q.gap, quoted);
      QuotedReads(q, a.after + more);
    } else {
      assert t == a.name + (a.after + more);
      assert (a.after + more)[0] == if a.after == [] then GT else a.after[0];
      NameUntil(a.name, a.after + more);
    }
  }

  lemma ValueTextIs(a: Given, more: Bytes)
    requires a.value.Some?
    ensures var q := a.value.value;
            GivenText(a) + more == a.name + (q.before + ([EQ] + (q.gap + ([q.quote] + (q.text + ([q.quote] + (a.after + more)))))))
  {
    var q := a.value.value;
    var x := [q.quote] + (q.text + [q.quote]);
    assert x + (a.after + more) == [q.quote] + (q.text + ([q.quote] + (a.after + more)));
    var y := [EQ] + (q.gap + x);
    assert y + (a.after + more) == [EQ] + (q.gap + (x + (a.after + more)));
    var z := q.before + y;
    assert z + (a.after + more) == q.before + (y + (a.after + more));
    assert a.name + (z + a.after) + more == a.name + (z + (a.after + more));
  }

  /** The attributes of a tag, up to its end. */
  lemma {:induction false} GivensRead(gs: seq<Given>, tail: Bytes)
    requires GoodGivens(gs, tail) && (Head(tail) == GT || Head(tail) == SLASH)
    ensures var t := GivensText(gs) + tail;
            && t != [] && !IsWhite(t[0]) && t[0] != EQ && (gs != [] ==> t[0] != GT && t[0] != SLASH)
            && ParseAttrs(t) == Some((AttrsOf(gs), tail))
    decreases |gs|
  {
    hide ParseAttr, GivenText, AttrOf;
    if gs == [] {
      assert GivensText(gs) + tail == tail;
    } else {
      var a, more := gs[0], GivensText(gs[1..]) + tail;
      assert GivensText(gs) + tail == GivenText(a) + more;
      RestGiven(gs, tail);
      GivensRead(gs[1..], tail);
      assert gs[1..] == [] ==> more == tail;
      FirstByte(a);
      GivenReads(a, more);
      AttrsStep(GivenText(a) + more);
    }
  }

  lemma FirstByte(a: Given)
    requires GoodGiven(a)
    ensures a.name != [] && a.name[0] !in {61, 62, 32, 9, 13, 10} && a.name[0] != SLASH
  {
  }

  lemma AttrsStep(t: Bytes)
    requires t != [] && !IsWhite(t[0]) && t[0] != GT && t[0] != SLASH && ParseAttr(t).Some?
    ensures var rest := ParseAttrs(ParseAttr(t).value.1);
            ParseAttrs(t) == if rest.None? then None else Some(([ParseAttr(t).value.0] + rest.value.0, rest.value.1))
  {
    hide ParseAttr;
  }

  lemma RestGiven(gs: seq<Given>, tail: Bytes)
    requires GoodGivens(gs, tail) && gs != []
    ensures GoodGivens(gs[1..], tail) && GoodGiven(gs[0]) && (gs[0].value.None? && gs[0].after == [] ==> |gs| == 1 && Head(tail) == GT)
  {
    hide GoodGiven;
    forall i | 0 <= i < |gs[1..]| ensures GoodGiven(gs[1..][i]) && (gs[1..][i].value.None? && gs[1..][i].after == [] ==> i == |gs[1..]| - 1 && Head(tail) == GT) {
      assert gs[1..][i] == gs[i + 1];
    }
  }

  // ----- nodes -----

  datatype Tag = Tag(gap: Bytes, name: Bytes, after: Bytes, attrs: seq<Given>)   // gap: after the '<'

  datatype Element = Element(tag: Tag, body: Body)

  datatype Body =
    | Empty(gap: Bytes)                                  // "/" gap ">"
    | Full(open: Bytes, children: seq<Child>, text: Bytes, section: Option<Section>, end: EndOf)

  datatype Child = Child(before: seq<Misc>, element: Element, after: Bytes)

  /** "<![CDATA[" text "]]>", and white space. */
  datatype Section = Section(text: Bytes, after: Bytes)

  /** "</" gap name before ">". */
  datatype EndOf = EndOf(gap: Bytes, name: Bytes, before: Bytes)

  function TagText(tag: Tag): Bytes {
    [LT] + (tag.gap + (tag.name + (tag.after + GivensText(tag.attrs))))
  }

  function EndText(e: EndOf): Bytes {
    [LT, SLASH] + (e.gap + (e.name + (e.before + [GT])))
  }

  function SectionText(s: Option<Section>): Bytes {
    if s.Some? then CDATA + (s.value.text + (CDATA_END + s.value.after)) else []
  }

  function ElementText(e: Element): Bytes
    decreases e
  {
    TagText(e.tag) + BodyOf(e.body)
  }

  function BodyOf(b: Body): Bytes
    decreases b
  {
    match b
    case Empty(gap) => [SLASH] + (gap + [GT])
    case Full(open, children, text, section, end) => [GT] + (open + (ChildrenText(children) + (text + (SectionText(section) + EndText(end)))))
  }

  function ChildrenText(cs: seq<Child>): Bytes
    decreases cs
  {
    if cs == [] then [] else MiscsText(cs[0].before) + (ElementText(cs[0].element) + (cs[0].after + ChildrenText(cs[1..])))
  }

  predicate GoodTag(tag: Tag, body: Body) {
    && White(tag.gap) && White(tag.after) && (forall i :: 0 <= i < |tag.name| ==> tag.name[i] !in {32, 47, 62, 9, 13, 10})
    && tag.name != [] && tag.name[0] != QUESTION && tag.name[0] != BANG
    && GoodGivens(tag.attrs, BodyOf(body)) && (tag.attrs != [] ==> tag.after != [])
  }

  predicate GoodEndOf(e: EndOf) {
    && White(e.gap) && White(e.before) && (e.before != [] ==> e.before[0] == SPACE || e.before[0] == TAB)
    && e.name != [] && forall i :: 0 <= i < |e.name| ==> e.name[i] !in {32, 62, 9, 13, 10}
  }

  predicate GoodText(text: Bytes) {
    LT !in text && (text != [] ==> !IsWhite(text[0]))
  }

  /** A section has no ']' in it. */
  predicate GoodSection(s: Section) {
    BRACKET !in s.text && White(s.after)
  }

  predicate GoodElement(e: Element)
    decreases e
  {
    GoodTag(e.tag, e.body) && GoodBody(e.body) && (e.body.Full? ==> EqualFold(e.tag.name, e.body.end.name))
  }

  predicate GoodBody(b: Body)
    decreases b
  {
    match b
    case Empty(gap) => White(gap)
    case Full(open, children, text, section, end) =>
      White(open) && GoodText(text) && (section.Some? ==> GoodSection(section.value)) && GoodEndOf(end) && GoodChildren(children)
  }

  /** A comment does not stand directly before a sub node, where the parser takes it for content. */
  predicate GoodChildren(cs: seq<Child>)
    decreases cs
  {
    forall i :: 0 <= i < |cs| ==>
      GoodMiscs(cs[i].before) && (cs[i].before != [] ==> cs[i].before[0].Instruction?) && GoodElement(cs[i].element) && White(cs[i].after)
  }

  // ----- what they mean -----

  function NodeOf(e: Element): Node
    decreases e
  {
    match e.body
    case Empty(_) => Node(e.tag.name, AttrsOf(e.tag.attrs), [], [])
    case Full(_, children, text, section, _) =>
      Node(e.tag.name, AttrsOf(e.tag.attrs), NodesOf(children), if section.Some? then section.value.text else text)
  }

  function NodesOf(cs: seq<Child>): seq<Node>
    decreases cs
  {
    if cs == [] then [] else [NodeOf(cs[0].element)] + NodesOf(cs[1..])
  }

  // ----- reading them -----

  lemma EndReads(e: EndOf, name: Bytes, post: Bytes)
    requires GoodEndOf(e)
    ensures ParseEnd(EndText(e) + post, name) == if EqualFold(name, e.name) then Some(SkipWhite(post)) else None
    ensures var t := EndText(e) + post; |t| >= 2 && t[0] == LT && t[1] == SLASH
  {
    hide SkipWhite, Span, EqualFold, Until, GetChar;
    var t3 := [GT] + post;
    var t2 := e.name + (e.before + t3);
    var t1 := [SLASH] + (e.gap + t2);
    assert EndText(e) + post == [LT] + t1 by { EndTextIs(e, post); }
    GetCharIs(LT, t1);
    SkipWhiteHere(t1);
    GetCharIs(SLASH, e.gap + t2);
    assert t2[0] == e.name[0];
    WhiteSkipped(e.gap, t2);
    assert (e.before + t3)[0] == if e.before != [] then e.before[0] else GT;
    UntilToken(e.name, e.before + t3, CLOSE_END);
    WhiteSkipped(e.before, t3);
    GetCharIs(GT, post);
  }

  lemma EndTextIs(e: EndOf, post: Bytes)
    ensures EndText(e) + post == [LT] + ([SLASH] + (e.gap + (e.name + (e.before + ([GT] + post)))))
  {
    var x := e.name + (e.before + [GT]);
    assert x + post == e.name + (e.before + ([GT] + post));
    assert EndText(e) + post == [LT, SLASH] + (e.gap + (x + post));
  }

  predicate EndTagAhead(t: Bytes) {
    |t| >= 2 && t[0] == LT && t[1] == SLASH
  }

  /** Text alone, before an end tag. */
  lemma TextReads(text: Bytes, rest: Bytes)
    requires GoodText(text) && EndTagAhead(rest)
    ensures ParseContent(text + rest) == Content(text, rest)
  {
    hide SkipWhite, Span, Until;
    if text == [] {
      assert text + rest == rest;
    } else {
      BeforeMarkup(text, rest);
    }
  }

  lemma BeforeMarkup(text: Bytes, v: Bytes)
    requires GoodText(text) && text != [] && v != [] && v[0] == LT
    ensures Until(text + v, {LT}) == Some((text, v)) && (text + v)[0] != LT && !IsWhite((text + v)[0])
  {
    hide SkipWhite, Span;
    assert forall i :: 0 <= i < |text| ==> text[i] in text && text[i] !in {LT};
    UntilToken(text, v, {LT});
    SkipWhiteHere(v);
    assert (text + v)[0] == text[0];
  }

  lemma SectionReads(text: Bytes, s: Section, rest: Bytes)
    requires GoodText(text) && GoodSection(s) && EndTagAhead(rest)
    ensures ParseContent(text + (SectionText(Some(s)) + rest)) == Content(s.text, rest)
  {
    hide ParseContent, EndTagAhead, GoodText;
    var v := CDATA + (s.text + (CDATA_END + (s.after + rest)));
    Parts(CDATA, s.text, CDATA_END, s.after, rest);
    SectionAlone(s, rest);
    if text == [] {
      assert text + v == v;
    } else {
      TextBeforeSection(text, v);
    }
  }

  lemma SectionAlone(s: Section, rest: Bytes)
    requires GoodSection(s) && EndTagAhead(rest)
    ensures ParseContent(CDATA + (s.text + (CDATA_END + (s.after + rest)))) == Content(s.text, rest)
  {
    hide SkipWhite, Span, Until, ParseContent;
    var tail := s.after + rest;
    var u := s.text + (CDATA_END + tail);
    var v := CDATA + u;
    assert CDATA <= v && v[9..] == u;
    SectionOpened(v);
    FirstBracket(s.text, tail);
    NoBracketSpan(s.text);
    SectionSlices(s.text, tail);
    WhiteSkipped(s.after, rest);
  }

  lemma SectionSlices(text: Bytes, tail: Bytes)
    ensures var u, k := text + (CDATA_END + tail), |text|; k + 3 <= |u| && u[k..k + 3] == CDATA_END && u[..k] == text && u[k + 3..] == tail
  {
  }

  lemma NoBracketSpan(s: Bytes)
    requires BRACKET !in s
    ensures Span(s, {BRACKET}) == |s|
  {
    assert forall i :: 0 <= i < |s| ==> s[i] in s && s[i] !in {BRACKET};
    SpanIs(s, {BRACKET}, |s|);
  }

  /** A section replaces the text before it. */
  lemma TextBeforeSection(text: Bytes, v: Bytes)
    requires GoodText(text) && text != [] && CDATA <= v
    ensures ParseContent(text + v).Content? <==> ParseContent(v).Content?
    ensures ParseContent(v).Content? ==> ParseContent(text + v) == ParseContent(v)
  {
    hide SkipWhite, Span, Until;
    assert v[0] == CDATA[0] && v[1] == CDATA[1] && v[..9] == CDATA;
    BeforeMarkup(text, v);
  }

  lemma ContentReads(text: Bytes, section: Option<Section>, rest: Bytes)
    requires GoodText(text) && (section.Some? ==> GoodSection(section.value)) && EndTagAhead(rest)
    ensures var t := text + (SectionText(section) + rest);
            && ParseContent(t) == Content(if section.Some? then section.value.text else text, rest)
            && t != [] && !IsWhite(t[0]) && !NodeAhead(t)
  {
    hide ParseContent, SkipWhite;
    var t := text + (SectionText(section) + rest);
    if section.Some? {
      SectionReads(text, section.value, rest);
      assert SectionText(section) + rest == CDATA + (section.value.text + (CDATA_END + section.value.after) + rest);
    } else {
      assert SectionText(section) + rest == rest;
      TextReads(text, rest);
    }
    if text != [] {
      assert t[0] == text[0] && text[0] in text;
    }
  }

  /** The start of an element, up to its attributes. */
  lemma TagReads(tag: Tag, body: Body, post: Bytes)
    requires GoodTag(tag, body)
    ensures var t := TagText(tag) + (BodyOf(body) + post);
            && Head(t) == LT && NodeAhead(t) && ParseNode(t) == ParseBody(tag.name, AttrsOf(tag.attrs), BodyOf(body) + post)
  {
    hide SkipWhite, Span, ParseAttrs, ParseBody, Until, GetChar, GivensText, ParseNode, BodyOf, GoodGivens, NodeAhead;
    var tail := BodyOf(body) + post;
    var x := GivensText(tag.attrs) + tail;
    BodyStarts(body, post);
    SameTail(tag.attrs, BodyOf(body), tail);
    GivensRead(tag.attrs, tail);
    var y := tag.name + (tag.after + x);
    var t := [LT] + (tag.gap + y);
    assert TagText(tag) + tail == t by { TagTextIs(tag, tail); }
    assert y[0] == tag.name[0] && tag.name[0] !in {32, 47, 62, 9, 13, 10};
    GetCharIs(LT, tag.gap + y);
    WhiteSkipped(tag.gap, y);
    NoGivens(tag.attrs);
    assert tag.attrs == [] ==> x == tail;
    assert (tag.after + x)[0] == if tag.after != [] then tag.after[0] else x[0];
    NameRead(tag.name, tag.after + x);
    WhiteSkipped(tag.after, x);
    assert t[1] == if tag.gap != [] then tag.gap[0] else tag.name[0];
    TagPassed(t, tag.name, x);
  }

  lemma NoGivens(gs: seq<Given>)
    ensures gs == [] ==> GivensText(gs) == []
  {
  }

  lemma NameRead(name: Bytes, rest: Bytes)
    requires (forall i :: 0 <= i < |name| ==> name[i] !in {32, 47, 62, 9, 13, 10}) && rest != [] && rest[0] in {32, 47, 62, 9, 13, 10}
    ensures Until(name + rest, NAME_END) == Some((name, SkipWhite(rest)))
  {
    UntilToken(name, rest, NAME_END);
  }

  lemma TagPassed(t: Bytes, name: Bytes, x: Bytes)
    requires |t| >= 2 && t[0] == LT && t[1] != QUESTION && t[1] != BANG && t[1] != SLASH
    requires GetChar(t).Some? && Until(GetChar(t).value, NAME_END) == Some((name, x)) && x != [] && !IsWhite(x[0]) && ParseAttrs(x).Some?
    ensures NodeAhead(t) && ParseNode(t) == ParseBody(name, ParseAttrs(x).value.0, ParseAttrs(x).value.1)
  {
    hide SkipWhite, Span, ParseAttrs, ParseBody, Until, GetChar, SkipInstruction, SkipComment;
    assert t[..2][1] == t[1];
  }

  lemma TagTextIs(tag: Tag, tail: Bytes)
    ensures TagText(tag) + tail == [LT] + (tag.gap + (tag.name + (tag.after + (GivensText(tag.attrs) + tail))))
  {
    hide GivensText;
    var g := GivensText(tag.attrs);
    assert (tag.name + (tag.after + g)) + tail == tag.name + (tag.after + (g + tail));
    assert TagText(tag) + tail == [LT] + (tag.gap + ((tag.name + (tag.after + g)) + tail));
  }

  lemma BodyStarts(body: Body, post: Bytes)
    ensures BodyOf(body) != [] && (BodyOf(body)[0] == GT || BodyOf(body)[0] == SLASH) && Head(BodyOf(body) + post) == BodyOf(body)[0]
  {
  }

  lemma SameTail(gs: seq<Given>, a: Bytes, b: Bytes)
    requires GoodGivens(gs, a) && Head(a) == Head(b)
    ensures GoodGivens(gs, b)
  {
    hide GoodGiven;
  }

  lemma {:induction false} ElementReads(e: Element, post: Bytes)
    requires GoodElement(e)
    ensures var t := ElementText(e) + post;
            t != [] && t[0] == LT && NodeAhead(t) && ParseNode(t) == Ok(NodeOf(e), SkipWhite(post))
    decreases e, 0
  {
    hide SkipWhite, ParseNode, ParseBody, TagText, BodyOf, GoodTag, GoodBody, NodeAhead, EqualFold;
    assert ElementText(e) + post == TagText(e.tag) + (BodyOf(e.body) + post);
    TagReads(e.tag, e.body, post);
    if e.body.Empty? {
      EmptyReads(e, post);
    } else {
      FullReads(e, post);
    }
  }

  /** A tag that is closed by another name is an error. */
  lemma OtherEndRefused(e: Element, post: Bytes)
    requires e.body.Full? && GoodTag(e.tag, e.body) && GoodBody(e.body) && !EqualFold(e.tag.name, e.body.end.name)
    ensures ParseNode(ElementText(e) + post) == Error
  {
    hide SkipWhite, ParseNode, ParseBody, TagText, BodyOf, GoodTag, GoodBody, NodeAhead, EqualFold;
    assert ElementText(e) + post == TagText(e.tag) + (BodyOf(e.body) + post);
    TagReads(e.tag, e.body, post);
    FullReads(e, post);
  }

  lemma EmptyReads(e: Element, post: Bytes)
    requires e.body.Empty? && GoodElement(e)
    ensures ParseBody(e.tag.name, AttrsOf(e.tag.attrs), BodyOf(e.body) + post) == Ok(NodeOf(e), SkipWhite(post))
  {
    hide SkipWhite, GoodTag, ParseNodes, ParseContent, ParseEnd, GetChar, EqualFold;
    var gap := e.body.gap;
    assert BodyOf(e.body) + post == [SLASH] + (gap + ([GT] + post));
    GetCharIs(SLASH, gap + ([GT] + post));
    WhiteSkipped(gap, [GT] + post);
    GetCharIs(GT, post);
  }

  lemma {:induction false} FullReads(e: Element, post: Bytes)
    requires e.body.Full? && GoodBody(e.body)
    ensures ParseBody(e.tag.name, AttrsOf(e.tag.attrs), BodyOf(e.body) + post) ==
            if EqualFold(e.tag.name, e.body.end.name) then Ok(NodeOf(e), SkipWhite(post)) else Error
    decreases e.body, 1
  {
    hide SkipWhite, GoodTag, ParseNodes, ParseContent, ParseEnd, GetChar, ChildrenText, NodesOf, SectionText, EndText, GoodChildren, GoodText, GoodSection, GoodEndOf, White, EqualFold;
    var b := e.body;
    var rest := EndText(b.end) + post;
    var z := b.text + (SectionText(b.section) + rest);
    var y := ChildrenText(b.children) + z;
    FullTextIs(b, post);
    EndReads(b.end, e.tag.name, post);
    ContentReads(b.text, b.section, rest);
    ChildrenRead(b.children, z);
    GetCharIs(GT, b.open + y);
    WhiteSkipped(b.open, y);
  }

  lemma FullTextIs(b: Body, post: Bytes)
    requires b.Full?
    ensures BodyOf(b) + post == [GT] + (b.open + (ChildrenText(b.children) + (b.text + (SectionText(b.section) + (EndText(b.end) + post)))))
  {
    hide ChildrenText, SectionText, EndText;
    var x := SectionText(b.section) + EndText(b.end);
    assert x + post == SectionText(b.section) + (EndText(b.end) + post);
    var y := ChildrenText(b.children) + (b.text + x);
    assert y + post == ChildrenText(b.children) + (b.text + (x + post));
    assert BodyOf(b) + post == [GT] + (b.open + (y + post));
  }

  lemma {:induction false} ChildrenRead(cs: seq<Child>, z: Bytes)
    requires GoodChildren(cs) && z != [] && !IsWhite(z[0]) && !NodeAhead(z)
    ensures var t := ChildrenText(cs) + z; t != [] && !IsWhite(t[0]) && ParseNodes(t) == Nodes(NodesOf(cs), z)
    decreases cs, 0
  {
    hide SkipWhite, ParseNode, ElementText, MiscsText, GoodElement, GoodMiscs, NodeAhead, NodeOf, White;
    if cs == [] {
      assert ChildrenText(cs) + z == z;
      NoNodes(z);
    } else {
      var c, more := cs[0], ChildrenText(cs[1..]) + z;
      RestChildren(cs);
      ChildrenRead(cs[1..], z);
      var element := ElementText(c.element) + (c.after + more);
      var t := MiscsText(c.before) + element;
      Parts(MiscsText(c.before), ElementText(c.element), c.after, ChildrenText(cs[1..]), z);
      assert ChildrenText(cs) + z == t;
      ElementReads(c.element, c.after + more);
      MiscsSkipped(c.before, element);
      NoMiscs(c.before);
      assert c.before == [] ==> t == element;
      WhiteSkipped(c.after, more);
      OneNode(t);
    }
  }

  lemma NoMiscs(ms: seq<Misc>)
    ensures ms == [] ==> MiscsText(ms) == []
  {
  }

  lemma RestChildren(cs: seq<Child>)
    requires GoodChildren(cs) && cs != []
    ensures GoodChildren(cs[1..])
    ensures GoodMiscs(cs[0].before) && (cs[0].before != [] ==> cs[0].before[0].Instruction?) && GoodElement(cs[0].element) && White(cs[0].after)
  {
    hide GoodMiscs, GoodElement, White;
    forall i | 0 <= i < |cs[1..]|
      ensures GoodMiscs(cs[1..][i].before) && (cs[1..][i].before != [] ==> cs[1..][i].before[0].Instruction?) && GoodElement(cs[1..][i].element) && White(cs[1..][i].after)
    {
      assert cs[1..][i] == cs[i + 1];
    }
  }

  /** A whole document, with white space, instructions and comments before its root: it is read
      as the tree that it means, whatever follows the root. */
  lemma DocumentReads(before: Bytes, ms: seq<Misc>, e: Element, post: Bytes)
    requires White(before) && GoodMiscs(ms) && GoodElement(e)
    ensures ParseNode(SkipWhite(before + (MiscsText(ms) + (ElementText(e) + post)))) == Ok(NodeOf(e), SkipWhite(post))
  {
    hide SkipWhite, ParseNode, ElementText, MiscsText, GoodElement, NodeAhead, NodeOf, White, GoodMiscs;
    var t := MiscsText(ms) + (ElementText(e) + post);
    ElementReads(e, post);
    MiscsSkipped(ms, ElementText(e) + post);
    NoMiscs(ms);
    assert ms == [] ==> t == ElementText(e) + post;
    WhiteSkipped(before, t);
  }
}
