/** When the search for the end of a CDATA section ends (xml.c): the section is read right exactly
    when no ']' stands in it, and a parse is stuck only at a section whose first ']' does not
    begin its end. */
module XmlSections {
  import opened DnsTypes
  import opened ScanText
  import opened XmlText
  import opened XmlRoundTrip

  /** The first ']' of what follows the opening of a section begins its end, or the text ends
      before that can be seen. */
  predicate SectionClear(u: Bytes) {
    var k := Span(u, {BRACKET});
    k + 3 > |u| || u[k..k + 3] == CDATA_END
  }

  /** Every place where a section may open is followed by a clear section. */
  ghost predicate SectionsClear(t: Bytes) {
    forall i :: 0 <= i <= |t| && CDATA <= t[i..] ==> SectionClear(t[i..][9..])
  }

  lemma UntilBracket(u: Bytes)
    requires u != []
    ensures Until(u, {BRACKET}) == Some((u[..Span(u, {BRACKET})], u[Span(u, {BRACKET})..]))
  {
    SkipWhiteHere(u[Span(u, {BRACKET})..]);
  }

  /** What becomes of an opened section. */
  lemma SectionOpened(t: Bytes)
    requires CDATA <= t
    ensures var u := t[9..];
            var k := Span(u, {BRACKET});
            && (ParseContent(t).StuckContent? <==> !SectionClear(u))
            && (ParseContent(t).Content? ==> k + 3 <= |u| && ParseContent(t) == Content(u[..k], SkipWhite(u[k + 3..])))
            && (k + 3 <= |u| && u[k..k + 3] == CDATA_END ==> ParseContent(t).Content?)
  {
    hide SkipWhite, Span;
    var u := t[9..];
    assert t[0] == LT && t[1] == BANG && t[..9] == CDATA;
    if u != [] {
      UntilBracket(u);
      var k := Span(u, {BRACKET});
      var d := u[k..];
      if |d| >= 3 {
        assert d[..3] == u[k..k + 3] && d[3..] == u[k + 3..];
      }
    }
  }

  lemma FirstBracket(s: Bytes, post: Bytes)
    ensures var k, j := Span(s, {BRACKET}), Span(s + (CDATA_END + post), {BRACKET});
            j == k && (k < |s| <==> BRACKET in s)
  {
    hide Span;
    var k := Span(s, {BRACKET});
    var t := s + (CDATA_END + post);
    SpanIs(t, {BRACKET}, k);
    if BRACKET in s {
      var i :| 0 <= i < |s| && s[i] == BRACKET;
      assert !(i < k);
    }
  }

  /** A section comes back as its text exactly when it holds no ']'; the parser is stuck exactly
      when it holds one and the first does not begin "]]>". */
  lemma SectionExactly(s: Bytes, post: Bytes)
    ensures var r, k := ParseContent(CDATA + (s + (CDATA_END + post))), Span(s, {BRACKET});
            && (r == Content(s, SkipWhite(post)) <==> BRACKET !in s)
            && (r.StuckContent? <==> BRACKET in s && !(CDATA_END <= s[k..] + CDATA_END))
            && !r.NoContent?
  {
    hide SkipWhite, Span, ParseContent;
    var u := s + (CDATA_END + post);
    var t := CDATA + u;
    var k := Span(s, {BRACKET});
    assert t[9..] == u;
    SectionOpened(t);
    FirstBracket(s, post);
    assert k + 3 <= |u| && u[k..] == s[k..] + CDATA_END + post;
    assert u[k..k + 3] == (s[k..] + CDATA_END)[..3];
    if k == |s| {
      assert u[..k] == s && u[k + 3..] == post && (s[k..] + CDATA_END)[..3] == CDATA_END;
    } else {
      assert |u[..k]| < |s|;
    }
  }

  /** A ']' in a CDATA section that does not begin its end stops the parser for good. */
  lemma BracketInSection(text: Bytes, more: Bytes)
    requires BRACKET !in text && |more| >= 2 && !(more[0] == BRACKET && more[1] == GT)
    ensures ParseContent(CDATA + text + [BRACKET] + more) == StuckContent
  {
    hide SkipWhite, Span, ParseContent;
    var t, u := CDATA + text + [BRACKET] + more, text + ([BRACKET] + more);
    assert t[..9] == CDATA && t[9..] == u;
    SpanIs(u, {BRACKET}, |text|);
    assert u[|text|..|text| + 3] == [BRACKET, more[0], more[1]];
    SectionOpened(t);
  }

  // ----- documents -----

  function SectionText(name: Bytes, attrs: seq<Attr>, section: Bytes): Bytes {
    [LT] + (name + (AttrsText(attrs) + ([GT] + (CDATA + section))))
  }

  /** A document whose root opens a section after its attributes. */
  lemma SectionNode(name: Bytes, attrs: seq<Attr>, section: Bytes)
    requires GoodName(name) && forall i :: 0 <= i < |attrs| ==> GoodAttr(attrs[i])
    ensures var t, c := SectionText(name, attrs, section), ParseContent(CDATA + section);
            && SkipWhite(t) == t
            && ParseNode(t) ==
                 if c.NoContent? then Error else if c.StuckContent? then Stuck
                 else var e := ParseEnd(c.rest, name); if e.None? then Error else Ok(Node(name, attrs, [], c.text), e.value)
  {
    hide SkipWhite, Span, ParseContent, ParseEnd, AttrsText, GoodName, GoodAttr, ParseAttrs, ParseNode;
    var body := [GT] + (CDATA + section);
    SkipWhiteHere(body);
    AttrsBack(attrs, body);
    AttrsStart(attrs, body);
    TagStart(name, AttrsText(attrs) + body);
    SkipWhiteHere(SectionText(name, attrs, section));
    GetCharIs(GT, CDATA + section);
    assert (CDATA + section)[0] == LT && (CDATA + section)[1] == BANG;
    SkipWhiteHere(CDATA + section);
    NoNodes(CDATA + section);
  }

  /** A document with a section as its content comes back exactly when the section holds no ']';
      the parser never returns exactly when the first ']' in it does not begin "]]>". */
  lemma SectionDocument(name: Bytes, attrs: seq<Attr>, s: Bytes, post: Bytes)
    requires GoodName(name) && forall i :: 0 <= i < |attrs| ==> GoodAttr(attrs[i])
    ensures var t, k := SectionText(name, attrs, s + (CDATA_END + (EndTag(name) + post))), Span(s, {BRACKET});
            && (ParseNode(SkipWhite(t)) == Ok(Node(name, attrs, [], s), SkipWhite(post)) <==> BRACKET !in s)
            && (ParseNode(SkipWhite(t)).Stuck? <==> BRACKET in s && !(CDATA_END <= s[k..] + CDATA_END))
  {
    hide SkipWhite, Span, ParseContent, ParseEnd, AttrsText, GoodName, GoodAttr, ParseNode, EndTag;
    var rest := EndTag(name) + post;
    SectionNode(name, attrs, s + (CDATA_END + rest));
    SectionExactly(s, rest);
    EndTagBack(name, post);
    var c := ParseContent(CDATA + (s + (CDATA_END + rest)));
    if BRACKET in s && c.Content? {
      SectionShorter(s, rest);
    }
  }

  /** A section that ends early loses its rest. */
  lemma SectionShorter(s: Bytes, post: Bytes)
    requires BRACKET in s && ParseContent(CDATA + (s + (CDATA_END + post))).Content?
    ensures |ParseContent(CDATA + (s + (CDATA_END + post))).text| < |s|
  {
    hide SkipWhite, Span, ParseContent;
    var u := s + (CDATA_END + post);
    assert (CDATA + u)[9..] == u;
    SectionOpened(CDATA + u);
    FirstBracket(s, post);
  }

  // ----- the text that is left -----

  predicate Suffix(r: Bytes, t: Bytes) {
    |r| <= |t| && r == t[|t| - |r|..]
  }

  lemma SuffixTwice(r: Bytes, s: Bytes, t: Bytes)
    requires Suffix(r, s) && Suffix(s, t)
    ensures Suffix(r, t)
  {
  }

  lemma From(t: Bytes, i: nat)
    requires i <= |t|
    ensures Suffix(t[i..], t)
  {
  }

  lemma ClearSuffix(r: Bytes, t: Bytes)
    requires SectionsClear(t) && Suffix(r, t)
    ensures SectionsClear(r)
  {
    hide SectionClear;
    forall i | 0 <= i <= |r| && CDATA <= r[i..] ensures SectionClear(r[i..][9..]) {
      assert r[i..] == t[|t| - |r| + i..];
    }
  }

  lemma {:induction false} SkipWhiteLeaves(t: Bytes)
    ensures Suffix(SkipWhite(t), t)
    decreases |t|
  {
    if t != [] && IsWhite(t[0]) {
      SkipWhiteLeaves(t[1..]);
    }
  }

  lemma SkipFrom(t: Bytes, i: nat)
    requires i <= |t|
    ensures Suffix(SkipWhite(t[i..]), t)
  {
    hide SkipWhite;
    SkipWhiteLeaves(t[i..]);
    From(t, i);
    SuffixTwice(SkipWhite(t[i..]), t[i..], t);
  }

  lemma UntilLeaves(t: Bytes, stop: set<Byte>)
    ensures Until(t, stop).Some? ==> Suffix(Until(t, stop).value.1, t)
  {
    hide SkipWhite, Span, Suffix;
    SkipFrom(t, Span(t, stop));
  }

  lemma GetCharLeaves(t: Bytes)
    ensures GetChar(t).Some? ==> Suffix(GetChar(t).value, t)
  {
    hide SkipWhite, Suffix;
    if t != [] {
      SkipFrom(t, 1);
    }
  }

  lemma GetQuotesLeaves(t: Bytes, quotes: set<Byte>)
    ensures GetQuotes(t, quotes).Some? ==> Suffix(GetQuotes(t, quotes).value.1, t)
  {
    hide SkipWhite, QuoteEnd, Suffix;
    if t != [] && QuoteEnd(t, t[0], 1) < |t| {
      SkipFrom(t, QuoteEnd(t, t[0], 1) + 1);
    }
  }

  lemma AdvanceLeaves(t: Bytes, n: nat, skip: bool)
    ensures AdvanceN(t, n, skip).Some? ==> Suffix(AdvanceN(t, n, skip).value, t)
  {
    hide SkipWhite, Suffix;
    if n <= |t| {
      SkipFrom(t, n);
      From(t, n);
    }
  }

  lemma {:induction false} InstructionLeaves(t: Bytes)
    ensures SkipInstruction(t).Some? ==> Suffix(SkipInstruction(t).value, t)
    decreases |t|
  {
    hide Until, Suffix, AdvanceN;
    UntilLeaves(t, {QUESTION});
    if Until(t, {QUESTION}).Some? {
      var v := Until(t, {QUESTION}).value.1;
      AdvanceLeaves(v, 2, true);
      AdvanceLeaves(v, 1, false);
      if |v| >= 2 && v[0] == QUESTION && v[1] == GT {
        if AdvanceN(v, 2, true).Some? {
          SuffixTwice(AdvanceN(v, 2, true).value, v, t);
        }
      } else if AdvanceN(v, 1, false).Some? {
        var w := AdvanceN(v, 1, false).value;
        InstructionLeaves(w);
        SuffixTwice(w, v, t);
        if SkipInstruction(w).Some? {
          SuffixTwice(SkipInstruction(w).value, w, t);
        }
      }
    }
  }

  lemma CommentLeaves(t: Bytes)
    ensures SkipComment(t).Some? ==> Suffix(SkipComment(t).value, t)
  {
    hide Until, Suffix, AdvanceN;
    UntilLeaves(t, {GT});
    if SkipComment(t).Some? {
      AdvanceLeaves(Until(t, {GT}).value.1, 1, true);
      SuffixTwice(SkipComment(t).value, Until(t, {GT}).value.1, t);
    }
  }

  lemma AttrLeaves(t: Bytes)
    requires t == [] || (!IsWhite(t[0]) && t[0] != GT)
    ensures ParseAttr(t).Some? ==> Suffix(ParseAttr(t).value.1, t)
  {
    hide Until, Suffix, SkipWhite, GetQuotes;
    UntilLeaves(t, ATTR_END);
    if ParseAttr(t).Some? {
      var v := Until(t, ATTR_END).value.1;
      if Head(v) == EQ {
        var g := GetChar(v).value;
        GetCharLeaves(v);
        GetQuotesLeaves(g, {QUOTE, APOS});
        SuffixTwice(g, v, t);
        SuffixTwice(ParseAttr(t).value.1, g, t);
      }
    }
  }

  lemma {:induction false} AttrsLeave(t: Bytes)
    requires t == [] || !IsWhite(t[0])
    ensures ParseAttrs(t).Some? ==> Suffix(ParseAttrs(t).value.1, t)
    decreases |t|
  {
    hide Suffix, ParseAttr;
    From(t, 0);
    assert t[0..] == t;
    if !(Head(t) == GT || Head(t) == SLASH) && ParseAttr(t).Some? {
      AttrLeaves(t);
      var rest := ParseAttr(t).value.1;
      AttrsLeave(rest);
      if ParseAttrs(rest).Some? {
        SuffixTwice(ParseAttrs(rest).value.1, rest, t);
      }
    }
  }

  lemma ExpectLeaves(t: Bytes, c: Byte)
    ensures Expect(t, c).Some? ==> Suffix(Expect(t, c).value, t)
  {
    hide GetChar, Suffix;
    GetCharLeaves(t);
  }

  lemma EndLeaves(t: Bytes, name: Bytes)
    ensures ParseEnd(t, name).Some? ==> Suffix(ParseEnd(t, name).value, t)
  {
    hide Until, Suffix, Expect, EqualFold;
    if ParseEnd(t, name).Some? {
      var a := Expect(t, LT).value;
      var b := Expect(a, SLASH).value;
      var u := Until(b, CLOSE_END).value.1;
      ExpectLeaves(t, LT);
      ExpectLeaves(a, SLASH);
      UntilLeaves(b, CLOSE_END);
      ExpectLeaves(u, GT);
      SuffixTwice(b, a, t);
      SuffixTwice(u, b, t);
      SuffixTwice(ParseEnd(t, name).value, u, t);
    }
  }

  // ----- when the parser is not stuck -----

  lemma ContentNotStuck(t: Bytes)
    requires SectionsClear(t)
    ensures !ParseContent(t).StuckContent?
    ensures ParseContent(t).Content? ==> Suffix(ParseContent(t).rest, t)
  {
    hide Suffix, SkipWhite, Span, SectionClear, AdvanceN;
    From(t, 0);
    assert t[0..] == t;
    UntilLeaves(t, {LT});
    var v := if t != [] && t[0] != LT then Until(t, {LT}).value.1 else t;
    if CDATA <= v {
      ClearSuffix(v, t);
      assert v[0..] == v;
      SectionOpened(v);
      assert ParseContent(t).StuckContent? <==> ParseContent(v).StuckContent?;
      if ParseContent(v).Content? {
        var u := v[9..];
        From(v, 9);
        SkipFrom(u, Span(u, {BRACKET}) + 3);
        SuffixTwice(u, v, t);
        SuffixTwice(ParseContent(v).rest, u, t);
      }
    } else if |v| >= 9 {
      assert v[..9] != CDATA;
    }
  }

  /** A text in which every section is clear never stops the parser; in particular a text
      without ']', or one that opens no section. */
  lemma {:induction false} NodeNotStuck(t: Bytes)
    requires SectionsClear(t)
    ensures !ParseNode(t).Stuck? && (ParseNode(t).Ok? ==> Suffix(ParseNode(t).rest, t))
    decreases |t|, 1
  {
    hide Until, Suffix, GetChar, SectionsClear, Span, SkipWhite, SkipInstruction, SkipComment, ParseAttrs, ParseBody;
    if Head(t) == LT && |t| >= 2 {
      From(t, 2);
      if t[1] == QUESTION {
        InstructionLeaves(t[2..]);
        if SkipInstruction(t[2..]).Some? {
          SuffixTwice(SkipInstruction(t[2..]).value, t[2..], t);
          NextNotStuck(SkipInstruction(t[2..]).value, t);
        }
      } else if t[..2] == [LT, BANG] {
        CommentLeaves(t[2..]);
        if SkipComment(t[2..]).Some? {
          SuffixTwice(SkipComment(t[2..]).value, t[2..], t);
          NextNotStuck(SkipComment(t[2..]).value, t);
        }
      } else {
        TagNotStuck(t);
      }
    }
  }

  lemma {:induction false} NextNotStuck(s: Bytes, t: Bytes)
    requires SectionsClear(t) && Suffix(s, t) && |s| < |t|
    ensures !ParseNode(s).Stuck? && (ParseNode(s).Ok? ==> Suffix(ParseNode(s).rest, t))
    decreases |t|, 0
  {
    hide Suffix, SectionsClear, ParseNode;
    ClearSuffix(s, t);
    NodeNotStuck(s);
    if ParseNode(s).Ok? {
      SuffixTwice(ParseNode(s).rest, s, t);
    }
  }

  lemma {:induction false} TagNotStuck(t: Bytes)
    requires SectionsClear(t) && Head(t) == LT && |t| >= 2 && t[1] != QUESTION && t[..2] != [LT, BANG]
    ensures !ParseNode(t).Stuck? && (ParseNode(t).Ok? ==> Suffix(ParseNode(t).rest, t))
    decreases |t|, 0
  {
    hide Suffix, SectionsClear, Span, SkipWhite, ParseAttrs, ParseBody, SkipInstruction, SkipComment;
    GetCharLeaves(t);
    var g := GetChar(t).value;
    UntilLeaves(g, NAME_END);
    if Until(g, NAME_END).Some? {
      var name, v := Until(g, NAME_END).value.0, Until(g, NAME_END).value.1;
      SuffixTwice(v, g, t);
      SkipWhiteStops(g[Span(g, NAME_END)..]);
      AttrsLeave(v);
      if ParseAttrs(v).Some? {
        var (attrs, rest) := ParseAttrs(v).value;
        SuffixTwice(rest, v, t);
        ClearSuffix(rest, t);
        BodyNotStuck(name, attrs, rest);
        if ParseBody(name, attrs, rest).Ok? {
          SuffixTwice(ParseBody(name, attrs, rest).rest, rest, t);
        }
      }
    }
  }

  lemma {:induction false} BodyNotStuck(name: Bytes, attrs: seq<Attr>, t: Bytes)
    requires SectionsClear(t)
    ensures !ParseBody(name, attrs, t).Stuck? && (ParseBody(name, attrs, t).Ok? ==> Suffix(ParseBody(name, attrs, t).rest, t))
    decreases |t|, 3
  {
    hide Suffix, SectionsClear, Span, SkipWhite, ParseContent, ParseEnd, ParseNodes;
    ExpectLeaves(t, GT);
    if Head(t) == SLASH {
      GetCharLeaves(t);
      var g := GetChar(t).value;
      ExpectLeaves(g, GT);
      if Expect(g, GT).Some? {
        SuffixTwice(Expect(g, GT).value, g, t);
      }
    } else if Expect(t, GT).Some? {
      var g := Expect(t, GT).value;
      ClearSuffix(g, t);
      NodesNotStuck(g);
      var ns := ParseNodes(g);
      if ns.Nodes? {
        SuffixTwice(ns.rest, g, t);
        ClearSuffix(ns.rest, t);
        ContentNotStuck(ns.rest);
        var c := ParseContent(ns.rest);
        if c.Content? {
          SuffixTwice(c.rest, ns.rest, t);
          EndLeaves(c.rest, name);
          if ParseEnd(c.rest, name).Some? {
            SuffixTwice(ParseEnd(c.rest, name).value, c.rest, t);
          }
        }
      }
    }
  }

  lemma {:induction false} NodesNotStuck(t: Bytes)
    requires SectionsClear(t)
    ensures ParseNodes(t).Failed? ==> !ParseNodes(t).stuck
    ensures ParseNodes(t).Nodes? ==> Suffix(ParseNodes(t).rest, t)
    decreases |t|, 2
  {
    hide Suffix, SectionsClear, ParseNode;
    From(t, 0);
    assert t[0..] == t;
    if NodeAhead(t) {
      NodeNotStuck(t);
      if ParseNode(t).Ok? {
        var rest := ParseNode(t).rest;
        ClearSuffix(rest, t);
        NodesNotStuck(rest);
        if ParseNodes(rest).Nodes? {
          SuffixTwice(ParseNodes(rest).rest, rest, t);
        }
      }
    }
  }

  /** Texts without ']' are parsed to an end. */
  lemma NoBracketNotStuck(t: Bytes)
    requires BRACKET !in t
    ensures !ParseNode(SkipWhite(t)).Stuck? && !ParseNode(t).Stuck? && ParseNodes(t) != Failed(true)
  {
    hide ParseNode, ParseNodes, SkipWhite, Suffix;
    forall i | 0 <= i <= |t| && CDATA <= t[i..] ensures SectionClear(t[i..][9..]) {
      var u := t[i..][9..];
      SpanIs(u, {BRACKET}, |u|);
    }
    NodeNotStuck(t);
    NodesNotStuck(t);
    SkipWhiteLeaves(t);
    ClearSuffix(SkipWhite(t), t);
    NodeNotStuck(SkipWhite(t));
  }
}
