/** Parsing a printed XML tree gives back the tree (xml.c). */
module XmlRoundTrip {
  import opened DnsTypes
  import opened ScanText
  import opened XmlText

  /** A name free of the attribute delimiters, and a value without quote, backslash and newline. */
  predicate GoodAttr(a: Attr) {
    && (forall i :: 0 <= i < |a.name| ==> a.name[i] !in ATTR_END)
    && a.name != [] && a.name[0] != SLASH
    && forall i :: 0 <= i < |a.value| ==> a.value[i] != QUOTE && a.value[i] != BACKSLASH && a.value[i] != LF
  }

  predicate GoodName(name: Bytes) {
    name != [] && name[0] != QUESTION && name[0] != BANG && forall i :: 0 <= i < |name| ==> name[i] !in NAME_END
  }

  /** Content without '<' that does not begin with white space. */
  predicate GoodContent(c: Bytes) {
    (c != [] ==> !IsWhite(c[0])) && LT !in c
  }

  /** Children or content, but not both. */
  predicate Good(n: Node) {
    && GoodName(n.name) && GoodContent(n.content) && (n.nodes == [] || n.content == [])
    && (forall i :: 0 <= i < |n.attrs| ==> GoodAttr(n.attrs[i]))
    && forall i :: 0 <= i < |n.nodes| ==> Good(n.nodes[i])
  }

  // ----- attributes -----

  lemma ValueBack(value: Bytes, more: Bytes)
    requires forall i :: 0 <= i < |value| ==> value[i] != QUOTE && value[i] != BACKSLASH && value[i] != LF
    ensures GetQuotes([QUOTE] + value + [QUOTE] + more, {QUOTE, APOS}) == Some((value, SkipWhite(more)))
  {
    hide QuoteEnd, Trailing;
    var t := [QUOTE] + value + [QUOTE] + more;
    var s := 1 + |value|;
    assert t[1..1] == [] && t[1..s] == value && t[s] == QUOTE && t[s + 1..] == more;
    if value != [] {
      OthersOver(t, 1, value);
    }
    QuoteHere(t, s, value);
  }

  lemma QuoteHere(t: Bytes, s: nat, value: Bytes)
    requires 1 <= s < |t| && t[s] == QUOTE && t[1..s] == value && (value == [] || Trailing(value) == 0)
    ensures QuoteEnd(t, QUOTE, s) == s
  {
  }

  /** ParseAttr, with a value. */
  lemma AttrWithValue(name: Bytes, value: Bytes, more: Bytes)
    requires GoodAttr(Attr(name, value)) && value != []
    ensures ParseAttr(name + ([EQ] + ([QUOTE] + value + [QUOTE] + more))) == Some((Attr(name, value), SkipWhite(more)))
  {
    hide SkipWhite, GetQuotes, Span;
    var q := [QUOTE] + value + [QUOTE] + more;
    UntilToken(name, [EQ] + q, ATTR_END);
    SkipWhiteHere([EQ] + q);
    GetCharIs(EQ, q);
    SkipWhiteHere(q);
    ValueBack(value, more);
  }

  lemma AttrWithoutValue(name: Bytes, more: Bytes)
    requires GoodAttr(Attr(name, [])) && more != [] && more[0] in ATTR_END && Head(SkipWhite(more)) != EQ
    ensures ParseAttr(name + more) == Some((Attr(name, []), SkipWhite(more)))
  {
    hide SkipWhite, Span;
    UntilToken(name, more, ATTR_END);
  }

  /** What comes after an attribute: another one, or the end of the tag. */
  predicate EndsAttrs(tail: Bytes) {
    tail != [] && (tail[0] == GT || (|tail| > 1 && tail[0] == SPACE && tail[1] == SLASH))
  }

  lemma EndsAttrsSkipped(tail: Bytes)
    requires EndsAttrs(tail)
    ensures Head(SkipWhite(tail)) == GT || Head(SkipWhite(tail)) == SLASH
    ensures tail[0] in ATTR_END
  {
    if tail[0] == GT {
      SkipWhiteHere(tail);
    } else {
      assert SkipWhite(tail) == SkipWhite(tail[1..]) == tail[1..];
    }
  }

  /** After the space before an attribute comes its first byte. */
  lemma AttrStart(a: Attr, more: Bytes)
    requires GoodAttr(a)
    ensures var t := a.name + (if a.value == [] then [] else [EQ, QUOTE] + a.value + [QUOTE]) + more;
            && SkipWhite(AttrText(a) + more) == t && t != [] && !IsWhite(t[0]) && t[0] != GT && t[0] != SLASH
            && t[0] != EQ
  {
    var v: Bytes := if a.value == [] then [] else [EQ, QUOTE] + a.value + [QUOTE];
    var t := a.name + v + more;
    assert AttrText(a) + more == [SPACE] + t;
    assert t[0] == a.name[0];
    SkipWhiteOver([SPACE], t);
    SkipWhiteHere(t);
  }

  lemma {:induction false} AttrsBack(attrs: seq<Attr>, tail: Bytes)
    requires (forall i :: 0 <= i < |attrs| ==> GoodAttr(attrs[i])) && EndsAttrs(tail)
    ensures var t := SkipWhite(AttrsText(attrs) + tail);
            (t == [] || !IsWhite(t[0])) && ParseAttrs(t) == Some((attrs, SkipWhite(tail)))
    decreases |attrs|
  {
    hide SkipWhite, ParseAttr, GoodAttr, AttrText;
    EndsAttrsSkipped(tail);
    SkipWhiteStops(AttrsText(attrs) + tail);
    if attrs == [] {
      assert AttrsText(attrs) + tail == tail;
    } else {
      var a, more := attrs[0], AttrsText(attrs[1..]) + tail;
      assert AttrsText(attrs) + tail == AttrText(a) + more;
      AttrStart(a, more);
      OneAttr(a, attrs[1..], tail);
      AttrsBack(attrs[1..], tail);
      assert [a] + attrs[1..] == attrs;
    }
  }

  lemma OneAttr(a: Attr, others: seq<Attr>, tail: Bytes)
    requires GoodAttr(a) && (forall i :: 0 <= i < |others| ==> GoodAttr(others[i])) && EndsAttrs(tail)
    ensures var more := AttrsText(others) + tail;
            var t := SkipWhite(AttrText(a) + more);
            t != [] && !IsWhite(t[0]) && t[0] != GT && ParseAttr(t) == Some((a, SkipWhite(more)))
  {
    hide SkipWhite, ParseAttr, GoodAttr, AttrsText, AttrText, EndsAttrs;
    var more := AttrsText(others) + tail;
    AttrStart(a, more);
    if a.value == [] {
      MoreStart(others, tail);
      NothingBetween(a.name, more);
      AttrWithoutValue(a.name, more);
    } else {
      ValueText(a.name, a.value, more);
      AttrWithValue(a.name, a.value, more);
    }
  }

  lemma NothingBetween(name: Bytes, more: Bytes)
    ensures name + [] + more == name + more
  {
  }

  lemma ValueText(name: Bytes, value: Bytes, more: Bytes)
    ensures name + ([EQ, QUOTE] + value + [QUOTE]) + more == name + ([EQ] + ([QUOTE] + value + [QUOTE] + more))
  {
  }

  lemma MoreStart(others: seq<Attr>, tail: Bytes)
    requires (forall i :: 0 <= i < |others| ==> GoodAttr(others[i])) && EndsAttrs(tail)
    ensures var more := AttrsText(others) + tail; more != [] && more[0] in ATTR_END && Head(SkipWhite(more)) != EQ
  {
    hide SkipWhite, GoodAttr, EndsAttrs;
    if others == [] {
      EndsAttrsSkipped(tail);
      assert AttrsText(others) + tail == tail;
    } else {
      var a, more := others[0], AttrsText(others[1..]) + tail;
      assert AttrsText(others) + tail == AttrText(a) + more;
      AttrStart(a, more);
      assert (AttrText(a) + more)[0] == SPACE;
    }
  }

  // ----- nodes -----

  lemma EndTagBack(name: Bytes, post: Bytes)
    requires GoodName(name)
    ensures ParseEnd(EndTag(name) + post, name) == Some(SkipWhite(post)) && SkipWhite(EndTag(name) + post) == EndTag(name) + post
    ensures !NodeAhead(EndTag(name) + post) && ParseContent(EndTag(name) + post) == Content([], EndTag(name) + post)
  {
    hide SkipWhite, Span, EqualFold, Until, GetChar, GoodName;
    GoodNameStart(name);
    var t3 := [GT] + post;
    var t2 := name + t3;
    var t1 := [SLASH] + t2;
    assert EndTag(name) + post == [LT] + t1;
    GetCharIs(LT, t1);
    SkipWhiteHere([LT] + t1);
    SkipWhiteHere(t1);
    GetCharIs(SLASH, t2);
    assert t2[0] == name[0];
    SkipWhiteHere(t2);
    UntilToken(name, t3, CLOSE_END);
    SkipWhiteHere(t3);
    GetCharIs(GT, post);
    SameName(name);
    assert ([LT] + t1)[1] == SLASH;
  }

  lemma GoodNameStart(name: Bytes)
    requires GoodName(name)
    ensures name != [] && !IsWhite(name[0]) && forall i :: 0 <= i < |name| ==> name[i] !in CLOSE_END
  {
    assert name[0] !in NAME_END;
  }

  lemma SameName(name: Bytes)
    ensures EqualFold(name, name)
  {
  }

  lemma ContentBack(content: Bytes, name: Bytes, post: Bytes)
    requires GoodContent(content) && content != [] && GoodName(name)
    ensures var t := content + (EndTag(name) + post);
            SkipWhite(t) == t && !NodeAhead(t) && ParseContent(t) == Content(content, EndTag(name) + post)
  {
    hide SkipWhite, Span, GoodName;
    var rest := EndTag(name) + post;
    var t := content + rest;
    assert rest[0] == LT && rest[1] == SLASH;
    assert t[0] == content[0] && content[0] in content;
    assert forall i :: 0 <= i < |content| ==> content[i] !in {LT};
    SkipWhiteHere(t);
    UntilToken(content, rest, {LT});
    SkipWhiteHere(rest);
  }

  /** The text after the attributes. */
  lemma BodyStart(n: Node, indent: nat, post: Bytes)
    ensures EndsAttrs(BodyText(n, indent) + post)
    ensures n.content == [] && n.nodes == [] ==> SkipWhite(BodyText(n, indent) + post) == [SLASH] + ([GT] + post)
    ensures !(n.content == [] && n.nodes == []) ==>
      SkipWhite(BodyText(n, indent) + post) ==
      [GT] + (NodesText(n.nodes, indent + 1) + (n.content + ((if n.nodes == [] then [] else [LF] + Spaces(indent)) + (EndTag(n.name) + post))))
  {
    hide SkipWhite, NodesText, EndTag;
    var b := BodyText(n, indent) + post;
    if n.content == [] && n.nodes == [] {
      var t := [SLASH] + ([GT] + post);
      assert b == [SPACE] + t;
      SkipWhiteOver([SPACE], t);
      SkipWhiteHere(t);
    } else {
      var w: Bytes := if n.nodes == [] then [] else [LF] + Spaces(indent);
      Reassociated([GT], NodesText(n.nodes, indent + 1), n.content, w, EndTag(n.name), post);
      SkipWhiteHere(b);
    }
  }

  lemma Reassociated(a: Bytes, b: Bytes, c: Bytes, d: Bytes, e: Bytes, f: Bytes)
    ensures a + b + c + d + e + f == a + (b + (c + (d + (e + f))))
  {
  }

  /** ParseNode on the start of a tag. */
  lemma TagStart(name: Bytes, rest: Bytes)
    requires GoodName(name) && rest != [] && rest[0] in NAME_END
    ensures var s := SkipWhite(rest);
            (s == [] || !IsWhite(s[0])) &&
            ParseNode([LT] + (name + rest)) == if ParseAttrs(s).None? then Error else ParseBody(name, ParseAttrs(s).value.0, ParseAttrs(s).value.1)
  {
    hide SkipWhite, Span, ParseAttrs, ParseBody, SkipInstruction, SkipComment;
    var t := [LT] + (name + rest);
    assert t[1] == name[0] && name[0] !in NAME_END;
    assert t[..2][1] == name[0];
    GetCharIs(LT, name + rest);
    assert (name + rest)[0] == name[0];
    SkipWhiteHere(name + rest);
    UntilToken(name, rest, NAME_END);
    SkipWhiteStops(rest);
  }

  lemma AttrsStart(attrs: seq<Attr>, body: Bytes)
    requires EndsAttrs(body)
    ensures AttrsText(attrs) + body != [] && (AttrsText(attrs) + body)[0] in NAME_END
  {
    if attrs == [] {
      assert AttrsText(attrs) + body == body;
    } else {
      assert (AttrsText(attrs) + body)[0] == AttrText(attrs[0])[0] == SPACE;
    }
  }

  lemma {:induction false} NodeBack(n: Node, indent: nat, post: Bytes)
    requires Good(n)
    ensures var t := SkipWhite(NodeText(n, indent) + post); NodeAhead(t) && ParseNode(t) == Ok(n, SkipWhite(post))
    decreases n, 1
  {
    hide SkipWhite, ParseAttrs, ParseBody, ParseNode, AttrsText, BodyText, GoodName, GoodAttr, GoodContent, EndsAttrs;
    var body := BodyText(n, indent) + post;
    var x := [LT] + (n.name + (AttrsText(n.attrs) + body));
    TextParts(n, indent, post);
    SkipWhiteOver(Spaces(indent), x);
    SkipWhiteHere(x);
    BodyStart(n, indent, post);
    AttrsStart(n.attrs, body);
    TagStart(n.name, AttrsText(n.attrs) + body);
    AttrsBack(n.attrs, body);
    BodyBack(n, indent, post);
    NameStart(n.name, AttrsText(n.attrs) + body);
  }

  lemma NameStart(name: Bytes, rest: Bytes)
    requires GoodName(name)
    ensures NodeAhead([LT] + (name + rest))
  {
    assert ([LT] + (name + rest))[1] == name[0] && name[0] !in NAME_END;
  }

  lemma TextParts(n: Node, indent: nat, post: Bytes)
    ensures NodeText(n, indent) + post == Spaces(indent) + ([LT] + (n.name + (AttrsText(n.attrs) + (BodyText(n, indent) + post))))
  {
    hide AttrsText, BodyText;
    assert [LT] + n.name + AttrsText(n.attrs) + BodyText(n, indent) + post == [LT] + (n.name + (AttrsText(n.attrs) + (BodyText(n, indent) + post)));
    assert NodeText(n, indent) + post == Spaces(indent) + ([LT] + n.name + AttrsText(n.attrs) + BodyText(n, indent) + post);
  }

  lemma {:induction false} BodyBack(n: Node, indent: nat, post: Bytes)
    requires Good(n)
    ensures ParseBody(n.name, n.attrs, SkipWhite(BodyText(n, indent) + post)) == Ok(n, SkipWhite(post))
    decreases n, 0
  {
    hide SkipWhite, ParseNodes, ParseContent, ParseEnd, BodyText, NodesText, EndTag, GoodName, GoodContent, GoodAttr;
    BodyStart(n, indent, post);
    var end := EndTag(n.name) + post;
    EndTagBack(n.name, post);
    if n.content == [] && n.nodes == [] {
      GetCharIs(SLASH, [GT] + post);
      SkipWhiteHere([GT] + post);
      GetCharIs(GT, post);
    } else if n.nodes == [] {
      NoNodesText(indent + 1);
      assert [] + (n.content + ([] + end)) == n.content + end;
      ContentBack(n.content, n.name, post);
      GetCharIs(GT, n.content + end);
      NoNodes(n.content + end);
    } else {
      var w := [LF] + Spaces(indent);
      var tail := w + end;
      assert [] + tail == tail;
      SkipWhiteOver(w, end);
      NodesBack(n.nodes, indent + 1, tail);
      GetCharIs(GT, NodesText(n.nodes, indent + 1) + tail);
    }
  }

  lemma NoNodesText(indent: nat)
    ensures NodesText([], indent) == []
  {
  }

  lemma NoNodes(t: Bytes)
    requires !NodeAhead(t)
    ensures ParseNodes(t) == Nodes([], t)
  {
  }

  lemma {:induction false} NodesBack(nodes: seq<Node>, indent: nat, tail: Bytes)
    requires (forall i :: 0 <= i < |nodes| ==> Good(nodes[i])) && !NodeAhead(SkipWhite(tail))
    ensures ParseNodes(SkipWhite(NodesText(nodes, indent) + tail)) == Nodes(nodes, SkipWhite(tail))
    decreases nodes, 2
  {
    hide SkipWhite, ParseNode, NodeText, Good, NodeAhead;
    if nodes == [] {
      assert NodesText(nodes, indent) + tail == tail;
      NoNodes(SkipWhite(tail));
    } else {
      var more := NodesText(nodes[1..], indent) + tail;
      assert NodesText(nodes, indent) + tail == [LF] + (NodeText(nodes[0], indent) + more);
      SkipWhiteOver([LF], NodeText(nodes[0], indent) + more);
      NodeBack(nodes[0], indent, more);
      NodesBack(nodes[1..], indent, tail);
      OneNode(SkipWhite(NodeText(nodes[0], indent) + more));
      assert [nodes[0]] + nodes[1..] == nodes;
    }
  }

  lemma OneNode(t: Bytes)
    requires NodeAhead(t) && ParseNode(t).Ok?
    ensures ParseNodes(t) == var rest := ParseNodes(ParseNode(t).rest); if rest.Failed? then rest else Nodes([ParseNode(t).node] + rest.nodes, rest.rest)
  {
    hide ParseNode, NodeAhead;
  }

  /** The whole document, with its final newline. */
  lemma DocumentBack(n: Node, post: Bytes)
    requires Good(n) && forall i :: 0 <= i < |post| ==> IsWhite(post[i])
    ensures ParseNode(SkipWhite(NodeText(n, 0) + post)) == Ok(n, [])
  {
    NodeBack(n, 0, post);
    SkipWhiteOver(post, []);
    assert post + [] == post;
  }

  lemma NoQuestion()
    ensures forall i :: 0 <= i < |DECLARATION| ==> DECLARATION[i] !in {QUESTION}
  {
    assert QUESTION !in DECLARATION;
  }

  /** The prolog is passed over. */
  lemma PrologSkipped(t: Bytes)
    ensures ParseNode(PROLOG + t) == ParseNode(SkipWhite(t))
  {
    hide SkipWhite, Span, SkipComment, ParseAttrs, ParseBody;
    hide DECLARATION;
    var token := DECLARATION;
    var rest := [QUESTION, GT] + ([LF] + t);
    assert PROLOG + t == [LT, QUESTION] + (token + rest);
    assert (PROLOG + t)[2..] == token + rest;
    NoQuestion();
    UntilToken(token, rest, {QUESTION});
    SkipWhiteHere(rest);
    assert rest[2..] == [LF] + t;
    SkipWhiteOver([LF], t);
  }

  /** What pj_xml_print prints, with or without the prolog and the last newline, is parsed back. */
  lemma PrintedBack(n: Node, prolog: bool, newline: bool)
    requires Good(n)
    ensures var text := (if prolog then PROLOG else []) + NodeText(n, 0) + (if newline then [LF] else []);
            ParseNode(SkipWhite(text)) == Ok(n, [])
  {
    hide ParseNode, NodeText, Good;
    var post: Bytes := if newline then [LF] else [];
    DocumentBack(n, post);
    if prolog {
      var t := NodeText(n, 0) + post;
      assert PROLOG + NodeText(n, 0) + post == PROLOG + t;
      assert (PROLOG + t)[0] == LT;
      SkipWhiteHere(PROLOG + t);
      PrologSkipped(t);
    } else {
      assert [] + NodeText(n, 0) + post == NodeText(n, 0) + post;
    }
  }
}
