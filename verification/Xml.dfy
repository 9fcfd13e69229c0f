/** pj_xml_parse and pj_xml_print as they run (xml.c). */
module Xml {
  import opened DnsTypes
  import opened ScanText
  import opened ScannerObject
  import opened XmlText

  // ----- parsing -----

  ghost predicate At(r: Option<Bytes>, ok: bool, sc: Scanner)
    reads sc
  {
    sc.Valid() && ok == r.Some? && (ok ==> sc.Rest() == r.value)
  }

  method TakeInstruction(sc: Scanner) returns (ok: bool)
    requires sc.Valid()
    modifies sc
    ensures At(SkipInstruction(old(sc.Rest())), ok, sc)
  {
    hide SkipWhite, Span;
    ghost var want := SkipInstruction(sc.Rest());
    while true
      invariant sc.Valid() && want == SkipInstruction(sc.Rest())
      decreases |sc.Rest()|
    {
      var dummy;
      ok, dummy := sc.TakeUntil({QUESTION});
      if !ok {
        return;
      }
      if sc.Peek(0) == QUESTION && sc.Peek(1) == GT {
        ok := sc.Advance(2, true);
        return;
      }
      ok := sc.Advance(1, false);
      if !ok {
        return;
      }
    }
  }

  method TakeComment(sc: Scanner) returns (ok: bool)
    requires sc.Valid()
    modifies sc
    ensures At(SkipComment(old(sc.Rest())), ok, sc)
  {
    hide SkipWhite, Span;
    UntilStopsThere(sc.Rest(), GT);
    var dummy;
    ok, dummy := sc.TakeUntil({GT});
    if !ok {
      return;
    }
    var c := sc.Compare([GT]);
    if c.None? {
      return false;
    }
    ok := sc.Advance(1, true);
  }

  /** A search for one visible byte ends there, or at the end. */
  lemma UntilStopsThere(t: Bytes, c: Byte)
    requires !IsWhite(c)
    ensures Until(t, {c}).Some? ==> var r := Until(t, {c}).value.1; r == [] || r[0] == c
  {
    var k := Span(t, {c});
    if k < |t| {
      SkipWhiteHere(t[k..]);
    }
  }

  ghost predicate AttrAt(r: Option<(Attr, Bytes)>, got: Option<Attr>, sc: Scanner)
    reads sc
  {
    sc.Valid() && if r.None? then got.None? else got == Some(r.value.0) && sc.Rest() == r.value.1
  }

  method TakeAttr(sc: Scanner) returns (r: Option<Attr>)
    requires sc.Valid() && (sc.Rest() == [] || (!IsWhite(sc.Rest()[0]) && sc.Rest()[0] != GT))
    modifies sc
    ensures AttrAt(ParseAttr(old(sc.Rest())), r, sc)
  {
    hide SkipWhite, Span, QuoteEnd;
    var ok, name := sc.TakeUntil(ATTR_END);
    if !ok {
      return None;
    }
    var value := [];
    if sc.Peek(0) == EQ {
      ok := sc.TakeChar();
      ok, value := sc.TakeQuotes({QUOTE, APOS});
      if !ok {
        return None;
      }
    }
    return Some(Attr(name, value));
  }

  ghost predicate AttrsAt(r: Option<(seq<Attr>, Bytes)>, got: Option<seq<Attr>>, sc: Scanner)
    reads sc
  {
    sc.Valid() && if r.None? then got.None? else got == Some(r.value.0) && sc.Rest() == r.value.1
  }

  function AfterAttrs(as0: seq<Attr>, r: Option<(seq<Attr>, Bytes)>): Option<(seq<Attr>, Bytes)> {
    if r.None? then None else Some((as0 + r.value.0, r.value.1))
  }

  lemma AttrsStep(t: Bytes, as0: seq<Attr>)
    requires t == [] || !IsWhite(t[0])
    ensures Head(t) == GT || Head(t) == SLASH ==> AfterAttrs(as0, ParseAttrs(t)) == Some((as0, t))
    ensures !(Head(t) == GT || Head(t) == SLASH) ==>
      var a := ParseAttr(t);
      if a.None? then ParseAttrs(t).None? else AfterAttrs(as0, ParseAttrs(t)) == AfterAttrs(as0 + [a.value.0], ParseAttrs(a.value.1))
  {
    hide ParseAttr;
    assert as0 + [] == as0;
    if Head(t) != GT && Head(t) != SLASH && ParseAttr(t).Some? {
      var a := ParseAttr(t).value;
      if ParseAttrs(a.1).Some? {
        assert as0 + ([a.0] + ParseAttrs(a.1).value.0) == as0 + [a.0] + ParseAttrs(a.1).value.0;
      }
    }
  }

  /** The loop over the attributes. */
  method TakeAttrs(sc: Scanner) returns (r: Option<seq<Attr>>)
    requires sc.Valid() && (sc.Rest() == [] || !IsWhite(sc.Rest()[0]))
    modifies sc
    ensures AttrsAt(ParseAttrs(old(sc.Rest())), r, sc)
  {
    hide ParseAttr, ParseAttrs;
    ghost var want := ParseAttrs(sc.Rest());
    var attrs := [];
    if want.Some? {
      assert [] + want.value.0 == want.value.0;
    }
    while sc.Peek(0) != GT && sc.Peek(0) != SLASH
      invariant sc.Valid() && (sc.Rest() == [] || !IsWhite(sc.Rest()[0]))
      invariant want == AfterAttrs(attrs, ParseAttrs(sc.Rest()))
      decreases |sc.Rest()|
    {
      AttrsStep(sc.Rest(), attrs);
      var a := TakeAttr(sc);
      if a.None? {
        return None;
      }
      attrs := attrs + [a.value];
    }
    AttrsStep(sc.Rest(), attrs);
    return Some(attrs);
  }

  method TakeExpected(sc: Scanner, c: Byte) returns (ok: bool)
    requires sc.Valid()
    modifies sc
    ensures At(Expect(old(sc.Rest()), c), ok, sc)
  {
    var found := sc.Peek(0);
    ok := sc.TakeChar();
    ok := ok && found == c;
  }

  method TakeEnd(sc: Scanner, name: Bytes) returns (ok: bool)
    requires sc.Valid()
    modifies sc
    ensures At(ParseEnd(old(sc.Rest()), name), ok, sc)
  {
    hide SkipWhite, Span, EqualFold, Expect;
    ok := TakeExpected(sc, LT);
    if !ok {
      return;
    }
    ok := TakeExpected(sc, SLASH);
    if !ok {
      return;
    }
    var end;
    ok, end := sc.TakeUntil(CLOSE_END);
    if !ok || !EqualFold(name, end) {
      return false;
    }
    ok := TakeExpected(sc, GT);
  }

  /** Text and a CDATA section. A search that does not move on is reported as stuck. */
  method TakeContent(sc: Scanner) returns (ok: bool, stuck: bool, content: Bytes)
    requires sc.Valid()
    modifies sc
    ensures sc.Valid() && match ParseContent(old(sc.Rest()))
      case NoContent => !ok && !stuck
      case StuckContent => !ok && stuck
      case Content(text, rest) => ok && content == text && sc.Rest() == rest
  {
    hide SkipWhite, Span;
    content, stuck := [], false;
    if sc.curptr < |sc.text| && sc.Peek(0) != LT {
      ok, content := sc.TakeUntil({LT});
    }
    if sc.Peek(0) == LT && sc.Peek(1) == BANG {
      var c := sc.Compare(CDATA);
      if c.None? {
        return false, false, content;
      }
      if c.value {
        ok := sc.Advance(9, false);
        ok, content := sc.TakeUntil({BRACKET});
        if !ok {
          return;
        }
        c := sc.Compare(CDATA_END);
        if c.None? {
          return false, false, content;
        }
        if !c.value {
          return false, true, content;
        }
        ok := sc.Advance(3, true);
      }
    }
    return true, false, content;
  }

  ghost predicate NodeAt(p: Parsed, got: Option<Node>, stuck: bool, sc: Scanner)
    reads sc
  {
    sc.Valid() && match p
    case Error => got.None? && !stuck
    case Stuck => got.None? && stuck
    case Ok(n, rest) => got == Some(n) && sc.Rest() == rest && !stuck
  }

  /** xml_parse_node. */
  method ReadNode(sc: Scanner) returns (r: Option<Node>, stuck: bool)
    requires sc.Valid()
    modifies sc
    ensures NodeAt(ParseNode(old(sc.Rest())), r, stuck, sc)
    decreases |sc.Rest()|, 1
  {
    hide SkipWhite, Span, SkipInstruction, SkipComment, ParseAttrs, ParseBody;
    if sc.Peek(0) != LT {
      return None, false;
    }
    if sc.Peek(1) == QUESTION {
      var ok := sc.Advance(2, false);
      ok := TakeInstruction(sc);
      if !ok {
        return None, false;
      }
      r, stuck := ReadNode(sc);
      return;
    }
    var c := sc.Compare([LT, BANG]);
    if c.None? {
      return None, false;
    }
    if c.value {
      var ok := sc.Advance(2, false);
      ok := TakeComment(sc);
      if !ok {
        return None, false;
      }
      r, stuck := ReadNode(sc);
      return;
    }
    var ok := sc.TakeChar();
    var name;
    ghost var t := sc.Rest();
    ok, name := sc.TakeUntil(NAME_END);
    if !ok {
      return None, false;
    }
    SkipWhiteStops(t[Span(t, NAME_END)..]);
    var attrs := TakeAttrs(sc);
    if attrs.None? {
      return None, false;
    }
    r, stuck := ReadBody(sc, name, attrs.value);
  }

  method ReadBody(sc: Scanner, name: Bytes, attrs: seq<Attr>) returns (r: Option<Node>, stuck: bool)
    requires sc.Valid()
    modifies sc
    ensures NodeAt(ParseBody(name, attrs, old(sc.Rest())), r, stuck, sc)
    decreases |sc.Rest()|, 3
  {
    hide SkipWhite, ParseNodes, ParseContent, ParseEnd;
    if sc.Peek(0) == SLASH {
      var ok := sc.TakeChar();
      ok := TakeExpected(sc, GT);
      return if ok then Some(Node(name, attrs, [], [])) else None, false;
    }
    var ok := TakeExpected(sc, GT);
    if !ok {
      return None, false;
    }
    var nodes;
    nodes, stuck := ReadNodes(sc);
    if nodes.None? {
      return None, stuck;
    }
    var content;
    ok, stuck, content := TakeContent(sc);
    if !ok {
      return None, stuck;
    }
    ok := TakeEnd(sc, name);
    return if ok then Some(Node(name, attrs, nodes.value, content)) else None, false;
  }

  function AfterNodes(ns: seq<Node>, r: Nodes): Nodes {
    if r.Failed? then r else Nodes(ns + r.nodes, r.rest)
  }

  lemma NodesStep(t: Bytes, ns: seq<Node>)
    ensures !NodeAhead(t) ==> AfterNodes(ns, ParseNodes(t)) == Nodes(ns, t)
    ensures NodeAhead(t) ==>
      var n := ParseNode(t);
      if n.Ok? then AfterNodes(ns, ParseNodes(t)) == AfterNodes(ns + [n.node], ParseNodes(n.rest))
      else AfterNodes(ns, ParseNodes(t)) == Failed(n.Stuck?)
  {
    hide ParseNode, NodeAhead;
    assert ns + [] == ns;
    if NodeAhead(t) && ParseNode(t).Ok? {
      var n := ParseNode(t);
      var rest := ParseNodes(n.rest);
      if rest.Nodes? {
        assert ns + ([n.node] + rest.nodes) == ns + [n.node] + rest.nodes;
      }
    }
  }

  /** The loop over sub nodes. */
  method ReadNodes(sc: Scanner) returns (r: Option<seq<Node>>, stuck: bool)
    requires sc.Valid()
    modifies sc
    ensures sc.Valid() && match ParseNodes(old(sc.Rest()))
      case Failed(s) => r.None? && stuck == s
      case Nodes(ns, rest) => r == Some(ns) && sc.Rest() == rest && !stuck
    decreases |sc.Rest()|, 2
  {
    hide ParseNode, ParseNodes;
    ghost var t0 := sc.Rest();
    ghost var want := ParseNodes(t0);
    var ns := [];
    if want.Nodes? {
      assert [] + want.nodes == want.nodes;
    }
    while sc.Peek(0) == LT && sc.Peek(1) != SLASH && sc.Peek(1) != BANG
      invariant sc.Valid() && |sc.Rest()| <= |t0| && want == AfterNodes(ns, ParseNodes(sc.Rest()))
      decreases |sc.Rest()|
    {
      NodesStep(sc.Rest(), ns);
      var n;
      n, stuck := ReadNode(sc);
      if n.None? {
        return None, stuck;
      }
      ns := ns + [n.value];
    }
    NodesStep(sc.Rest(), ns);
    return Some(ns), false;
  }

  /** pj_xml_parse. */
  method ReadDocument(msg: Bytes) returns (r: Option<Node>, stuck: bool)
    ensures msg == [] ==> r == None && !stuck
    ensures msg != [] ==> var p := ParseNode(SkipWhite(msg)); stuck == p.Stuck? && r == if p.Ok? then Some(p.node) else None
  {
    hide SkipWhite, ParseNode;
    if |msg| == 0 {
      return None, false;
    }
    var sc := new Scanner(msg);
    r, stuck := ReadNode(sc);
  }
}
