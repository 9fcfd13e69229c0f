/** XML nodes, the text that xml_print_node prints for them, and what xml_parse_node makes of a
    text (xml.c). */
module XmlText {
  import opened DnsTypes
  import opened ScanText

  const LT: Byte := 60
  const GT: Byte := 62
  const SLASH: Byte := 47
  const EQ: Byte := 61
  const QUESTION: Byte := 63
  const BANG: Byte := 33
  const APOS: Byte := 39
  const BRACKET: Byte := 93

  datatype Attr = Attr(name: Bytes, value: Bytes)

  datatype Node = Node(name: Bytes, attrs: seq<Attr>, nodes: seq<Node>, content: Bytes)

  // ----- printing -----

  function Spaces(n: nat): (s: Bytes)
    ensures |s| == n
  {
    seq(n, i requires 0 <= i < n => SPACE)
  }

  function AttrText(a: Attr): Bytes {
    [SPACE] + a.name + if a.value == [] then [] else [EQ, QUOTE] + a.value + [QUOTE]
  }

  function AttrsText(attrs: seq<Attr>): Bytes {
    if attrs == [] then [] else AttrText(attrs[0]) + AttrsText(attrs[1..])
  }

  function NodeText(n: Node, indent: nat): Bytes
    decreases n, 1
  {
    Spaces(indent) + ([LT] + n.name + AttrsText(n.attrs) + BodyText(n, indent))
  }

  function BodyText(n: Node, indent: nat): Bytes
    decreases n, 0
  {
    if n.content == [] && n.nodes == [] then [SPACE, SLASH, GT]
    else [GT] + NodesText(n.nodes, indent + 1) + n.content + (if n.nodes == [] then [] else [LF] + Spaces(indent)) + EndTag(n.name)
  }

  function EndTag(name: Bytes): Bytes {
    [LT, SLASH] + name + [GT]
  }

  function NodesText(nodes: seq<Node>, indent: nat): Bytes
    decreases nodes
  {
    if nodes == [] then [] else [LF] + NodeText(nodes[0], indent) + NodesText(nodes[1..], indent)
  }

  /** xml version="1.0" encoding="UTF-8" */
  const DECLARATION: Bytes := [120, 109, 108, 32, 118, 101, 114, 115, 105, 111, 110, 61, 34, 49, 46, 48, 34, 32, 101, 110, 99, 111, 100, 105, 110, 103, 61, 34, 85, 84, 70, 45, 56, 34]

  /** The 39 bytes of the prolog. */
  const PROLOG: Bytes := [LT, QUESTION] + DECLARATION + [QUESTION, GT, LF]

  // ----- parsing -----

  /** Stuck: the parser repeats a step without moving on. */
  datatype Parsed = Error | Stuck | Ok(node: Node, rest: Bytes)

  /** After "<?", up to "?>". */
  function SkipInstruction(t: Bytes): (r: Option<Bytes>)
    ensures r.Some? ==> |r.value| < |t|
    decreases |t|
  {
    var u := Until(t, {QUESTION});
    if u.None? then None
    else
      var v := u.value.1;
      if |v| >= 2 && v[0] == QUESTION && v[1] == GT then AdvanceN(v, 2, true)
      else
        var w := AdvanceN(v, 1, false);
        if w.None? then None else SkipInstruction(w.value)
  }

  /** After "<!", up to ">". */
  function SkipComment(t: Bytes): (r: Option<Bytes>)
    ensures r.Some? ==> |r.value| < |t|
  {
    var u := Until(t, {GT});
    if u.None? || u.value.1 == [] then None else AdvanceN(u.value.1, 1, true)
  }

  const NAME_END: set<Byte> := {SPACE, SLASH, GT, TAB, CR, LF}
  const ATTR_END: set<Byte> := {EQ, GT, SPACE, TAB, CR, LF}
  const CLOSE_END: set<Byte> := {SPACE, TAB, GT}

  /** The attributes, up to '>' or '/'. */
  function ParseAttrs(t: Bytes): (r: Option<(seq<Attr>, Bytes)>)
    requires t == [] || !IsWhite(t[0])
    ensures r.Some? ==> |r.value.1| <= |t|
    decreases |t|
  {
    if Head(t) == GT || Head(t) == SLASH then Some(([], t))
    else
      var a := ParseAttr(t);
      if a.None? then None
      else
        var rest := ParseAttrs(a.value.1);
        if rest.None? then None else Some(([a.value.0] + rest.value.0, rest.value.1))
  }

  function ParseAttr(t: Bytes): (r: Option<(Attr, Bytes)>)
    requires t == [] || (!IsWhite(t[0]) && t[0] != GT)
    ensures r.Some? ==> |r.value.1| < |t| && (r.value.1 == [] || !IsWhite(r.value.1[0]))
  {
    var u := Until(t, ATTR_END);
    if u.None? then None
    else if Head(u.value.1) == EQ then
      var g := GetChar(u.value.1);
      var q := GetQuotes(g.value, {QUOTE, APOS});
      if q.None? then None
      else
        NotWhite(g.value, q.value.1);
        Some((Attr(u.value.0, q.value.0), q.value.1))
    else
      SkipWhiteStops(t[Span(t, ATTR_END)..]);
      Some((Attr(u.value.0, []), u.value.1))
  }

  lemma {:induction false} SkipWhiteStops(t: Bytes)
    ensures SkipWhite(t) == [] || !IsWhite(SkipWhite(t)[0])
    decreases |t|
  {
    if t != [] && IsWhite(t[0]) {
      SkipWhiteStops(t[1..]);
    }
  }

  lemma NotWhite(t: Bytes, rest: Bytes)
    requires GetQuotes(t, {QUOTE, APOS}).Some? && GetQuotes(t, {QUOTE, APOS}).value.1 == rest
    ensures rest == [] || !IsWhite(rest[0])
  {
    SkipWhiteStops(t[QuoteEnd(t, t[0], 1) + 1..]);
  }

  /** A character that must come next. */
  function Expect(t: Bytes, c: Byte): (r: Option<Bytes>)
    ensures r.Some? ==> |r.value| < |t|
  {
    if Head(t) != c then None else GetChar(t)
  }

  const CDATA: Bytes := [60, 33, 91, 67, 68, 65, 84, 65, 91]
  const CDATA_END: Bytes := [93, 93, 62]

  datatype Content = NoContent | StuckContent | Content(text: Bytes, rest: Bytes)

  /** The text and the CDATA section before the end tag; a section replaces the text. In a
      section the first ']' must begin "]]>": at any other the search stays where it is. */
  function ParseContent(t: Bytes): (r: Content)
    ensures r.Content? ==> |r.rest| <= |t|
  {
    var u := if t != [] && t[0] != LT then Until(t, {LT}).value else ([], t);
    var v := u.1;
    if |v| >= 2 && v[0] == LT && v[1] == BANG then
      if StrCmp(v, CDATA).None? then NoContent
      else if !StrCmp(v, CDATA).value then Content(u.0, v)
      else
        var d := Until(v[9..], {BRACKET});
        if d.None? then NoContent
        else if StrCmp(d.value.1, CDATA_END).None? then NoContent
        else if !StrCmp(d.value.1, CDATA_END).value then StuckContent
        else Content(d.value.0, AdvanceN(d.value.1, 3, true).value)
    else Content(u.0, v)
  }

  /** The end tag of a node. */
  function ParseEnd(t: Bytes, name: Bytes): (r: Option<Bytes>)
    ensures r.Some? ==> |r.value| < |t|
  {
    var a := Expect(t, LT);
    if a.None? then None
    else
      var b := Expect(a.value, SLASH);
      if b.None? then None
      else
        var u := Until(b.value, CLOSE_END);
        if u.None? || !EqualFold(name, u.value.0) then None else Expect(u.value.1, GT)
  }

  /** xml_parse_node. */
  function ParseNode(t: Bytes): (r: Parsed)
    ensures r.Ok? ==> |r.rest| < |t|
    decreases |t|, 1
  {
    if Head(t) != LT then Error
    else if |t| >= 2 && t[1] == QUESTION then
      var s := SkipInstruction(t[2..]);
      if s.None? then Error else ParseNode(s.value)
    else if StrCmp(t, [LT, BANG]).None? then Error
    else if StrCmp(t, [LT, BANG]).value then
      var s := SkipComment(t[2..]);
      if s.None? then Error else ParseNode(s.value)
    else
      var u := Until(GetChar(t).value, NAME_END);
      if u.None? then Error
      else
        SkipWhiteStops(GetChar(t).value[Span(GetChar(t).value, NAME_END)..]);
        var a := ParseAttrs(u.value.1);
        if a.None? then Error else ParseBody(u.value.0, a.value.0, a.value.1)
  }

  function ParseBody(name: Bytes, attrs: seq<Attr>, t: Bytes): (r: Parsed)
    ensures r.Ok? ==> |r.rest| < |t|
    decreases |t|, 3
  {
    if Head(t) == SLASH then
      var e := Expect(GetChar(t).value, GT);
      if e.None? then Error else Ok(Node(name, attrs, [], []), e.value)
    else
      var g := Expect(t, GT);
      if g.None? then Error
      else
        var ns := ParseNodes(g.value);
        if ns.Failed? then (if ns.stuck then Stuck else Error)
        else
          var c := ParseContent(ns.rest);
          if c.NoContent? then Error
          else if c.StuckContent? then Stuck
          else
            var e := ParseEnd(c.rest, name);
            if e.None? then Error else Ok(Node(name, attrs, ns.nodes, c.text), e.value)
  }

  datatype Nodes = Failed(stuck: bool) | Nodes(nodes: seq<Node>, rest: Bytes)

  predicate NodeAhead(t: Bytes) {
    Head(t) == LT && !(|t| >= 2 && (t[1] == SLASH || t[1] == BANG))
  }

  /** The loop over sub nodes. */
  function ParseNodes(t: Bytes): (r: Nodes)
    ensures r.Nodes? ==> |r.rest| <= |t|
    decreases |t|, 2
  {
    if !NodeAhead(t) then Nodes([], t)
    else
      var n := ParseNode(t);
      if !n.Ok? then Failed(n.Stuck?)
      else
        var rest := ParseNodes(n.rest);
        if rest.Failed? then rest else Nodes([n.node] + rest.nodes, rest.rest)
  }
}
