/** xml_print_node and pj_xml_print, writing through a moving position (xml.c). */
module XmlPrinter {
  import opened DnsTypes
  import opened ScanText
  import opened XmlText

  /** Of the len bytes at p the first hold what has been printed; all other bytes of the buffer
      are as they were. */
  ghost predicate Printed(buf0: Bytes, buf: Bytes, p: nat, len: nat, done: Bytes) {
    && |buf| == |buf0| && p + len <= |buf| && |done| <= len
    && buf[..p] == buf0[..p] && buf[p + len..] == buf0[p + len..] && buf[p..p + |done|] == done
  }

  /** memcpy to the current position. */
  method Put(buf: array<Byte>, p: nat, len: nat, s: Bytes, q: nat, ghost buf0: Bytes, ghost done: Bytes)
    requires Printed(buf0, buf[..], p, len, done) && q == p + |done| && |done| + |s| <= len
    modifies buf
    ensures Printed(buf0, buf[..], p, len, done + s)
  {
    ghost var was := buf[..];
    forall i | 0 <= i < |s| {
      buf[q + i] := s[i];
    }
    PutParts(was, buf[..], q, s);
    PutPrinted(buf0, was, buf[..], p, len, done, s);
  }

  lemma PutParts(was: Bytes, now: Bytes, q: nat, s: Bytes)
    requires |was| == |now| && q + |s| <= |was| && forall i :: 0 <= i < |was| ==> now[i] == if q <= i < q + |s| then s[i - q] else was[i]
    ensures now[..q] == was[..q] && now[q..q + |s|] == s && now[q + |s|..] == was[q + |s|..]
  {
  }

  lemma PutPrinted(buf0: Bytes, was: Bytes, now: Bytes, p: nat, len: nat, done: Bytes, s: Bytes)
    requires Printed(buf0, was, p, len, done) && |done| + |s| <= len && |now| == |was|
    requires var q := p + |done|; now[..q] == was[..q] && now[q..q + |s|] == s && now[q + |s|..] == was[q + |s|..]
    ensures Printed(buf0, now, p, len, done + s)
  {
    var q := p + |done|;
    assert now[..p] == now[..q][..p] && was[..p] == was[..q][..p];
    assert now[p..q] == now[..q][p..] && was[p..q] == was[..q][p..];
    assert now[p..q + |s|] == now[p..q] + now[q..q + |s|];
    var k := len - |done| - |s|;
    assert now[p + len..] == now[q + |s|..][k..] && was[p + len..] == was[q + |s|..][k..];
  }

  /** A part printed into the room that is left. */
  lemma PartPrinted(buf0: Bytes, was: Bytes, now: Bytes, p: nat, len: nat, done: Bytes, s: Bytes)
    requires Printed(buf0, was, p, len, done) && Printed(was, now, p + |done|, len - |done|, s)
    ensures Printed(buf0, now, p, len, done + s)
  {
    var q := p + |done|;
    assert now[..p] == now[..q][..p] && was[..p] == was[..q][..p];
    assert now[p..q] == now[..q][p..] && was[p..q] == was[..q][p..];
    assert now[p..q + |s|] == now[p..q] + now[q..q + |s|];
  }

  lemma PrintedNothing(buf: Bytes, p: nat, len: nat)
    requires p + len <= |buf|
    ensures Printed(buf, buf, p, len, [])
  {
  }

  /** How a step of printing ends: with more printed, or with a text that leaves no byte over. */
  ghost predicate Outcome(buf0: Bytes, buf: Bytes, p: nat, len: nat, n: int, text: Bytes) {
    if n >= 0 then n == |text| && Printed(buf0, buf, p, len, text)
    else n == -1 && |text| >= len && Printed(buf0, buf, p, len, [])
  }

  lemma Unprinted(buf0: Bytes, buf: Bytes, p: nat, len: nat, done: Bytes)
    requires Printed(buf0, buf, p, len, done)
    ensures Printed(buf0, buf, p, len, [])
  {
  }

  /** The attributes after done; rest follows them and is at least three bytes long. */
  method PrintAttrs(attrs: seq<Attr>, buf: array<Byte>, p: nat, len: nat, q: nat, ghost buf0: Bytes, ghost done: Bytes, ghost rest: Bytes) returns (q': int)
    requires Printed(buf0, buf[..], p, len, done) && q == p + |done| && |rest| >= 3
    modifies buf
    ensures q' >= 0 ==> Printed(buf0, buf[..], p, len, done + AttrsText(attrs)) && q' == p + |done + AttrsText(attrs)|
    ensures q' < 0 ==> |done + AttrsText(attrs) + rest| >= len && Printed(buf0, buf[..], p, len, [])
  {
    hide AttrText, AttrsText, Printed;
    q' := q;
    var i := 0;
    ghost var d := done;
    assert attrs[0..] == attrs;
    while i < |attrs|
      invariant 0 <= i <= |attrs| && Printed(buf0, buf[..], p, len, d) && q' == p + |d|
      invariant done + AttrsText(attrs) == d + AttrsText(attrs[i..])
    {
      var a := attrs[i];
      AttrsStep(attrs, i, d);
      AttrLength(a);
      PrintedLength(buf0, buf[..], p, len, d);
      if p + len - q' < |a.name| + |a.value| + 4 {
        Unprinted(buf0, buf[..], p, len, d);
        return -1;
      }
      Put(buf, p, len, [SPACE], q', buf0, d);
      d := d + [SPACE];
      Put(buf, p, len, a.name, q' + 1, buf0, d);
      d := d + a.name;
      q' := q' + 1 + |a.name|;
      if |a.value| > 0 {
        Put(buf, p, len, [EQ, QUOTE], q', buf0, d);
        d := d + [EQ, QUOTE];
        Put(buf, p, len, a.value, q' + 2, buf0, d);
        d := d + a.value;
        Put(buf, p, len, [QUOTE], q' + 2 + |a.value|, buf0, d);
        d := d + [QUOTE];
        q' := q' + |a.value| + 3;
      }
      i := i + 1;
    }
    NoAttrs(attrs[i..]);
    assert d + [] == d;
  }

  lemma PrintedLength(buf0: Bytes, buf: Bytes, p: nat, len: nat, done: Bytes)
    requires Printed(buf0, buf, p, len, done)
    ensures |done| <= len
  {
  }

  lemma AttrsStep(attrs: seq<Attr>, i: nat, d: Bytes)
    requires i < |attrs|
    ensures attrs[i].value != [] ==>
      d + AttrsText(attrs[i..]) == d + [SPACE] + attrs[i].name + [EQ, QUOTE] + attrs[i].value + [QUOTE] + AttrsText(attrs[i + 1..])
    ensures attrs[i].value == [] ==> d + AttrsText(attrs[i..]) == d + [SPACE] + attrs[i].name + AttrsText(attrs[i + 1..])
    ensures |d + AttrsText(attrs[i..])| >= |d| + |AttrText(attrs[i])|
  {
    assert attrs[i..][1..] == attrs[i + 1..];
    var a, more := attrs[i], AttrsText(attrs[i + 1..]);
    assert AttrsText(attrs[i..]) == AttrText(a) + more;
  }

  lemma AttrLength(a: Attr)
    ensures |AttrText(a)| == 1 + |a.name| + if a.value == [] then 0 else 3 + |a.value|
  {
  }

  lemma NoAttrs(attrs: seq<Attr>)
    requires attrs == []
    ensures AttrsText(attrs) == []
  {
  }

  /** xml_print_node into the len bytes at p. */
  method PrintNode(n: Node, indent: nat, buf: array<Byte>, p: nat, len: nat) returns (r: int)
    requires p + len <= buf.Length
    modifies buf
    ensures Outcome(old(buf[..]), buf[..], p, len, r, NodeText(n, indent))
    decreases n, 1
  {
    hide AttrsText, BodyText, Printed;
    ghost var buf0, text := buf[..], NodeText(n, indent);
    PrintedNothing(buf0, p, len);
    NodeParts(n, indent);
    if len < |n.name| + indent + 5 {
      return -1;
    }
    Put(buf, p, len, Spaces(indent), p, buf0, []);
    Put(buf, p, len, [LT], p + indent, buf0, [] + Spaces(indent));
    Put(buf, p, len, n.name, p + indent + 1, buf0, [] + Spaces(indent) + [LT]);
    ghost var d := [] + Spaces(indent) + [LT] + n.name;
    var q := PrintAttrs(n.attrs, buf, p, len, p + indent + 1 + |n.name|, buf0, d, BodyText(n, indent));
    if q < 0 {
      return -1;
    }
    d := d + AttrsText(n.attrs);
    r := PrintBody(n, indent, buf, p, len, q, buf0, d);
  }

  lemma NodeParts(n: Node, indent: nat)
    ensures NodeText(n, indent) == [] + Spaces(indent) + [LT] + n.name + AttrsText(n.attrs) + BodyText(n, indent)
    ensures |BodyText(n, indent)| >= 3
  {
    hide AttrsText;
    var b := BodyText(n, indent);
    assert Spaces(indent) + ([LT] + n.name + AttrsText(n.attrs) + b) == [] + Spaces(indent) + [LT] + n.name + AttrsText(n.attrs) + b;
  }

  /** From the end of the attributes on. */
  method PrintBody(n: Node, indent: nat, buf: array<Byte>, p: nat, len: nat, start: nat, ghost buf0: Bytes, ghost done: Bytes) returns (r: int)
    requires Printed(buf0, buf[..], p, len, done) && start == p + |done|
    modifies buf
    ensures Outcome(buf0, buf[..], p, len, r, done + BodyText(n, indent))
    decreases n, 0
  {
    hide NodesText, Printed;
    var q := start;
    PrintedLength(buf0, buf[..], p, len, done);
    Unprinted(buf0, buf[..], p, len, done);
    if |n.content| == 0 && n.nodes == [] {
      if p + len - q < 3 {
        return -1;
      }
      Put(buf, p, len, [SPACE, SLASH, GT], q, buf0, done);
      return q + 3 - p;
    }
    ghost var pieces := NodesText(n.nodes, indent + 1);
    ghost var white: Bytes := if n.nodes == [] then [] else [LF] + Spaces(indent);
    BodyParts(n, indent, done);
    if p + len - q < 1 {
      return -1;
    }
    Put(buf, p, len, [GT], q, buf0, done);
    ghost var d := done + [GT];
    q := PrintNodes(n.nodes, indent + 1, buf, p, len, q + 1, buf0, d, n.content + white + EndTag(n.name));
    if q < 0 {
      return -1;
    }
    Paired(d + pieces, n.content, white, EndTag(n.name));
    r := PrintContent(n, indent, buf, p, len, q, buf0, d + pieces);
  }

  /** The content and the end tag. */
  method PrintContent(n: Node, indent: nat, buf: array<Byte>, p: nat, len: nat, start: nat, ghost buf0: Bytes, ghost done: Bytes) returns (r: int)
    requires Printed(buf0, buf[..], p, len, done) && start == p + |done|
    modifies buf
    ensures Outcome(buf0, buf[..], p, len, r, done + (n.content + (if n.nodes == [] then [] else [LF] + Spaces(indent)) + EndTag(n.name)))
  {
    hide Printed;
    PrintedLength(buf0, buf[..], p, len, done);
    Unprinted(buf0, buf[..], p, len, done);
    ghost var white: Bytes := if n.nodes == [] then [] else [LF] + Spaces(indent);
    Paired(done, n.content, white, EndTag(n.name));
    if p + len - start < |n.content| {
      return -1;
    }
    Put(buf, p, len, n.content, start, buf0, done);
    r := PrintEndTag(n, indent, buf, p, len, start + |n.content|, buf0, done + n.content);
  }

  lemma Paired(a: Bytes, b: Bytes, c: Bytes, d: Bytes)
    ensures a + (b + c + d) == (a + b) + (c + d) == a + b + c + d
  {
  }

  /** The end tag, on a line of its own after sub nodes. */
  method PrintEndTag(n: Node, indent: nat, buf: array<Byte>, p: nat, len: nat, start: nat, ghost buf0: Bytes, ghost done: Bytes) returns (r: int)
    requires Printed(buf0, buf[..], p, len, done) && start == p + |done|
    modifies buf
    ensures Outcome(buf0, buf[..], p, len, r, done + ((if n.nodes == [] then [] else [LF] + Spaces(indent)) + EndTag(n.name)))
  {
    hide Printed;
    var q := start;
    ghost var d := done;
    PrintedLength(buf0, buf[..], p, len, d);
    Unprinted(buf0, buf[..], p, len, d);
    if n.nodes != [] {
      if p + len - q < |n.name| + 5 + indent {
        return -1;
      }
      Put(buf, p, len, [LF], q, buf0, d);
      Put(buf, p, len, Spaces(indent), q + 1, buf0, d + [LF]);
      d := d + [LF] + Spaces(indent);
      q := q + 1 + indent;
    } else if p + len - q < |n.name| + 3 {
      return -1;
    }
    Put(buf, p, len, [LT, SLASH], q, buf0, d);
    Put(buf, p, len, n.name, q + 2, buf0, d + [LT, SLASH]);
    Put(buf, p, len, [GT], q + 2 + |n.name|, buf0, d + [LT, SLASH] + n.name);
    EndTagParts(done, n.name, if n.nodes == [] then [] else [LF] + Spaces(indent));
    assert n.nodes == [] ==> done + [] == done;
    assert n.nodes != [] ==> done + ([LF] + Spaces(indent)) == d;
    return q + 3 + |n.name| - p;
  }

  lemma EndTagParts(done: Bytes, name: Bytes, white: Bytes)
    ensures done + (white + EndTag(name)) == done + white + [LT, SLASH] + name + [GT]
  {
  }

  lemma BodyParts(n: Node, indent: nat, done: Bytes)
    requires !(n.content == [] && n.nodes == [])
    ensures var white: Bytes := if n.nodes == [] then [] else [LF] + Spaces(indent);
            done + BodyText(n, indent) == done + [GT] + NodesText(n.nodes, indent + 1) + n.content + white + EndTag(n.name)
  {
    hide NodesText, EndTag;
    Regrouped(done, [GT], NodesText(n.nodes, indent + 1), n.content, if n.nodes == [] then [] else [LF] + Spaces(indent), EndTag(n.name));
  }

  lemma Regrouped(a: Bytes, b: Bytes, c: Bytes, d: Bytes, e: Bytes, f: Bytes)
    ensures a + (b + c + d + e + f) == a + b + c + d + e + f
  {
  }

  /** The loop over the sub nodes; rest is what will follow them. */
  method PrintNodes(nodes: seq<Node>, indent: nat, buf: array<Byte>, p: nat, len: nat, start: nat, ghost buf0: Bytes, ghost done: Bytes, ghost rest: Bytes) returns (q: int)
    requires Printed(buf0, buf[..], p, len, done) && start == p + |done| && |rest| >= 3 && indent > 0
    modifies buf
    ensures q >= 0 ==> Printed(buf0, buf[..], p, len, done + NodesText(nodes, indent)) && q == p + |done + NodesText(nodes, indent)|
    ensures q < 0 ==> |done + NodesText(nodes, indent) + rest| >= len && Printed(buf0, buf[..], p, len, [])
    decreases nodes, 2
  {
    hide NodesText, NodeText, Printed;
    q := start;
    var i := 0;
    ghost var d := done;
    assert nodes[0..] == nodes;
    while i < |nodes|
      invariant 0 <= i <= |nodes| && Printed(buf0, buf[..], p, len, d) && q == p + |d|
      invariant done + NodesText(nodes, indent) == d + NodesText(nodes[i..], indent)
    {
      NodesStep(nodes, i, indent, d);
      PrintedLength(buf0, buf[..], p, len, d);
      Unprinted(buf0, buf[..], p, len, d);
      if p + len - q < indent - 1 + 3 {
        return -1;
      }
      Put(buf, p, len, [LF], q, buf0, d);
      d := d + [LF];
      ghost var was := buf[..];
      var r := PrintNode(nodes[i], indent, buf, q + 1, p + len - (q + 1));
      if r < 0 {
        PartPrinted(buf0, was, buf[..], p, len, d, []);
        Unprinted(buf0, buf[..], p, len, d + []);
        return -1;
      }
      PartPrinted(buf0, was, buf[..], p, len, d, NodeText(nodes[i], indent));
      d := d + NodeText(nodes[i], indent);
      q := q + 1 + r;
      i := i + 1;
    }
    NoNodes(nodes[i..], indent);
    assert d + [] == d;
  }

  lemma NodesStep(nodes: seq<Node>, i: nat, indent: nat, d: Bytes)
    requires i < |nodes|
    ensures d + NodesText(nodes[i..], indent) == d + [LF] + NodeText(nodes[i], indent) + NodesText(nodes[i + 1..], indent)
    ensures |NodeText(nodes[i], indent)| >= indent + 4
  {
    assert nodes[i..][1..] == nodes[i + 1..];
    NodeParts(nodes[i], indent);
    hide NodeText;
    var t, more := NodeText(nodes[i], indent), NodesText(nodes[i + 1..], indent);
    assert d + ([LF] + t + more) == d + [LF] + t + more;
  }

  lemma NoNodes(nodes: seq<Node>, indent: nat)
    requires nodes == []
    ensures NodesText(nodes, indent) == []
  {
  }

  /** What pj_xml_print prints when everything fits; a newline is added where there is room. */
  function DocumentText(n: Node, prolog: bool, len: nat): Bytes {
    var t := (if prolog then PROLOG else []) + NodeText(n, 0);
    if |t| < len then t + [LF] else t
  }

  /** pj_xml_print. When the tree does not fit but the prolog does, the failure of
      xml_print_node is lost in the length of the prolog, and the result is 39. */
  method PrintDocument(n: Node, buf: array<Byte>, len: nat, prolog: bool) returns (r: int)
    requires len <= buf.Length
    modifies buf
    ensures if len == 0 then r == 0 else r == -1 || 0 < r <= len
    ensures r > 0 && !(prolog && r == |PROLOG|) ==> r == |DocumentText(n, prolog, len)| && buf[..r] == DocumentText(n, prolog, len)
    ensures r == -1 || (prolog && r == |PROLOG|) ==> |(if prolog then PROLOG else []) + NodeText(n, 0)| >= len
    ensures prolog && len >= |PROLOG| ==> r != -1
    ensures prolog && |PROLOG| <= len < |PROLOG + NodeText(n, 0)| ==> r == |PROLOG|
  {
    hide NodeText, Outcome, Printed;
    if len == 0 {
      return 0;
    }
    ghost var head: Bytes := if prolog then PROLOG else [];
    ghost var buf0 := buf[..];
    var prologLen := 0;
    PrintedNothing(buf0, 0, len);
    if prolog {
      if len < |PROLOG| {
        return -1;
      }
      Put(buf, 0, len, PROLOG, 0, buf0, []);
      prologLen := |PROLOG|;
    }
    assert [] + head == head;
    ghost var was, text := buf[..], NodeText(n, 0);
    var printed := PrintNode(n, 0, buf, prologLen, len - prologLen);
    OutcomeIs(buf0, was, buf[..], len, head, printed, text);
    NodeNotEmpty(n);
    printed := printed + prologLen;
    ghost var now := buf[..];
    if printed > 0 && len - printed >= 1 {
      buf[printed] := LF;
      printed := printed + 1;
      assert buf[..printed - 1] == now[..printed - 1];
      assert buf[..printed] == now[..printed - 1] + [LF];
    }
    return printed;
  }

  lemma NodeNotEmpty(n: Node)
    ensures |NodeText(n, 0)| > 0
  {
    NodeParts(n, 0);
    hide NodeText;
  }

  lemma OutcomeIs(buf0: Bytes, was: Bytes, now: Bytes, len: nat, head: Bytes, n: int, text: Bytes)
    requires Printed(buf0, was, 0, len, head) && Outcome(was, now, |head|, len - |head|, n, text)
    ensures n == -1 || n == |text|
    ensures n >= 0 ==> |head| + n <= len <= |now| && now[..|head| + n] == head + text
    ensures n < 0 ==> |head + text| >= len
  {
    if n >= 0 {
      PartPrinted(buf0, was, now, 0, len, head, text);
      assert now[0..|head| + n] == now[..|head| + n];
    }
  }
}
