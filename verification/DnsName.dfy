/** Domain names on the wire: get_name_len and get_name (dns.c), and the label form that
    pj_dns_make_query and print_name write. A packet lies at addresses 0..max of mem; the
    decoder may look at bytes past its end, which are arbitrary. */
module DnsName {
  import opened DnsTypes

  const EINNAMEPTR := 320043  // PJLIB_UTIL_EDNSINNAMEPTR
  const EINSIZE := 320041     // PJLIB_UTIL_EDNSINSIZE
  const MAX_DEPTH := 10
  const DOT: Byte := 46

  type Memory = nat -> Byte

  /** The 14 bits of a compression pointer. */
  function PointerAt(mem: Memory, p: nat): nat
    requires mem(p) >= 192
  {
    (mem(p) - 192) * 256 + mem(p + 1)
  }

  datatype NameLen = NameLen(status: nat, parsed: nat, len: nat)

  function NameLenAt(mem: Memory, max: nat, depth: nat, p: nat): NameLen
    decreases if depth <= MAX_DEPTH then MAX_DEPTH + 1 - depth else 0, if p < max then max - p else 0
  {
    if depth > MAX_DEPTH then NameLen(EINNAMEPTR, 0, 0)
    else if mem(p) == 0 then NameLen(SUCCESS, 1, 0)
    else if mem(p) >= 192 then
      if PointerAt(mem, p) >= max then NameLen(EINNAMEPTR, 0, 0)
      else
        var r := NameLenAt(mem, max, depth + 1, PointerAt(mem, p));
        if r.status != SUCCESS then NameLen(r.status, 0, 0) else NameLen(SUCCESS, 2, r.len)
    else
      var p' := p + mem(p) + 1;
      if mem(p) > max then NameLen(EINNAMEPTR, 0, 0)
      else if p' >= max then NameLen(EINSIZE, 0, 0)
      else
        var r := NameLenAt(mem, max, depth, p');
        if r.status != SUCCESS then NameLen(r.status, 0, 0)
        else NameLen(SUCCESS, mem(p) + 1 + r.parsed, mem(p) + (if mem(p') != 0 then 1 else 0) + r.len)
  }

  datatype NameText = NameText(status: nat, text: Name)

  function Slice(mem: Memory, p: nat, n: nat): (s: seq<Byte>)
    ensures |s| == n
  {
    seq(n, i requires 0 <= i < n => mem(p + i))
  }

  function NameAt(mem: Memory, max: nat, depth: nat, p: nat): NameText
    decreases if depth <= MAX_DEPTH then MAX_DEPTH + 1 - depth else 0, if p < max then max - p else 0
  {
    if depth > MAX_DEPTH then NameText(EINNAMEPTR, [])
    else if mem(p) == 0 then NameText(SUCCESS, [])
    else if mem(p) >= 192 then
      if PointerAt(mem, p) >= max then NameText(EINNAMEPTR, []) else NameAt(mem, max, depth + 1, PointerAt(mem, p))
    else
      var p' := p + mem(p) + 1;
      if mem(p) > max then NameText(EINNAMEPTR, [])
      else if p' >= max then NameText(EINSIZE, [])
      else
        var r := NameAt(mem, max, depth, p');
        if r.status != SUCCESS then NameText(r.status, [])
        else NameText(SUCCESS, Slice(mem, p + 1, mem(p)) + (if mem(p') != 0 then [DOT] else []) + r.text)
  }

  /** get_name_len. */
  method GetNameLen(mem: Memory, max: nat, depth: nat, start: nat) returns (status: nat, parsed: nat, len: nat)
    ensures var r := NameLenAt(mem, max, depth, start); status == r.status && (status == SUCCESS ==> parsed == r.parsed && len == r.len)
    decreases if depth <= MAX_DEPTH then MAX_DEPTH + 1 - depth else 0
  {
    parsed, len := 0, 0;
    if depth > MAX_DEPTH {
      return EINNAMEPTR, parsed, len;
    }
    ghost var whole := NameLenAt(mem, max, depth, start);
    var p := start;
    while mem(p) != 0
      invariant start <= p && (p == start || p < max)
      invariant var r := NameLenAt(mem, max, depth, p);
        whole.status == r.status && (r.status == SUCCESS ==> whole.parsed == parsed + r.parsed && whole.len == len + r.len)
      decreases if p < max then max - p else 0
    {
      if mem(p) >= 192 {
        if PointerAt(mem, p) >= max {
          return EINNAMEPTR, parsed, len;
        }
        var dummy, more;
        status, dummy, more := GetNameLen(mem, max, depth + 1, PointerAt(mem, p));
        return status, parsed + 2, len + more;
      }
      var labelLen := mem(p);
      if labelLen > max {
        return EINNAMEPTR, parsed, len;
      }
      p := p + labelLen + 1;
      parsed := parsed + labelLen + 1;
      len := len + labelLen + if mem(p) != 0 then 1 else 0;
      if p >= max {
        return EINSIZE, parsed, len;
      }
    }
    return SUCCESS, parsed + 1, len;
  }

  /** get_name: appends to name. */
  method GetName(mem: Memory, max: nat, depth: nat, start: nat, name: Name) returns (status: nat, name': Name)
    ensures var r := NameAt(mem, max, depth, start); status == r.status && (status == SUCCESS ==> name' == name + r.text)
    decreases if depth <= MAX_DEPTH then MAX_DEPTH + 1 - depth else 0
  {
    hide Slice, PointerAt;
    name' := name;
    if depth > MAX_DEPTH {
      return EINNAMEPTR, name';
    }
    ghost var whole := NameAt(mem, max, depth, start);
    var p := start;
    while mem(p) != 0
      invariant start <= p && (p == start || p < max)
      invariant var r := NameAt(mem, max, depth, p); whole.status == r.status && (r.status == SUCCESS ==> name + whole.text == name' + r.text)
      decreases if p < max then max - p else 0
    {
      if mem(p) >= 192 {
        if PointerAt(mem, p) >= max {
          return EINNAMEPTR, name';
        }
        status, name' := GetName(mem, max, depth + 1, PointerAt(mem, p), name');
        return;
      }
      var labelLen := mem(p);
      if labelLen > max {
        return EINNAMEPTR, name';
      }
      name' := name' + Slice(mem, p + 1, labelLen);
      p := p + labelLen + 1;
      if mem(p) != 0 {
        name' := name' + [DOT];
      }
      if p >= max {
        return EINSIZE, name';
      }
    }
    return SUCCESS, name';
  }

  /** The length pass and the copy pass agree on every packet image, however its pointers
      run: same status, and the copy is exactly as long as announced. */
  lemma {:induction false} LengthPassFitsCopyPass(mem: Memory, max: nat, depth: nat, p: nat)
    ensures NameLenAt(mem, max, depth, p).status == NameAt(mem, max, depth, p).status
    ensures NameLenAt(mem, max, depth, p).status == SUCCESS ==> NameLenAt(mem, max, depth, p).len == |NameAt(mem, max, depth, p).text|
    decreases if depth <= MAX_DEPTH then MAX_DEPTH + 1 - depth else 0, if p < max then max - p else 0
  {
    if depth <= MAX_DEPTH && mem(p) != 0 {
      if mem(p) >= 192 {
        if PointerAt(mem, p) < max {
          LengthPassFitsCopyPass(mem, max, depth + 1, PointerAt(mem, p));
        }
      } else if p + mem(p) + 1 < max {
        LengthPassFitsCopyPass(mem, max, depth, p + mem(p) + 1);
      }
    }
  }

  /** n bytes at p hold labels up to a zero byte or a pointer. */
  predicate Occupies(mem: Memory, p: nat, n: nat)
    decreases n
  {
    if mem(p) == 0 then n == 1
    else if mem(p) >= 192 then n == 2
    else n > mem(p) + 1 && Occupies(mem, p + mem(p) + 1, n - mem(p) - 1)
  }

  /** parsed_len is the space the name takes where it stands. */
  lemma {:induction false} ParsedLenIsSpaceInPlace(mem: Memory, max: nat, depth: nat, p: nat)
    requires NameLenAt(mem, max, depth, p).status == SUCCESS
    ensures Occupies(mem, p, NameLenAt(mem, max, depth, p).parsed)
    ensures mem(p) != 0 && mem(p) < 192 ==> p + NameLenAt(mem, max, depth, p).parsed <= max + 1
    decreases if depth <= MAX_DEPTH then MAX_DEPTH + 1 - depth else 0, if p < max then max - p else 0
  {
    if mem(p) != 0 && mem(p) < 192 {
      ParsedLenIsSpaceInPlace(mem, max, depth, p + mem(p) + 1);
    }
  }

  lemma {:induction false} SpaceIsUnique(mem: Memory, p: nat, n: nat, m: nat)
    requires Occupies(mem, p, n) && Occupies(mem, p, m)
    ensures n == m
    decreases n
  {
    if mem(p) != 0 && mem(p) < 192 {
      SpaceIsUnique(mem, p + mem(p) + 1, n - mem(p) - 1, m - mem(p) - 1);
    }
  }

  // ----- the label form of a dotted name -----

  function LabelEnd(name: Name): (k: nat)
    ensures k <= |name|
  {
    if name == [] || name[0] == DOT then 0 else 1 + LabelEnd(name[1..])
  }

  lemma LabelEndIsFirstDot(name: Name)
    ensures var k := LabelEnd(name); (k < |name| ==> name[k] == DOT) && forall i :: 0 <= i < k ==> name[i] != DOT
  {
  }

  /** The labels, each after its length truncated to a byte. */
  function Labels(name: Name): (r: seq<Byte>)
    ensures |r| >= |name|
    decreases |name|
  {
    if name == [] then []
    else
      var k := LabelEnd(name);
      [k % 256] + name[..k] + (if k < |name| then Labels(name[k + 1..]) else [])
  }

  function Wire(name: Name): seq<Byte> {
    Labels(name) + [0]
  }

  /** Non-empty labels that cannot be taken for a pointer, no trailing dot. */
  predicate IsName(name: Name)
    decreases |name|
  {
    name != [] &&
    var k := LabelEnd(name);
    0 < k < 192 && (k < |name| ==> IsName(name[k + 1..]))
  }

  lemma {:induction false} WireLength(name: Name)
    requires IsName(name)
    ensures |Labels(name)| == |name| + 1
    decreases |name|
  {
    var k := LabelEnd(name);
    if k < |name| {
      WireLength(name[k + 1..]);
    }
  }

  predicate Holds(mem: Memory, p: nat, bytes: seq<Byte>) {
    forall i :: 0 <= i < |bytes| ==> mem(p + i) == bytes[i]
  }

  lemma HoldsParts(mem: Memory, p: nat, a: seq<Byte>, b: seq<Byte>)
    requires Holds(mem, p, a + b)
    ensures Holds(mem, p, a) && Holds(mem, p + |a|, b)
  {
    forall i | 0 <= i < |a| ensures mem(p + i) == a[i] { assert (a + b)[i] == a[i]; }
    forall i | 0 <= i < |b| ensures mem(p + |a| + i) == b[i] { assert (a + b)[|a| + i] == b[i]; }
  }

  /** Reading one label of k characters. */
  lemma OneLabel(mem: Memory, max: nat, depth: nat, p: nat, k: nat)
    requires depth <= MAX_DEPTH && 0 < k < 192 && mem(p) == k && p + k + 1 < max
    ensures var t, n := NameAt(mem, max, depth, p + k + 1), NameLenAt(mem, max, depth, p + k + 1);
            var dot: Name := if mem(p + k + 1) != 0 then [DOT] else [];
            && (t.status == SUCCESS ==> NameAt(mem, max, depth, p) == NameText(SUCCESS, Slice(mem, p + 1, k) + dot + t.text))
            && (n.status == SUCCESS ==> NameLenAt(mem, max, depth, p) == NameLen(SUCCESS, k + 1 + n.parsed, k + |dot| + n.len))
  {
  }

  lemma EndOfName(mem: Memory, max: nat, depth: nat, p: nat)
    requires depth <= MAX_DEPTH && mem(p) == 0
    ensures NameAt(mem, max, depth, p) == NameText(SUCCESS, []) && NameLenAt(mem, max, depth, p) == NameLen(SUCCESS, 1, 0)
  {
  }

  /** A name written in full is read back, and takes the space it was given. */
  lemma {:induction false} WireDecodes(mem: Memory, max: nat, depth: nat, p: nat, name: Name)
    requires IsName(name) && depth <= MAX_DEPTH && Holds(mem, p, Wire(name)) && p + |Wire(name)| <= max
    ensures NameAt(mem, max, depth, p) == NameText(SUCCESS, name)
    ensures NameLenAt(mem, max, depth, p) == NameLen(SUCCESS, |name| + 2, |name|)
    decreases |name|
  {
    hide NameAt, NameLenAt, Labels, LabelEnd, Wire, IsName;
    var k := LabelEnd(name);
    LabelEndIsFirstDot(name);
    NameUnfolds(name);
    FirstLabelHeld(mem, p, name);
    var p' := p + k + 1;
    OneLabel(mem, max, depth, p, k);
    if k < |name| {
      WireDecodes(mem, max, depth, p', name[k + 1..]);
      assert name == name[..k] + [DOT] + name[k + 1..];
    } else {
      EndOfName(mem, max, depth, p');
      assert name == name[..k];
    }
  }

  lemma NameUnfolds(name: Name)
    requires IsName(name)
    ensures var k := LabelEnd(name);
            && 0 < k < 192 && |Wire(name)| == |name| + 2
            && (k < |name| ==> IsName(name[k + 1..]))
            && Wire(name) == [k] + (name[..k] + (if k < |name| then Wire(name[k + 1..]) else [0]))
  {
    var k := LabelEnd(name);
    WireLength(name);
    LabelsUnfold(name);
    hide Labels, LabelEnd, IsName;
    var b: Byte := k;
    if k < |name| {
      Regroup([b], name[..k], Labels(name[k + 1..]));
    } else {
      Regroup([b], name[..k], []);
    }
  }

  lemma Regroup(a: seq<Byte>, b: seq<Byte>, c: seq<Byte>)
    ensures a + b + c + [0] == a + (b + (c + [0]))
  {
  }

  lemma LabelsUnfold(name: Name)
    requires IsName(name)
    ensures var k := LabelEnd(name);
            && 0 < k < 192 && (k < |name| ==> IsName(name[k + 1..]))
            && Labels(name) == [k] + name[..k] + (if k < |name| then Labels(name[k + 1..]) else [])
  {
    hide LabelEnd, IsName, Labels;
    IsNameUnfold(name);
    LabelsFrom(name, LabelEnd(name));
  }

  lemma LabelsFrom(name: Name, k: nat)
    requires name != [] && k == LabelEnd(name) < 192
    ensures Labels(name) == [k] + name[..k] + (if k < |name| then Labels(name[k + 1..]) else [])
  {
    hide LabelEnd;
    assert k % 256 == k;
  }

  lemma IsNameUnfold(name: Name)
    requires IsName(name)
    ensures var k := LabelEnd(name); name != [] && 0 < k < 192 && (k < |name| ==> IsName(name[k + 1..]))
  {
  }

  /** What a written name leaves in memory: the first label, then the rest written alike. */
  lemma FirstLabelHeld(mem: Memory, p: nat, name: Name)
    requires IsName(name) && Holds(mem, p, Wire(name))
    ensures var k := LabelEnd(name);
            && mem(p) == k && Slice(mem, p + 1, k) == name[..k]
            && (k < |name| ==> Holds(mem, p + k + 1, Wire(name[k + 1..])) && mem(p + k + 1) != 0)
            && (k == |name| ==> mem(p + k + 1) == 0)
  {
    hide Labels, LabelEnd, Wire, IsName;
    NameUnfolds(name);
    var k := LabelEnd(name);
    var rest := if k < |name| then Wire(name[k + 1..]) else [0];
    HoldsParts(mem, p, [k], name[..k] + rest);
    HoldsParts(mem, p + 1, name[..k], rest);
    assert mem(p + 0) == [k][0];
    if k < |name| {
      NameUnfolds(name[k + 1..]);
    }
    assert mem(p + 1 + k + 0) == rest[0];
  }
}
