/** The label table of print_name (dns_server.c), seen as the names that were entered in it. An
    entry is compared by the bytes that stand after the first length byte of its name. */
module DnsTable {
  import opened DnsTypes
  import opened DnsName
  import opened DnsPrint

  /** What the entry of a name is compared by: the name, with every dot replaced by the length of
      the label after it. */
  function Text(name: Name): (t: Name) {
    Wire(name)[1..1 + |name|]
  }

  /** The first entry that the name matches. */
  function Found(names: seq<Name>, name: Name): (i: nat)
    ensures i <= |names|
    ensures i < |names| ==> Text(names[i]) == name
    ensures forall j :: 0 <= j < i ==> Text(names[j]) != name
  {
    if names == [] || Text(names[0]) == name then 0 else 1 + Found(names[1..], name)
  }

  /** The names entered after one more is printed. */
  function Enter(names: seq<Name>, name: Name): seq<Name> {
    if Found(names, name) < |names| || |names| >= MAX_LABEL then names else names + [name]
  }

  /** The name that a reader gets. */
  function ReadAs(names: seq<Name>, name: Name): Name {
    var i := Found(names, name);
    if i < |names| then names[i] else name
  }

  function EnterAll(names: seq<Name>, todo: seq<Name>): seq<Name>
    decreases |todo|
  {
    if todo == [] then names else EnterAll(Enter(names, todo[0]), todo[1..])
  }

  /** Every name printed in turn that matches an entry is the very name of the entry. */
  predicate Clear(names: seq<Name>, todo: seq<Name>)
    decreases |todo|
  {
    todo != [] ==> ReadAs(names, todo[0]) == todo[0] && Clear(Enter(names, todo[0]), todo[1..])
  }

  lemma {:induction false} ClearConcat(names: seq<Name>, a: seq<Name>, b: seq<Name>)
    ensures Clear(names, a + b) <==> Clear(names, a) && Clear(EnterAll(names, a), b)
    ensures EnterAll(names, a + b) == EnterAll(EnterAll(names, a), b)
    decreases |a|
  {
    hide ReadAs, Enter;
    if a == [] {
      assert a + b == b;
    } else {
      assert (a + b)[1..] == a[1..] + b;
      ClearConcat(Enter(names, a[0]), a[1..], b);
    }
  }

  // ----- the text of a name -----

  /** Characters stay and dots become lengths. */
  lemma {:induction false} TextAt(name: Name, i: nat)
    requires IsName(name) && i < |name|
    ensures |Text(name)| == |name|
    ensures Text(name)[i] == if name[i] == DOT then LabelEnd(name[i + 1..]) else name[i]
    decreases |name|
  {
    hide LabelEnd, Wire, IsName, Labels;
    var k := LabelEnd(name);
    LabelEndIsFirstDot(name);
    NameUnfolds(name);
    if k < |name| && i >= k {
      var rest := name[k + 1..];
      TextBeyond(name, i);
      RestBeyond(name, k, i);
      if i > k {
        TextAt(rest, i - k - 1);
        TextWire(rest, i - k - 1);
      }
    } else {
      assert Wire(name)[i + 1] == name[..k][i];
    }
  }

  lemma TextWire(name: Name, i: nat)
    requires IsName(name) && i < |name|
    ensures |Text(name)| == |name| && |Wire(name)| == |name| + 2 && Text(name)[i] == Wire(name)[i + 1]
  {
    hide LabelEnd, Wire, IsName, Labels;
    NameUnfolds(name);
  }

  lemma RestBeyond(name: Name, k: nat, i: nat)
    requires k <= i < |name|
    ensures var rest := name[k + 1..]; name[i + 1..] == rest[i - k..] && (i > k ==> name[i] == rest[i - k - 1])
  {
  }

  /** From its first dot on, the text of a name is the wire form of the rest. */
  lemma TextBeyond(name: Name, i: nat)
    requires IsName(name) && LabelEnd(name) <= i < |name|
    ensures var k := LabelEnd(name); var rest := name[k + 1..];
            && IsName(rest) && name[k] == DOT && |Wire(rest)| > i - k
            && Text(name)[i] == Wire(rest)[i - k] && Wire(rest)[0] == LabelEnd(rest)
  {
    hide LabelEnd, Wire, IsName, Labels, Text;
    var k := LabelEnd(name);
    LabelEndIsFirstDot(name);
    NameUnfolds(name);
    NameUnfolds(name[k + 1..]);
    TextWire(name, i);
    AfterLabel(k, name[..k], Wire(name[k + 1..]), i - k);
  }

  lemma AfterLabel(k: Byte, front: Name, rest: Name, j: nat)
    requires |front| == k && j < |rest|
    ensures ([k] + (front + rest))[k + j + 1] == rest[j]
  {
  }

  lemma {:induction false} LabelNotLong(name: Name, i: nat)
    requires IsName(name) && i < |name| && name[i] == DOT
    ensures 0 < LabelEnd(name[i + 1..]) < 192
    decreases |name|
  {
    hide LabelEnd;
    var k := LabelEnd(name);
    LabelEndIsFirstDot(name);
    if i == k {
      assert name[i + 1..] == name[k + 1..];
    } else {
      var rest := name[k + 1..];
      LabelNotLong(rest, i - k - 1);
      assert rest[i - k..] == name[i + 1..];
    }
  }

  /** Letters, digits, '-' and '_'. */
  predicate NameChar(b: Byte) {
    'a' as int <= b <= 'z' as int || 'A' as int <= b <= 'Z' as int || '0' as int <= b <= '9' as int || b == '-' as int || b == '_' as int
  }

  predicate HostName(name: Name) {
    IsName(name) && forall i :: 0 <= i < |name| ==> name[i] == DOT || NameChar(name[i])
  }

  /** No other host name matches the entry of this one. */
  predicate Safe(name: Name) {
    HostName(name) && (HostName(Text(name)) ==> Text(name) == name)
  }

  /** Host names are printed without confusion when they are safe. */
  lemma {:induction false} SafeNamesClear(names: seq<Name>, todo: seq<Name>)
    requires (forall i :: 0 <= i < |names| ==> Safe(names[i])) && forall i :: 0 <= i < |todo| ==> Safe(todo[i])
    ensures Clear(names, todo)
    decreases |todo|
  {
    hide HostName, Text;
    if todo != [] {
      SafeNamesClear(Enter(names, todo[0]), todo[1..]);
    }
  }

  /** One label after the first whose length is neither a name character nor a dot makes a host
      name safe, and so does having one label only. */
  lemma OneLengthSafe(name: Name, i: nat)
    requires HostName(name)
    requires DOT in name ==> i < |name| && name[i] == DOT && var k := LabelEnd(name[i + 1..]); 0 < k < 45 || k == 47 || 58 <= k < 65
    ensures Safe(name)
  {
    hide IsName, LabelEnd, Text;
    if DOT in name {
      TextAt(name, i);
      assert Text(name)[i] != DOT && !NameChar(Text(name)[i]);
    } else {
      OneLabelText(name);
    }
  }

  lemma OneLabelText(name: Name)
    requires IsName(name) && DOT !in name
    ensures Text(name) == name
  {
    hide IsName, LabelEnd, Text;
    assert name != [] by { NameUnfolds(name); }
    forall i | 0 <= i < |name| ensures |Text(name)| == |name| && Text(name)[i] == name[i] {
      TextAt(name, i);
    }
    TextAt(name, 0);
  }

  /** An unsafe host name: its text is another host name, which matches its entry. */
  lemma UnsafeMatches(name: Name)
    requires HostName(name) && !Safe(name)
    ensures HostName(Text(name)) && Text(name) != name && ReadAs([name], Text(name)) == name && Enter([], name) == [name]
  {
    hide HostName, Text;
  }

  /** There are such names: x.y, where y has as many bytes as a name character has for its code. */
  lemma UnsafeNames(x: Name, y: Name)
    requires x != [] && y != [] && |x| + 1 + |y| < 192
    requires (forall i :: 0 <= i < |x| ==> NameChar(x[i])) && (forall i :: 0 <= i < |y| ==> NameChar(y[i])) && NameChar(|y|)
    ensures HostName(x + [DOT] + y) && !Safe(x + [DOT] + y) && Text(x + [DOT] + y) == x + [|y|] + y
  {
    var name := x + [DOT] + y;
    var other := x + [|y|] + y;
    SingleLabel(y);
    NoDots(name, |x|);
    assert name[|x| + 1..] == y;
    assert IsName(name);
    forall i | 0 <= i < |name| ensures |Text(name)| == |name| && Text(name)[i] == other[i] {
      TextAt(name, i);
    }
    TextAt(name, 0);
    assert Text(name) == other;
    forall i | 0 <= i < |other| ensures NameChar(other[i]) {
      assert other[i] == if i < |x| then x[i] else if i == |x| then |y| else y[i - |x| - 1];
    }
    SingleLabel(other);
    assert name[|x|] == DOT && other[|x|] == |y|;
  }

  lemma SingleLabel(name: Name)
    requires (forall i :: 0 <= i < |name| ==> NameChar(name[i])) && 0 < |name| < 192
    ensures IsName(name) && LabelEnd(name) == |name|
  {
    NoDots(name, |name|);
  }

  /** The first dot of a name is where its first label ends. */
  lemma {:induction false} NoDots(name: Name, k: nat)
    requires k <= |name| && (forall i :: 0 <= i < k ==> name[i] != DOT) && (k < |name| ==> name[k] == DOT)
    ensures LabelEnd(name) == k
    decreases k
  {
    if k > 0 {
      NoDots(name[1..], k - 1);
    }
  }
}
