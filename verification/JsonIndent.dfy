/** How deep a value may be nested before the writer reads past its indentation buffer (json.c). */
module JsonIndent {
  import opened DnsTypes
  import opened ScanText
  import opened JsonText

  const DEEPEST := 33

  /** All numbers are whole and fit an int. */
  predicate Whole(v: Value)
    decreases v
  {
    match v
    case Number(n) => n == n.Floor as real && -0x8000_0000 <= n.Floor < 0x8000_0000
    case List(items) => forall i :: 0 <= i < |items| ==> Whole(items[i].value)
    case Obj(members) => forall i :: 0 <= i < |members| ==> Whole(members[i].value)
    case _ => true
  }

  /** The levels that go on lines of their own: those whose first child has a name. */
  function Depth(v: Value): nat
    decreases v, 0
  {
    match v
    case List(items) => One(items) + Deepest(items, |items|)
    case Obj(members) => One(members) + Deepest(members, |members|)
    case _ => 0
  }

  function One(es: seq<Elem>): nat {
    if es != [] && es[0].name != [] then 1 else 0
  }

  /** The depth of the deepest of the first n children. */
  function Deepest(es: seq<Elem>, n: nat): nat
    requires n <= |es|
    decreases es, n
  {
    if n == 0 then 0
    else
      var d, m := Depth(es[n - 1].value), Deepest(es, n - 1);
      if d > m then d else m
  }

  lemma {:induction false} DeepestIs(es: seq<Elem>, n: nat, bound: int)
    requires n <= |es| && bound >= 0
    ensures Deepest(es, n) <= bound <==> forall i :: 0 <= i < n ==> Depth(es[i].value) <= bound
    decreases n
  {
    if n > 0 {
      DeepestIs(es, n - 1, bound);
    }
  }

  /** The writer stays within the indentation buffer exactly down to 33 such levels. */
  lemma {:induction false} IndentationFits(v: Value, k: nat)
    requires Whole(v) && k <= DEEPEST
    ensures Writable(v, INDENT_SIZE * k) <==> k + Depth(v) <= DEEPEST
    decreases v
  {
    if v.List? {
      ChildrenFit(v, v.items, k);
    } else if v.Obj? {
      ChildrenFit(v, v.members, k);
    }
  }

  lemma {:induction false} ChildrenFit(v: Value, es: seq<Elem>, k: nat)
    requires k <= DEEPEST && (forall i :: 0 <= i < |es| ==> Whole(es[i].value)) && (v == List(es) || v == Obj(es))
    ensures WritableAll(es, ChildIndent(es, INDENT_SIZE * k)) <==> k + One(es) + Deepest(es, |es|) <= DEEPEST
    decreases es
  {
    hide Depth, Whole, Writable;
    var n := k + One(es);
    assert ChildIndent(es, INDENT_SIZE * k) == INDENT_SIZE * n;
    if n <= DEEPEST {
      DeepestIs(es, |es|, DEEPEST - n);
      forall i | 0 <= i < |es| ensures Writable(es[i].value, INDENT_SIZE * n) <==> n + Depth(es[i].value) <= DEEPEST {
        IndentationFits(es[i].value, n);
      }
    }
  }
}
