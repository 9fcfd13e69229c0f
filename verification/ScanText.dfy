/** What each function of scanner.c does to the text that is still to be scanned, with white
    space and newlines skipped after every token. */
module ScanText {
  import opened DnsTypes

  type Bytes = seq<Byte>

  const TAB: Byte := 9
  const LF: Byte := 10
  const CR: Byte := 13
  const SPACE: Byte := 32
  const QUOTE: Byte := 34
  const BACKSLASH: Byte := 92

  predicate IsWhite(b: Byte) {
    b == SPACE || b == TAB || b == LF || b == CR
  }

  /** *curptr; the text ends in a zero byte. */
  function Head(t: Bytes): Byte {
    if t == [] then 0 else t[0]
  }

  /** pj_scan_skip_whitespace. */
  function SkipWhite(t: Bytes): (r: Bytes)
    ensures |r| <= |t|
  {
    if t != [] && IsWhite(t[0]) then SkipWhite(t[1..]) else t
  }

  /** How many lines end in the text; a carriage return and line feed are one end. */
  function LineEnds(t: Bytes): nat {
    if t == [] then 0
    else if t[0] == CR && |t| > 1 && t[1] == LF then 1 + LineEnds(t[2..])
    else if t[0] == CR || t[0] == LF then 1 + LineEnds(t[1..])
    else LineEnds(t[1..])
  }

  /** A line ends at a carriage return, and at a line feed that does not follow one. */
  predicate EndsLine(t: Bytes, i: nat)
    requires i < |t|
  {
    t[i] == 13 || (t[i] == 10 && !(i > 0 && t[i - 1] == 13))
  }

  function EndsBefore(t: Bytes, n: nat): nat
    requires n <= |t|
  {
    if n == 0 then 0 else EndsBefore(t, n - 1) + if EndsLine(t, n - 1) then 1 else 0
  }

  lemma {:induction false} EndsAfter(t: Bytes, k: nat, n: nat)
    requires 0 < k <= n <= |t| && (k < n ==> !(t[k] == 10 && t[k - 1] == 13))
    ensures EndsBefore(t, n) == EndsBefore(t, k) + EndsBefore(t[k..], n - k)
    decreases n
  {
    if n > k {
      EndsAfter(t, k, n - 1);
      assert t[k..][n - 1 - k] == t[n - 1];
      assert n - 1 > k ==> t[k..][n - 2 - k] == t[n - 2];
    }
  }

  lemma {:induction false} LineEndsIs(t: Bytes)
    ensures LineEnds(t) == EndsBefore(t, |t|)
    decreases |t|
  {
    if t != [] {
      var k := if t[0] == CR && |t| > 1 && t[1] == LF then 2 else 1;
      LineEndsIs(t[k..]);
      EndsAfter(t, k, |t|);
      assert EndsBefore(t, 1) == EndsBefore(t, 0) + if EndsLine(t, 0) then 1 else 0;
      assert k == 2 ==> EndsBefore(t, 2) == EndsBefore(t, 1) + if EndsLine(t, 1) then 1 else 0;
    }
  }

  /** pj_scan_get_char. */
  function GetChar(t: Bytes): (r: Option<Bytes>)
    ensures r.Some? ==> |r.value| < |t|
  {
    if Head(t) == 0 then None else Some(SkipWhite(t[1..]))
  }

  /** The index of the first byte in the set, or the end. */
  function Span(t: Bytes, stop: set<Byte>): (k: nat)
    ensures k <= |t| && (k < |t| ==> t[k] in stop) && forall i :: 0 <= i < k ==> t[i] !in stop
  {
    if t == [] || t[0] in stop then 0 else 1 + Span(t[1..], stop)
  }

  /** pj_scan_get_until_ch and pj_scan_get_until_chr: the token, and what follows it. */
  function Until(t: Bytes, stop: set<Byte>): (r: Option<(Bytes, Bytes)>)
    ensures r.Some? ==> |r.value.1| + |r.value.0| <= |t|
  {
    if t == [] then None else Some((t[..Span(t, stop)], SkipWhite(t[Span(t, stop)..])))
  }

  /** The index of the first byte outside the set, or the end. */
  function SpanIn(t: Bytes, spec: set<Byte>): (k: nat)
    ensures k <= |t| && (k < |t| ==> t[k] !in spec) && forall i :: 0 <= i < k ==> t[i] in spec
  {
    if t == [] || t[0] !in spec then 0 else 1 + SpanIn(t[1..], spec)
  }

  /** pj_scan_get. */
  function Get(t: Bytes, spec: set<Byte>): (r: Option<(Bytes, Bytes)>)
    ensures r.Some? ==> |r.value.1| < |t|
  {
    var k := SpanIn(t, spec);
    if k == 0 then None else Some((t[..k], SkipWhite(t[k..])))
  }

  /** How many backslashes stand at the end. */
  function Trailing(t: Bytes): (n: nat)
    ensures n <= |t|
  {
    if t == [] || t[|t| - 1] != BACKSLASH then 0 else 1 + Trailing(t[..|t| - 1])
  }

  /** The first quote from s on that no odd number of backslashes precedes, before the end of
      the line; the end of the text if there is none. */
  function QuoteEnd(t: Bytes, quote: Byte, s: nat): (k: nat)
    requires 1 <= s <= |t|
    ensures k <= |t| && (k < |t| ==> k >= s && t[k] == quote)
    decreases |t| - s
  {
    if s == |t| || (t[s] == LF && quote != LF) then |t|
    else if t[s] == quote && Trailing(t[1..s]) % 2 == 0 then s
    else QuoteEnd(t, quote, s + 1)
  }

  /** pj_scan_get_quotes, where a quote ends with the byte that it begins with; the token is
      what stands between. */
  function GetQuotes(t: Bytes, quotes: set<Byte>): (r: Option<(Bytes, Bytes)>)
    ensures r.Some? ==> |r.value.1| < |t|
  {
    if t == [] || t[0] !in quotes then None
    else
      var k := QuoteEnd(t, t[0], 1);
      if k == |t| then None else Some((t[1..k], SkipWhite(t[k + 1..])))
  }

  /** pj_scan_advance_n. */
  function AdvanceN(t: Bytes, n: nat, skip: bool): (r: Option<Bytes>)
    ensures r.Some? && n > 0 ==> |r.value| < |t|
  {
    if n > |t| then None else Some(if skip then SkipWhite(t[n..]) else t[n..])
  }

  /** pj_scan_strcmp; None is a syntax error. */
  function StrCmp(t: Bytes, s: Bytes): Option<bool> {
    if |s| > |t| then None else Some(t[..|s|] == s)
  }

  lemma SkipWhiteHere(t: Bytes)
    requires t == [] || !IsWhite(t[0])
    ensures SkipWhite(t) == t
  {
  }

  lemma {:induction false} SkipWhiteOver(w: Bytes, t: Bytes)
    requires forall i :: 0 <= i < |w| ==> IsWhite(w[i])
    ensures SkipWhite(w + t) == SkipWhite(t)
    decreases |w|
  {
    if w == [] {
      assert w + t == t;
    } else {
      assert (w + t)[1..] == w[1..] + t;
      SkipWhiteOver(w[1..], t);
    }
  }

  lemma {:induction false} SpanIs(t: Bytes, stop: set<Byte>, k: nat)
    requires k <= |t| && (k < |t| ==> t[k] in stop) && forall i :: 0 <= i < k ==> t[i] !in stop
    ensures Span(t, stop) == k
    decreases k
  {
    if k > 0 {
      SpanIs(t[1..], stop, k - 1);
    }
  }

  lemma {:induction false} SpanInIs(t: Bytes, spec: set<Byte>, k: nat)
    requires k <= |t| && (k < |t| ==> t[k] !in spec) && forall i :: 0 <= i < k ==> t[i] in spec
    ensures SpanIn(t, spec) == k
    decreases k
  {
    if k > 0 {
      SpanInIs(t[1..], spec, k - 1);
    }
  }

  /** A token up to a delimiter. */
  lemma UntilToken(token: Bytes, t: Bytes, stop: set<Byte>)
    requires (forall i :: 0 <= i < |token| ==> token[i] !in stop) && t != [] && t[0] in stop
    ensures Until(token + t, stop) == Some((token, SkipWhite(t)))
  {
    var s := token + t;
    SpanIs(s, stop, |token|);
    assert s[..|token|] == token && s[|token|..] == t;
  }

  lemma TrailingOf(t: Bytes, c: Byte)
    ensures Trailing(t + [c]) == if c == BACKSLASH then Trailing(t) + 1 else 0
  {
    assert (t + [c])[..|t|] == t;
  }

  /** One byte of the scan. */
  lemma OneOver(t: Bytes, s: nat)
    requires 1 <= s < |t| && t[s] != LF
    ensures t[s] != QUOTE || Trailing(t[1..s]) % 2 == 1 ==> QuoteEnd(t, QUOTE, s) == QuoteEnd(t, QUOTE, s + 1)
    ensures Trailing(t[1..s + 1]) == if t[s] == BACKSLASH then Trailing(t[1..s]) + 1 else 0
  {
    assert t[1..s + 1] == t[1..s] + [t[s]];
    TrailingOf(t[1..s], t[s]);
  }

  /** Bytes that mean nothing to the scan. */
  lemma {:induction false} OthersOver(t: Bytes, s: nat, e: Bytes)
    requires 1 <= s && s + |e| < |t| && t[s..s + |e|] == e && e != []
    requires forall i :: 0 <= i < |e| ==> e[i] != BACKSLASH && e[i] != QUOTE && e[i] != LF
    ensures QuoteEnd(t, QUOTE, s) == QuoteEnd(t, QUOTE, s + |e|) && Trailing(t[1..s + |e|]) == 0
    decreases |e|
  {
    hide Trailing, QuoteEnd;
    assert e[0] == t[s];
    OneOver(t, s);
    if |e| > 1 {
      assert t[s + 1..s + 1 + |e[1..]|] == t[s..s + |e|][1..];
      OthersOver(t, s + 1, e[1..]);
    }
  }

  lemma GetCharIs(c: Byte, rest: Bytes)
    requires c != 0
    ensures GetChar([c] + rest) == Some(SkipWhite(rest)) && Head([c] + rest) == c
  {
    hide SkipWhite;
    assert ([c] + rest)[1..] == rest;
  }
}
