/** pj_scanner with the options that JSON and XML use: white space and newlines are skipped
    (scanner.c). Methods return false for a syntax error. */
module ScannerObject {
  import opened DnsTypes
  import opened ScanText

  class Scanner {
    const text: Bytes
    var curptr: nat
    var line: nat

    ghost predicate Valid()
      reads this
    {
      curptr <= |text|
    }

    /** The text still to be scanned. */
    ghost function Rest(): Bytes
      reads this
      requires Valid()
    {
      text[curptr..]
    }

    function Peek(k: nat): Byte
      reads this
    {
      if curptr + k < |text| then text[curptr + k] else 0
    }

    /** pj_scan_init. */
    constructor (buf: Bytes)
      ensures Valid() && text == buf && Rest() == SkipWhite(buf) && line == 1 + LineEnds(buf[..curptr])
    {
      text, curptr, line := buf, 0, 1;
      new;
      assert text[0..] == text && buf[..0] == [];
      SkipWhitespace();
      assert text[0..curptr] == text[..curptr];
    }

    /** Newlines and the spaces between them, from s on. */
    method SkipNewlines(start: nat) returns (s: nat)
      requires start <= |text|
      modifies this`line
      ensures start <= s <= |text| && (s < |text| ==> !IsWhite(text[s])) && SkipWhite(text[start..]) == SkipWhite(text[s..])
      ensures line == old(line) + LineEnds(text[start..s])
    {
      hide LineEnds, SkipWhite;
      s := start;
      assert text[start..start] == [];
      NoLineEnds([]);
      while s < |text| && IsWhite(text[s])
        invariant start <= s <= |text| && SkipWhite(text[start..]) == SkipWhite(text[s..])
        invariant s > start && text[s - 1] == CR ==> s == |text| || text[s] != LF
        invariant line == old(line) + LineEnds(text[start..s])
      {
        SkipOne(text, s);
        ghost var before := s;
        if text[s] == CR {
          s := s + 1;
          if s < |text| && text[s] == LF {
            SkipOne(text, s);
            s := s + 1;
          }
          line := line + 1;
        } else if text[s] == LF {
          s := s + 1;
          line := line + 1;
        } else {
          s := s + 1;
        }
        MoreText(text, start, before, s);
      }
    }

    /** pj_scan_skip_whitespace: spaces, then newlines. */
    method SkipWhitespace()
      requires Valid()
      modifies this`curptr, this`line
      ensures Valid() && Rest() == SkipWhite(old(Rest())) && curptr >= old(curptr)
      ensures line == old(line) + LineEnds(text[old(curptr)..curptr])
    {
      hide LineEnds, SkipWhite;
      var s := curptr;
      ghost var start := curptr;
      while s < |text| && (text[s] == SPACE || text[s] == TAB)
        invariant start <= s <= |text| && SkipWhite(text[start..]) == SkipWhite(text[s..]) && line == old(line)
        invariant forall i :: start <= i < s ==> text[i] == SPACE || text[i] == TAB
      {
        SkipOne(text, s);
        s := s + 1;
      }
      NoLineEnds(text[start..s]);
      ghost var spaces := s;
      if s < |text| && (text[s] == CR || text[s] == LF) {
        s := SkipNewlines(s);
        assert text[start..s] == text[start..spaces] + text[spaces..s];
        assert spaces > start ==> text[start..spaces][spaces - start - 1] != CR;
        LineEndsMore(text[start..spaces], text[spaces..s]);
      }
      SkipWhiteHere(text[s..]);
      curptr := s;
    }

    /** pj_scan_get_char. */
    method TakeChar() returns (ok: bool)
      requires Valid()
      modifies this`curptr, this`line
      ensures Valid() && ok == GetChar(old(Rest())).Some? && (ok ==> GetChar(old(Rest())) == Some(Rest()))
    {
      if Peek(0) == 0 {
        return false;
      }
      assert text[curptr..][1..] == text[curptr + 1..];
      curptr := curptr + 1;
      SkipWhitespace();
      return true;
    }

    /** pj_scan_get_until_ch and pj_scan_get_until_chr. */
    method TakeUntil(stop: set<Byte>) returns (ok: bool, token: Bytes)
      requires Valid()
      modifies this`curptr, this`line
      ensures Valid() && ok == Until(old(Rest()), stop).Some? && (ok ==> Until(old(Rest()), stop) == Some((token, Rest())))
    {
      if curptr >= |text| {
        return false, [];
      }
      var s := curptr;
      while s < |text| && text[s] !in stop
        invariant curptr <= s <= |text| && curptr == old(curptr) && forall i :: curptr <= i < s ==> text[i] !in stop
      {
        s := s + 1;
      }
      SpanIs(Rest(), stop, s - curptr);
      token := text[curptr..s];
      assert text[curptr..][..s - curptr] == token && text[curptr..][s - curptr..] == text[s..];
      curptr := s;
      SkipWhitespace();
      return true, token;
    }

    /** pj_scan_get. */
    method TakeSpec(spec: set<Byte>) returns (ok: bool, token: Bytes)
      requires Valid()
      modifies this`curptr, this`line
      ensures Valid() && ok == Get(old(Rest()), spec).Some? && (ok ==> Get(old(Rest()), spec) == Some((token, Rest())))
    {
      var s := curptr;
      while s < |text| && text[s] in spec
        invariant curptr <= s <= |text| && curptr == old(curptr) && forall i :: curptr <= i < s ==> text[i] in spec
      {
        s := s + 1;
      }
      SpanInIs(Rest(), spec, s - curptr);
      if s == curptr {
        return false, [];
      }
      token := text[curptr..s];
      assert text[curptr..][..s - curptr] == token && text[curptr..][s - curptr..] == text[s..];
      curptr := s;
      SkipWhitespace();
      return true, token;
    }

    /** Looking back from s over backslashes. */
    method Backslashes(s: nat) returns (n: nat)
      requires curptr + 1 <= s <= |text|
      ensures n == Trailing(text[curptr + 1..s])
    {
      n := 0;
      while curptr + 1 + n < s && text[s - 1 - n] == BACKSLASH
        invariant curptr + 1 + n <= s && Trailing(text[curptr + 1..s]) == n + Trailing(text[curptr + 1..s - n])
      {
        assert text[curptr + 1..s - n][..s - n - 1 - (curptr + 1)] == text[curptr + 1..s - n - 1];
        n := n + 1;
      }
    }

    /** pj_scan_get_quotes; the token comes without its quotes. */
    method TakeQuotes(quotes: set<Byte>) returns (ok: bool, token: Bytes)
      requires Valid()
      modifies this`curptr, this`line
      ensures Valid() && ok == GetQuotes(old(Rest()), quotes).Some? && (ok ==> GetQuotes(old(Rest()), quotes) == Some((token, Rest())))
    {
      hide Trailing;
      if curptr == |text| || text[curptr] !in quotes {
        return false, [];
      }
      var start, quote := curptr, text[curptr];
      ghost var t := Rest();
      ghost var k := QuoteEnd(t, quote, 1);
      var s, found := start + 1, false;
      while !found && s < |text| && (text[s] != LF || quote == LF)
        invariant start < s <= |text| && curptr == start && quote == t[0]
        invariant if found then s < |text| && k == s - start else k == QuoteEnd(t, quote, s - start)
        decreases |text| - s, !found
      {
        if text[s] == quote {
          var n := Backslashes(s);
          assert t[1..s - start] == text[start + 1..s];
          if n % 2 == 0 {
            found := true;
          } else {
            s := s + 1;
          }
        } else {
          s := s + 1;
        }
      }
      if !found {
        return false, [];
      }
      token := text[start + 1..s];
      assert t[1..k] == token && t[k + 1..] == text[s + 1..];
      curptr := s + 1;
      SkipWhitespace();
      return true, token;
    }

    /** pj_scan_advance_n. */
    method Advance(n: nat, skip: bool) returns (ok: bool)
      requires Valid()
      modifies this`curptr, this`line
      ensures Valid() && ok == AdvanceN(old(Rest()), n, skip).Some? && (ok ==> AdvanceN(old(Rest()), n, skip) == Some(Rest()))
    {
      if curptr + n > |text| {
        return false;
      }
      assert text[curptr..][n..] == text[curptr + n..];
      curptr := curptr + n;
      if skip {
        SkipWhitespace();
      }
      return true;
    }

    /** pj_scan_strcmp; None for a syntax error. */
    method Compare(s: Bytes) returns (r: Option<bool>)
      requires Valid()
      ensures r == StrCmp(Rest(), s)
    {
      if curptr + |s| > |text| {
        return None;
      }
      assert text[curptr..][..|s|] == text[curptr..curptr + |s|];
      return Some(text[curptr..curptr + |s|] == s);
    }
  }

  lemma SkipOne(t: Bytes, s: nat)
    requires s < |t| && IsWhite(t[s])
    ensures SkipWhite(t[s..]) == SkipWhite(t[s + 1..])
  {
    assert t[s..][1..] == t[s + 1..];
  }

  lemma MoreText(t: Bytes, start: nat, before: nat, s: nat)
    requires start <= before < s <= |t| && (s == before + 1 || (s == before + 2 && t[before] == CR && t[before + 1] == LF))
    requires before > start && t[before - 1] == CR ==> t[before] != LF
    ensures LineEnds(t[start..s]) == LineEnds(t[start..before]) + if t[before] == CR || t[before] == LF then 1 else 0
  {
    hide LineEnds;
    assert t[start..s] == t[start..before] + t[before..s];
    LineEndsMore(t[start..before], t[before..s]);
    OneLineEnd(t[before..s]);
  }

  lemma OneLineEnd(t: Bytes)
    requires |t| == 1 || (|t| == 2 && t[0] == CR && t[1] == LF)
    ensures LineEnds(t) == if t[0] == CR || t[0] == LF then 1 else 0
  {
    assert t[1..] == [] || t[2..] == [];
  }

  lemma {:induction false} LineEndsMore(a: Bytes, b: Bytes)
    requires !(a != [] && a[|a| - 1] == CR && b != [] && b[0] == LF)
    ensures LineEnds(a + b) == LineEnds(a) + LineEnds(b)
    decreases |a|
  {
    var t := a + b;
    if a == [] {
      assert t == b;
    } else if a[0] == CR && |a| > 1 && a[1] == LF {
      assert t[2..] == a[2..] + b;
      LineEndsMore(a[2..], b);
    } else {
      assert t[1..] == a[1..] + b;
      LineEndsMore(a[1..], b);
    }
  }

  lemma {:induction false} NoLineEnds(t: Bytes)
    requires forall i :: 0 <= i < |t| ==> t[i] == SPACE || t[i] == TAB
    ensures LineEnds(t) == 0
    decreases |t|
  {
    if t != [] {
      NoLineEnds(t[1..]);
    }
  }
}
