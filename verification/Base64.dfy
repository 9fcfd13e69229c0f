/** pj_base64_encode and pj_base64_decode (base64.c; section 4 of RFC 4648). */
module Base64 {
  import opened DnsTypes

  type Bytes = seq<Byte>
  type Sextet = x: int | 0 <= x < 64

  const PADDING: Byte := 61
  const ETOOSMALL := 70019  // PJ_ETOOSMALL

  /** base64_char. */
  function CharOf(d: Sextet): Byte {
    if d < 26 then 65 + d else if d < 52 then 71 + d else if d < 62 then d - 4 else if d == 62 then 43 else 47
  }

  predicate InAlphabet(c: Byte) {
    65 <= c <= 90 || 97 <= c <= 122 || 48 <= c <= 57 || c == 43 || c == 47
  }

  /** base256_char; -1 for a byte outside the alphabet. */
  function ValueOf(c: Byte): (v: int)
    ensures -1 <= v < 64 && (v >= 0 <==> InAlphabet(c))
  {
    if 65 <= c <= 90 then c - 65
    else if 97 <= c <= 122 then c - 71
    else if 48 <= c <= 57 then c + 4
    else if c == 43 then 62
    else if c == 47 then 63
    else -1
  }

  lemma CharBack(d: Sextet)
    ensures ValueOf(CharOf(d)) == d && CharOf(d) != PADDING
  {
  }

  /** The alphabet of table 1 of RFC 4648: upper case, lower case, digits, plus and slash. */
  lemma AlphabetIs(d: Sextet)
    ensures CharOf(0) == 'A' as int && CharOf(26) == 'a' as int && CharOf(52) == '0' as int && CharOf(62) == '+' as int && CharOf(63) == '/' as int
    ensures d !in {25, 51, 61, 62, 63} ==> CharOf(d + 1) == CharOf(d) + 1
  {
  }

  // ----- encoding -----

  /** The four sextets of three octets. */
  function Sextets(c1: Byte, c2: Byte, c3: Byte): (s: seq<Sextet>)
    ensures |s| == 4
  {
    [c1 / 4, c1 % 4 * 16 + c2 / 16, c2 % 16 * 4 + c3 / 64, c3 % 64]
  }

  function Number(base: int, digits: seq<int>): int {
    if digits == [] then 0 else Number(base, digits[..|digits| - 1]) * base + digits[|digits| - 1]
  }

  /** They are the digits to the base 64 of the number whose digits to the base 256 are given. */
  lemma SextetsAreDigits(c1: Byte, c2: Byte, c3: Byte)
    ensures Number(64, Sextets(c1, c2, c3)) == Number(256, [c1, c2, c3])
  {
    var s: seq<int> := Sextets(c1, c2, c3);
    assert s[..1] == [] + [s[0]] && s[..2] == s[..1] + [s[1]] && s[..3] == s[..2] + [s[2]] && s == s[..3] + [s[3]];
    NumberMore(64, [], s[0]);
    NumberMore(64, s[..1], s[1]);
    NumberMore(64, s[..2], s[2]);
    NumberMore(64, s[..3], s[3]);
    var t: seq<int> := [c1, c2, c3];
    assert t[..1] == [] + [c1] && t[..2] == t[..1] + [c2] && t == t[..2] + [c3];
    NumberMore(256, [], c1);
    NumberMore(256, t[..1], c2);
    NumberMore(256, t[..2], c3);
  }

  lemma NumberMore(base: int, digits: seq<int>, d: int)
    ensures Number(base, digits + [d]) == Number(base, digits) * base + d
  {
    assert (digits + [d])[..|digits|] == digits;
  }

  /** base256to64. */
  function Group(c1: Byte, c2: Byte, c3: Byte, padding: nat): (g: Bytes)
    requires padding <= 2
    ensures |g| == 4
  {
    var s := Sextets(c1, c2, c3);
    if padding == 0 then [CharOf(s[0]), CharOf(s[1]), CharOf(s[2]), CharOf(s[3])]
    else if padding == 1 then [CharOf(s[0]), CharOf(s[1]), CharOf(s[2]), PADDING]
    else [CharOf(s[0]), CharOf(s[1]), PADDING, PADDING]
  }

  function Encode(x: Bytes): Bytes {
    if x == [] then []
    else if |x| == 1 then Group(x[0], 0, 0, 2)
    else if |x| == 2 then Group(x[0], x[1], 0, 1)
    else Group(x[0], x[1], x[2], 0) + Encode(x[3..])
  }

  /** Four characters for every three octets begun, within the macro of the header. */
  lemma {:induction false} EncodedLength(x: Bytes)
    ensures |Encode(x)| == (|x| + 2) / 3 * 4 <= |x| * 4 / 3 + 3
    decreases |x|
  {
    hide Group;
    if |x| > 2 {
      EncodedLength(x[3..]);
    }
  }

  lemma EncodeStep(x: Bytes, i: nat)
    requires i <= |x|
    ensures i == |x| ==> Encode(x[i..]) == []
    ensures i + 1 == |x| ==> Encode(x[i..]) == Group(x[i], 0, 0, 2)
    ensures i + 2 == |x| ==> Encode(x[i..]) == Group(x[i], x[i + 1], 0, 1)
    ensures i + 3 <= |x| ==> Encode(x[i..]) == Group(x[i], x[i + 1], x[i + 2], 0) + Encode(x[i + 3..])
  {
    hide Group;
    if i + 3 <= |x| {
      assert x[i..][3..] == x[i + 3..];
    }
  }

  /** The first n elements of the output. */
  ghost predicate Written(buf0: Bytes, buf: Bytes, done: Bytes) {
    |buf| == |buf0| && |done| <= |buf| && buf[..|done|] == done && buf[|done|..] == buf0[|done|..]
  }

  method PutGroup(output: array<Byte>, po: nat, g: Bytes, ghost buf0: Bytes, ghost done: Bytes)
    requires |g| == 4 && po == |done| && po + 4 <= output.Length && Written(buf0, output[..], done)
    modifies output
    ensures Written(buf0, output[..], done + g)
  {
    ghost var was := output[..];
    output[po], output[po + 1], output[po + 2], output[po + 3] := g[0], g[1], g[2], g[3];
    assert output[..po] == was[..po] && output[po..po + 4] == g && output[po + 4..] == was[po + 4..];
    assert output[..po + 4] == output[..po] + output[po..po + 4];
    assert was[po + 4..] == was[po..][4..] && buf0[po + 4..] == buf0[po..][4..];
  }

  /** pj_base64_encode; outLen is in and out. */
  method EncodeTo(input: Bytes, output: array<Byte>, outLen: nat) returns (status: nat, outLen': nat)
    requires outLen <= output.Length
    modifies output
    ensures status == if outLen >= |input| * 4 / 3 + 3 then SUCCESS else ETOOSMALL
    ensures status == SUCCESS ==> outLen' == |Encode(input)| <= outLen && output[..outLen'] == Encode(input) && output[outLen'..] == old(output[outLen'..])
  {
    hide Group, Encode, Written;
    if outLen < |input| * 4 / 3 + 3 {
      return ETOOSMALL, outLen;
    }
    EncodedLength(input);
    ghost var buf0, done := output[..], [];
    assert Written(buf0, output[..], done) by { NothingWritten(buf0); }
    var i, po := 0, 0;
    assert input[0..] == input && done + Encode(input) == Encode(input);
    while i < |input|
      invariant 0 <= i <= |input| && po == |done| && Written(buf0, output[..], done) && Encode(input) == done + Encode(input[i..])
    {
      EncodeStep(input, i);
      var c1 := input[i];
      i := i + 1;
      var g;
      if i == |input| {
        g := Group(c1, 0, 0, 2);
      } else {
        var c2 := input[i];
        i := i + 1;
        if i == |input| {
          g := Group(c1, c2, 0, 1);
        } else {
          var c3 := input[i];
          i := i + 1;
          g := Group(c1, c2, c3, 0);
        }
      }
      EncodeStep(input, i);
      Gathered(Encode(input), done, g, Encode(input[i..]));
      PutGroup(output, po, g, buf0, done);
      done := done + g;
      po := po + 4;
    }
    EncodeStep(input, i);
    WrittenIs(buf0, output[..], done);
    return SUCCESS, po;
  }

  lemma Gathered(whole: Bytes, a: Bytes, b: Bytes, c: Bytes)
    ensures whole == a + (b + c) ==> whole == a + b + c
    ensures whole == a + b && c == [] ==> whole == a + b + c
  {
  }

  lemma NothingWritten(buf: Bytes)
    ensures Written(buf, buf, [])
  {
  }

  lemma WrittenIs(buf0: Bytes, buf: Bytes, done: Bytes)
    requires Written(buf0, buf, done)
    ensures |done| <= |buf| && buf[..|done|] == done && buf[|done|..] == buf0[|done|..] && done + [] == done
  {
  }

  // ----- decoding -----

  function First(a: int, b: int): Byte
    requires 0 <= a < 64 && 0 <= b < 64
  {
    a * 4 + b / 16
  }

  function Second(b: int, c: int): Byte
    requires 0 <= b < 64 && 0 <= c < 64
  {
    b % 16 * 16 + c / 4
  }

  function Third(c: int, d: int): Byte
    requires 0 <= c < 64 && 0 <= d < 64
  {
    c % 4 * 64 + d
  }

  /** Octets from sextets; one left over says nothing. */
  function Octets(d: seq<Sextet>): Bytes {
    if |d| < 2 then []
    else if |d| == 2 then [First(d[0], d[1])]
    else if |d| == 3 then [First(d[0], d[1]), Second(d[1], d[2])]
    else [First(d[0], d[1]), Second(d[1], d[2]), Third(d[2], d[3])] + Octets(d[4..])
  }

  /** The text without its trailing padding. */
  function Stripped(t: Bytes): (s: Bytes)
    ensures |s| <= |t| && (s != [] ==> s[|s| - 1] != PADDING)
  {
    if t != [] && t[|t| - 1] == PADDING then Stripped(t[..|t| - 1]) else t
  }

  /** The values of the characters of the alphabet; all others are passed over. */
  function Values(t: Bytes): (d: seq<Sextet>)
    ensures |d| <= |t|
  {
    if t == [] then [] else (if InAlphabet(t[0]) then [ValueOf(t[0])] else []) + Values(t[1..])
  }

  /** The text ends in a byte outside the alphabet. */
  predicate BadEnd(t: Bytes) {
    t != [] && !InAlphabet(t[|t| - 1])
  }

  /** What the decoding loop takes in: a byte outside the alphabet counts as -1, which is all
      ones, when it is the last. */
  function Taken(t: Bytes): (d: seq<Sextet>)
    ensures |d| <= |t|
    decreases |t|
  {
    if t == [] then []
    else if InAlphabet(t[0]) then [ValueOf(t[0])] + Taken(t[1..])
    else if |t| == 1 then [63]
    else Taken(t[1..])
  }

  function Decode(t: Bytes): Bytes {
    Octets(Taken(Stripped(t)))
  }

  lemma {:induction false} TakenIs(t: Bytes)
    ensures Taken(t) == Values(t) + if BadEnd(t) then [63] else []
    decreases |t|
  {
    hide InAlphabet, ValueOf;
    if |t| > 1 {
      TakenIs(t[1..]);
      assert t[1..][|t| - 2] == t[|t| - 1];
      assert [ValueOf(t[0])] + (Values(t[1..]) + [63]) == [ValueOf(t[0])] + Values(t[1..]) + [63];
      assert [] + Values(t[1..]) == Values(t[1..]);
    } else if |t| == 1 {
      assert t[1..] == [];
    }
  }

  lemma {:induction false} OctetCount(d: seq<Sextet>)
    ensures |Octets(d)| == |d| * 3 / 4
    decreases |d|
  {
    if |d| >= 4 {
      OctetCount(d[4..]);
    }
  }

  /** Bytes outside the alphabet do not matter exactly when the text, without its padding, does
      not end in one, or when the characters of the alphabet come in fours. */
  lemma StrayBytesIff(t: Bytes)
    ensures Decode(t) == Octets(Values(Stripped(t))) <==> !BadEnd(Stripped(t)) || |Values(Stripped(t))| % 4 == 0
  {
    hide Octets, Values, Taken, Stripped, BadEnd;
    var s := Stripped(t);
    TakenIs(s);
    var v := Values(s);
    if BadEnd(s) {
      OneMoreSaysIff(v, 63);
    } else {
      assert v + [] == v;
    }
  }

  lemma OneMoreSaysIff(v: seq<Sextet>, x: Sextet)
    ensures Octets(v + [x]) == Octets(v) <==> |v| % 4 == 0
  {
    hide Octets;
    if |v| % 4 == 0 {
      OneMoreSays(v, x);
    } else {
      OctetCount(v);
      OctetCount(v + [x]);
      ThreeQuarters(|v|);
    }
  }

  lemma ThreeQuarters(n: nat)
    requires n % 4 != 0
    ensures (n + 1) * 3 / 4 > n * 3 / 4
  {
    var k := n / 4;
    assert n == 4 * k + 1 || n == 4 * k + 2 || n == 4 * k + 3;
  }

  lemma {:induction false} OneMoreSays(v: seq<Sextet>, x: Sextet)
    requires |v| % 4 == 0
    ensures Octets(v + [x]) == Octets(v)
    decreases |v|
  {
    if v != [] {
      OneMoreSays(v[4..], x);
      assert (v + [x])[4..] == v[4..] + [x];
    }
  }

  /** The output fits the macro of the header. */
  lemma DecodedLength(t: Bytes)
    ensures |Decode(t)| <= |Stripped(t)| * 3 / 4
  {
    OctetCount(Taken(Stripped(t)));
  }

  // ----- round trip -----

  /** The sextets of the last, incomplete group count without the padding. */
  function AllSextets(x: Bytes): seq<Sextet> {
    if x == [] then []
    else if |x| == 1 then Sextets(x[0], 0, 0)[..2]
    else if |x| == 2 then Sextets(x[0], x[1], 0)[..3]
    else Sextets(x[0], x[1], x[2]) + AllSextets(x[3..])
  }

  function Chars(d: seq<Sextet>): (t: Bytes)
    ensures |t| == |d|
  {
    seq(|d|, i requires 0 <= i < |d| => CharOf(d[i]))
  }

  function Pads(n: nat): (p: Bytes)
    ensures |p| == n
  {
    seq(n, i requires 0 <= i < n => PADDING)
  }

  lemma {:induction false} EncodeIsChars(x: Bytes)
    ensures exists n: nat :: Encode(x) == Chars(AllSextets(x)) + Pads(n)
    decreases |x|
  {
    hide CharOf;
    if x == [] {
      assert Encode(x) == Chars(AllSextets(x)) + Pads(0);
    } else if |x| == 1 {
      assert Encode(x) == Chars(AllSextets(x)) + Pads(2);
    } else if |x| == 2 {
      assert Encode(x) == Chars(AllSextets(x)) + Pads(1);
    } else {
      EncodeIsChars(x[3..]);
      var n: nat :| Encode(x[3..]) == Chars(AllSextets(x[3..])) + Pads(n);
      assert Chars(AllSextets(x)) == Group(x[0], x[1], x[2], 0) + Chars(AllSextets(x[3..]));
      assert Encode(x) == Chars(AllSextets(x)) + Pads(n);
    }
  }

  lemma ThreeBack(c1: Byte, c2: Byte, c3: Byte)
    ensures var s := Sextets(c1, c2, c3); First(s[0], s[1]) == c1 && Second(s[1], s[2]) == c2 && Third(s[2], s[3]) == c3
  {
  }

  lemma {:induction false} OctetsBack(x: Bytes)
    ensures Octets(AllSextets(x)) == x
    decreases |x|
  {
    hide Sextets, First, Second, Third;
    if |x| > 2 {
      ThreeBack(x[0], x[1], x[2]);
      OctetsBack(x[3..]);
      var d := AllSextets(x);
      assert d[4..] == AllSextets(x[3..]);
      assert x == [x[0], x[1], x[2]] + x[3..];
    } else if |x| == 2 {
      ThreeBack(x[0], x[1], 0);
    } else if |x| == 1 {
      ThreeBack(x[0], 0, 0);
    }
  }

  lemma {:induction false} StripPads(t: Bytes, n: nat)
    requires t == [] || t[|t| - 1] != PADDING
    ensures Stripped(t + Pads(n)) == t
    decreases n
  {
    if n == 0 {
      assert t + Pads(0) == t;
    } else {
      assert (t + Pads(n))[..|t| + n - 1] == t + Pads(n - 1);
      StripPads(t, n - 1);
    }
  }

  lemma {:induction false} TakenBack(d: seq<Sextet>)
    ensures Taken(Chars(d)) == d
    decreases |d|
  {
    if d != [] {
      CharBack(d[0]);
      TakenBack(d[1..]);
      assert Chars(d)[1..] == Chars(d[1..]);
      assert [d[0]] + d[1..] == d;
    }
  }

  /** Decoding undoes encoding. */
  lemma DecodeBack(x: Bytes)
    ensures Decode(Encode(x)) == x
  {
    hide Encode, Octets, Taken, Stripped, CharOf, AllSextets;
    EncodeIsChars(x);
    var d := AllSextets(x);
    var n: nat :| Encode(x) == Chars(d) + Pads(n);
    if d != [] {
      CharBack(d[|d| - 1]);
    }
    StripPads(Chars(d), n);
    TakenBack(d);
    OctetsBack(x);
  }

  /** One character for the loop: bytes outside the alphabet are passed over, but not the last. */
  method NextSextet(buf: Bytes, start: nat, len: nat) returns (c: int, i: nat)
    requires start < len <= |buf|
    ensures start < i <= len && -1 <= c < 64 && Taken(buf[start..len]) == [c % 64] + Taken(buf[i..len])
    ensures c == -1 ==> i == len
  {
    i := start;
    ghost var whole := Taken(buf[start..len]);
    TakenStep(buf, i, len);
    c := ValueOf(buf[i]);
    i := i + 1;
    while c == -1 && i < len
      invariant start < i <= len && -1 <= c < 64
      invariant c == -1 && i < len ==> whole == Taken(buf[i..len])
      invariant c != -1 || i == len ==> whole == [c % 64] + Taken(buf[i..len])
    {
      TakenStep(buf, i, len);
      c := ValueOf(buf[i]);
      i := i + 1;
    }
  }

  lemma TakenStep(buf: Bytes, i: nat, len: nat)
    requires i < len <= |buf|
    ensures var v := ValueOf(buf[i]);
      && (v >= 0 ==> Taken(buf[i..len]) == [v] + Taken(buf[i + 1..len]))
      && (v < 0 && i + 1 == len ==> Taken(buf[i..len]) == [63] + Taken(buf[i + 1..len]))
      && (v < 0 && i + 1 < len ==> Taken(buf[i..len]) == Taken(buf[i + 1..len]))
  {
    hide InAlphabet;
    assert buf[i..len][1..] == buf[i + 1..len];
  }

  /** The inner loop: up to four sextets. */
  method FillFour(buf: Bytes, start: nat, len: nat) returns (c: seq<int>, i: nat)
    requires start < len <= |buf|
    ensures start < i <= len && 1 <= |c| <= 4 && (|c| < 4 ==> i == len) && forall k :: 0 <= k < |c| ==> 0 <= c[k] < 64
    ensures Taken(buf[start..len]) == c + Taken(buf[i..len])
  {
    hide Taken;
    i, c := start, [];
    assert [] + Taken(buf[start..len]) == Taken(buf[start..len]);
    while |c| < 4 && i < len
      invariant start <= i <= len && |c| <= 4 && (i > start <==> |c| > 0) && forall k :: 0 <= k < |c| ==> 0 <= c[k] < 64
      invariant Taken(buf[start..len]) == c + Taken(buf[i..len])
      decreases len - i
    {
      var v, next := NextSextet(buf, i, len);
      assert c + ([v % 64] + Taken(buf[next..len])) == c + [v % 64] + Taken(buf[next..len]);
      c := c + [v % 64];
      i := next;
    }
  }

  method PutBytes(out: array<Byte>, j: nat, g: Bytes, ghost buf0: Bytes, ghost done: Bytes)
    requires j == |done| && j + |g| <= out.Length && |g| <= 3 && Written(buf0, out[..], done)
    modifies out
    ensures Written(buf0, out[..], done + g)
  {
    ghost var was := out[..];
    forall k | 0 <= k < |g| {
      out[j + k] := g[k];
    }
    assert out[..j] == was[..j] && out[j..j + |g|] == g && out[j + |g|..] == was[j + |g|..];
    assert out[..j + |g|] == out[..j] + out[j..j + |g|];
    assert was[j + |g|..] == was[j..][|g|..] && buf0[j + |g|..] == buf0[j..][|g|..];
  }

  lemma OctetsStep(c: seq<int>, rest: seq<Sextet>)
    requires 1 <= |c| <= 4 && (forall k :: 0 <= k < |c| ==> 0 <= c[k] < 64) && (|c| < 4 ==> rest == [])
    ensures var d: seq<Sextet> := c; Octets(d + rest) == Octets(d) + Octets(rest) && |Octets(d)| == |c| - 1
  {
    var d: seq<Sextet> := c;
    if |c| == 4 {
      assert (d + rest)[4..] == rest && d[4..] == [];
    } else {
      assert d + rest == d;
    }
  }

  method StripPadding(input: Bytes) returns (len: nat)
    ensures len <= |input| && input[..len] == Stripped(input)
  {
    len := |input|;
    assert input[..len] == input;
    while len > 0 && input[len - 1] == PADDING
      invariant 0 <= len <= |input| && Stripped(input) == Stripped(input[..len])
    {
      assert input[..len][..len - 1] == input[..len - 1];
      len := len - 1;
    }
  }

  /** pj_base64_decode; outLen is in and out. */
  method DecodeTo(input: Bytes, out: array<Byte>, outLen: nat) returns (status: nat, outLen': nat)
    requires outLen <= out.Length
    modifies out
    ensures status == if outLen >= |Stripped(input)| * 3 / 4 then SUCCESS else ETOOSMALL
    ensures status == SUCCESS ==> outLen' == |Decode(input)| <= outLen && out[..outLen'] == Decode(input) && out[outLen'..] == old(out[outLen'..])
  {
    hide Octets, Taken, Stripped, Written, First, Second, Third;
    var len := StripPadding(input);
    if outLen < len * 3 / 4 {
      return ETOOSMALL, outLen;
    }
    DecodedLength(input);
    ghost var buf0, done := out[..], [];
    NothingWritten(buf0);
    var i, j := 0, 0;
    assert input[..len] == input[0..len] && [] + Decode(input) == Decode(input);
    while i < len
      invariant 0 <= i <= len && j == |done| && Written(buf0, out[..], done)
      invariant Decode(input) == done + Octets(Taken(input[i..len]))
    {
      ghost var was := i;
      var c;
      c, i := FillFour(input, i, len);
      assert |c| < 4 ==> Taken(input[i..len]) == [] by { NothingTaken(input[len..len]); }
      OctetsStep(c, Taken(input[i..len]));
      var g := [];
      if |c| < 4 {
        if |c| > 1 {
          g := [First(c[0], c[1])];
          if |c| > 2 {
            g := g + [Second(c[1], c[2])];
          }
        }
      } else {
        g := [First(c[0], c[1]), Second(c[1], c[2]), Third(c[2], c[3])];
      }
      GroupOctets(c, g);
      PrefixFits(Decode(input), done, g, Octets(Taken(input[i..len])));
      PutBytes(out, j, g, buf0, done);
      done := done + g;
      j := j + |g|;
    }
    NothingTaken(input[i..len]);
    WrittenIs(buf0, out[..], done);
    return SUCCESS, j;
  }

  lemma PrefixFits(whole: Bytes, done: Bytes, g: Bytes, rest: Bytes)
    requires whole == done + (g + rest)
    ensures whole == done + g + rest && |done| + |g| <= |whole|
  {
  }

  lemma NothingTaken(t: Bytes)
    requires t == []
    ensures Taken(t) == [] && Octets(Taken(t)) == []
  {
  }

  lemma GroupOctets(c: seq<int>, g: Bytes)
    requires 1 <= |c| <= 4 && forall k :: 0 <= k < |c| ==> 0 <= c[k] < 64
    requires g == if |c| == 1 then [] else if |c| == 2 then [First(c[0], c[1])]
      else if |c| == 3 then [First(c[0], c[1])] + [Second(c[1], c[2])]
      else [First(c[0], c[1]), Second(c[1], c[2]), Third(c[2], c[3])]
    ensures var d: seq<Sextet> := c; Octets(d) == g
  {
    hide First, Second, Third;
    if |c| == 4 {
      assert c[4..] == [];
    }
  }
}
