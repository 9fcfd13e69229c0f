/** What a block hash does with a message: the chaining over 64-octet blocks, the padding and the
    bit count (section 4 of RFC 3174, sections 3.1 and 3.2 of RFC 1321). */
module HashBlocks {
  const TWO32: nat := 0x1_0000_0000
  const TWO64: nat := 0x1_0000_0000_0000_0000

  /** The chaining value after the whole blocks of the data. */
  function Fold<S>(step: (S, seq<bv8>) -> S, s: S, data: seq<bv8>): S
    decreases |data|
  {
    if |data| < 64 then s else Fold(step, step(s, data[..64]), data[64..])
  }

  /** The octets after the last whole block. */
  function Tail(data: seq<bv8>): (t: seq<bv8>)
    ensures |t| == |data| % 64
  {
    data[|data| - |data| % 64..]
  }

  lemma {:induction false} FoldMore<S>(step: (S, seq<bv8>) -> S, s: S, a: seq<bv8>, b: seq<bv8>)
    requires |a| % 64 == 0
    ensures Fold(step, s, a + b) == Fold(step, Fold(step, s, a), b)
    decreases |a|
  {
    if a == [] {
      assert a + b == b;
    } else {
      assert (a + b)[..64] == a[..64] && (a + b)[64..] == a[64..] + b;
      FoldMore(step, step(s, a[..64]), a[64..], b);
    }
  }

  lemma FoldOne<S>(step: (S, seq<bv8>) -> S, s: S, block: seq<bv8>)
    requires |block| == 64
    ensures Fold(step, s, block) == step(s, block)
  {
    assert block[..64] == block && block[64..] == [];
    assert Fold(step, step(s, block), []) == step(s, block);
  }

  /** The blocks of a message do not depend on its tail. */
  lemma FoldWhole<S>(step: (S, seq<bv8>) -> S, s: S, data: seq<bv8>)
    ensures var whole := data[..|data| - |data| % 64];
            |whole| % 64 == 0 && data == whole + Tail(data) && Fold(step, s, data) == Fold(step, s, whole)
  {
    var whole := data[..|data| - |data| % 64];
    FoldMore(step, s, whole, Tail(data));
  }

  /** One more block, given a message of whole blocks. */
  lemma FoldBlock<S>(step: (S, seq<bv8>) -> S, s: S, whole: seq<bv8>, block: seq<bv8>)
    requires |whole| % 64 == 0 && |block| == 64
    ensures Fold(step, s, whole + block) == step(Fold(step, s, whole), block) && |whole + block| % 64 == 0
  {
    FoldMore(step, s, whole, block);
    FoldOne(step, Fold(step, s, whole), block);
  }

  lemma TailOfMore(whole: seq<bv8>, t: seq<bv8>)
    requires |whole| % 64 == 0 && |t| < 64
    ensures Tail(whole + t) == t && |whole + t| % 64 == |t|
  {
  }

  lemma WholeAndTail<S>(step: (S, seq<bv8>) -> S, s: S, m: seq<bv8>, whole: seq<bv8>, tail: seq<bv8>)
    requires m == whole + tail && |whole| % 64 == 0 && |tail| < 64
    ensures Tail(m) == tail && |m| % 64 == |tail| && Fold(step, s, m) == Fold(step, s, whole)
  {
    TailOfMore(whole, tail);
    FoldWhole(step, s, m);
    assert m[..|m| - |m| % 64] == whole;
  }

  function Zeros(n: nat): (z: seq<bv8>)
    ensures |z| == n
  {
    seq(n, i requires 0 <= i < n => 0 as bv8)
  }

  /** How many zero octets follow the octet 0x80. */
  function ZeroCount(n: nat): (k: nat)
    ensures k < 64 && (n + 1 + k) % 64 == 56
  {
    (119 - n % 64) % 64
  }

  function Padding(n: nat, count: seq<bv8>): (p: seq<bv8>)
    requires |count| == 8
    ensures (n + |p|) % 64 == 0
  {
    [0x80] + Zeros(ZeroCount(n)) + count
  }

  /** Digit k from the right of a number to the base 256. */
  function Digit(v: nat, k: nat): (d: nat)
    ensures d < 256
    decreases k
  {
    if k == 0 then v % 256 else Digit(v / 256, k - 1)
  }

  function OctetOf(v: nat, k: nat): bv8 {
    Digit(v, k) as bv8
  }

  function BigEndian64(v: nat): (s: seq<bv8>)
    ensures |s| == 8
  {
    [OctetOf(v, 7), OctetOf(v, 6), OctetOf(v, 5), OctetOf(v, 4), OctetOf(v, 3), OctetOf(v, 2), OctetOf(v, 1), OctetOf(v, 0)]
  }

  function LittleEndian64(v: nat): (s: seq<bv8>)
    ensures |s| == 8
  {
    [OctetOf(v, 0), OctetOf(v, 1), OctetOf(v, 2), OctetOf(v, 3), OctetOf(v, 4), OctetOf(v, 5), OctetOf(v, 6), OctetOf(v, 7)]
  }

  // ----- the bit count in two 32-bit words -----

  /** The two words hold the number of bits, modulo 2 to the 64. */
  predicate Counts(low: nat, high: nat, octets: nat) {
    low < TWO32 && high < TWO32 && high * TWO32 + low == octets * 8 % TWO64
  }

  lemma CountBounds(low: nat, high: nat, octets: nat)
    requires Counts(low, high, octets)
    ensures low < TWO32 && high < TWO32
  {
  }

  lemma CountMod(low: nat, high: nat, octets: nat)
    requires Counts(low, high, octets)
    ensures low / 8 % 64 == octets % 64
  {
    var q := octets * 8 / TWO64;
    var y := q * 0x80_0000_0000_0000 + high * 0x80_0000;
    assert octets * 8 == q * TWO64 + high * TWO32 + low;
    EighthMod(low, octets, y);
  }

  lemma EighthMod(low: nat, octets: nat, y: nat)
    requires octets * 8 == 512 * y + low
    ensures low / 8 % 64 == octets % 64
  {
    assert low == 8 * (octets - 64 * y);
    assert low / 8 == octets - 64 * y;
  }

  /** Adding len octets with the right carry into the high word. */
  lemma CountMore(low: nat, high: nat, octets: nat, len: nat, low': nat, high': nat)
    requires Counts(low, high, octets)
    requires var lo, hi := len * 8 % TWO32, len / 0x2000_0000;
      low' == (low + lo) % TWO32 && high' == (high + hi + if low + lo >= TWO32 then 1 else 0) % TWO32
    ensures Counts(low', high', octets + len)
  {
    var lo, hi := len * 8 % TWO32, len / 0x2000_0000;
    var c := if low + lo >= TWO32 then 1 else 0;
    var h := high + hi + c;
    CountBounds(low, high, octets);
    EightTimes(len);
    CarryOut(low, lo, c);
    WordsSum(low, high, lo, hi, c, low', high', h / TWO32);
    WordsBound(low', high');
    ModSum(octets * 8, len * 8, high * TWO32 + low, h / TWO32, high' * TWO32 + low');
  }

  lemma EightTimes(len: nat)
    ensures len * 8 == len / 0x2000_0000 * TWO32 + len * 8 % TWO32
  {
    var q, r := len / 0x2000_0000, len % 0x2000_0000;
    assert len == q * 0x2000_0000 + r;
    assert len * 8 == q * TWO32 + r * 8 && r * 8 < TWO32;
  }

  lemma CarryOut(low: nat, lo: nat, c: nat)
    requires low < TWO32 && lo < TWO32 && c == if low + lo >= TWO32 then 1 else 0
    ensures low + lo == c * TWO32 + (low + lo) % TWO32
  {
  }

  lemma WordsSum(low: nat, high: nat, lo: nat, hi: nat, c: nat, low': nat, high': nat, q: nat)
    requires low + lo == c * TWO32 + low' && high + hi + c == q * TWO32 + high'
    ensures high * TWO32 + low + (hi * TWO32 + lo) == q * TWO64 + (high' * TWO32 + low')
  {
  }

  lemma WordsBound(low: nat, high: nat)
    requires low < TWO32 && high < TWO32
    ensures high * TWO32 + low < TWO64
  {
  }

  lemma ModSum(x: nat, y: nat, v: nat, q: nat, r: nat)
    requires v == x % TWO64 && v + y == q * TWO64 + r && r < TWO64
    ensures (x + y) % TWO64 == r
  {
    var p := x / TWO64;
    assert x + y == (p + q) * TWO64 + r;
    QuotientUnique(x + y, p + q, r);
  }

  lemma QuotientUnique(z: nat, q: nat, r: nat)
    requires z == q * TWO64 + r && r < TWO64
    ensures z % TWO64 == r
  {
  }

  /** Only one value of the high word is right. */
  lemma CountUniqueIf(low: nat, high: nat, high': nat, octets: nat)
    requires Counts(low, high', octets)
    ensures Counts(low, high, octets) <==> high == high'
  {
  }

  /** The octets of the two words, high word first, are those of the whole count. */
  lemma CountOctets(low: nat, high: nat, octets: nat)
    requires Counts(low, high, octets)
    ensures BigEndian64(octets * 8 % TWO64) ==
      [OctetOf(high, 3), OctetOf(high, 2), OctetOf(high, 1), OctetOf(high, 0), OctetOf(low, 3), OctetOf(low, 2), OctetOf(low, 1), OctetOf(low, 0)]
    ensures LittleEndian64(octets * 8 % TWO64) ==
      [OctetOf(low, 0), OctetOf(low, 1), OctetOf(low, 2), OctetOf(low, 3), OctetOf(high, 0), OctetOf(high, 1), OctetOf(high, 2), OctetOf(high, 3)]
  {
    DigitsOfSum(low, high);
    assert octets * 8 % TWO64 == high * TWO32 + low;
    hide Digit;
  }

  lemma DigitsOfSum(low: nat, high: nat)
    requires low < TWO32
    ensures var v := high * TWO32 + low;
            && (forall k :: 0 <= k < 4 ==> Digit(v, k) == Digit(low, k)) && forall k :: 0 <= k < 4 ==> Digit(v, k + 4) == Digit(high, k)
  {
    var l1, l2, l3 := low / 256, low / 256 / 256, low / 256 / 256 / 256;
    var v := high * TWO32 + low;
    Divided(high * 0x100_0000, low);
    Divided(high * 0x1_0000, l1);
    Divided(high * 0x100, l2);
    Divided(high, l3);
    assert v / 256 / 256 / 256 / 256 == high + l3 / 256;
    assert l3 / 256 == 0;
    DigitUnfold(v);
    DigitUnfold(low);
    DownFour(v);
  }

  /** Dividing by 256 above and below. */
  lemma Divided(x: nat, low: nat)
    ensures (x * 256 + low) / 256 == x + low / 256 && (x * 256 + low) % 256 == low % 256
  {
  }

  lemma DigitUnfold(v: nat)
    ensures Digit(v, 0) == v % 256 && Digit(v, 1) == v / 256 % 256
    ensures Digit(v, 2) == v / 256 / 256 % 256 && Digit(v, 3) == v / 256 / 256 / 256 % 256
  {
  }

  lemma DownFour(v: nat)
    ensures forall k: nat :: Digit(v, k + 4) == Digit(v / 256 / 256 / 256 / 256, k)
  {
    forall k: nat ensures Digit(v, k + 4) == Digit(v / 256 / 256 / 256 / 256, k) {
      assert Digit(v, k + 4) == Digit(v / 256, k + 3) == Digit(v / 256 / 256, k + 2) == Digit(v / 256 / 256 / 256, k + 1);
    }
  }

  /** The pieces one after the other. */
  function Joined(pieces: seq<seq<bv8>>): seq<bv8> {
    if pieces == [] then [] else Joined(pieces[..|pieces| - 1]) + pieces[|pieces| - 1]
  }

  lemma JoinedMore(pieces: seq<seq<bv8>>, i: nat)
    requires i < |pieces|
    ensures Joined(pieces[..i + 1]) == Joined(pieces[..i]) + pieces[i]
  {
    assert pieces[..i + 1][..i] == pieces[..i];
  }
}
