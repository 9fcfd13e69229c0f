/** pj_sha1_context: pj_sha1_init, pj_sha1_update and pj_sha1_final (sha1.c). */
module Sha1 {
  import opened HashBlocks
  import opened Sha1Block

  const INITIAL := Regs(0x67452301, 0xEFCDAB89, 0x98BADCFE, 0x10325476, 0xC3D2E1F0)

  function Step(s: Regs, block: seq<bv8>): Regs {
    if |block| == 64 then BlockStep(s, block) else s
  }

  /** The four octets of a word, high octet first. */
  function OctetsOf(x: bv32): (s: seq<bv8>)
    ensures |s| == 4
  {
    [((x >> 24) & 255) as bv8, ((x >> 16) & 255) as bv8, ((x >> 8) & 255) as bv8, (x & 255) as bv8]
  }

  function DigestOf(s: Regs): (d: seq<bv8>)
    ensures |d| == 20
  {
    OctetsOf(s.a) + OctetsOf(s.b) + OctetsOf(s.c) + OctetsOf(s.d) + OctetsOf(s.e)
  }

  function Padded(m: seq<bv8>): seq<bv8> {
    m + Padding(|m|, BigEndian64(|m| * 8 % TWO64))
  }

  /** SHA-1 of a message, by RFC 3174. */
  function Digest(m: seq<bv8>): (d: seq<bv8>)
    ensures |d| == 20
  {
    DigestOf(Fold(Step, INITIAL, Padded(m)))
  }

  /** How pj_sha1_update counts, where size_t has 64 bits. */
  function CountAdded(low: nat, high: nat, len: nat): (nat, nat) {
    var low' := (low + len % TWO32 * 8 % TWO32) % TWO32;
    (low', (high + (if low' < len * 8 % TWO64 then 1 else 0) + len % TWO32 / 0x2000_0000) % TWO32)
  }

  const TWO29 := 0x2000_0000
  const TWO61 := 0x2000_0000_0000_0000

  /** The count comes out right exactly for less than 2 to the 29 octets at a time, or for less
      than 2 to the 32 when the low word wraps round: a longer piece always carries, even where
      there is nothing to, and the octets above 2 to the 32 are not counted. Only the length
      modulo 2 to the 61 matters, beyond which the number of bits does not fit a size_t. */
  lemma CountRightIff(low: nat, high: nat, octets: nat, len: nat)
    requires Counts(low, high, octets)
    ensures var (low', high') := CountAdded(low, high, len);
            var m := len % TWO61;
            Counts(low', high', octets + len) <==> m < TWO29 || (m < TWO32 && low + m * 8 % TWO32 >= TWO32)
  {
    hide Counts;
    var k, m := len / TWO61, len % TWO61;
    BitsWrap(k, m, octets);
    CountsByBits(CountAdded(low, high, m).0, CountAdded(low, high, m).1, octets + len, octets + m);
    if m < TWO32 {
      CountRightBelow(low, high, octets, m);
    } else {
      CountWrongAbove(low, high, octets, m);
    }
  }

  lemma BitsWrap(k: nat, m: nat, octets: nat)
    requires m < TWO61
    ensures var len := k * TWO61 + m;
            len % TWO32 == m % TWO32 && len * 8 % TWO64 == m * 8 % TWO64 && (octets + len) * 8 % TWO64 == (octets + m) * 8 % TWO64
  {
    var len := k * TWO61 + m;
    Multiple(k * 0x2000_0000, TWO32, m);
    Multiple(k, TWO64, m * 8);
    Multiple(k, TWO64, (octets + m) * 8);
    assert len == k * 0x2000_0000 * TWO32 + m && len * 8 == k * TWO64 + m * 8;
  }

  lemma Multiple(k: nat, n: nat, r: nat)
    requires n > 0
    ensures (k * n + r) % n == r % n
  {
    var q := r / n;
    assert k * n + r == (k + q) * n + r % n;
    SameRemainder(k * n + r, k + q, n, r % n);
  }

  lemma SameRemainder(x: nat, q: nat, n: nat, r: nat)
    requires n > 0 && x == q * n + r && r < n
    ensures x % n == r
  {
    var d := x / n - q;
    assert d > 0 ==> d * n >= n;
    assert d < 0 ==> d * n + n <= 0;
    assert x == x / n * n + x % n;
    assert d * n == r - x % n;
  }

  lemma CountsByBits(low: nat, high: nat, x: nat, y: nat)
    requires x * 8 % TWO64 == y * 8 % TWO64
    ensures Counts(low, high, x) <==> Counts(low, high, y)
  {
  }

  /** What the high word has to become. */
  function RightHigh(low: nat, high: nat, len: nat): nat {
    (high + len / TWO29 + if low + len * 8 % TWO32 >= TWO32 then 1 else 0) % TWO32
  }

  lemma CountRightBy(low: nat, high: nat, octets: nat, len: nat, high': nat)
    requires Counts(low, high, octets)
    ensures Counts((low + len * 8 % TWO32) % TWO32, high', octets + len) <==> high' == RightHigh(low, high, len)
  {
    hide Counts;
    var low' := (low + len * 8 % TWO32) % TWO32;
    CountMore(low, high, octets, len, low', RightHigh(low, high, len));
    CountUniqueIf(low', high', RightHigh(low, high, len), octets + len);
  }

  lemma CountRightBelow(low: nat, high: nat, octets: nat, len: nat)
    requires Counts(low, high, octets) && len < TWO32
    ensures var (low', high') := CountAdded(low, high, len);
            Counts(low', high', octets + len) <==> len < TWO29 || low + len * 8 % TWO32 >= TWO32
  {
    hide Counts, RightHigh;
    CountBounds(low, high, octets);
    AddedBelow(low, high, len);
    CountRightBy(low, high, octets, len, CountAdded(low, high, len).1);
    HighRightIff(low, high, len);
  }

  /** Whether the sum is taken to have wrapped round. */
  predicate SeemsCarried(low: nat, len: nat) {
    (low + len * 8 % TWO32) % TWO32 < len * 8
  }

  lemma AddedBelow(low: nat, high: nat, len: nat)
    requires len < TWO32
    ensures CountAdded(low, high, len) ==
      ((low + len * 8 % TWO32) % TWO32, (high + len / TWO29 + if SeemsCarried(low, len) then 1 else 0) % TWO32)
  {
  }

  lemma HighRightIff(low: nat, high: nat, len: nat)
    requires low < TWO32 && len < TWO32
    ensures (high + len / TWO29 + if SeemsCarried(low, len) then 1 else 0) % TWO32 == RightHigh(low, high, len) <==>
      len < TWO29 || low + len * 8 % TWO32 >= TWO32
  {
    hide SeemsCarried;
    CarryRightIff(low, len);
    OneTooMany(high + len / TWO29);
  }

  lemma CarryRightIff(low: nat, len: nat)
    requires low < TWO32 && len < TWO32
    ensures (SeemsCarried(low, len) <==> low + len * 8 % TWO32 >= TWO32) <==> len < TWO29 || low + len * 8 % TWO32 >= TWO32
  {
  }

  lemma OneTooMany(h: nat)
    ensures (h + 1) % TWO32 != h % TWO32
  {
  }

  lemma CountWrongAbove(low: nat, high: nat, octets: nat, len: nat)
    requires Counts(low, high, octets) && TWO32 <= len < TWO61
    ensures var (low', high') := CountAdded(low, high, len); !Counts(low', high', octets + len)
  {
    hide Counts;
    var above, below := len / TWO32, len % TWO32;
    LowBits(len);
    var c := if low + len * 8 % TWO32 >= TWO32 then 1 else 0;
    var (low', high') := CountAdded(low, high, len);
    CountRightBy(low, high, octets, len, high');
    assert len * 8 % TWO64 == len * 8 && low' < TWO32 <= len * 8;
    HighBits(len);
    FarApart(high + 1 + below / TWO29, 8 * above + c - 1);
    assert high + len / TWO29 + c == high + 1 + below / TWO29 + (8 * above + c - 1);
  }

  lemma HighBits(len: nat)
    requires TWO32 <= len < TWO61
    ensures len / TWO29 == 8 * (len / TWO32) + len % TWO32 / TWO29 && 1 <= len / TWO32 < TWO29
  {
  }

  lemma LowBits(len: nat)
    ensures len % TWO32 * 8 % TWO32 == len * 8 % TWO32
  {
    Multiple(8 * (len / TWO32), TWO32, len % TWO32 * 8);
    assert len * 8 == 8 * (len / TWO32) * TWO32 + len % TWO32 * 8;
  }

  lemma FarApart(h: nat, d: nat)
    requires 0 < d < TWO32
    ensures (h + d) % TWO32 != h % TWO32
  {
  }

  /** The octets of the schedule words, as they are left in the block. */
  function Clobbered(l: seq<bv32>): (s: seq<bv8>)
    ensures |s| == 4 * |l|
    decreases |l|
  {
    if l == [] then []
    else [(l[0] & 255) as bv8, ((l[0] >> 8) & 255) as bv8, ((l[0] >> 16) & 255) as bv8, ((l[0] >> 24) & 255) as bv8] + Clobbered(l[1..])
  }

  class Context {
    var state: Regs
    var count0: nat
    var count1: nat
    var buffer: seq<bv8>
    /** What has been hashed so far. */
    ghost var message: seq<bv8>

    ghost predicate Valid()
      reads this
    {
      && |buffer| == 64 && Counts(count0, count1, |message|)
      && state == Fold(Step, INITIAL, message) && buffer[..|message| % 64] == Tail(message)
    }

    /** Allocated, and perhaps wiped. */
    ghost predicate Ready()
      reads this
    {
      |buffer| == 64
    }

    constructor ()
      ensures Ready()
    {
      buffer := Zeros(64);
    }

    /** pj_sha1_init. */
    method Init()
      requires Ready()
      modifies this
      ensures Valid() && message == []
    {
      state, count0, count1 := INITIAL, 0, 0;
      message := [];
    }

    /** SHA1_Transform on a block of data; in the buffer it leaves the words of its schedule. */
    method TransformBlock(block: seq<bv8>) returns (left: seq<bv8>)
      requires |block| == 64
      modifies this`state
      ensures state == Step(old(state), block) && |left| == 64
    {
      hide BlockStep, Clobbered;
      var l;
      state, l := Transform(state, block);
      left := Clobbered(l[..]);
    }

    method AddCount(len: nat, ghost octets: nat)
      requires Counts(count0, count1, octets) && len < 0x2000_0000
      modifies this`count0, this`count1
      ensures Counts(count0, count1, octets + len)
    {
      hide Counts;
      CountRightIff(count0, count1, octets, len);
      count0 := (count0 + len % TWO32 * 8 % TWO32) % TWO32;
      if count0 < len * 8 % TWO64 {
        count1 := (count1 + 1) % TWO32;
      }
      count1 := (count1 + len % TWO32 / 0x2000_0000) % TWO32;
    }

    /** The loop over whole blocks of data. */
    method TransformBlocks(data: seq<bv8>, start: nat, ghost whole: seq<bv8>) returns (i: nat)
      requires start <= |data| && |whole| % 64 == 0 && state == Fold(Step, INITIAL, whole)
      modifies this`state
      ensures start <= i <= |data| < i + 64 && |whole + data[start..i]| % 64 == 0 && state == Fold(Step, INITIAL, whole + data[start..i])
    {
      hide Fold, Step;
      i := start;
      ghost var done := whole;
      assert whole + data[start..start] == whole;
      while i + 63 < |data|
        invariant start <= i <= |data| && |done| % 64 == 0 && done == whole + data[start..i] && state == Fold(Step, INITIAL, done)
      {
        var tmp := data[i..i + 64];
        FoldBlock(Step, INITIAL, done, tmp);
        assert data[start..i + 64] == data[start..i] + tmp;
        done := done + tmp;
        var _ := TransformBlock(tmp);
        i := i + 64;
      }
    }

    /** pj_sha1_update. */
    method Update(data: seq<bv8>)
      requires Valid() && |data| < 0x2000_0000
      modifies this
      ensures Valid() && message == old(message) + data
    {
      hide Fold, Step, Counts, Tail;
      CountMod(count0, count1, |message|);
      var j := count0 / 8 % 64;
      AddCount(|data|, |message|);
      var i := 0;
      FoldWhole(Step, INITIAL, message);
      ghost var whole, m := message[..|message| - j], message + data;
      if j + |data| > 63 {
        i := 64 - j;
        buffer := buffer[..j] + data[..i];
        FoldBlock(Step, INITIAL, whole, buffer);
        whole := whole + buffer;
        assert whole == message + data[..i];
        buffer := TransformBlock(buffer);
        i := TransformBlocks(data, i, whole);
        whole := whole + data[64 - j..i];
        assert whole == message + data[..i];
        j := 0;
      }
      var tail := buffer[..j] + data[i..];
      assert m == whole + tail;
      WholeAndTail(Step, INITIAL, m, whole, tail);
      message := m;
      buffer := tail + buffer[|tail|..];
    }

    /** The loop that pads to 56 octets of a block. */
    method PadZeros(ghost m: seq<bv8>)
      requires Valid() && message == m + [0x80]
      modifies this
      ensures Valid() && message == m + [0x80] + Zeros(ZeroCount(|m|))
    {
      hide Fold, Step, Counts, Tail;
      ghost var k := 0;
      assert message == m + [0x80] + Zeros(0);
      CountMod(count0, count1, |message|);
      while count0 / 8 % 64 != 56
        invariant 0 <= k <= ZeroCount(|m|) && Valid() && message == m + [0x80] + Zeros(k) && count0 / 8 % 64 == (|m| + 1 + k) % 64
        decreases ZeroCount(|m|) - k
      {
        Update([0]);
        MoreZeros(m + [0x80], k);
        k := k + 1;
        CountMod(count0, count1, |message|);
      }
      ZerosAreEnough(|m|, k);
    }

    /** pj_sha1_final; the context is wiped. */
    method Final() returns (digest: seq<bv8>)
      requires Valid()
      modifies this
      ensures digest == Digest(old(message)) && Ready()
    {
      hide Fold, Step, Counts, Tail, OctetsOf, Padded, Zeros, BigEndian64;
      ghost var m := message;
      CountOctets(count0, count1, |m|);
      var finalCount := [OctetOf(count1, 3), OctetOf(count1, 2), OctetOf(count1, 1), OctetOf(count1, 0),
        OctetOf(count0, 3), OctetOf(count0, 2), OctetOf(count0, 1), OctetOf(count0, 0)];
      Update([0x80]);
      PadZeros(m);
      Update(finalCount);
      PaddedIs(m, finalCount);
      digest := DigestOf(state);
      buffer := Zeros(64);
      state, count0, count1 := Regs(0, 0, 0, 0, 0), 0, 0;
    }
  }

  lemma PaddedIs(m: seq<bv8>, count: seq<bv8>)
    requires count == BigEndian64(|m| * 8 % TWO64)
    ensures m + [0x80] + Zeros(ZeroCount(|m|)) + count == Padded(m)
  {
    hide BigEndian64;
  }

  lemma MoreZeros(m: seq<bv8>, k: nat)
    ensures m + Zeros(k) + [0] == m + Zeros(k + 1)
  {
  }

  lemma ZerosAreEnough(n: nat, k: nat)
    requires k <= ZeroCount(n) && (n + 1 + k) % 64 == 56
    ensures k == ZeroCount(n)
  {
  }

  /** A message hashed in pieces, however it is split. */
  method DigestOfPieces(pieces: seq<seq<bv8>>) returns (digest: seq<bv8>)
    requires forall i :: 0 <= i < |pieces| ==> |pieces[i]| < 0x2000_0000
    ensures digest == Digest(Joined(pieces))
  {
    hide Digest;
    var ctx := new Context();
    ctx.Init();
    var i := 0;
    assert pieces[..0] == [];
    while i < |pieces|
      invariant 0 <= i <= |pieces| && fresh(ctx) && ctx.Valid() && ctx.message == Joined(pieces[..i])
    {
      ctx.Update(pieces[i]);
      JoinedMore(pieces, i);
      i := i + 1;
    }
    assert pieces[..i] == pieces;
    digest := ctx.Final();
  }
}
