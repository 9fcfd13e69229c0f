/** pj_md5_context: pj_md5_init, pj_md5_update and pj_md5_final (md5.c). */
module Md5 {
  import opened HashBlocks
  import opened Md5Block

  const INITIAL := Regs(0x67452301, 0xefcdab89, 0x98badcfe, 0x10325476)

  function Step(s: Regs, block: seq<bv8>): Regs {
    if |block| == 64 then BlockStep(s, block) else s
  }

  /** The four octets of a word, low octet first. */
  function OctetsOf(x: bv32): (s: seq<bv8>)
    ensures |s| == 4
  {
    [(x & 255) as bv8, ((x >> 8) & 255) as bv8, ((x >> 16) & 255) as bv8, ((x >> 24) & 255) as bv8]
  }

  function DigestOf(s: Regs): (d: seq<bv8>)
    ensures |d| == 16
  {
    OctetsOf(s.a) + OctetsOf(s.b) + OctetsOf(s.c) + OctetsOf(s.d)
  }

  function Padded(m: seq<bv8>): seq<bv8> {
    m + Padding(|m|, LittleEndian64(|m| * 8 % TWO64))
  }

  /** MD5 of a message, by RFC 1321. */
  function Digest(m: seq<bv8>): (d: seq<bv8>)
    ensures |d| == 16
  {
    DigestOf(Fold(Step, INITIAL, Padded(m)))
  }

  /** The sum is below a summand exactly when it wrapped round; the high word takes both carries. */
  lemma CarryAdded(low: nat, high: nat, lo: nat, hi: nat)
    requires low < TWO32 && lo < TWO32
    ensures (low + lo) % TWO32 < low <==> low + lo >= TWO32
    ensures ((high + 1) % TWO32 + hi) % TWO32 == (high + hi + 1) % TWO32 && (high + hi) % TWO32 == (high + hi + 0) % TWO32
  {
    if low + lo >= TWO32 {
      assert (low + lo) % TWO32 == low + lo - TWO32;
    } else {
      assert (low + lo) % TWO32 == low + lo;
    }
  }

  class Context {
    var buf: Regs
    var bits0: nat
    var bits1: nat
    var in_: seq<bv8>
    /** What has been hashed so far. */
    ghost var message: seq<bv8>

    ghost predicate Valid()
      reads this
    {
      && |in_| == 64 && Counts(bits0, bits1, |message|)
      && buf == Fold(Step, INITIAL, message) && in_[..|message| % 64] == Tail(message)
    }

    /** Allocated, and perhaps wiped. */
    ghost predicate Ready()
      reads this
    {
      |in_| == 64
    }

    constructor ()
      ensures Ready()
    {
      in_ := Zeros(64);
    }

    /** pj_md5_init. */
    method Init()
      requires Ready()
      modifies this
      ensures Valid() && message == []
    {
      buf, bits0, bits1 := INITIAL, 0, 0;
      message := [];
    }

    /** The bit count is right for every length of 32 bits. */
    method AddBits(len: nat, ghost octets: nat)
      requires Counts(bits0, bits1, octets) && len < TWO32
      modifies this`bits0, this`bits1
      ensures Counts(bits0, bits1, octets + len)
    {
      var t := bits0;
      ghost var h := bits1;
      CountBounds(t, h, octets);
      bits0 := (t + len * 8 % TWO32) % TWO32;
      if bits0 < t {
        bits1 := (bits1 + 1) % TWO32;
      }
      bits1 := (bits1 + len / 0x2000_0000) % TWO32;
      CarryAdded(t, h, len * 8 % TWO32, len / 0x2000_0000);
      CountMore(t, h, octets, len, bits0, bits1);
    }

    /** MD5Transform on the 64 octets in place. */
    method TransformIn()
      requires |in_| == 64
      modifies this`buf
      ensures buf == Step(old(buf), in_)
    {
      hide BlockStep;
      buf := Transform(buf, in_);
    }

    /** The loop over 64-octet chunks. */
    method TransformChunks(data: seq<bv8>, start: nat, ghost whole: seq<bv8>) returns (i: nat)
      requires |in_| == 64 && start <= |data| && |whole| % 64 == 0 && buf == Fold(Step, INITIAL, whole)
      modifies this`buf, this`in_
      ensures |in_| == 64 && start <= i <= |data| < i + 64 && |whole + data[start..i]| % 64 == 0
      ensures buf == Fold(Step, INITIAL, whole + data[start..i])
    {
      hide Fold, Step;
      i := start;
      ghost var done := whole;
      assert whole + data[start..start] == whole;
      while |data| - i >= 64
        invariant |in_| == 64 && start <= i <= |data| && |done| % 64 == 0 && done == whole + data[start..i]
        invariant buf == Fold(Step, INITIAL, done)
      {
        in_ := data[i..i + 64];
        FoldBlock(Step, INITIAL, done, in_);
        assert data[start..i + 64] == data[start..i] + in_;
        done := done + in_;
        TransformIn();
        i := i + 64;
      }
    }

    /** The rest of an update, from a message of whole blocks. */
    method Absorb(data: seq<bv8>, start: nat, ghost whole: seq<bv8>)
      requires |in_| == 64 && start <= |data| && |whole| % 64 == 0 && buf == Fold(Step, INITIAL, whole)
      modifies this`buf, this`in_
      ensures var m := whole + data[start..]; |in_| == 64 && buf == Fold(Step, INITIAL, m) && in_[..|m| % 64] == Tail(m)
    {
      hide Fold, Step, Tail;
      var i := TransformChunks(data, start, whole);
      ghost var done := whole + data[start..i];
      assert whole + data[start..] == done + data[i..];
      WholeAndTail(Step, INITIAL, whole + data[start..], done, data[i..]);
      in_ := data[i..] + in_[|data| - i..];
    }

    /** pj_md5_update. */
    method Update(data: seq<bv8>)
      requires Valid() && |data| < TWO32
      modifies this
      ensures Valid() && message == old(message) + data
    {
      hide Fold, Step, Counts, Tail;
      CountMod(bits0, bits1, |message|);
      var t := bits0 / 8 % 64;
      AddBits(|data|, |message|);
      FoldWhole(Step, INITIAL, message);
      ghost var whole, m := message[..|message| - t], message + data;
      var i := 0;
      if t != 0 {
        if |data| < 64 - t {
          WholeAndTail(Step, INITIAL, m, whole, in_[..t] + data);
          in_ := in_[..t] + data + in_[t + |data|..];
          message := m;
          return;
        }
        i := 64 - t;
        in_ := in_[..t] + data[..i];
        FoldBlock(Step, INITIAL, whole, in_);
        whole := whole + in_;
        TransformIn();
      }
      assert m == whole + data[i..];
      Absorb(data, i, whole);
      message := m;
    }

    /** Padding to 56 octets of a block, in place. */
    method PadIn(count: nat, ghost m: seq<bv8>, ghost whole: seq<bv8>) returns (ghost whole': seq<bv8>)
      requires |in_| == 64 && count < 64 && |whole| % 64 == 0 && m == whole + in_[..count] && buf == Fold(Step, INITIAL, whole)
      modifies this`buf, this`in_
      ensures |in_| == 64 && |whole'| % 64 == 0 && buf == Fold(Step, INITIAL, whole')
      ensures whole' + in_[..56] == m + [0x80] + Zeros(ZeroCount(|m|))
    {
      hide Fold, Step;
      whole' := whole;
      ghost var tail := in_[..count];
      in_ := in_[..count] + [0x80] + in_[count + 1..];
      var left := 64 - 1 - count;
      if left < 8 {
        in_ := in_[..count + 1] + Zeros(left);
        assert in_ == tail + [0x80] + Zeros(left);
        FoldBlock(Step, INITIAL, whole, in_);
        whole' := whole + in_;
        TransformIn();
        in_ := Zeros(56) + in_[56..];
        PadTwoBlocks(whole, tail, left);
      } else {
        in_ := in_[..count + 1] + Zeros(left - 8) + in_[56..];
        assert in_[..56] == tail + [0x80] + Zeros(left - 8);
        PadOneBlock(whole, tail, left - 8);
      }
    }

    /** pj_md5_final; the context is wiped. */
    method Final() returns (digest: seq<bv8>)
      requires Valid()
      modifies this
      ensures digest == Digest(old(message)) && Ready()
    {
      hide Fold, Step, Counts, Tail, OctetsOf, OctetOf, ZeroCount;
      ghost var m := message;
      CountMod(bits0, bits1, |m|);
      CountOctets(bits0, bits1, |m|);
      FoldWhole(Step, INITIAL, m);
      var count := bits0 / 8 % 64;
      ghost var whole := PadIn(count, m, m[..|m| - count]);
      var length := [OctetOf(bits0, 0), OctetOf(bits0, 1), OctetOf(bits0, 2), OctetOf(bits0, 3),
        OctetOf(bits1, 0), OctetOf(bits1, 1), OctetOf(bits1, 2), OctetOf(bits1, 3)];
      ghost var front := in_[..56];
      in_ := in_[..56] + length;
      FoldBlock(Step, INITIAL, whole, in_);
      PaddedIs(m, whole, front, length);
      TransformIn();
      digest := DigestOf(buf);
      buf, bits0, bits1, in_ := Regs(0, 0, 0, 0), 0, 0, Zeros(64);
    }
  }

  lemma PaddedIs(m: seq<bv8>, whole: seq<bv8>, front: seq<bv8>, length: seq<bv8>)
    requires whole + front == m + [0x80] + Zeros(ZeroCount(|m|)) && length == LittleEndian64(|m| * 8 % TWO64)
    ensures whole + (front + length) == Padded(m)
  {
    hide ZeroCount, LittleEndian64;
    assert whole + (front + length) == whole + front + length;
    assert m + [0x80] + Zeros(ZeroCount(|m|)) + length == m + ([0x80] + Zeros(ZeroCount(|m|)) + length);
  }

  lemma PadTwoBlocks(whole: seq<bv8>, tail: seq<bv8>, left: nat)
    requires |whole| % 64 == 0 && |tail| + 1 + left == 64 && left < 8
    ensures whole + (tail + [0x80] + Zeros(left)) + Zeros(56) == whole + tail + [0x80] + Zeros(ZeroCount(|whole + tail|))
  {
    assert ZeroCount(|whole + tail|) == left + 56;
    assert Zeros(left) + Zeros(56) == Zeros(left + 56);
    Regroup(whole, tail, [0x80], Zeros(left), Zeros(56));
  }

  lemma PadOneBlock(whole: seq<bv8>, tail: seq<bv8>, n: nat)
    requires |whole| % 64 == 0 && |tail| + 1 + n == 56
    ensures whole + (tail + [0x80] + Zeros(n)) == whole + tail + [0x80] + Zeros(ZeroCount(|whole + tail|))
  {
    assert ZeroCount(|whole + tail|) == n;
  }

  lemma Regroup(a: seq<bv8>, b: seq<bv8>, c: seq<bv8>, d: seq<bv8>, e: seq<bv8>)
    ensures a + (b + c + d) + e == a + b + c + (d + e)
  {
  }

  /** A message hashed in pieces, however it is split. */
  method DigestOfPieces(pieces: seq<seq<bv8>>) returns (digest: seq<bv8>)
    requires forall i :: 0 <= i < |pieces| ==> |pieces[i]| < TWO32
    ensures digest == Digest(Joined(pieces))
  {
    hide Digest;
    var ctx := new Context();
    ctx.Init();
    var i := 0;
    assert pieces[..0] == [];
    while i < |pieces|
      invariant 0 <= i <= |pieces| && fresh(ctx) && ctx.Valid() && ctx.message == Joined(pieces[..i])
    {
      ctx.Update(pieces[i]);
      JoinedMore(pieces, i);
      i := i + 1;
    }
    assert pieces[..i] == pieces;
    digest := ctx.Final();
  }
}
