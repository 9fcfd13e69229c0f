/** The SHA-1 block function: the method of section 6.1 of RFC 3174 with all 80 words, and
    SHA1_Transform (sha1.c), which keeps 16 words and overwrites them in place. */
module Sha1Block {
  // ----- operations on words -----

  /** S^n of RFC 3174, written out for the three amounts in use. */
  function Rol1(x: bv32): bv32 { (x << 1) | (x >> 31) }

  function Rol5(x: bv32): bv32 { (x << 5) | (x >> 27) }

  function Rol8(x: bv32): bv32 { (x << 8) | (x >> 24) }

  function Rol24(x: bv32): bv32 { (x << 24) | (x >> 8) }

  function Rol30(x: bv32): bv32 { (x << 30) | (x >> 2) }

  function Xor4(a: bv32, b: bv32, c: bv32, d: bv32): bv32 { a ^ b ^ c ^ d }

  function Sum(a: bv32, b: bv32, c: bv32, d: bv32, e: bv32): bv32 { a + b + c + d + e }

  function Add(a: bv32, b: bv32): bv32 { a + b }

  // ----- section 6.1 -----

  function Choice(b: bv32, c: bv32, d: bv32): bv32 { (b & c) | (!b & d) }

  function Parity(b: bv32, c: bv32, d: bv32): bv32 { b ^ c ^ d }

  function Majority(b: bv32, c: bv32, d: bv32): bv32 { (b & c) | (b & d) | (c & d) }

  /** The functions f(t; B, C, D) of section 5. */
  function F(t: nat, b: bv32, c: bv32, d: bv32): bv32 {
    if t < 20 then Choice(b, c, d)
    else if t < 40 then Parity(b, c, d)
    else if t < 60 then Majority(b, c, d)
    else Parity(b, c, d)
  }

  function K(t: nat): bv32 {
    if t < 20 then 0x5A827999 else if t < 40 then 0x6ED9EBA1 else if t < 60 then 0x8F1BBCDC else 0xCA62C1D6
  }

  /** W(t) from the 16 words of the block. */
  function W(m: seq<bv32>, t: nat): bv32
    requires |m| == 16
  {
    if t < 16 then m[t] else Rol1(Xor4(W(m, t - 3), W(m, t - 8), W(m, t - 14), W(m, t - 16)))
  }

  datatype Regs = Regs(a: bv32, b: bv32, c: bv32, d: bv32, e: bv32)

  function Round(s: Regs, t: nat, w: bv32): Regs {
    Regs(Sum(Rol5(s.a), F(t, s.b, s.c, s.d), s.e, w, K(t)), s.a, Rol30(s.b), s.c, s.d)
  }

  /** The registers after t steps. */
  function Rounds(s: Regs, m: seq<bv32>, t: nat): Regs
    requires |m| == 16
  {
    if t == 0 then s else Round(Rounds(s, m, t - 1), t - 1, W(m, t - 1))
  }

  function Plus(s: Regs, r: Regs): Regs {
    Regs(Add(s.a, r.a), Add(s.b, r.b), Add(s.c, r.c), Add(s.d, r.d), Add(s.e, r.e))
  }

  /** The four octets at i as a word, high octet first. */
  function Word(block: seq<bv8>, i: nat): bv32
    requires 4 * i + 4 <= |block|
  {
    ((block[4 * i] as bv32) << 24) | ((block[4 * i + 1] as bv32) << 16) | ((block[4 * i + 2] as bv32) << 8) | (block[4 * i + 3] as bv32)
  }

  function Words(block: seq<bv8>): (m: seq<bv32>)
    requires |block| == 64
    ensures |m| == 16
  {
    seq(16, i requires 0 <= i < 16 => Word(block, i))
  }

  function BlockStep(s: Regs, block: seq<bv8>): Regs
    requires |block| == 64
  {
    Plus(s, Rounds(s, Words(block), 80))
  }

  // ----- SHA1_Transform -----

  /** A word as a little-endian machine loads it from the block. */
  function Loaded(block: seq<bv8>, i: nat): bv32
    requires 4 * i + 4 <= |block|
  {
    (block[4 * i] as bv32) | ((block[4 * i + 1] as bv32) << 8) | ((block[4 * i + 2] as bv32) << 16) | ((block[4 * i + 3] as bv32) << 24)
  }

  /** blk0 turns it round. */
  function Turned(x: bv32): bv32 {
    (Rol24(x) & 0xFF00FF00) | (Rol8(x) & 0x00FF00FF)
  }

  lemma TurnedOctets(a: bv8, b: bv8, c: bv8, d: bv8)
    ensures Turned((a as bv32) | ((b as bv32) << 8) | ((c as bv32) << 16) | ((d as bv32) << 24)) ==
      ((a as bv32) << 24) | ((b as bv32) << 16) | ((c as bv32) << 8) | (d as bv32)
  {
  }

  /** The functions of R0 and R1, and of R3. */
  function FastChoice(w: bv32, x: bv32, y: bv32): bv32 { (w & (x ^ y)) ^ y }

  function FastMajority(w: bv32, x: bv32, y: bv32): bv32 { ((w | x) & y) | (w & x) }

  function FastF(t: nat, w: bv32, x: bv32, y: bv32): bv32 {
    if t < 20 then FastChoice(w, x, y)
    else if t < 40 then Parity(w, x, y)
    else if t < 60 then FastMajority(w, x, y)
    else Parity(w, x, y)
  }

  lemma ChoiceRewritten(w: bv32, x: bv32, y: bv32)
    ensures FastChoice(w, x, y) == Choice(w, x, y)
  {
    RawChoice(w, x, y);
  }

  lemma RawChoice(w: bv32, x: bv32, y: bv32)
    ensures (w & (x ^ y)) ^ y == (w & x) | (!w & y)
  {
  }

  lemma MajorityRewritten(w: bv32, x: bv32, y: bv32)
    ensures FastMajority(w, x, y) == Majority(w, x, y)
  {
    RawMajority(w, x, y);
  }

  lemma RawMajority(w: bv32, x: bv32, y: bv32)
    ensures ((w | x) & y) | (w & x) == (w & x) | (w & y) | (x & y)
  {
  }

  lemma FastFIsF(t: nat, w: bv32, x: bv32, y: bv32)
    ensures FastF(t, w, x, y) == F(t, w, x, y)
  {
    ChoiceRewritten(w, x, y);
    MajorityRewritten(w, x, y);
    hide Choice, Majority, Parity, FastChoice, FastMajority;
  }

  /** The order in which a round macro adds. */
  function MacroSum(z: bv32, f: bv32, w: bv32, k: bv32, r: bv32): bv32 { z + (f + w + k + r) }

  lemma SumOrder(z: bv32, f: bv32, w: bv32, k: bv32, r: bv32)
    ensures MacroSum(z, f, w, k, r) == Sum(r, f, z, w, k)
  {
    RawSumOrder(z, f, w, k, r);
  }

  lemma RawSumOrder(e: bv32, f: bv32, w: bv32, k: bv32, r: bv32)
    ensures e + (f + w + k + r) == r + f + e + w + k
  {
  }

  /** The circular schedule before step i: the words of the last sixteen steps, and in the
      first sixteen steps the words that are still as loaded. */
  ghost predicate Scheduled(l: seq<bv32>, block: seq<bv8>, i: nat)
    requires |block| == 64
  {
    && |l| == 16
    && (forall t :: 0 <= t < i && i - 16 <= t ==> l[t % 16] == W(Words(block), t))
    && (forall t :: i <= t < 16 ==> l[t] == Loaded(block, t))
  }

  lemma LoadedTurned(block: seq<bv8>, i: nat)
    requires |block| == 64 && i < 16
    ensures Turned(Loaded(block, i)) == W(Words(block), i)
  {
    TurnedOctets(block[4 * i], block[4 * i + 1], block[4 * i + 2], block[4 * i + 3]);
    hide Turned;
    assert W(Words(block), i) == Words(block)[i] == Word(block, i);
  }

  /** blk0 and blk. */
  function NextWord(l: seq<bv32>, i: nat): bv32
    requires |l| == 16
  {
    if i < 16 then Turned(l[i]) else Rol1(Xor4(l[(i + 13) % 16], l[(i + 8) % 16], l[(i + 2) % 16], l[i % 16]))
  }

  lemma NextWordIsW(l: seq<bv32>, block: seq<bv8>, i: nat)
    requires |block| == 64 && Scheduled(l, block, i)
    ensures NextWord(l, i) == W(Words(block), i) && Scheduled(l[i % 16 := NextWord(l, i)], block, i + 1)
  {
    hide Turned, Rol1, Xor4, Loaded, Words, W;
    var m := Words(block);
    if i < 16 {
      LoadedTurned(block, i);
    } else {
      WStep(m, i);
      assert l[(i - 3) % 16] == W(m, i - 3) && l[(i - 8) % 16] == W(m, i - 8);
      assert l[(i - 14) % 16] == W(m, i - 14) && l[(i - 16) % 16] == W(m, i - 16);
    }
    ScheduleGoesOn(l, block, i, NextWord(l, i));
  }

  lemma WStep(m: seq<bv32>, t: nat)
    requires |m| == 16 && t >= 16
    ensures W(m, t) == Rol1(Xor4(W(m, t - 3), W(m, t - 8), W(m, t - 14), W(m, t - 16)))
  {
    hide Rol1, Xor4;
  }

  lemma ScheduleGoesOn(l: seq<bv32>, block: seq<bv8>, i: nat, w: bv32)
    requires |block| == 64 && Scheduled(l, block, i) && w == W(Words(block), i)
    ensures Scheduled(l[i % 16 := w], block, i + 1)
  {
    hide Loaded, Words, W;
    var l' := l[i % 16 := w];
    forall t | 0 <= t < i + 1 && i + 1 - 16 <= t ensures l'[t % 16] == W(Words(block), t) {
      if t < i {
        assert t % 16 != i % 16;
      }
    }
  }

  /** A round macro: the registers change by the order in which they are named. */
  method R(i: nat, v: bv32, w: bv32, x: bv32, y: bv32, z: bv32, l: array<bv32>, ghost block: seq<bv8>) returns (z': bv32, w': bv32)
    requires |block| == 64 && Scheduled(l[..], block, i)
    modifies l
    ensures Scheduled(l[..], block, i + 1)
    ensures Regs(z', v, w', x, y) == Round(Regs(v, w, x, y, z), i, W(Words(block), i))
  {
    hide Scheduled, W, F, FastF, Sum, MacroSum, Rol5, Rol30, K, Turned, Rol1, Xor4;
    ghost var was := l[..];
    ScheduledLength(was, block, i);
    NextWordIsW(was, block, i);
    FastFIsF(i, w, x, y);
    var blk := if i < 16 then Turned(l[i]) else Rol1(Xor4(l[(i + 13) % 16], l[(i + 8) % 16], l[(i + 2) % 16], l[i % 16]));
    assert blk == NextWord(was, i);
    l[i % 16] := blk;
    assert l[..] == was[i % 16 := blk];
    SumOrder(z, FastF(i, w, x, y), blk, K(i), Rol5(v));
    z' := MacroSum(z, FastF(i, w, x, y), blk, K(i), Rol5(v));
    w' := Rol30(w);
  }

  lemma ScheduledLength(l: seq<bv32>, block: seq<bv8>, i: nat)
    requires |block| == 64 && Scheduled(l, block, i)
    ensures |l| == 16
  {
  }

  lemma RoundsStep(s: Regs, m: seq<bv32>, t: nat)
    requires |m| == 16
    ensures Rounds(s, m, t + 1) == Round(Rounds(s, m, t), t, W(m, t))
  {
    hide Round, W;
  }

  /** Five macros, after which the registers have their names back. */
  method FiveRounds(i: nat, s: Regs, l: array<bv32>, ghost s0: Regs, ghost block: seq<bv8>) returns (s': Regs)
    requires |block| == 64 && Scheduled(l[..], block, i) && s == Rounds(s0, Words(block), i)
    modifies l
    ensures Scheduled(l[..], block, i + 5) && s' == Rounds(s0, Words(block), i + 5)
  {
    hide Scheduled, Rounds, Round, W, Words;
    ghost var m := Words(block);
    WordsCount(block);
    RoundsStep(s0, m, i);
    RoundsStep(s0, m, i + 1);
    RoundsStep(s0, m, i + 2);
    RoundsStep(s0, m, i + 3);
    RoundsStep(s0, m, i + 4);
    var a, b, c, d, e := s.a, s.b, s.c, s.d, s.e;
    e, b := R(i, a, b, c, d, e, l, block);
    d, a := R(i + 1, e, a, b, c, d, l, block);
    c, e := R(i + 2, d, e, a, b, c, l, block);
    b, d := R(i + 3, c, d, e, a, b, l, block);
    a, c := R(i + 4, b, c, d, e, a, l, block);
    return Regs(a, b, c, d, e);
  }

  lemma WordsCount(block: seq<bv8>)
    requires |block| == 64
    ensures |Words(block)| == 16
  {
  }

  /** SHA1_Transform. The schedule overwrites the words of the block: they come back in l. */
  method Transform(state: Regs, block: seq<bv8>) returns (state': Regs, l: array<bv32>)
    requires |block| == 64
    ensures state' == BlockStep(state, block) && fresh(l) && l.Length == 16
  {
    hide Rounds, Words, Add;
    l := new bv32[16](i requires 0 <= i < 16 => Loaded(block, i));
    var s := state;
    var i := 0;
    assert Rounds(state, Words(block), 0) == state by { RoundsNone(state, Words(block)); }
    while i < 80
      invariant 0 <= i <= 80 && i % 5 == 0 && Scheduled(l[..], block, i) && s == Rounds(state, Words(block), i)
    {
      hide Scheduled;
      s := FiveRounds(i, s, l, state, block);
      i := i + 5;
    }
    state' := Plus(state, s);
  }

  lemma RoundsNone(s: Regs, m: seq<bv32>)
    requires |m| == 16
    ensures Rounds(s, m, 0) == s
  {
  }
}
