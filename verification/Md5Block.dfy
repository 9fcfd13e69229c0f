/** The MD5 block function: the operations of section 3.4 of RFC 1321, and MD5Transform
    (md5.c). */
module Md5Block {
  // ----- operations on words -----

  function Rotated(x: bv32, s: nat): bv32
    requires s <= 32
  {
    (x << s) | (x >> (32 - s))
  }

  function Sum(a: bv32, f: bv32, x: bv32, t: bv32): bv32 { a + f + x + t }

  function Add(a: bv32, b: bv32): bv32 { a + b }

  // ----- RFC 1321 -----

  function F(x: bv32, y: bv32, z: bv32): bv32 { (x & y) | (!x & z) }

  function G(x: bv32, y: bv32, z: bv32): bv32 { (x & z) | (y & !z) }

  function H(x: bv32, y: bv32, z: bv32): bv32 { x ^ y ^ z }

  function I(x: bv32, y: bv32, z: bv32): bv32 { y ^ (x | !z) }

  function Auxiliary(i: nat, x: bv32, y: bv32, z: bv32): bv32 {
    if i < 16 then F(x, y, z) else if i < 32 then G(x, y, z) else if i < 48 then H(x, y, z) else I(x, y, z)
  }

  /** Which word operation i takes. */
  function WordIndex(i: nat): (k: nat)
    ensures k < 16
  {
    if i < 16 then i else if i < 32 then (5 * i + 1) % 16 else if i < 48 then (3 * i + 5) % 16 else 7 * i % 16
  }

  function Amount(i: nat): (s: nat)
    ensures s < 32
  {
    var j := i % 4;
    if i < 16 then (if j == 0 then 7 else if j == 1 then 12 else if j == 2 then 17 else 22)
    else if i < 32 then (if j == 0 then 5 else if j == 1 then 9 else if j == 2 then 14 else 20)
    else if i < 48 then (if j == 0 then 4 else if j == 1 then 11 else if j == 2 then 16 else 23)
    else if j == 0 then 6 else if j == 1 then 10 else if j == 2 then 15 else 21
  }

  function Entry(k: nat, a: bv32, b: bv32, c: bv32, d: bv32): bv32 {
    if k == 0 then a else if k == 1 then b else if k == 2 then c else d
  }

  /** The table of 4294967296 times the absolute value of the sine. */
  function Sine(i: nat): bv32 {
    if i < 4 then Entry(i % 4, 0xd76aa478, 0xe8c7b756, 0x242070db, 0xc1bdceee)
    else if i < 8 then Entry(i % 4, 0xf57c0faf, 0x4787c62a, 0xa8304613, 0xfd469501)
    else if i < 12 then Entry(i % 4, 0x698098d8, 0x8b44f7af, 0xffff5bb1, 0x895cd7be)
    else if i < 16 then Entry(i % 4, 0x6b901122, 0xfd987193, 0xa679438e, 0x49b40821)
    else if i < 20 then Entry(i % 4, 0xf61e2562, 0xc040b340, 0x265e5a51, 0xe9b6c7aa)
    else if i < 24 then Entry(i % 4, 0xd62f105d, 0x02441453, 0xd8a1e681, 0xe7d3fbc8)
    else if i < 28 then Entry(i % 4, 0x21e1cde6, 0xc33707d6, 0xf4d50d87, 0x455a14ed)
    else if i < 32 then Entry(i % 4, 0xa9e3e905, 0xfcefa3f8, 0x676f02d9, 0x8d2a4c8a)
    else if i < 36 then Entry(i % 4, 0xfffa3942, 0x8771f681, 0x6d9d6122, 0xfde5380c)
    else if i < 40 then Entry(i % 4, 0xa4beea44, 0x4bdecfa9, 0xf6bb4b60, 0xbebfbc70)
    else if i < 44 then Entry(i % 4, 0x289b7ec6, 0xeaa127fa, 0xd4ef3085, 0x04881d05)
    else if i < 48 then Entry(i % 4, 0xd9d4d039, 0xe6db99e5, 0x1fa27cf8, 0xc4ac5665)
    else if i < 52 then Entry(i % 4, 0xf4292244, 0x432aff97, 0xab9423a7, 0xfc93a039)
    else if i < 56 then Entry(i % 4, 0x655b59c3, 0x8f0ccc92, 0xffeff47d, 0x85845dd1)
    else if i < 60 then Entry(i % 4, 0x6fa87e4f, 0xfe2ce6e0, 0xa3014314, 0x4e0811a1)
    else Entry(i % 4, 0xf7537e82, 0xbd3af235, 0x2ad7d2bb, 0xeb86d391)
  }

  datatype Regs = Regs(a: bv32, b: bv32, c: bv32, d: bv32)

  /** One operation; the registers move on by one. */
  function Operation(s: Regs, i: nat, m: seq<bv32>): Regs
    requires |m| == 16
  {
    var rotated := Rotated(Sum(s.a, Auxiliary(i, s.b, s.c, s.d), m[WordIndex(i)], Sine(i)), Amount(i));
    Regs(s.d, Add(s.b, rotated), s.b, s.c)
  }

  function Operations(s: Regs, m: seq<bv32>, n: nat): Regs
    requires |m| == 16
  {
    if n == 0 then s else Operation(Operations(s, m, n - 1), n - 1, m)
  }

  /** The four octets at i as a word, low octet first. */
  function Word(block: seq<bv8>, i: nat): bv32
    requires 4 * i + 4 <= |block|
  {
    (block[4 * i] as bv32) | ((block[4 * i + 1] as bv32) << 8) | ((block[4 * i + 2] as bv32) << 16) | ((block[4 * i + 3] as bv32) << 24)
  }

  function Words(block: seq<bv8>): (m: seq<bv32>)
    requires |block| == 64
    ensures |m| == 16
  {
    seq(16, i requires 0 <= i < 16 => Word(block, i))
  }

  function BlockStep(s: Regs, block: seq<bv8>): Regs
    requires |block| == 64
  {
    var r := Operations(s, Words(block), 64);
    Regs(Add(s.a, r.a), Add(s.b, r.b), Add(s.c, r.c), Add(s.d, r.d))
  }

  // ----- MD5Transform -----

  function FastF(x: bv32, y: bv32, z: bv32): bv32 { z ^ (x & (y ^ z)) }

  /** F1 to F4; the second is the first with its arguments moved round. */
  function FastAuxiliary(i: nat, x: bv32, y: bv32, z: bv32): bv32 {
    if i < 16 then FastF(x, y, z) else if i < 32 then FastF(z, x, y) else if i < 48 then H(x, y, z) else I(x, y, z)
  }

  lemma FastFIsF(x: bv32, y: bv32, z: bv32)
    ensures FastF(x, y, z) == F(x, y, z)
  {
    RawF(x, y, z);
  }

  lemma RawF(x: bv32, y: bv32, z: bv32)
    ensures z ^ (x & (y ^ z)) == (x & y) | (!x & z)
  {
  }

  lemma FastFIsG(x: bv32, y: bv32, z: bv32)
    ensures FastF(z, x, y) == G(x, y, z)
  {
    RawG(x, y, z);
  }

  lemma RawG(x: bv32, y: bv32, z: bv32)
    ensures y ^ (z & (x ^ y)) == (x & z) | (y & !z)
  {
  }

  lemma FastAuxiliaryIs(i: nat, x: bv32, y: bv32, z: bv32)
    ensures FastAuxiliary(i, x, y, z) == Auxiliary(i, x, y, z)
  {
    FastFIsF(x, y, z);
    FastFIsG(x, y, z);
    hide F, G, H, I, FastF;
  }

  function MacroSum(w: bv32, f: bv32, x: bv32, t: bv32): bv32 { w + (f + (x + t)) }

  lemma SumOrder(w: bv32, f: bv32, x: bv32, t: bv32)
    ensures MacroSum(w, f, x, t) == Sum(w, f, x, t)
  {
    RawSumOrder(w, f, x, t);
  }

  lemma RawSumOrder(w: bv32, f: bv32, x: bv32, t: bv32)
    ensures w + (f + (x + t)) == w + f + x + t
  {
  }

  lemma AddOrder(a: bv32, b: bv32)
    ensures Add(a, b) == Add(b, a)
  {
    RawAddOrder(a, b);
  }

  lemma RawAddOrder(a: bv32, b: bv32)
    ensures a + b == b + a
  {
  }

  /** MD5STEP. */
  method Md5Step(i: nat, w: bv32, x: bv32, y: bv32, z: bv32, word: bv32, t: bv32, s: nat, ghost m: seq<bv32>) returns (w': bv32)
    requires |m| == 16 && word == m[WordIndex(i)] && t == Sine(i) && s == Amount(i)
    ensures Regs(z, w', x, y) == Operation(Regs(w, x, y, z), i, m)
  {
    hide Auxiliary, FastAuxiliary, Sum, MacroSum, Add, Rotated, Sine, WordIndex, Amount;
    FastAuxiliaryIs(i, x, y, z);
    SumOrder(w, FastAuxiliary(i, x, y, z), word, t);
    w' := MacroSum(w, FastAuxiliary(i, x, y, z), word, t);
    w' := Rotated(w', s);
    AddOrder(w', x);
    w' := Add(w', x);
  }

  lemma OperationsStep(s: Regs, m: seq<bv32>, n: nat)
    requires |m| == 16
    ensures Operations(s, m, n + 1) == Operation(Operations(s, m, n), n, m)
  {
    hide Operation;
  }

  /** Four macros, after which the registers have their names back; word indices, constants and
      amounts are those of the text. */
  method Quad(r: Regs, l: seq<bv32>, i: nat, k0: nat, k1: nat, k2: nat, k3: nat, t0: bv32, t1: bv32, t2: bv32, t3: bv32,
      n0: nat, n1: nat, n2: nat, n3: nat, ghost s0: Regs) returns (r': Regs)
    requires |l| == 16 && r == Operations(s0, l, i)
    requires k0 == WordIndex(i) && k1 == WordIndex(i + 1) && k2 == WordIndex(i + 2) && k3 == WordIndex(i + 3)
    requires t0 == Sine(i) && t1 == Sine(i + 1) && t2 == Sine(i + 2) && t3 == Sine(i + 3)
    requires n0 == Amount(i) && n1 == Amount(i + 1) && n2 == Amount(i + 2) && n3 == Amount(i + 3)
    ensures r' == Operations(s0, l, i + 4)
  {
    hide Operation, Operations, Sine, WordIndex, Amount;
    OperationsStep(s0, l, i);
    OperationsStep(s0, l, i + 1);
    OperationsStep(s0, l, i + 2);
    OperationsStep(s0, l, i + 3);
    var a, b, c, d := r.a, r.b, r.c, r.d;
    a := Md5Step(i, a, b, c, d, l[k0], t0, n0, l);
    d := Md5Step(i + 1, d, a, b, c, l[k1], t1, n1, l);
    c := Md5Step(i + 2, c, d, a, b, l[k2], t2, n2, l);
    b := Md5Step(i + 3, b, c, d, a, l[k3], t3, n3, l);
    return Regs(a, b, c, d);
  }

  /** Half of round 1. */
  method Eight0(r: Regs, l: seq<bv32>, ghost s0: Regs) returns (r': Regs)
    requires |l| == 16 && r == Operations(s0, l, 0)
    ensures r' == Operations(s0, l, 8)
  {
    hide Operations, Operation;
    r' := Quad(r, l, 0, 0, 1, 2, 3, 0xd76aa478, 0xe8c7b756, 0x242070db, 0xc1bdceee, 7, 12, 17, 22, s0);
    r' := Quad(r', l, 4, 4, 5, 6, 7, 0xf57c0faf, 0x4787c62a, 0xa8304613, 0xfd469501, 7, 12, 17, 22, s0);
  }

  /** Half of round 1. */
  method Eight1(r: Regs, l: seq<bv32>, ghost s0: Regs) returns (r': Regs)
    requires |l| == 16 && r == Operations(s0, l, 8)
    ensures r' == Operations(s0, l, 16)
  {
    hide Operations, Operation;
    r' := Quad(r, l, 8, 8, 9, 10, 11, 0x698098d8, 0x8b44f7af, 0xffff5bb1, 0x895cd7be, 7, 12, 17, 22, s0);
    r' := Quad(r', l, 12, 12, 13, 14, 15, 0x6b901122, 0xfd987193, 0xa679438e, 0x49b40821, 7, 12, 17, 22, s0);
  }

  /** Half of round 2. */
  method Eight2(r: Regs, l: seq<bv32>, ghost s0: Regs) returns (r': Regs)
    requires |l| == 16 && r == Operations(s0, l, 16)
    ensures r' == Operations(s0, l, 24)
  {
    hide Operations, Operation;
    r' := Quad(r, l, 16, 1, 6, 11, 0, 0xf61e2562, 0xc040b340, 0x265e5a51, 0xe9b6c7aa, 5, 9, 14, 20, s0);
    r' := Quad(r', l, 20, 5, 10, 15, 4, 0xd62f105d, 0x02441453, 0xd8a1e681, 0xe7d3fbc8, 5, 9, 14, 20, s0);
  }

  /** Half of round 2. */
  method Eight3(r: Regs, l: seq<bv32>, ghost s0: Regs) returns (r': Regs)
    requires |l| == 16 && r == Operations(s0, l, 24)
    ensures r' == Operations(s0, l, 32)
  {
    hide Operations, Operation;
    r' := Quad(r, l, 24, 9, 14, 3, 8, 0x21e1cde6, 0xc33707d6, 0xf4d50d87, 0x455a14ed, 5, 9, 14, 20, s0);
    r' := Quad(r', l, 28, 13, 2, 7, 12, 0xa9e3e905, 0xfcefa3f8, 0x676f02d9, 0x8d2a4c8a, 5, 9, 14, 20, s0);
  }

  /** Half of round 3. */
  method Eight4(r: Regs, l: seq<bv32>, ghost s0: Regs) returns (r': Regs)
    requires |l| == 16 && r == Operations(s0, l, 32)
    ensures r' == Operations(s0, l, 40)
  {
    hide Operations, Operation;
    r' := Quad(r, l, 32, 5, 8, 11, 14, 0xfffa3942, 0x8771f681, 0x6d9d6122, 0xfde5380c, 4, 11, 16, 23, s0);
    r' := Quad(r', l, 36, 1, 4, 7, 10, 0xa4beea44, 0x4bdecfa9, 0xf6bb4b60, 0xbebfbc70, 4, 11, 16, 23, s0);
  }

  /** Half of round 3. */
  method Eight5(r: Regs, l: seq<bv32>, ghost s0: Regs) returns (r': Regs)
    requires |l| == 16 && r == Operations(s0, l, 40)
    ensures r' == Operations(s0, l, 48)
  {
    hide Operations, Operation;
    r' := Quad(r, l, 40, 13, 0, 3, 6, 0x289b7ec6, 0xeaa127fa, 0xd4ef3085, 0x04881d05, 4, 11, 16, 23, s0);
    r' := Quad(r', l, 44, 9, 12, 15, 2, 0xd9d4d039, 0xe6db99e5, 0x1fa27cf8, 0xc4ac5665, 4, 11, 16, 23, s0);
  }

  /** Half of round 4. */
  method Eight6(r: Regs, l: seq<bv32>, ghost s0: Regs) returns (r': Regs)
    requires |l| == 16 && r == Operations(s0, l, 48)
    ensures r' == Operations(s0, l, 56)
  {
    hide Operations, Operation;
    r' := Quad(r, l, 48, 0, 7, 14, 5, 0xf4292244, 0x432aff97, 0xab9423a7, 0xfc93a039, 6, 10, 15, 21, s0);
    r' := Quad(r', l, 52, 12, 3, 10, 1, 0x655b59c3, 0x8f0ccc92, 0xffeff47d, 0x85845dd1, 6, 10, 15, 21, s0);
  }

  /** Half of round 4. */
  method Eight7(r: Regs, l: seq<bv32>, ghost s0: Regs) returns (r': Regs)
    requires |l| == 16 && r == Operations(s0, l, 56)
    ensures r' == Operations(s0, l, 64)
  {
    hide Operations, Operation;
    r' := Quad(r, l, 56, 8, 15, 6, 13, 0x6fa87e4f, 0xfe2ce6e0, 0xa3014314, 0x4e0811a1, 6, 10, 15, 21, s0);
    r' := Quad(r', l, 60, 4, 11, 2, 9, 0xf7537e82, 0xbd3af235, 0x2ad7d2bb, 0xeb86d391, 6, 10, 15, 21, s0);
  }

  lemma NoOperations(s: Regs, m: seq<bv32>)
    requires |m| == 16
    ensures Operations(s, m, 0) == s
  {
  }

  /** MD5Transform. */
  method Transform(s0: Regs, block: seq<bv8>) returns (s': Regs)
    requires |block| == 64
    ensures s' == BlockStep(s0, block)
  {
    hide Operations, Words, Add;
    var l := Words(block);
    NoOperations(s0, l);
    var s := Eight0(s0, l, s0);
    s := Eight1(s, l, s0);
    s := Eight2(s, l, s0);
    s := Eight3(s, l, s0);
    s := Eight4(s, l, s0);
    s := Eight5(s, l, s0);
    s := Eight6(s, l, s0);
    s := Eight7(s, l, s0);
    s' := Regs(Add(s0.a, s.a), Add(s0.b, s.b), Add(s0.c, s.c), Add(s0.d, s.d));
  }
}
