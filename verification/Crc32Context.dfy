/** pj_crc32_context in the three versions of crc32.c: with tables on little-endian and on
    big-endian machines, and without tables. Data lies at an address, of which only the
    alignment matters. */
module Crc32Context {
  import opened Crc32

  lemma SerialStep(crc: bv32, data: seq<bv8>, i: nat)
    requires i < |data|
    ensures Serial(crc, data[i..]) == Serial(Octet(crc, data[i]), data[i + 1..])
  {
    hide Octet;
    assert data[i..][1..] == data[i + 1..];
  }

  lemma SerialFour(crc: bv32, data: seq<bv8>, i: nat)
    requires i + 4 <= |data|
    ensures Serial(crc, data[i..]) == Serial(Octet(Octet(Octet(Octet(crc, data[i]), data[i + 1]), data[i + 2]), data[i + 3]), data[i + 4..])
  {
    hide Octet, Serial;
    SerialStep(crc, data, i);
    SerialStep(Octet(crc, data[i]), data, i + 1);
    SerialStep(Octet(Octet(crc, data[i]), data[i + 1]), data, i + 2);
    SerialStep(Octet(Octet(Octet(crc, data[i]), data[i + 1]), data[i + 2]), data, i + 3);
  }

  lemma SerialEnd(crc: bv32, data: seq<bv8>)
    ensures Serial(crc, data[|data|..]) == crc
  {
  }

  lemma XorTwice(a: bv32)
    ensures Xor(Xor(a, NEGL), NEGL) == a && Xor(0, NEGL) == NEGL && Xor(NEGL, NEGL) == 0
  {
  }

  lemma SwapNegl(a: bv32)
    ensures Xor(Swap(a), NEGL) == Swap(Xor(a, NEGL)) && Swap(0) == 0
  {
  }

  /** The version for little-endian machines. */
  class LittleEndian {
    var state: bv32

    /** The register after the data so far. */
    ghost function Register(): bv32
      reads this
    {
      Xor(state, NEGL)
    }

    constructor ()
      ensures Register() == NEGL
    {
      state := 0;
      new;
      XorTwice(0);
    }

    method Update(data: seq<bv8>, address: nat) returns (r: bv32)
      modifies this
      ensures Register() == Serial(old(Register()), data) && r == Xor(Register(), NEGL)
    {
      hide Serial, Octet, Xor, LittleTab, LittleStep, LittleWord, Low8, Shr8, Wide;
      var crc, i := Xor(state, NEGL), 0;
      ghost var whole := Serial(crc, data);
      assert data[0..] == data;
      while (address + i) % 4 != 0 && i < |data|
        invariant 0 <= i <= |data| && whole == Serial(crc, data[i..])
        decreases |data| - i
      {
        SerialStep(crc, data, i);
        LittleStepIsOctet(crc, data[i]);
        crc := Xor(LittleTab(Xor(Low8(crc), Wide(data[i]))), Shr8(crc));
        i := i + 1;
      }
      while i + 4 <= |data|
        invariant 0 <= i <= |data| && whole == Serial(crc, data[i..])
      {
        SerialFour(crc, data, i);
        WordIsFourOctets(crc, data[i], data[i + 1], data[i + 2], data[i + 3]);
        crc := Xor(crc, LittleWord(data[i], data[i + 1], data[i + 2], data[i + 3]));
        crc := LittleStep(LittleStep(LittleStep(LittleStep(crc))));
        i := i + 4;
      }
      while i < |data|
        invariant 0 <= i <= |data| && whole == Serial(crc, data[i..])
      {
        SerialStep(crc, data, i);
        LittleStepIsOctet(crc, data[i]);
        crc := Xor(LittleTab(Xor(Low8(crc), Wide(data[i]))), Shr8(crc));
        i := i + 1;
      }
      SerialEnd(crc, data);
      XorTwice(crc);
      state := Xor(crc, NEGL);
      return state;
    }

    method Final() returns (r: bv32)
      ensures r == Xor(Register(), NEGL)
    {
      XorTwice(state);
      return state;
    }
  }

  /** The version for big-endian machines keeps the register with its octets swapped. */
  class BigEndian {
    var state: bv32

    ghost function Register(): bv32
      reads this
    {
      Xor(Swap(state), NEGL)
    }

    constructor ()
      ensures Register() == NEGL
    {
      state := 0;
      new;
      XorTwice(0);
      SwapNegl(0);
    }

    /** Only the final function swaps the value back. */
    method Update(data: seq<bv8>, address: nat) returns (r: bv32)
      modifies this
      ensures Register() == Serial(old(Register()), data) && r == Swap(Xor(Register(), NEGL))
    {
      hide Serial, Octet, Xor, BigTab, LittleStep, BigStep, LittleWord, BigWord, Top8, Shl8, Wide, Swap;
      var crc, i := Xor(state, NEGL), 0;
      ghost var reg := Xor(Swap(state), NEGL);
      SwapTwice(state);
      SwapNegl(Swap(state));
      ghost var whole := Serial(reg, data);
      assert data[0..] == data;
      while (address + i) % 4 != 0 && i < |data|
        invariant 0 <= i <= |data| && crc == Swap(reg) && whole == Serial(reg, data[i..])
        decreases |data| - i
      {
        SerialStep(reg, data, i);
        OctetSwapped(reg, data[i]);
        crc := Xor(BigTab(Xor(Top8(crc), Wide(data[i]))), Shl8(crc));
        reg := Octet(reg, data[i]);
        i := i + 1;
      }
      while i + 4 <= |data|
        invariant 0 <= i <= |data| && crc == Swap(reg) && whole == Serial(reg, data[i..])
      {
        SerialFour(reg, data, i);
        WordSwapped(reg, data[i], data[i + 1], data[i + 2], data[i + 3]);
        crc := Xor(crc, BigWord(data[i], data[i + 1], data[i + 2], data[i + 3]));
        crc := BigStep(BigStep(BigStep(BigStep(crc))));
        reg := Octet(Octet(Octet(Octet(reg, data[i]), data[i + 1]), data[i + 2]), data[i + 3]);
        i := i + 4;
      }
      while i < |data|
        invariant 0 <= i <= |data| && crc == Swap(reg) && whole == Serial(reg, data[i..])
        decreases |data| - i
      {
        SerialStep(reg, data, i);
        OctetSwapped(reg, data[i]);
        crc := Xor(BigTab(Xor(Top8(crc), Wide(data[i]))), Shl8(crc));
        reg := Octet(reg, data[i]);
        i := i + 1;
      }
      SerialEnd(reg, data);
      SwapNegl(reg);
      SwapTwice(Xor(reg, NEGL));
      XorTwice(reg);
      state := Xor(crc, NEGL);
      return state;
    }

    method Final() returns (r: bv32)
      ensures r == Xor(Register(), NEGL)
    {
      XorTwice(Swap(state));
      return Swap(state);
    }
  }

  lemma OctetSwapped(reg: bv32, d: bv8)
    ensures Xor(Top8(Swap(reg)), Wide(d)) < 256
    ensures Xor(BigTab(Xor(Top8(Swap(reg)), Wide(d))), Shl8(Swap(reg))) == Swap(Octet(reg, d))
  {
    SwapEnds(reg);
    hide BigTab, LittleTab, Octet, Xor, Low8, Top8, Shl8, Shr8, Wide, Swap;
    LittleStepIsOctet(reg, d);
    var k := Xor(Low8(reg), Wide(d));
    BigTabIsSwapped(k);
    SwapXor(LittleTab(k), Shr8(reg));
  }

  lemma WordSwapped(reg: bv32, a: bv8, b: bv8, c: bv8, d: bv8)
    ensures BigStep(BigStep(BigStep(BigStep(Xor(Swap(reg), BigWord(a, b, c, d)))))) == Swap(Octet(Octet(Octet(Octet(reg, a), b), c), d))
  {
    hide Octet, Xor, BigStep, LittleStep, BigWord, LittleWord, Swap;
    BigWordIsSwapped(a, b, c, d);
    SwapXor(reg, LittleWord(a, b, c, d));
    var x := Xor(reg, LittleWord(a, b, c, d));
    BigStepIsSwapped(x);
    BigStepIsSwapped(LittleStep(x));
    BigStepIsSwapped(LittleStep(LittleStep(x)));
    BigStepIsSwapped(LittleStep(LittleStep(LittleStep(x))));
    WordIsFourOctets(reg, a, b, c, d);
  }

  /** The version without tables keeps the register itself. */
  class Bitwise {
    var state: bv32

    constructor ()
      ensures state == NEGL
    {
      state := NEGL;
    }

    method Update(octets: seq<bv8>) returns (r: bv32)
      modifies this
      ensures state == Serial(old(state), octets) && r == Xor(state, NEGL)
    {
      hide Serial, Octet, Xor, Low8, Shr8, Wide, Shift;
      var crc, i := state, 0;
      assert octets[0..] == octets;
      while i < |octets|
        invariant 0 <= i <= |octets| && Serial(old(state), octets) == Serial(crc, octets[i..])
      {
        SerialStep(crc, octets, i);
        OctetIsShift8(crc, octets[i]);
        var temp := Xor(Low8(crc), Wide(octets[i]));
        ghost var t := temp;
        ShiftedEight(t);
        var j := 0;
        while j < 8
          invariant 0 <= j <= 8 && Shift8(t) == Shifted(temp, 8 - j)
        {
          temp := Shift(temp);
          j := j + 1;
        }
        crc := Xor(temp, Shr8(crc));
        i := i + 1;
      }
      SerialEnd(crc, octets);
      state := crc;
      return Xor(crc, NEGL);
    }

    method Final() returns (r: bv32)
      modifies this
      ensures r == state == Xor(old(state), NEGL)
    {
      state := Xor(state, NEGL);
      return state;
    }
  }

  lemma ShiftedEight(t: bv32)
    ensures Shift8(t) == Shifted(t, 8)
  {
    hide Shift;
    assert Shift8(t) == Shifted(Shift(Shift(Shift(Shift(t)))), 4);
  }

  function Shifted(t: bv32, n: nat): bv32
    decreases n
  {
    if n == 0 then t else Shifted(Shift(t), n - 1)
  }

  /** pj_crc32_calc, however the table version is built and the data is aligned. */
  method Calc(data: seq<bv8>, address: nat, big: bool) returns (r: bv32)
    ensures r == Fcs(data)
  {
    hide Serial, Xor, Swap;
    if big {
      var ctx := new BigEndian();
      var _ := ctx.Update(data, address);
      r := ctx.Final();
    } else {
      var ctx := new LittleEndian();
      var _ := ctx.Update(data, address);
      r := ctx.Final();
    }
  }

  method CalcBitwise(data: seq<bv8>) returns (r: bv32)
    ensures r == Fcs(data)
  {
    hide Serial, Xor;
    var ctx := new Bitwise();
    var _ := ctx.Update(data);
    r := ctx.Final();
  }

  /** Updating with a and then with b leaves the register that updating with both leaves. */
  method UpdateTwice(ctx: LittleEndian, a: seq<bv8>, b: seq<bv8>, p: nat, q: nat) returns (r: bv32)
    modifies ctx
    ensures ctx.Register() == Serial(old(ctx.Register()), a + b) && r == Xor(ctx.Register(), NEGL)
  {
    hide Serial, Xor;
    SerialConcat(ctx.Register(), a, b);
    var _ := ctx.Update(a, p);
    r := ctx.Update(b, q);
  }

  /** The same on a big-endian machine. */
  method UpdateTwiceBig(ctx: BigEndian, a: seq<bv8>, b: seq<bv8>, p: nat, q: nat) returns (r: bv32)
    modifies ctx
    ensures ctx.Register() == Serial(old(ctx.Register()), a + b) && r == Swap(Xor(ctx.Register(), NEGL))
  {
    hide Serial, Xor, Swap;
    SerialConcat(ctx.Register(), a, b);
    var _ := ctx.Update(a, p);
    r := ctx.Update(b, q);
  }

  /** The same without tables. */
  method UpdateTwiceBitwise(ctx: Bitwise, a: seq<bv8>, b: seq<bv8>) returns (r: bv32)
    modifies ctx
    ensures ctx.state == Serial(old(ctx.state), a + b) && r == Xor(ctx.state, NEGL)
  {
    hide Serial, Xor;
    SerialConcat(ctx.state, a, b);
    var _ := ctx.Update(a);
    r := ctx.Update(b);
  }
}
