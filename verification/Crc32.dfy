/** The tables and the octet and word steps of crc32.c, and the serial register that they speed
    up (section 8.1.1.6.2 of ITU-T V.42). */
module Crc32 {
  const POLY: bv32 := 0xedb88320  // the generator with its bits reversed
  const NEGL: bv32 := 0xffffffff  // CRC32_NEGL

  // ----- the operations on words -----

  function Xor(a: bv32, b: bv32): bv32 { a ^ b }

  function Shr1(a: bv32): bv32 { a >> 1 }

  function Shl1(a: bv32): bv32 { a << 1 }

  function Shr8(a: bv32): bv32 { a >> 8 }

  function Shl8(a: bv32): bv32 { a << 8 }

  function Low8(a: bv32): bv32 { a & 0xff }

  function Top8(a: bv32): bv32 { a >> 24 }

  predicate LowBit(a: bv32) { a & 1 != 0 }

  function Wide(d: bv8): bv32 { d as bv32 }

  lemma XorAssoc(a: bv32, b: bv32, c: bv32)
    ensures Xor(Xor(a, b), c) == Xor(a, Xor(b, c))
  {
  }

  lemma XorRight(a: bv32, b: bv32, c: bv32)
    ensures Xor(Xor(a, b), c) == Xor(Xor(a, c), b)
  {
    hide Xor;
    XorAssoc(a, b, c);
    XorCommutes(b, c);
    XorAssoc(a, c, b);
  }

  lemma XorCommutes(a: bv32, b: bv32)
    ensures Xor(a, b) == Xor(b, a)
  {
  }

  lemma XorShr1(a: bv32, b: bv32)
    ensures Shr1(Xor(a, b)) == Xor(Shr1(a), Shr1(b))
  {
  }

  // ----- the serial register -----

  /** One bit of data enters the register. */
  function BitStep(crc: bv32, data: bv32): bv32 {
    if LowBit(Xor(crc, data)) then Xor(Shr1(crc), POLY) else Shr1(crc)
  }

  /** The four low bits of the data enter, the lowest first. */
  function FourBits(crc: bv32, b: bv32): bv32 {
    BitStep(BitStep(BitStep(BitStep(crc, b), Shr1(b)), Shr1(Shr1(b))), Shr1(Shr1(Shr1(b))))
  }

  function Shr4(b: bv32): bv32 {
    Shr1(Shr1(Shr1(Shr1(b))))
  }

  /** One octet enters. */
  function Octet(crc: bv32, d: bv8): bv32 {
    FourBits(FourBits(crc, Wide(d)), Shr4(Wide(d)))
  }

  function Serial(crc: bv32, data: seq<bv8>): bv32
    decreases |data|
  {
    if data == [] then crc else Serial(Octet(crc, data[0]), data[1..])
  }

  /** The frame check sequence of the data. */
  function Fcs(data: seq<bv8>): bv32 {
    Xor(Serial(NEGL, data), NEGL)
  }

  /** Data in two pieces is data in one. */
  lemma {:induction false} SerialConcat(crc: bv32, a: seq<bv8>, b: seq<bv8>)
    ensures Serial(crc, a + b) == Serial(Serial(crc, a), b)
    decreases |a|
  {
    hide Octet;
    if a == [] {
      assert a + b == b;
    } else {
      assert (a + b)[1..] == a[1..] + b;
      SerialConcat(Octet(crc, a[0]), a[1..], b);
    }
  }

  // ----- eight bits at once -----

  function Shift(t: bv32): bv32 {
    if LowBit(t) then Xor(Shr1(t), POLY) else Shr1(t)
  }

  function Shift4(t: bv32): bv32 {
    Shift(Shift(Shift(Shift(t))))
  }

  /** The inner loop of the version without tables. */
  function Shift8(t: bv32): bv32 {
    Shift4(Shift4(t))
  }

  /** Data may enter ahead of the shift that uses it. */
  lemma BitAhead(crc: bv32, b: bv32)
    ensures Shift(Xor(crc, b)) == Xor(BitStep(crc, b), Shr1(b))
  {
    XorShr1(crc, b);
    XorRight(Shr1(crc), Shr1(b), POLY);
    hide Xor, Shr1, LowBit;
  }

  lemma FourAhead(crc: bv32, b: bv32)
    ensures Shift4(Xor(crc, b)) == Xor(FourBits(crc, b), Shr4(b))
  {
    hide Xor, Shr1, LowBit, Shift, BitStep;
    var c1 := BitStep(crc, b);
    var c2 := BitStep(c1, Shr1(b));
    BitAhead(crc, b);
    BitAhead(c1, Shr1(b));
    BitAhead(c2, Shr1(Shr1(b)));
    BitAhead(BitStep(c2, Shr1(Shr1(b))), Shr1(Shr1(Shr1(b))));
  }

  lemma OctetAhead(crc: bv32, d: bv8)
    ensures Octet(crc, d) == Shift8(Xor(crc, Wide(d)))
  {
    NothingLeft(Octet(crc, d), d);
    hide Xor, Shift4, FourBits, Shr4, Wide;
    FourAhead(crc, Wide(d));
    FourAhead(FourBits(crc, Wide(d)), Shr4(Wide(d)));
  }

  lemma NothingLeft(c: bv32, d: bv8)
    ensures Xor(c, Shr4(Shr4(Wide(d)))) == c
  {
    assert Shr4(Shr4(Wide(d))) == 0;
  }

  /** What enters above the low bit comes down unchanged. */
  lemma ShiftCarries(t: bv32, above: bv32)
    requires above < 0x80000000
    ensures Shift(Xor(t, Shl1(above))) == Xor(Shift(t), above)
  {
    ShlShr(t, above);
    XorShr1(t, Shl1(above));
    XorRight(Shr1(t), above, POLY);
    hide Xor, Shr1, Shl1, LowBit;
  }

  lemma ShlShr(t: bv32, above: bv32)
    requires above < 0x80000000
    ensures Shr1(Shl1(above)) == above && (LowBit(Xor(t, Shl1(above))) <==> LowBit(t))
  {
  }

  function Shl4(a: bv32): bv32 {
    Shl1(Shl1(Shl1(Shl1(a))))
  }

  lemma Shift4Carries(t: bv32, above: bv32)
    requires above < 0x10000000
    ensures Shift4(Xor(t, Shl4(above))) == Xor(Shift4(t), above)
  {
    Shl1Bound(above, 0x10000000);
    Shl1Bound(Shl1(above), 0x20000000);
    Shl1Bound(Shl1(Shl1(above)), 0x40000000);
    hide Xor, Shl1, Shift;
    ShiftCarries(t, Shl1(Shl1(Shl1(above))));
    ShiftCarries(Shift(t), Shl1(Shl1(above)));
    ShiftCarries(Shift(Shift(t)), Shl1(above));
    ShiftCarries(Shift(Shift(Shift(t))), above);
  }

  lemma Shl1Bound(a: bv32, n: bv32)
    requires a < n <= 0x40000000
    ensures Shl1(a) < Shl1(n)
  {
  }

  lemma Shift8Carries(t: bv32, above: bv32)
    requires above < 0x1000000
    ensures Shift8(Xor(t, Shl8(above))) == Xor(Shift8(t), above)
  {
    Shl8Is(above);
    hide Xor, Shl8, Shl4, Shift4;
    Shift4Carries(t, Shl4(above));
    Shift4Carries(Shift4(t), above);
  }

  lemma Shl8Is(a: bv32)
    requires a < 0x1000000
    ensures Shl8(a) == Shl4(Shl4(a)) && Shl4(a) < 0x10000000
  {
  }

  /** Eight shifts of the low octet, and the rest moved down, are the serial steps of an octet. */
  lemma OctetIsShift8(crc: bv32, d: bv8)
    ensures Octet(crc, d) == Xor(Shift8(Xor(Low8(crc), Wide(d))), Shr8(crc))
  {
    OctetAhead(crc, d);
    SplitWord(crc, d);
    hide Octet, Shift8, Xor, Shl8, Shr8, Low8, Wide;
    Shift8Carries(Xor(Low8(crc), Wide(d)), Shr8(crc));
  }

  lemma SplitWord(crc: bv32, d: bv8)
    ensures Xor(crc, Wide(d)) == Xor(Xor(Low8(crc), Wide(d)), Shl8(Shr8(crc))) && Shr8(crc) < 0x1000000
  {
  }

  lemma OctetInWord(crc: bv32, d: bv8)
    ensures Low8(Xor(crc, Wide(d))) == Xor(Low8(crc), Wide(d)) < 256 && Shr8(Xor(crc, Wide(d))) == Shr8(crc)
  {
  }

  // ----- the tables -----

  function Entry(k: bv32, a: bv32, b: bv32, c: bv32, d: bv32, e: bv32, f: bv32, g: bv32, h: bv32): bv32 {
    if k == 0 then a else if k == 1 then b else if k == 2 then c else if k == 3 then d
    else if k == 4 then e else if k == 5 then f else if k == 6 then g else h
  }

  /** crc_tab on little-endian machines. */
  function LittleTab(c: bv32): bv32
    requires c < 256
  {
    if c < 8 then Entry(c & 7, 0x00000000, 0x77073096, 0xee0e612c, 0x990951ba, 0x076dc419, 0x706af48f, 0xe963a535, 0x9e6495a3)
    else if c < 16 then Entry(c & 7, 0x0edb8832, 0x79dcb8a4, 0xe0d5e91e, 0x97d2d988, 0x09b64c2b, 0x7eb17cbd, 0xe7b82d07, 0x90bf1d91)
    else if c < 24 then Entry(c & 7, 0x1db71064, 0x6ab020f2, 0xf3b97148, 0x84be41de, 0x1adad47d, 0x6ddde4eb, 0xf4d4b551, 0x83d385c7)
    else if c < 32 then Entry(c & 7, 0x136c9856, 0x646ba8c0, 0xfd62f97a, 0x8a65c9ec, 0x14015c4f, 0x63066cd9, 0xfa0f3d63, 0x8d080df5)
    else if c < 40 then Entry(c & 7, 0x3b6e20c8, 0x4c69105e, 0xd56041e4, 0xa2677172, 0x3c03e4d1, 0x4b04d447, 0xd20d85fd, 0xa50ab56b)
    else if c < 48 then Entry(c & 7, 0x35b5a8fa, 0x42b2986c, 0xdbbbc9d6, 0xacbcf940, 0x32d86ce3, 0x45df5c75, 0xdcd60dcf, 0xabd13d59)
    else if c < 56 then Entry(c & 7, 0x26d930ac, 0x51de003a, 0xc8d75180, 0xbfd06116, 0x21b4f4b5, 0x56b3c423, 0xcfba9599, 0xb8bda50f)
    else if c < 64 then Entry(c & 7, 0x2802b89e, 0x5f058808, 0xc60cd9b2, 0xb10be924, 0x2f6f7c87, 0x58684c11, 0xc1611dab, 0xb6662d3d)
    else if c < 72 then Entry(c & 7, 0x76dc4190, 0x01db7106, 0x98d220bc, 0xefd5102a, 0x71b18589, 0x06b6b51f, 0x9fbfe4a5, 0xe8b8d433)
    else if c < 80 then Entry(c & 7, 0x7807c9a2, 0x0f00f934, 0x9609a88e, 0xe10e9818, 0x7f6a0dbb, 0x086d3d2d, 0x91646c97, 0xe6635c01)
    else if c < 88 then Entry(c & 7, 0x6b6b51f4, 0x1c6c6162, 0x856530d8, 0xf262004e, 0x6c0695ed, 0x1b01a57b, 0x8208f4c1, 0xf50fc457)
    else if c < 96 then Entry(c & 7, 0x65b0d9c6, 0x12b7e950, 0x8bbeb8ea, 0xfcb9887c, 0x62dd1ddf, 0x15da2d49, 0x8cd37cf3, 0xfbd44c65)
    else if c < 104 then Entry(c & 7, 0x4db26158, 0x3ab551ce, 0xa3bc0074, 0xd4bb30e2, 0x4adfa541, 0x3dd895d7, 0xa4d1c46d, 0xd3d6f4fb)
    else if c < 112 then Entry(c & 7, 0x4369e96a, 0x346ed9fc, 0xad678846, 0xda60b8d0, 0x44042d73, 0x33031de5, 0xaa0a4c5f, 0xdd0d7cc9)
    else if c < 120 then Entry(c & 7, 0x5005713c, 0x270241aa, 0xbe0b1010, 0xc90c2086, 0x5768b525, 0x206f85b3, 0xb966d409, 0xce61e49f)
    else if c < 128 then Entry(c & 7, 0x5edef90e, 0x29d9c998, 0xb0d09822, 0xc7d7a8b4, 0x59b33d17, 0x2eb40d81, 0xb7bd5c3b, 0xc0ba6cad)
    else if c < 136 then Entry(c & 7, 0xedb88320, 0x9abfb3b6, 0x03b6e20c, 0x74b1d29a, 0xead54739, 0x9dd277af, 0x04db2615, 0x73dc1683)
    else if c < 144 then Entry(c & 7, 0xe3630b12, 0x94643b84, 0x0d6d6a3e, 0x7a6a5aa8, 0xe40ecf0b, 0x9309ff9d, 0x0a00ae27, 0x7d079eb1)
    else if c < 152 then Entry(c & 7, 0xf00f9344, 0x8708a3d2, 0x1e01f268, 0x6906c2fe, 0xf762575d, 0x806567cb, 0x196c3671, 0x6e6b06e7)
    else if c < 160 then Entry(c & 7, 0xfed41b76, 0x89d32be0, 0x10da7a5a, 0x67dd4acc, 0xf9b9df6f, 0x8ebeeff9, 0x17b7be43, 0x60b08ed5)
    else if c < 168 then Entry(c & 7, 0xd6d6a3e8, 0xa1d1937e, 0x38d8c2c4, 0x4fdff252, 0xd1bb67f1, 0xa6bc5767, 0x3fb506dd, 0x48b2364b)
    else if c < 176 then Entry(c & 7, 0xd80d2bda, 0xaf0a1b4c, 0x36034af6, 0x41047a60, 0xdf60efc3, 0xa867df55, 0x316e8eef, 0x4669be79)
    else if c < 184 then Entry(c & 7, 0xcb61b38c, 0xbc66831a, 0x256fd2a0, 0x5268e236, 0xcc0c7795, 0xbb0b4703, 0x220216b9, 0x5505262f)
    else if c < 192 then Entry(c & 7, 0xc5ba3bbe, 0xb2bd0b28, 0x2bb45a92, 0x5cb36a04, 0xc2d7ffa7, 0xb5d0cf31, 0x2cd99e8b, 0x5bdeae1d)
    else if c < 200 then Entry(c & 7, 0x9b64c2b0, 0xec63f226, 0x756aa39c, 0x026d930a, 0x9c0906a9, 0xeb0e363f, 0x72076785, 0x05005713)
    else if c < 208 then Entry(c & 7, 0x95bf4a82, 0xe2b87a14, 0x7bb12bae, 0x0cb61b38, 0x92d28e9b, 0xe5d5be0d, 0x7cdcefb7, 0x0bdbdf21)
    else if c < 216 then Entry(c & 7, 0x86d3d2d4, 0xf1d4e242, 0x68ddb3f8, 0x1fda836e, 0x81be16cd, 0xf6b9265b, 0x6fb077e1, 0x18b74777)
    else if c < 224 then Entry(c & 7, 0x88085ae6, 0xff0f6a70, 0x66063bca, 0x11010b5c, 0x8f659eff, 0xf862ae69, 0x616bffd3, 0x166ccf45)
    else if c < 232 then Entry(c & 7, 0xa00ae278, 0xd70dd2ee, 0x4e048354, 0x3903b3c2, 0xa7672661, 0xd06016f7, 0x4969474d, 0x3e6e77db)
    else if c < 240 then Entry(c & 7, 0xaed16a4a, 0xd9d65adc, 0x40df0b66, 0x37d83bf0, 0xa9bcae53, 0xdebb9ec5, 0x47b2cf7f, 0x30b5ffe9)
    else if c < 248 then Entry(c & 7, 0xbdbdf21c, 0xcabac28a, 0x53b39330, 0x24b4a3a6, 0xbad03605, 0xcdd70693, 0x54de5729, 0x23d967bf)
    else Entry(c & 7, 0xb3667a2e, 0xc4614ab8, 0x5d681b02, 0x2a6f2b94, 0xb40bbe37, 0xc30c8ea1, 0x5a05df1b, 0x2d02ef8d)
  }

  /** crc_tab on big-endian machines. */
  function BigTab(c: bv32): bv32
    requires c < 256
  {
    if c < 8 then Entry(c & 7, 0x00000000, 0x96300777, 0x2c610eee, 0xba510999, 0x19c46d07, 0x8ff46a70, 0x35a563e9, 0xa395649e)
    else if c < 16 then Entry(c & 7, 0x3288db0e, 0xa4b8dc79, 0x1ee9d5e0, 0x88d9d297, 0x2b4cb609, 0xbd7cb17e, 0x072db8e7, 0x911dbf90)
    else if c < 24 then Entry(c & 7, 0x6410b71d, 0xf220b06a, 0x4871b9f3, 0xde41be84, 0x7dd4da1a, 0xebe4dd6d, 0x51b5d4f4, 0xc785d383)
    else if c < 32 then Entry(c & 7, 0x56986c13, 0xc0a86b64, 0x7af962fd, 0xecc9658a, 0x4f5c0114, 0xd96c0663, 0x633d0ffa, 0xf50d088d)
    else if c < 40 then Entry(c & 7, 0xc8206e3b, 0x5e10694c, 0xe44160d5, 0x727167a2, 0xd1e4033c, 0x47d4044b, 0xfd850dd2, 0x6bb50aa5)
    else if c < 48 then Entry(c & 7, 0xfaa8b535, 0x6c98b242, 0xd6c9bbdb, 0x40f9bcac, 0xe36cd832, 0x755cdf45, 0xcf0dd6dc, 0x593dd1ab)
    else if c < 56 then Entry(c & 7, 0xac30d926, 0x3a00de51, 0x8051d7c8, 0x1661d0bf, 0xb5f4b421, 0x23c4b356, 0x9995bacf, 0x0fa5bdb8)
    else if c < 64 then Entry(c & 7, 0x9eb80228, 0x0888055f, 0xb2d90cc6, 0x24e90bb1, 0x877c6f2f, 0x114c6858, 0xab1d61c1, 0x3d2d66b6)
    else if c < 72 then Entry(c & 7, 0x9041dc76, 0x0671db01, 0xbc20d298, 0x2a10d5ef, 0x8985b171, 0x1fb5b606, 0xa5e4bf9f, 0x33d4b8e8)
    else if c < 80 then Entry(c & 7, 0xa2c90778, 0x34f9000f, 0x8ea80996, 0x18980ee1, 0xbb0d6a7f, 0x2d3d6d08, 0x976c6491, 0x015c63e6)
    else if c < 88 then Entry(c & 7, 0xf4516b6b, 0x62616c1c, 0xd8306585, 0x4e0062f2, 0xed95066c, 0x7ba5011b, 0xc1f40882, 0x57c40ff5)
    else if c < 96 then Entry(c & 7, 0xc6d9b065, 0x50e9b712, 0xeab8be8b, 0x7c88b9fc, 0xdf1ddd62, 0x492dda15, 0xf37cd38c, 0x654cd4fb)
    else if c < 104 then Entry(c & 7, 0x5861b24d, 0xce51b53a, 0x7400bca3, 0xe230bbd4, 0x41a5df4a, 0xd795d83d, 0x6dc4d1a4, 0xfbf4d6d3)
    else if c < 112 then Entry(c & 7, 0x6ae96943, 0xfcd96e34, 0x468867ad, 0xd0b860da, 0x732d0444, 0xe51d0333, 0x5f4c0aaa, 0xc97c0ddd)
    else if c < 120 then Entry(c & 7, 0x3c710550, 0xaa410227, 0x10100bbe, 0x86200cc9, 0x25b56857, 0xb3856f20, 0x09d466b9, 0x9fe461ce)
    else if c < 128 then Entry(c & 7, 0x0ef9de5e, 0x98c9d929, 0x2298d0b0, 0xb4a8d7c7, 0x173db359, 0x810db42e, 0x3b5cbdb7, 0xad6cbac0)
    else if c < 136 then Entry(c & 7, 0x2083b8ed, 0xb6b3bf9a, 0x0ce2b603, 0x9ad2b174, 0x3947d5ea, 0xaf77d29d, 0x1526db04, 0x8316dc73)
    else if c < 144 then Entry(c & 7, 0x120b63e3, 0x843b6494, 0x3e6a6d0d, 0xa85a6a7a, 0x0bcf0ee4, 0x9dff0993, 0x27ae000a, 0xb19e077d)
    else if c < 152 then Entry(c & 7, 0x44930ff0, 0xd2a30887, 0x68f2011e, 0xfec20669, 0x5d5762f7, 0xcb676580, 0x71366c19, 0xe7066b6e)
    else if c < 160 then Entry(c & 7, 0x761bd4fe, 0xe02bd389, 0x5a7ada10, 0xcc4add67, 0x6fdfb9f9, 0xf9efbe8e, 0x43beb717, 0xd58eb060)
    else if c < 168 then Entry(c & 7, 0xe8a3d6d6, 0x7e93d1a1, 0xc4c2d838, 0x52f2df4f, 0xf167bbd1, 0x6757bca6, 0xdd06b53f, 0x4b36b248)
    else if c < 176 then Entry(c & 7, 0xda2b0dd8, 0x4c1b0aaf, 0xf64a0336, 0x607a0441, 0xc3ef60df, 0x55df67a8, 0xef8e6e31, 0x79be6946)
    else if c < 184 then Entry(c & 7, 0x8cb361cb, 0x1a8366bc, 0xa0d26f25, 0x36e26852, 0x95770ccc, 0x03470bbb, 0xb9160222, 0x2f260555)
    else if c < 192 then Entry(c & 7, 0xbe3bbac5, 0x280bbdb2, 0x925ab42b, 0x046ab35c, 0xa7ffd7c2, 0x31cfd0b5, 0x8b9ed92c, 0x1daede5b)
    else if c < 200 then Entry(c & 7, 0xb0c2649b, 0x26f263ec, 0x9ca36a75, 0x0a936d02, 0xa906099c, 0x3f360eeb, 0x85670772, 0x13570005)
    else if c < 208 then Entry(c & 7, 0x824abf95, 0x147ab8e2, 0xae2bb17b, 0x381bb60c, 0x9b8ed292, 0x0dbed5e5, 0xb7efdc7c, 0x21dfdb0b)
    else if c < 216 then Entry(c & 7, 0xd4d2d386, 0x42e2d4f1, 0xf8b3dd68, 0x6e83da1f, 0xcd16be81, 0x5b26b9f6, 0xe177b06f, 0x7747b718)
    else if c < 224 then Entry(c & 7, 0xe65a0888, 0x706a0fff, 0xca3b0666, 0x5c0b0111, 0xff9e658f, 0x69ae62f8, 0xd3ff6b61, 0x45cf6c16)
    else if c < 232 then Entry(c & 7, 0x78e20aa0, 0xeed20dd7, 0x5483044e, 0xc2b30339, 0x612667a7, 0xf71660d0, 0x4d476949, 0xdb776e3e)
    else if c < 240 then Entry(c & 7, 0x4a6ad1ae, 0xdc5ad6d9, 0x660bdf40, 0xf03bd837, 0x53aebca9, 0xc59ebbde, 0x7fcfb247, 0xe9ffb530)
    else if c < 248 then Entry(c & 7, 0x1cf2bdbd, 0x8ac2baca, 0x3093b353, 0xa6a3b424, 0x0536d0ba, 0x9306d7cd, 0x2957de54, 0xbf67d923)
    else Entry(c & 7, 0x2e7a66b3, 0xb84a61c4, 0x021b685d, 0x942b6f2a, 0x37be0bb4, 0xa18e0cc3, 0x1bdf055a, 0x8def022d)
  }

  /** Every entry is the eight shifts of its index. */
  lemma LittleTabIsShift8(c: bv32)
    requires c < 256
    ensures LittleTab(c) == Shift8(c)
  {
  }

  /** CRC32_SWAP. */
  function Swap(c: bv32): bv32 {
    ((c & 0xff000000) >> 24) | ((c & 0x00ff0000) >> 8) | ((c & 0x0000ff00) << 8) | ((c & 0x000000ff) << 24)
  }

  /** The big-endian table holds the same entries with their octets swapped. */
  lemma BigTabIsSwapped(c: bv32)
    requires c < 256
    ensures BigTab(c) == Swap(LittleTab(c))
  {
  }

  /** A step of the word loop on little-endian machines. */
  function LittleStep(crc: bv32): bv32 {
    Xor(LittleTab(Low8(crc)), Shr8(crc))
  }

  function BigStep(crc: bv32): bv32 {
    Xor(BigTab(Top8(crc)), Shl8(crc))
  }

  lemma LittleStepIsOctet(crc: bv32, d: bv8)
    ensures LittleStep(Xor(crc, Wide(d))) == Octet(crc, d)
    ensures Xor(Low8(crc), Wide(d)) < 256 && Xor(LittleTab(Xor(Low8(crc), Wide(d))), Shr8(crc)) == Octet(crc, d)
  {
    OctetInWord(crc, d);
    hide LittleTab, Octet, Shift8, Xor, Wide, Low8, Shr8;
    LittleTabIsShift8(Xor(Low8(crc), Wide(d)));
    OctetIsShift8(crc, d);
  }

  lemma BigStepIsSwapped(crc: bv32)
    ensures BigStep(Swap(crc)) == Swap(LittleStep(crc))
  {
    SwapEnds(crc);
    hide BigTab, LittleTab, Swap, Xor, Low8, Top8, Shl8, Shr8;
    BigTabIsSwapped(Low8(crc));
    SwapXor(LittleTab(Low8(crc)), Shr8(crc));
  }

  lemma SwapEnds(crc: bv32)
    ensures Top8(Swap(crc)) == Low8(crc) < 256 && Shl8(Swap(crc)) == Swap(Shr8(crc))
  {
  }

  lemma SwapXor(a: bv32, b: bv32)
    ensures Swap(Xor(a, b)) == Xor(Swap(a), Swap(b))
  {
  }

  lemma SwapTwice(a: bv32)
    ensures Swap(Swap(a)) == a
  {
  }

  // ----- words -----

  function Above(b: bv8, rest: bv32): bv32 {
    Xor(Wide(b), Shl8(rest))
  }

  /** Four octets as a little-endian machine loads them. */
  function LittleWord(a: bv8, b: bv8, c: bv8, d: bv8): bv32 {
    Above(a, Above(b, Above(c, Wide(d))))
  }

  function BigWord(a: bv8, b: bv8, c: bv8, d: bv8): bv32 {
    LittleWord(d, c, b, a)
  }

  lemma BigWordIsSwapped(a: bv8, b: bv8, c: bv8, d: bv8)
    ensures BigWord(a, b, c, d) == Swap(LittleWord(a, b, c, d))
  {
  }

  lemma AboveBounds(b: bv8, rest: bv32)
    ensures Wide(b) < 0x100
    ensures rest < 0x100 ==> Above(b, rest) < 0x10000
    ensures rest < 0x10000 ==> Above(b, rest) < 0x1000000
  {
  }

  lemma StepCarries(crc: bv32, above: bv32)
    requires above < 0x1000000
    ensures LittleStep(Xor(crc, Shl8(above))) == Xor(LittleStep(crc), above)
  {
    AboveLowOctet(crc, above);
    hide LittleTab, Xor, Shl8, Shr8, Low8;
    XorAssoc(LittleTab(Low8(crc)), Shr8(crc), above);
  }

  lemma AboveLowOctet(crc: bv32, above: bv32)
    requires above < 0x1000000
    ensures Low8(Xor(crc, Shl8(above))) == Low8(crc) < 256 && Shr8(Xor(crc, Shl8(above))) == Xor(Shr8(crc), above)
  {
  }

  /** The first octet of what is loaded enters, and the others move down. */
  lemma OneOfWord(crc: bv32, a: bv8, above: bv32)
    requires above < 0x1000000
    ensures LittleStep(Xor(crc, Above(a, above))) == Xor(Octet(crc, a), above)
  {
    hide LittleStep, Octet, Xor, Shl8, Wide;
    XorAssoc(crc, Wide(a), Shl8(above));
    StepCarries(Xor(crc, Wide(a)), above);
    LittleStepIsOctet(crc, a);
  }

  /** Four steps on a word are the steps of its octets in order. */
  lemma WordIsFourOctets(crc: bv32, a: bv8, b: bv8, c: bv8, d: bv8)
    ensures LittleStep(LittleStep(LittleStep(LittleStep(Xor(crc, LittleWord(a, b, c, d)))))) == Octet(Octet(Octet(Octet(crc, a), b), c), d)
  {
    AboveBounds(c, Wide(d));
    AboveBounds(d, 0);
    AboveBounds(b, Above(c, Wide(d)));
    SmallerBound(Wide(d));
    SmallerBound(Above(c, Wide(d)));
    hide LittleStep, Octet, Above, Wide, Xor;
    OneOfWord(crc, a, Above(b, Above(c, Wide(d))));
    OneOfWord(Octet(crc, a), b, Above(c, Wide(d)));
    OneOfWord(Octet(Octet(crc, a), b), c, Wide(d));
    LittleStepIsOctet(Octet(Octet(Octet(crc, a), b), c), d);
  }

  lemma SmallerBound(a: bv32)
    ensures a < 0x100 ==> a < 0x10000
    ensures a < 0x10000 ==> a < 0x1000000
  {
  }
}
