/** The key pads of RFC 2104, as hmac_sha1.c and hmac_md5.c build them. */
module HmacPads {
  import opened HashBlocks

  function Xor8(a: bv8, b: bv8): bv8 { a ^ b }

  /** The key with zeros appended to 64 octets. */
  function PaddedKey(key: seq<bv8>): (k: seq<bv8>)
    requires |key| <= 64
    ensures |k| == 64
  {
    key + Zeros(64 - |key|)
  }

  function Pad(k: seq<bv8>, octet: bv8): (r: seq<bv8>)
    ensures |r| == |k|
  {
    seq(|k|, i requires 0 <= i < |k| => Xor8(k[i], octet))
  }

  /** The loop that makes both pads. */
  method XorPads(key: seq<bv8>) returns (kIpad: seq<bv8>, kOpad: seq<bv8>)
    requires |key| <= 64
    ensures kIpad == Pad(PaddedKey(key), 0x36) && kOpad == Pad(PaddedKey(key), 0x5c)
  {
    hide Xor8;
    ghost var k := PaddedKey(key);
    kIpad := key + Zeros(64 - |key|);
    kOpad := key + Zeros(64 - |key|);
    var i := 0;
    while i < 64
      invariant 0 <= i <= 64 && |kIpad| == |kOpad| == 64
      invariant forall j :: 0 <= j < 64 ==> kIpad[j] == if j < i then Xor8(k[j], 0x36) else k[j]
      invariant forall j :: 0 <= j < 64 ==> kOpad[j] == if j < i then Xor8(k[j], 0x5c) else k[j]
    {
      kIpad := kIpad[i := Xor8(kIpad[i], 0x36)];
      kOpad := kOpad[i := Xor8(kOpad[i], 0x5c)];
      i := i + 1;
    }
  }

  lemma Regroup(a: seq<bv8>, b: seq<bv8>, c: seq<bv8>)
    ensures a + b + c == a + (b + c)
  {
  }
}
