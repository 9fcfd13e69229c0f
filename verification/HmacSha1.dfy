/** pj_hmac_sha1_context: HMAC over Sha1 (hmac_sha1.c). */
module HmacSha1 {
  import opened HashBlocks
  import Sha1
  import HmacPads

  /** HMAC by section 2 of RFC 2104. */
  function Hmac(key: seq<bv8>, text: seq<bv8>): (d: seq<bv8>)
    ensures |d| == 20
  {
    var k := HmacPads.PaddedKey(if |key| > 64 then Sha1.Digest(key) else key);
    Sha1.Digest(HmacPads.Pad(k, 0x5c) + Sha1.Digest(HmacPads.Pad(k, 0x36) + text))
  }

  class Context {
    const context: Sha1.Context
    var kOpad: seq<bv8>
    ghost var key: seq<bv8>
    ghost var text: seq<bv8>

    /** Between init and final. */
    ghost predicate Valid()
      reads this, context
    {
      var k := HmacPads.PaddedKey(if |key| > 64 then Sha1.Digest(key) else key);
      context.Valid() && context.message == HmacPads.Pad(k, 0x36) + text && kOpad == HmacPads.Pad(k, 0x5c)
    }

    constructor ()
      ensures fresh(context) && context.Ready()
    {
      context := new Sha1.Context();
    }

    /** pj_hmac_sha1_init. */
    method Init(k: seq<bv8>)
      requires context.Ready() && |k| < 0x2000_0000
      modifies this, context
      ensures Valid() && key == k && text == []
    {
      hide Sha1.Digest;
      var used := k;
      if |k| > 64 {
        var tctx := new Sha1.Context();
        tctx.Init();
        tctx.Update(k);
        assert [] + k == k;
        used := tctx.Final();
      }
      var kIpad;
      kIpad, kOpad := HmacPads.XorPads(used);
      context.Init();
      context.Update(kIpad);
      key, text := k, [];
      assert [] + kIpad == kIpad && kIpad + [] == kIpad;
    }

    /** pj_hmac_sha1_update. */
    method Update(input: seq<bv8>)
      requires Valid() && |input| < 0x2000_0000
      modifies this, context
      ensures Valid() && key == old(key) && text == old(text) + input
    {
      hide HmacPads.Pad, HmacPads.PaddedKey, Sha1.Digest, Sha1.Context.Valid;
      context.Update(input);
      HmacPads.Regroup(HmacPads.Pad(HmacPads.PaddedKey(if |key| > 64 then Sha1.Digest(key) else key), 0x36), text, input);
      text := text + input;
    }

    /** pj_hmac_sha1_final. */
    method Final() returns (digest: seq<bv8>)
      requires Valid()
      modifies this, context
      ensures digest == Hmac(old(key), old(text)) && context.Ready()
    {
      hide HmacPads.Pad, HmacPads.PaddedKey, Sha1.Digest, Sha1.Context.Valid;
      ghost var inner := context.message;
      digest := context.Final();
      context.Init();
      context.Update(kOpad);
      assert [] + kOpad == kOpad;
      context.Update(digest);
      digest := context.Final();
    }
  }

  /** pj_hmac_sha1: the text in one piece. */
  method Calculate(input: seq<bv8>, key: seq<bv8>) returns (digest: seq<bv8>)
    requires |input| < 0x2000_0000 && |key| < 0x2000_0000
    ensures digest == Hmac(key, input)
  {
    hide Sha1.Digest;
    var ctx := new Context();
    ctx.Init(key);
    ctx.Update(input);
    assert [] + input == input;
    digest := ctx.Final();
  }
}
