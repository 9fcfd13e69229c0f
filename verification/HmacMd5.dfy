/** pj_hmac_md5_context: HMAC over Md5 (hmac_md5.c). */
module HmacMd5 {
  import opened HashBlocks
  import Md5
  import HmacPads

  /** HMAC by section 2 of RFC 2104. */
  function Hmac(key: seq<bv8>, text: seq<bv8>): (d: seq<bv8>)
    ensures |d| == 16
  {
    var k := HmacPads.PaddedKey(if |key| > 64 then Md5.Digest(key) else key);
    Md5.Digest(HmacPads.Pad(k, 0x5c) + Md5.Digest(HmacPads.Pad(k, 0x36) + text))
  }

  class Context {
    const context: Md5.Context
    var kOpad: seq<bv8>
    ghost var key: seq<bv8>
    ghost var text: seq<bv8>

    /** Between init and final. */
    ghost predicate Valid()
      reads this, context
    {
      var k := HmacPads.PaddedKey(if |key| > 64 then Md5.Digest(key) else key);
      context.Valid() && context.message == HmacPads.Pad(k, 0x36) + text && kOpad == HmacPads.Pad(k, 0x5c)
    }

    constructor ()
      ensures fresh(context) && context.Ready()
    {
      context := new Md5.Context();
    }

    /** pj_hmac_md5_init. */
    method Init(k: seq<bv8>)
      requires context.Ready() && |k| < TWO32
      modifies this, context
      ensures Valid() && key == k && text == []
    {
      hide Md5.Digest;
      var used := k;
      if |k| > 64 {
        var tctx := new Md5.Context();
        tctx.Init();
        tctx.Update(k);
        assert [] + k == k;
        used := tctx.Final();
      }
      var kIpad;
      kIpad, kOpad := HmacPads.XorPads(used);
      context.Init();
      context.Update(kIpad);
      key, text := k, [];
      assert [] + kIpad == kIpad && kIpad + [] == kIpad;
    }

    /** pj_hmac_md5_update. */
    method Update(input: seq<bv8>)
      requires Valid() && |input| < TWO32
      modifies this, context
      ensures Valid() && key == old(key) && text == old(text) + input
    {
      hide HmacPads.Pad, HmacPads.PaddedKey, Md5.Digest, Md5.Context.Valid;
      context.Update(input);
      HmacPads.Regroup(HmacPads.Pad(HmacPads.PaddedKey(if |key| > 64 then Md5.Digest(key) else key), 0x36), text, input);
      text := text + input;
    }

    /** pj_hmac_md5_final. */
    method Final() returns (digest: seq<bv8>)
      requires Valid()
      modifies this, context
      ensures digest == Hmac(old(key), old(text)) && context.Ready()
    {
      hide HmacPads.Pad, HmacPads.PaddedKey, Md5.Digest, Md5.Context.Valid;
      ghost var inner := context.message;
      digest := context.Final();
      context.Init();
      context.Update(kOpad);
      assert [] + kOpad == kOpad;
      context.Update(digest);
      digest := context.Final();
    }
  }

  /** pj_hmac_md5: the text in one piece. */
  method Calculate(input: seq<bv8>, key: seq<bv8>) returns (digest: seq<bv8>)
    requires |input| < TWO32 && |key| < TWO32
    ensures digest == Hmac(key, input)
  {
    hide Md5.Digest;
    var ctx := new Context();
    ctx.Init(key);
    ctx.Update(input);
    assert [] + input == input;
    digest := ctx.Final();
  }
}
