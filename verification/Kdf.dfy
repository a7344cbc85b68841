/** HMAC and the key derivation functions of the handshake, run on the BLAKE2s context in place:
    the buffer of the inner digest is also the text of the next call. */
module Kdf {
  import opened Bytes
  import opened Handshake
  import Blake2s
  import Words

  /** The handshake's hash is 32-byte unkeyed BLAKE2s. */
  ghost predicate HashIsBlake(c: Primitives) { forall m :: c.hash(m) == Blake2s.Hash(32, [], m) }

  /** Two updates and a final on a fresh context. */
  method HashTwo(ghost c: Primitives, out: array<byte>, a: Bytes, b: Bytes)
    requires HashIsBlake(c) && out.Length >= 32
    modifies out
    ensures out[..] == c.hash(a + b) + old(out[32..]) && |c.hash(a + b)| == 32
  {
    hide *;
    var ctx := new Blake2s.Context(32, []);
    ctx.Update(a);
    ctx.Update(b);
    HashedTwo(a, b);
    UseHash(c, a + b);
    ctx.Final(out);
  }

  lemma UseHash(c: Primitives, m: Bytes)
    requires HashIsBlake(c)
    ensures c.hash(m) == Blake2s.Hash(32, [], m)
  {
  }

  lemma HashedTwo(a: Bytes, b: Bytes)
    ensures Blake2s.Input([], []) + a + b == Blake2s.Input([], a + b)
    ensures Blake2s.Hash(32, [], a + b)
         == Words.WordBytes(Blake2s.Digest(Blake2s.Start(0, 32), Blake2s.Input([], a + b)))[..32]
  {
    hide Blake2s.Digest, Words.WordBytes;
    Blake2s.InputThen([], [], a);
    Blake2s.InputThen([], a, b);
    assert [] + a == a;
    Blake2s.HashIs(32, [], a + b);
  }

  /** The xor loop over both pads. */
  method Pads(key: Bytes) returns (ipad: array<byte>, opad: array<byte>)
    requires |key| <= 64
    ensures fresh(ipad) && fresh(opad) && ipad[..] == PadKey(key, 0x36) && opad[..] == PadKey(key, 0x5c)
  {
    hide XorByte;
    ipad, opad := new byte[64](i => 0), new byte[64](i => 0);
    for i := 0 to |key|
      invariant ipad[..] == key[..i] + Zeros(64 - i) && opad[..] == key[..i] + Zeros(64 - i)
    {
      ipad[i], opad[i] := key[i], key[i];
    }
    ghost var k := key + Zeros(64 - |key|);
    assert ipad[..] == k && opad[..] == k;
    for i := 0 to 64
      invariant forall j :: i <= j < 64 ==> ipad[j] == k[j] && opad[j] == k[j]
      invariant forall j :: 0 <= j < i ==> ipad[j] == XorByte(k[j], 0x36) && opad[j] == XorByte(k[j], 0x5c)
    {
      ipad[i] := XorByte(ipad[i], 0x36);
      opad[i] := XorByte(opad[i], 0x5c);
    }
  }

  /** wireguard_hmac: HMAC of RFC 2104; digest may be the buffer the text is in. */
  method HmacInto(ghost c: Primitives, digest: array<byte>, key: Bytes, text: array<byte>, n: nat)
    requires HashIsBlake(c) && digest.Length >= 32 && n <= text.Length
    modifies digest
    ensures digest[..] == Hmac(c, key, old(text[..n])) + old(digest[32..]) && |Hmac(c, key, old(text[..n]))| == 32
  {
    hide *;
    ghost var t, rest := text[..n], digest[32..];
    var k := key;
    if |key| > 64 {
      var tk := new byte[32];
      HashTwo(c, tk, key, []);
      assert key + [] == key;
      k := tk[..];
      assert tk[..] == c.hash(key) + [];
    }
    var ipad, opad := Pads(k);
    HashTwo(c, digest, ipad[..], text[..n]);
    ghost var inner := c.hash(PadKey(k, 0x36) + t);
    assert digest[..32] == inner && digest[32..] == rest;
    HashTwo(c, digest, opad[..], digest[..32]);
    HmacIs(c, key, k, t);
  }

  lemma HmacIs(c: Primitives, key: Bytes, k: Bytes, t: Bytes)
    requires |k| <= 64 && k == if |key| > 64 then c.hash(key) else key
    ensures Hmac(c, key, t) == c.hash(PadKey(k, 0x5c) + c.hash(PadKey(k, 0x36) + t))
  {
    hide PadKey;
  }

  /** The first step of every kdf: tau0, and tau1 in the first 32 bytes of a 33-byte buffer. */
  method FirstTau(ghost c: Primitives, ck: array<byte>, data: array<byte>)
    returns (tau0: array<byte>, output: array<byte>)
    requires HashIsBlake(c) && ck.Length == 32
    ensures fresh(tau0) && fresh(output) && tau0 != output && tau0.Length == 32 && output.Length == 33
    ensures tau0[..] == Hmac(c, ck[..], data[..]) && output[..32] == Tau1(c, ck[..], data[..])
  {
    hide HashIsBlake, Hmac;
    tau0, output := new byte[32], new byte[33];
    HmacInto(c, tau0, ck[..], data, data.Length);
    assert data[..data.Length] == data[..];
    assert tau0[..] == Hmac(c, ck[..], data[..]) by { assert tau0[..] == tau0[..32]; }
    output[0] := 1;
    assert output[..1] == [1];
    HmacInto(c, output, tau0[..], output, 1);
  }

  /** The next step: the label byte goes behind the last tau, and the buffer is hashed into itself. */
  method NextTau(ghost c: Primitives, tau0: array<byte>, output: array<byte>, tag: byte)
    requires HashIsBlake(c) && tau0.Length == 32 && output.Length == 33 && tau0 != output
    modifies output
    ensures output[..32] == Hmac(c, tau0[..], old(output[..32]) + [tag])
  {
    hide HashIsBlake, Hmac;
    output[32] := tag;
    assert output[..33] == old(output[..32]) + [tag];
    HmacInto(c, output, tau0[..], output, 33);
  }

  /** memcpy of 32 bytes */
  method CopyTau(dst: array<byte>, src: array<byte>)
    requires dst.Length == 32 <= src.Length && dst != src
    modifies dst
    ensures dst[..] == src[..32]
  {
    for i := 0 to 32
      invariant dst[..i] == src[..i]
    {
      dst[i] := src[i];
    }
    assert dst[..] == dst[..32];
  }

  /** wireguard_kdf1; tau1 may be the chaining key's own buffer, here and below. */
  method Kdf1(ghost c: Primitives, tau1: array<byte>, ck: array<byte>, data: array<byte>)
    requires HashIsBlake(c) && tau1.Length == ck.Length == 32
    modifies tau1
    ensures tau1[..] == old(Tau1(c, ck[..], data[..]))
  {
    hide HashIsBlake, Tau1;
    var tau0, output := FirstTau(c, ck, data);
    CopyTau(tau1, output);
  }

  /** wireguard_kdf2 */
  method Kdf2(ghost c: Primitives, tau1: array<byte>, tau2: array<byte>, ck: array<byte>, data: array<byte>)
    requires HashIsBlake(c) && tau1.Length == tau2.Length == ck.Length == 32 && tau1 != tau2
    modifies tau1, tau2
    ensures tau1[..] == old(Tau1(c, ck[..], data[..])) && tau2[..] == old(Tau2(c, ck[..], data[..]))
  {
    hide HashIsBlake, Hmac, Tau1;
    var tau0, output := FirstTau(c, ck, data);
    CopyTau(tau1, output);
    NextTau(c, tau0, output, 2);
    CopyTau(tau2, output);
  }

  /** wireguard_kdf3 */
  method Kdf3(ghost c: Primitives, tau1: array<byte>, tau2: array<byte>, tau3: array<byte>, ck: array<byte>,
              data: array<byte>)
    requires HashIsBlake(c) && tau1.Length == tau2.Length == tau3.Length == ck.Length == 32
    requires tau1 != tau2 && tau1 != tau3 && tau2 != tau3
    modifies tau1, tau2, tau3
    ensures tau1[..] == old(Tau1(c, ck[..], data[..])) && tau2[..] == old(Tau2(c, ck[..], data[..]))
    ensures tau3[..] == old(Tau3(c, ck[..], data[..]))
  {
    hide HashIsBlake, Hmac, Tau1;
    var tau0, output := FirstTau(c, ck, data);
    CopyTau(tau1, output);
    NextTau(c, tau0, output, 2);
    CopyTau(tau2, output);
    NextTau(c, tau0, output, 3);
    CopyTau(tau3, output);
  }

  /** wireguard_mix_hash, in place */
  method MixInto(ghost c: Primitives, hash: array<byte>, src: Bytes)
    requires HashIsBlake(c) && hash.Length == 32
    modifies hash
    ensures hash[..] == old(MixHash(c, hash[..], src))
  {
    hide HashIsBlake;
    HashTwo(c, hash, hash[..], src);
  }
}
