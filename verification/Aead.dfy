/** AEAD_CHACHA20_POLY1305 of section 2.8 of RFC 8439 with a 64-bit nonce, and its XChaCha20 variant. */
module Aead {
  import opened Bits
  import opened Bytes
  import opened Words
  import ChaCha20
  import Poly1305
  import opened Poly1305Spec

  datatype Opened = Rejected | Plain(bytes: Bytes)

  // ---- the construction ----

  /** Zero bytes up to the next multiple of sixteen. */
  function Pad16(n: nat): Bytes { Zeros((16 - n % 16) % 16) }

  /** What the tag authenticates. */
  function MacData(ad: Bytes, c: Bytes): Bytes {
    ad + Pad16(|ad|) + c + Pad16(|c|) + ToLE(|ad|, 8) + ToLE(|c|, 8)
  }

  function Start(key: Bytes, nonce: nat, counter: Word): ChaCha20.State
    requires |key| == 32 && nonce < 0x1_0000_0000_0000_0000
  {
    ChaCha20.InitialState(key, counter, Zeros(4) + ToLE(nonce, 8))
  }

  /** Half of key stream block zero is the one-time key. */
  function OneTimeKey(key: Bytes, nonce: nat): (k: Bytes)
    requires |key| == 32 && nonce < 0x1_0000_0000_0000_0000
    ensures |k| == 32
  {
    ChaCha20.Block(Start(key, nonce, 0))[..32]
  }

  function Authenticate(key: Bytes, nonce: nat, ad: Bytes, c: Bytes): (t: Bytes)
    requires |key| == 32 && nonce < 0x1_0000_0000_0000_0000
    ensures |t| == 16
  {
    hide *;
    Tag(OneTimeKey(key, nonce), MacData(ad, c))
  }

  /** The payload starts with key stream block one. */
  function Cipher(key: Bytes, nonce: nat, m: Bytes): (c: Bytes)
    requires |key| == 32 && nonce < 0x1_0000_0000_0000_0000
    ensures |c| == |m|
  {
    hide ChaCha20.Crypt;
    ChaCha20.Crypt(Start(key, nonce, 1), m)
  }

  function Seal(key: Bytes, nonce: nat, ad: Bytes, m: Bytes): (c: Bytes)
    requires |key| == 32 && nonce < 0x1_0000_0000_0000_0000
    ensures |c| == |m| + 16
  {
    hide Cipher, Authenticate;
    var c := Cipher(key, nonce, m);
    c + Authenticate(key, nonce, ad, c)
  }

  function Open(key: Bytes, nonce: nat, ad: Bytes, c: Bytes): (p: Opened)
    requires |key| == 32 && nonce < 0x1_0000_0000_0000_0000
    ensures p.Plain? ==> |c| >= 16 && |p.bytes| == |c| - 16
  {
    hide Cipher, Authenticate;
    if |c| < 16 then Rejected
    else
      var body := c[..|c| - 16];
      if Authenticate(key, nonce, ad, body) == c[|c| - 16..] then Plain(Cipher(key, nonce, body)) else Rejected
  }

  lemma CipherTwice(key: Bytes, nonce: nat, m: Bytes)
    requires |key| == 32 && nonce < 0x1_0000_0000_0000_0000
    ensures Cipher(key, nonce, Cipher(key, nonce, m)) == m
  {
    hide ChaCha20.Crypt, Start;
    ChaCha20.CryptTwice(Start(key, nonce, 1), m);
  }

  /** Decryption accepts exactly what encryption produces, and gives back what went in. */
  lemma OpenExactlySealed(key: Bytes, nonce: nat, ad: Bytes, m: Bytes, c: Bytes)
    requires |key| == 32 && nonce < 0x1_0000_0000_0000_0000
    ensures Open(key, nonce, ad, c) == Plain(m) <==> c == Seal(key, nonce, ad, m)
  {
    hide Cipher, Authenticate;
    CipherTwice(key, nonce, m);
    var s := Seal(key, nonce, ad, m);
    assert s[..|s| - 16] == Cipher(key, nonce, m);
    if |c| >= 16 {
      CipherTwice(key, nonce, c[..|c| - 16]);
      assert c == c[..|c| - 16] + c[|c| - 16..];
    }
  }

  /** Two messages never share a ciphertext under one key, nonce and associated data. */
  lemma SealInjective(key: Bytes, nonce: nat, ad: Bytes, m: Bytes, m': Bytes)
    requires |key| == 32 && nonce < 0x1_0000_0000_0000_0000
    requires Seal(key, nonce, ad, m) == Seal(key, nonce, ad, m')
    ensures m == m'
  {
    hide Open, Seal;
    OpenExactlySealed(key, nonce, ad, m, Seal(key, nonce, ad, m));
    OpenExactlySealed(key, nonce, ad, m', Seal(key, nonce, ad, m));
  }

  /** Where the parts of MacData are found, working back from its end. */
  lemma MacDataParts(ad: Bytes, c: Bytes)
    requires |ad| < 0x1_0000_0000 && |c| < 0x1_0000_0000
    ensures var d := MacData(ad, c); var n := |d|;
            && n >= 16 && LE(d[n - 8..]) == |c| && LE(d[n - 16..n - 8]) == |ad|
            && |ad| + |Pad16(|ad|)| + |c| <= n && d[..|ad|] == ad
            && d[|ad| + |Pad16(|ad|)|..|ad| + |Pad16(|ad|)| + |c|] == c
  {
    hide ToLE, Pow2, LE, Pad16;
    Pow2Values();
    ToLEInverse(|c|, 8);
    ToLEInverse(|ad|, 8);
    var d := MacData(ad, c);
    assert d[|d| - 8..] == ToLE(|c|, 8) && d[|d| - 16..|d| - 8] == ToLE(|ad|, 8);
  }

  /** MacData determines the associated data and the ciphertext. */
  lemma MacDataInjective(ad: Bytes, c: Bytes, ad': Bytes, c': Bytes)
    requires |ad| < 0x1_0000_0000 && |ad'| < 0x1_0000_0000 && |c| < 0x1_0000_0000 && |c'| < 0x1_0000_0000
    requires MacData(ad, c) == MacData(ad', c')
    ensures ad == ad' && c == c'
  {
    hide *;
    MacDataParts(ad, c);
    MacDataParts(ad', c');
  }

  // ---- XChaCha20 ----

  function XSeal(key: Bytes, nonce: Bytes, ad: Bytes, m: Bytes): Bytes
    requires |key| == 32 && |nonce| == 24
  {
    hide Seal, ChaCha20.HChaCha;
    Nonce64(nonce[16..]);
    Seal(ChaCha20.HChaCha(key, nonce[..16]), LE(nonce[16..]), ad, m)
  }

  function XOpen(key: Bytes, nonce: Bytes, ad: Bytes, c: Bytes): (p: Opened)
    requires |key| == 32 && |nonce| == 24
    ensures p.Plain? ==> |c| >= 16 && |p.bytes| == |c| - 16
  {
    hide Open, ChaCha20.HChaCha;
    Nonce64(nonce[16..]);
    Open(ChaCha20.HChaCha(key, nonce[..16]), LE(nonce[16..]), ad, c)
  }

  lemma Nonce64(b: Bytes)
    requires |b| == 8
    ensures LE(b) < 0x1_0000_0000_0000_0000
  {
    LEBound(b);
    Pow2Values();
  }

  lemma XOpenExactlySealed(key: Bytes, nonce: Bytes, ad: Bytes, m: Bytes, c: Bytes)
    requires |key| == 32 && |nonce| == 24
    ensures XOpen(key, nonce, ad, c) == Plain(m) <==> c == XSeal(key, nonce, ad, m)
  {
    hide Open, Seal, ChaCha20.HChaCha;
    Nonce64(nonce[16..]);
    OpenExactlySealed(ChaCha20.HChaCha(key, nonce[..16]), LE(nonce[16..]), ad, m, c);
  }

  // ---- the code ----

  /** (len + 15) & 0xFFFFFFF0 in 32-bit arithmetic */
  function PaddedLen(len: nat): nat { And((len + 15) % 0x1_0000_0000, 0xFFFF_FFF0) }

  lemma ClearsLowBits(x: nat)
    requires x < 0x1_0000_0000
    ensures And(x, 0xFFFF_FFF0) == x / 16 * 16
  {
    hide And, Shr, Low, Pow2;
    Pow2Values();
    AndSplit(x, 0xFFFF_FFF0, 4);
    ShrLow(x, 4);
    ShrLow(0xFFFF_FFF0, 4);
    AndZero(x % 16);
    assert Pow2(28) == 0x1000_0000 by { Pow2Add(4, 24); }
    AndOnes(x / 16, 28);
  }

  /** The mask rounds up exactly while the sum does not wrap. */
  lemma PaddedLenRounds(len: nat)
    requires len + 15 < 0x1_0000_0000
    ensures PaddedLen(len) == len + |Pad16(len)|
  {
    hide And;
    ClearsLowBits(len + 15);
    assert (len + 15) % 0x1_0000_0000 == len + 15;
    RoundedUp(len);
  }

  lemma RoundedUp(len: nat)
    ensures (len + 15) / 16 * 16 == len + (16 - len % 16) % 16
  {
  }

  /** crypto_equal: the differences of all byte pairs are collected before the verdict. */
  method CryptoEqual(a: Bytes, b: Bytes) returns (equal: bool)
    requires |a| == |b|
    ensures equal <==> a == b
  {
    hide Or, Xor;
    var neq: nat := 0;
    for i := 0 to |a|
      invariant neq == 0 <==> a[..i] == b[..i]
    {
      Collects(neq, a[i], b[i]);
      assert a[..i + 1] == a[..i] + [a[i]] && b[..i + 1] == b[..i] + [b[i]];
      neq := Or(neq, Xor(a[i], b[i]));
    }
    assert a[..|a|] == a && b[..|b|] == b;
    equal := neq == 0;
  }

  lemma Collects(neq: nat, x: nat, y: nat)
    ensures Or(neq, Xor(x, y)) == 0 <==> neq == 0 && x == y
  {
    hide Or, Xor;
    XorSelf(x);
    XorCancel(x, y);
    XorZero(y);
    OrIsZero(neq, Xor(x, y));
  }

  /** The four updates of the tag computation and its two length fields. */
  method MacInput(mac: Poly1305.Context, ad: Bytes, c: Bytes)
    requires mac.Valid() && mac.Contents() == []
    requires |ad| < 0x8000_0000 && |c| < 0x8000_0000
    modifies mac`h, mac`leftover, mac`absorbed, mac.buffer
    ensures mac.Valid() && mac.Contents() == MacData(ad, c)
  {
    hide *;
    mac.Update(ad);
    PaddedLenRounds(|ad|);
    mac.Update(Zeros(PaddedLen(|ad|) - |ad|));
    mac.Update(c);
    PaddedLenRounds(|c|);
    mac.Update(Zeros(PaddedLen(|c|) - |c|));
    mac.Update(ToLE(|ad|, 8));
    mac.Update(ToLE(|c|, 8));
    Assembled(ad, c);
  }

  lemma Assembled(ad: Bytes, c: Bytes)
    ensures [] + ad + Zeros(|Pad16(|ad|)|) + c + Zeros(|Pad16(|c|)|) + ToLE(|ad|, 8) + ToLE(|c|, 8) == MacData(ad, c)
  {
    hide ToLE, Zeros;
    ghost var none: Bytes := [];
    assert none + ad == ad;
    assert Zeros(|Pad16(|ad|)|) == Pad16(|ad|) && Zeros(|Pad16(|c|)|) == Pad16(|c|);
  }

  /** generate_poly1305_key: both contexts of one message, the cipher at block one. */
  method Prepare(key: Bytes, nonce: nat) returns (mac: Poly1305.Context, cipher: ChaCha20.Context)
    requires |key| == 32 && nonce < 0x1_0000_0000_0000_0000
    ensures fresh(mac) && fresh(mac.buffer) && fresh(cipher) && fresh(cipher.state)
    ensures mac.Valid() && mac.key == OneTimeKey(key, nonce) && mac.Contents() == []
    ensures cipher.Valid() && cipher.Now() == Start(key, nonce, 1)
  {
    hide *;
    cipher := new ChaCha20.Context(key, nonce);
    var block := new byte[32](i => 0);
    assert block[0..32] == Zeros(32);
    cipher.Apply(block, 0, block, 0, 32);
    ghost var none: Bytes := [];
    Around(none, block[..]);
    FirstBlock(key, nonce);
    mac := new Poly1305.Context(block[..]);
  }

  lemma Around(none: Bytes, b: Bytes)
    requires none == []
    ensures none + b + none == b
  {
  }

  /** Zeros under the first block are the one-time key, and one block is used up. */
  lemma FirstBlock(key: Bytes, nonce: nat)
    requires |key| == 32 && nonce < 0x1_0000_0000_0000_0000
    ensures ChaCha20.Crypt(ChaCha20.InitialState(key, 0, Zeros(4) + ToLE(nonce, 8)), Zeros(32))
         == OneTimeKey(key, nonce)
    ensures ChaCha20.Ahead(ChaCha20.InitialState(key, 0, Zeros(4) + ToLE(nonce, 8)), ChaCha20.Blocks(32))
         == Start(key, nonce, 1)
  {
    hide ChaCha20.Block, ToLE, Xor;
    var b := ChaCha20.Block(Start(key, nonce, 0));
    forall k | 0 <= k < 32 ensures XorByte(0, b[k]) == b[k] {
      XorZero(b[k]);
    }
  }

  /** chacha20poly1305_encrypt: ciphertext and tag at dst[o..], also when dst is src. */
  method Encrypt(dst: array<byte>, o: nat, src: array<byte>, i: nat, len: nat, ad: Bytes, nonce: nat, key: Bytes)
    requires |key| == 32 && nonce < 0x1_0000_0000_0000_0000 && |ad| < 0x8000_0000 && len < 0x7fff_fff0
    requires i + len <= src.Length && o + len + 16 <= dst.Length
    requires dst == src ==> o <= i || i + len <= o
    modifies dst
    ensures dst[..] == old(dst[..o]) + Seal(key, nonce, ad, old(src[i..i + len])) + old(dst[o + len + 16..])
  {
    hide *;
    ghost var m, before, after := src[i..i + len], dst[..o], dst[o + len..];
    var mac, cipher := Prepare(key, nonce);
    cipher.Apply(dst, o, src, i, len);
    CipherIs(key, nonce, m);
    ghost var c := Cipher(key, nonce, m);
    Splice(dst[..], before, c, after);
    MacInput(mac, ad, dst[o..o + len]);
    mac.Finish(dst, o + len);
    AuthenticateIs(key, nonce, ad, c);
    SealIs(key, nonce, ad, m);
    assert after[16..] == old(dst[o + len + 16..]);
    assert before + Seal(key, nonce, ad, m) == (before + c) + Authenticate(key, nonce, ad, c);
  }

  lemma Splice(all: Bytes, a: Bytes, b: Bytes, c: Bytes)
    requires all == a + b + c
    ensures all[|a|..|a| + |b|] == b && all[..|a| + |b|] == a + b && all[|a| + |b|..] == c
    ensures forall n :: 0 <= n <= |c| ==> all[|a| + |b| + n..] == c[n..]
  {
  }

  lemma CipherIs(key: Bytes, nonce: nat, m: Bytes)
    requires |key| == 32 && nonce < 0x1_0000_0000_0000_0000
    ensures Cipher(key, nonce, m) == ChaCha20.Crypt(Start(key, nonce, 1), m)
  {
    hide Start, ChaCha20.Crypt;
  }

  lemma AuthenticateIs(key: Bytes, nonce: nat, ad: Bytes, c: Bytes)
    requires |key| == 32 && nonce < 0x1_0000_0000_0000_0000
    ensures Authenticate(key, nonce, ad, c) == Tag(OneTimeKey(key, nonce), MacData(ad, c))
  {
    hide Tag, OneTimeKey, MacData;
  }

  lemma SealIs(key: Bytes, nonce: nat, ad: Bytes, m: Bytes)
    requires |key| == 32 && nonce < 0x1_0000_0000_0000_0000
    ensures var c := Cipher(key, nonce, m); Seal(key, nonce, ad, m) == c + Authenticate(key, nonce, ad, c)
  {
    hide Cipher, Authenticate;
  }

  lemma OpenIs(key: Bytes, nonce: nat, ad: Bytes, body: Bytes, tag: Bytes)
    requires |key| == 32 && nonce < 0x1_0000_0000_0000_0000 && |tag| == 16
    ensures Open(key, nonce, ad, body + tag)
         == if Authenticate(key, nonce, ad, body) == tag then Plain(Cipher(key, nonce, body)) else Rejected
  {
    hide Cipher, Authenticate;
    var c := body + tag;
    assert c[..|c| - 16] == body && c[|c| - 16..] == tag;
  }

  lemma OpenShort(key: Bytes, nonce: nat, ad: Bytes, c: Bytes)
    requires |key| == 32 && nonce < 0x1_0000_0000_0000_0000 && |c| < 16
    ensures Open(key, nonce, ad, c) == Rejected
  {
  }

  lemma WrittenIs(d: Bytes, o: nat, m: Bytes)
    ensures Written(d, o, Rejected) == d
    ensures o + |m| <= |d| ==> Written(d, o, Plain(m)) == d[..o] + m + d[o + |m|..]
  {
  }

  /** The first half of decryption: the tag over what was received. */
  method CheckTag(src: array<byte>, i: nat, len: nat, ad: Bytes, nonce: nat, key: Bytes)
      returns (right: bool, cipher: ChaCha20.Context)
    requires |key| == 32 && nonce < 0x1_0000_0000_0000_0000 && |ad| < 0x8000_0000 && len < 0x7fff_fff0
    requires i + len + 16 <= src.Length
    ensures right <==> Authenticate(key, nonce, ad, src[i..i + len]) == src[i + len..i + len + 16]
    ensures fresh(cipher) && fresh(cipher.state) && cipher.Valid() && cipher.Now() == Start(key, nonce, 1)
  {
    hide *;
    var mac;
    mac, cipher := Prepare(key, nonce);
    MacInput(mac, ad, src[i..i + len]);
    var t := new byte[16];
    mac.Finish(t, 0);
    ghost var none: Bytes := [];
    Around(none, t[..]);
    AuthenticateIs(key, nonce, ad, src[i..i + len]);
    right := CryptoEqual(t[..], src[i + len..i + len + 16]);
  }

  /** A buffer after decryption into it from o on: a rejected message leaves no trace. */
  function Written(d: Bytes, o: nat, p: Opened): Bytes
    requires p.Plain? ==> o + |p.bytes| <= |d|
  {
    match p
    case Rejected => d
    case Plain(m) => d[..o] + m + d[o + |m|..]
  }

  /** chacha20poly1305_decrypt: dst is written only if the tag is right. */
  method Decrypt(dst: array<byte>, o: nat, src: array<byte>, i: nat, srcLen: nat, ad: Bytes, nonce: nat, key: Bytes)
      returns (result: bool)
    requires |key| == 32 && nonce < 0x1_0000_0000_0000_0000 && |ad| < 0x8000_0000 && srcLen < 0x8000_0000
    requires i + srcLen <= src.Length && o + srcLen <= dst.Length + 16
    requires dst == src ==> o <= i || i + srcLen <= o
    modifies dst
    ensures result == Open(key, nonce, ad, old(src[i..i + srcLen])).Plain?
    ensures dst[..] == Written(old(dst[..]), o, Open(key, nonce, ad, old(src[i..i + srcLen])))
  {
    hide *;
    if srcLen < 16 {
      OpenShort(key, nonce, ad, src[i..i + srcLen]);
      WrittenIs(dst[..], o, []);
      return false;
    }
    var len := srcLen - 16;
    ghost var body, tag := src[i..i + len], src[i + len..i + srcLen];
    assert src[i..i + srcLen] == body + tag;
    OpenIs(key, nonce, ad, body, tag);
    CipherIs(key, nonce, body);
    var right, cipher := CheckTag(src, i, len, ad, nonce, key);
    WrittenIs(dst[..], o, Cipher(key, nonce, body));
    if right {
      cipher.Apply(dst, o, src, i, len);
    }
    result := right;
  }

  /** xchacha20poly1305_encrypt */
  method XEncrypt(dst: array<byte>, o: nat, src: array<byte>, i: nat, len: nat, ad: Bytes, nonce: Bytes, key: Bytes)
    requires |key| == 32 && |nonce| == 24 && |ad| < 0x8000_0000 && len < 0x7fff_fff0
    requires i + len <= src.Length && o + len + 16 <= dst.Length
    requires dst == src ==> o <= i || i + len <= o
    modifies dst
    ensures dst[..] == old(dst[..o]) + XSeal(key, nonce, ad, old(src[i..i + len])) + old(dst[o + len + 16..])
  {
    hide *;
    var subkey := new byte[32];
    ChaCha20.HChaCha20(subkey, nonce[..16], key);
    Nonce64(nonce[16..]);
    XIs(key, nonce, ad, src[i..i + len]);
    Encrypt(dst, o, src, i, len, ad, LE(nonce[16..]), subkey[..]);
  }

  /** xchacha20poly1305_decrypt */
  method XDecrypt(dst: array<byte>, o: nat, src: array<byte>, i: nat, srcLen: nat, ad: Bytes, nonce: Bytes, key: Bytes)
      returns (result: bool)
    requires |key| == 32 && |nonce| == 24 && |ad| < 0x8000_0000 && srcLen < 0x8000_0000
    requires i + srcLen <= src.Length && o + srcLen <= dst.Length + 16
    requires dst == src ==> o <= i || i + srcLen <= o
    modifies dst
    ensures result == XOpen(key, nonce, ad, old(src[i..i + srcLen])).Plain?
    ensures dst[..] == Written(old(dst[..]), o, XOpen(key, nonce, ad, old(src[i..i + srcLen])))
  {
    hide *;
    var subkey := new byte[32];
    ChaCha20.HChaCha20(subkey, nonce[..16], key);
    Nonce64(nonce[16..]);
    XIs(key, nonce, ad, src[i..i + srcLen]);
    result := Decrypt(dst, o, src, i, srcLen, ad, LE(nonce[16..]), subkey[..]);
  }

  lemma XIs(key: Bytes, nonce: Bytes, ad: Bytes, m: Bytes)
    requires |key| == 32 && |nonce| == 24
    ensures LE(nonce[16..]) < 0x1_0000_0000_0000_0000
    ensures XSeal(key, nonce, ad, m) == Seal(ChaCha20.HChaCha(key, nonce[..16]), LE(nonce[16..]), ad, m)
    ensures XOpen(key, nonce, ad, m) == Open(ChaCha20.HChaCha(key, nonce[..16]), LE(nonce[16..]), ad, m)
  {
    hide Seal, Open, ChaCha20.HChaCha;
    Nonce64(nonce[16..]);
  }

  /** Encrypting in place and then decrypting in place restores the plaintext. */
  method RoundTrip(buf: array<byte>, len: nat, ad: Bytes, nonce: nat, key: Bytes) returns (ok: bool)
    requires |key| == 32 && nonce < 0x1_0000_0000_0000_0000 && |ad| < 0x8000_0000
    requires len < 0x7fff_fff0 && len + 16 <= buf.Length
    modifies buf
    ensures ok && buf[..len] == old(buf[..len]) && buf[len + 16..] == old(buf[len + 16..])
  {
    hide *;
    ghost var m, rest := buf[..len], buf[len + 16..];
    ghost var sealed := Seal(key, nonce, ad, m);
    assert buf[0..len] == m;
    Encrypt(buf, 0, buf, 0, len, ad, nonce, key);
    assert buf[..] == sealed + rest;
    assert |sealed| == len + 16 && buf[0..len + 16] == sealed;
    OpenExactlySealed(key, nonce, ad, m, sealed);
    WrittenIs(sealed + rest, 0, m);
    ok := Decrypt(buf, 0, buf, 0, len + 16, ad, nonce, key);
  }
}
