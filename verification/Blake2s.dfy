/** BLAKE2s of RFC 7693 as a streaming machine with a lazily compressed block buffer. */
module Blake2s {
  import opened Bits
  import opened Bytes
  import opened Words

  // ---- the compression function F of section 3.2 ----

  const IV: seq<Word> := [0x6A09E667, 0xBB67AE85, 0x3C6EF372, 0xA54FF53A,
                          0x510E527F, 0x9B05688C, 0x1F83D9AB, 0x5BE0CD19]

  type Index = i: nat | i < 16

  /** Which message word each half of a mixing step takes. */
  function Sigma(round: nat): (s: seq<Index>)
    ensures |s| == 16
  {
    if round == 0 then [0, 1, 2, 3, 4, 5, 6, 7, 8, 9, 10, 11, 12, 13, 14, 15]
    else if round == 1 then [14, 10, 4, 8, 9, 15, 13, 6, 1, 12, 0, 2, 11, 7, 5, 3]
    else if round == 2 then [11, 8, 12, 0, 5, 2, 15, 13, 10, 14, 3, 6, 7, 1, 9, 4]
    else if round == 3 then [7, 9, 3, 1, 13, 12, 11, 14, 2, 6, 5, 10, 4, 0, 15, 8]
    else if round == 4 then [9, 0, 5, 7, 2, 4, 10, 15, 14, 1, 11, 12, 6, 8, 3, 13]
    else if round == 5 then [2, 12, 6, 10, 0, 11, 8, 3, 4, 13, 7, 5, 15, 14, 1, 9]
    else if round == 6 then [12, 5, 1, 15, 14, 13, 4, 10, 0, 7, 6, 3, 9, 2, 8, 11]
    else if round == 7 then [13, 11, 7, 14, 12, 1, 3, 9, 5, 0, 15, 4, 8, 6, 2, 10]
    else if round == 8 then [6, 15, 14, 9, 11, 3, 0, 8, 12, 2, 13, 7, 1, 4, 10, 5]
    else [10, 2, 8, 4, 7, 6, 1, 5, 15, 11, 9, 14, 3, 12, 13, 0]
  }

  function RotR(x: Word, n: nat): Word
    requires n <= 32
  {
    XorW(ShrW(x, n), ShlW(x, 32 - n))
  }

  /** The mixing function G on four places of the work vector. */
  function Mix(v: seq<Word>, a: nat, b: nat, c: nat, d: nat, x: Word, y: Word): (r: seq<Word>)
    requires |v| == 16 && a < 16 && b < 16 && c < 16 && d < 16
    ensures |r| == 16
  {
    var va := AddW(AddW(v[a], v[b]), x);
    var vd := RotR(XorW(v[d], va), 16);
    var vc := AddW(v[c], vd);
    var vb := RotR(XorW(v[b], vc), 12);
    var va' := AddW(AddW(va, vb), y);
    var vd' := RotR(XorW(vd, va'), 8);
    var vc' := AddW(vc, vd');
    v[a := va'][d := vd'][c := vc'][b := RotR(XorW(vb, vc'), 7)]
  }

  function Round(v: seq<Word>, m: seq<Word>, s: seq<Index>): (r: seq<Word>)
    requires |v| == 16 && |m| == 16 && |s| == 16
    ensures |r| == 16
  {
    hide Mix;
    var v1 := Mix(v, 0, 4, 8, 12, m[s[0]], m[s[1]]);
    var v2 := Mix(v1, 1, 5, 9, 13, m[s[2]], m[s[3]]);
    var v3 := Mix(v2, 2, 6, 10, 14, m[s[4]], m[s[5]]);
    var v4 := Mix(v3, 3, 7, 11, 15, m[s[6]], m[s[7]]);
    var v5 := Mix(v4, 0, 5, 10, 15, m[s[8]], m[s[9]]);
    var v6 := Mix(v5, 1, 6, 11, 12, m[s[10]], m[s[11]]);
    var v7 := Mix(v6, 2, 7, 8, 13, m[s[12]], m[s[13]]);
    Mix(v7, 3, 4, 9, 14, m[s[14]], m[s[15]])
  }

  function Rounds(v: seq<Word>, m: seq<Word>, n: nat): (r: seq<Word>)
    requires |v| == 16 && |m| == 16
    ensures |r| == 16
  {
    if n == 0 then v else Round(Rounds(v, m, n - 1), m, Sigma(n - 1))
  }

  type Chain = h: seq<Word> | |h| == 8 witness IV

  /** The work vector before the rounds; the offset counter enters as two words. */
  function WorkVector(h: Chain, t: nat, last: bool): (v: seq<Word>)
    ensures |v| == 16
  {
    var v14 := if last then 0xffff_ffff - IV[6] else IV[6];
    h + IV[..4] + [XorW(IV[4], t % 0x1_0000_0000), XorW(IV[5], t / 0x1_0000_0000 % 0x1_0000_0000), v14, IV[7]]
  }

  function F(h: Chain, block: Bytes, t: nat, last: bool): Chain
    requires |block| == 64
  {
    hide *;
    Feed(h, Rounds(WorkVector(h, t, last), BytesWords(block), 10))
  }

  lemma FIs(h: Chain, block: Bytes, t: nat, last: bool)
    requires |block| == 64
    ensures F(h, block, t, last) == Feed(h, Rounds(WorkVector(h, t, last), BytesWords(block), 10))
  {
    hide Feed, Round, WorkVector, BytesWords;
  }

  /** The two halves of the work vector go back into the chain. */
  function Feed(h: Chain, v: seq<Word>): Chain
    requires |v| == 16
  {
    seq(8, i requires 0 <= i < 8 => XorW(h[i], XorW(v[i], v[i + 8])))
  }

  // ---- section 3.3: the hash of a whole message ----

  /** The initial chain value with its parameter block. */
  function Start(keyLength: nat, outLength: nat): Chain
    requires keyLength <= 32 && outLength <= 32
  {
    IV[0 := XorW(IV[0], 0x01010000 + 0x100 * keyLength + outLength)]
  }

  /** The chain value after the first n blocks of s, none of them marked last. */
  function After(h: Chain, s: Bytes, n: nat): Chain
    requires 64 * n <= |s|
  {
    if n == 0 then h else F(After(h, s, n - 1), s[64 * (n - 1)..64 * n], 64 * n, false)
  }

  /** How many blocks precede the last one; the last block is empty only if everything is. */
  function Leading(s: Bytes): nat { if |s| == 0 then 0 else (|s| - 1) / 64 }

  function PadBlock(b: Bytes): (r: Bytes)
    requires |b| <= 64
    ensures |r| == 64
  {
    b + Zeros(64 - |b|)
  }

  function Digest(h: Chain, s: Bytes): Chain {
    F(After(h, s, Leading(s)), PadBlock(s[64 * Leading(s)..]), |s|, true)
  }

  /** A key is a first block of its own. */
  function Input(key: Bytes, msg: Bytes): Bytes
    requires |key| <= 64
  {
    (if |key| > 0 then PadBlock(key) else []) + msg
  }

  /** BLAKE2s(key, msg) with outLength bytes of digest. */
  function Hash(outLength: nat, key: Bytes, msg: Bytes): (d: Bytes)
    requires 1 <= outLength <= 32 && |key| <= 32
    ensures |d| == outLength
  {
    WordBytes(Digest(Start(|key|, outLength), Input(key, msg)))[..outLength]
  }

  lemma {:induction false} AfterPrefix(h: Chain, s: Bytes, s': Bytes, n: nat)
    requires 64 * n <= |s| && 64 * n <= |s'| && s[..64 * n] == s'[..64 * n]
    ensures After(h, s, n) == After(h, s', n)
  {
    hide F;
    if n > 0 {
      assert s[..64 * (n - 1)] == s[..64 * n][..64 * (n - 1)];
      assert s'[..64 * (n - 1)] == s'[..64 * n][..64 * (n - 1)];
      assert s[64 * (n - 1)..64 * n] == s[..64 * n][64 * (n - 1)..];
      assert s'[64 * (n - 1)..64 * n] == s'[..64 * n][64 * (n - 1)..];
      AfterPrefix(h, s, s', n - 1);
    }
  }

  /** One more block of the prefix. */
  lemma AfterNext(h: Chain, s: Bytes, block: Bytes)
    requires |s| % 64 == 0 && |block| == 64
    ensures After(h, s + block, |s + block| / 64) == F(After(h, s, |s| / 64), block, |s| + 64, false)
  {
    hide F;
    var n := |s| / 64 + 1;
    assert |s + block| / 64 == n;
    assert (s + block)[64 * (n - 1)..64 * n] == block;
    AfterPrefix(h, s + block, s, n - 1);
  }

  /** The last block, wherever the buffer was filled, gives the digest of the whole. */
  lemma LastBlock(h: Chain, s: Bytes, tail: Bytes)
    requires |s| % 64 == 0 && |tail| <= 64 && (|tail| == 0 ==> s == [])
    ensures Digest(h, s + tail) == F(After(h, s, |s| / 64), PadBlock(tail), |s + tail|, true)
  {
    hide F;
    assert Leading(s + tail) == |s| / 64;
    assert (s + tail)[|s|..] == tail;
    AfterPrefix(h, s + tail, s, |s| / 64);
  }

  // ---- storing the digest ----

  lemma {:induction false} ShrEight(x: nat, k: nat)
    ensures Shr(x, k + 8) == Shr(x / 256, k)
  {
    var x2, x4 := x / 2 / 2, x / 2 / 2 / 2 / 2;
    var x6 := x4 / 2 / 2;
    assert Shr(x, k + 8) == Shr(x2, k + 6) == Shr(x4, k + 4) == Shr(x6, k + 2) == Shr(x6 / 2 / 2, k);
    assert x6 / 2 / 2 == x / 256;
  }

  lemma ShrZero(v: nat)
    ensures Shr(v, 0) == v
  {
  }

  lemma {:induction false} ToLEAt(v: nat, n: nat, k: nat)
    requires k < n
    ensures ToLE(v, n)[k] == Shr(v, 8 * k) % 256
  {
    hide Shr;
    if k == 0 {
      ShrZero(v);
    } else {
      ToLEAt(v / 256, n - 1, k - 1);
      ShrEight(v, 8 * (k - 1));
    }
  }

  /** Byte i of the stored chain, as the output loop computes it. */
  lemma {:induction false} WordBytesAt(w: seq<Word>, i: nat)
    requires i < 4 * |w|
    ensures WordBytes(w)[i] == Shr(w[i / 4], 8 * (i % 4)) % 256
  {
    hide ToLE, Shr;
    var n := |w| - 1;
    if i < 4 * n {
      WordBytesAt(w[..n], i);
    } else {
      ToLEAt(w[n], 4, i - 4 * n);
    }
  }

  // ---- the code ----

  /** G on four places of the work vector, in place. */
  method MixInPlace(v: array<Word>, a: nat, b: nat, c: nat, d: nat, x: Word, y: Word)
    requires v.Length == 16 && a < 16 && b < 16 && c < 16 && d < 16
    requires a != b && a != c && a != d && b != c && b != d && c != d
    modifies v
    ensures v[..] == Mix(old(v[..]), a, b, c, d, x, y)
  {
    hide RotR, AddW, XorW;
    v[a] := AddW(AddW(v[a], v[b]), x);
    v[d] := RotR(XorW(v[d], v[a]), 16);
    v[c] := AddW(v[c], v[d]);
    v[b] := RotR(XorW(v[b], v[c]), 12);
    v[a] := AddW(AddW(v[a], v[b]), y);
    v[d] := RotR(XorW(v[d], v[a]), 8);
    v[c] := AddW(v[c], v[d]);
    v[b] := RotR(XorW(v[b], v[c]), 7);
  }

  /** One pass of the round loop. */
  method MixRound(v: array<Word>, m: seq<Word>, s: seq<Index>)
    requires v.Length == 16 && |m| == 16 && |s| == 16
    modifies v
    ensures v[..] == Round(old(v[..]), m, s)
  {
    hide Mix;
    MixInPlace(v, 0, 4, 8, 12, m[s[0]], m[s[1]]);
    MixInPlace(v, 1, 5, 9, 13, m[s[2]], m[s[3]]);
    MixInPlace(v, 2, 6, 10, 14, m[s[4]], m[s[5]]);
    MixInPlace(v, 3, 7, 11, 15, m[s[6]], m[s[7]]);
    MixInPlace(v, 0, 5, 10, 15, m[s[8]], m[s[9]]);
    MixInPlace(v, 1, 6, 11, 12, m[s[10]], m[s[11]]);
    MixInPlace(v, 2, 7, 8, 13, m[s[12]], m[s[13]]);
    MixInPlace(v, 3, 4, 9, 14, m[s[14]], m[s[15]]);
  }

  method TenRounds(v: array<Word>, m: seq<Word>)
    requires v.Length == 16 && |m| == 16
    modifies v
    ensures v[..] == Rounds(old(v[..]), m, 10)
  {
    hide Round, Sigma;
    for i := 0 to 10
      invariant v[..] == Rounds(old(v[..]), m, i)
    {
      MixRound(v, m, Sigma(i));
    }
  }

  method FeedForward(h: array<Word>, v: array<Word>)
    requires h.Length == 8 && v.Length == 16 && h != v
    modifies h
    ensures h[..] == Feed(old(h[..]), v[..])
  {
    hide XorW;
    for i := 0 to 8
      invariant h[i..] == old(h[..])[i..]
      invariant forall k :: 0 <= k < i ==> h[k] == Feed(old(h[..]), v[..])[k]
    {
      h[i] := XorW(h[i], XorW(v[i], v[i + 8]));
    }
  }

  /** The output loop: byte after byte out of the chain words. */
  method StoreChain(h: array<Word>, out: array<byte>, n: nat)
    requires n <= out.Length && n <= 4 * h.Length
    modifies out
    ensures out[..] == WordBytes(h[..])[..n] + old(out[n..])
  {
    hide WordBytes, Shr;
    for i := 0 to n
      invariant out[..i] == WordBytes(h[..])[..i] && out[n..] == old(out[n..])
    {
      WordBytesAt(h[..], i);
      out[i] := Shr(h[i / 4], 8 * (i % 4)) % 256;
    }
    assert out[..] == out[..n] + out[n..];
  }

  class Context {
    const b: array<byte>
    const h: array<Word>
    var t0: Word
    var t1: Word
    var c: nat
    const outlen: nat

    ghost const start: Chain  // the chain value init began with
    ghost var done: Bytes     // the blocks already compressed

    ghost predicate Shape() { b.Length == 64 && h.Length == 8 && 1 <= outlen <= 32 }

    /** The chain value and the two counter words account for exactly the compressed blocks. */
    ghost predicate Folded()
      reads this, h
    {
      && Shape() && |done| % 64 == 0
      && h[..] == After(start, done, |done| / 64)
      && Counts(t0, t1, |done|)
    }

    ghost predicate Valid()
      reads this, h
    {
      Folded() && c <= 64 && (c == 0 ==> done == [])
    }

    /** Everything hashed so far, the key block included. */
    ghost function Contents(): Bytes
      requires Valid()
      reads this, h, b
    {
      done + b[..c]
    }

    /** blake2s_init, for the lengths it accepts */
    constructor (outlen: nat, key: Bytes)
      requires 1 <= outlen <= 32 && |key| <= 32
      ensures Valid() && fresh(b) && fresh(h) && this.outlen == outlen
      ensures start == Start(|key|, outlen) && Contents() == Input(key, [])
    {
      hide F, Start, After, Counts, Zeros, Input;
      b := new byte[64];
      h := new Word[8](i requires 0 <= i < 8 => Start(|key|, outlen)[i]);
      this.outlen := outlen;
      t0, t1, c := 0, 0, 0;
      start, done := Start(|key|, outlen), [];
      new;
      assert h[..] == start;
      for i := |key| to 64
        modifies b
        invariant b[|key|..i] == Zeros(i - |key|)
      {
        b[i] := 0;
      }
      assert h[..] == start && Shape();
      StartAccounted();
      KeyBlock(key);
    }

    lemma StartAccounted()
      requires Shape() && done == [] && h[..] == start && t0 == 0 && t1 == 0
      ensures Folded()
    {
      hide F, Start;
    }

    /** The tail of blake2s_init: a key is the first block, not compressed yet. */
    method KeyBlock(key: Bytes)
      requires Valid() && c == 0 && |key| <= 32 && b[|key|..] == Zeros(64 - |key|)
      modifies this`t0, this`t1, this`c, this`done, b, h
      ensures Valid() && Contents() == Input(key, [])
    {
      hide After, F, Counts, Zeros;
      if |key| > 0 {
        assert Contents() == [];
        Update(key);
        assert |done| == 0 by { assert |Contents()| == |key|; }
        assert key == done + b[..c];
        assert b[..] == b[..c] + b[c..];
        c := 64;
      }
    }

    /** t[0] += n with the carry into t[1] */
    method Count(n: nat, ghost t: nat)
      requires n <= 64 && Counts(t0, t1, t)
      modifies this`t0, this`t1
      ensures Counts(t0, t1, t + n)
    {
      CarryCounts(t0, t1, t, n);
      t0 := AddW(t0, n);
      if t0 < n {
        t1 := AddW(t1, 1);
      }
    }

    /** blake2s_compress */
    method Compress(last: bool, ghost t: nat)
      requires Shape() && Counts(t0, t1, t)
      modifies h
      ensures h[..] == F(old(h[..]), b[..], t, last)
    {
      hide Round, BytesWords, Xor, Feed, F;
      var v := new Word[16];
      for i := 0 to 8
        modifies v
        invariant v[..i] == h[..i] && v[8..8 + i] == IV[..i]
      {
        v[i], v[i + 8] := h[i], IV[i];
      }
      assert v[8..16] == IV && v[..8] == h[..];
      ghost var v0 := v[..];
      assert forall k :: 0 <= k < 8 ==> v0[8 + k] == v0[8..16][k];
      v[12] := XorW(v[12], t0);
      v[13] := XorW(v[13], t1);
      if last {
        v[14] := 0xffff_ffff - v[14];
      }
      assert v[..12] == v0[..12] == v0[..8] + v0[8..16][..4] && v[15] == v0[15];
      assert v[..] == v[..12] + [v[12], v[13], v[14], v[15]];
      assert v[..] == WorkVector(h[..], t, last);
      TenRounds(v, BytesWords(b[..]));
      ghost var w := v[..];
      assert w == Rounds(WorkVector(h[..], t, last), BytesWords(b[..]), 10);
      ghost var h0 := h[..];
      FeedForward(h, v);
      assert h[..] == Feed(h0, w);
      FIs(h0, b[..], t, last);
      assert h0 == old(h[..]);
      assert h[..] == F(h0, b[..], t, last);
    }

    /** A full buffer makes way for the next byte. */
    method Flush()
      requires Valid() && c == 64
      modifies this`t0, this`t1, this`c, this`done, h
      ensures Folded() && c == 0 && done == old(done) + b[..]
    {
      hide After, F, Counts;
      ghost var next := done + b[..];
      AfterNext(start, done, b[..]);
      assert |next| == |done| + 64;
      Count(c, |done|);
      Compress(false, |next|);
      c := 0;
      done := next;
    }

    /** blake2s_update: a full buffer is compressed only when one more byte arrives. */
    method Update(input: Bytes)
      requires Valid()
      modifies this`t0, this`t1, this`c, this`done, b, h
      ensures Valid() && Contents() == old(Contents()) + input
      ensures old(c) + |input| <= 64 ==> c == old(c) + |input| && b[c..] == old(b[..])[c..]
    {
      hide After, F;
      for i := 0 to |input|
        invariant Valid() && Contents() == old(Contents()) + input[..i]
        invariant old(c) + i <= 64 ==> c == old(c) + i && b[c..] == old(b[..])[c..]
      {
        Append(input[i]);
      }
      assert input[..|input|] == input;
    }

    /** One turn of the update loop. */
    method Append(x: byte)
      requires Valid()
      modifies this`t0, this`t1, this`c, this`done, b, h
      ensures Valid() && Contents() == old(Contents()) + [x]
      ensures old(c) < 64 ==> c == old(c) + 1 && b[c..] == old(b[..])[c..]
    {
      hide After, F;
      if c == 64 {
        Flush();
      }
      b[c] := x;
      c := c + 1;
      assert b[..c] == b[..c - 1] + [x];
    }

    /** blake2s_final: the digest of everything hashed so far, at out[..outlen]. */
    method Final(out: array<byte>)
      requires Valid() && out.Length >= outlen && out != b
      modifies this`t0, this`t1, this`c, b, h, out
      ensures out[..] == WordBytes(Digest(start, old(Contents())))[..outlen] + old(out[outlen..])
    {
      hide After, F, WordBytes, Digest;
      ghost var tail := b[..c];
      LastBlock(start, done, tail);
      assert |done + tail| == |done| + |tail|;
      ghost var h0 := h[..];
      Count(c, |done|);
      while c < 64
        modifies this`c, b
        invariant |tail| <= c <= 64 && b[..c] == tail + Zeros(c - |tail|)
      {
        b[c] := 0;
        c := c + 1;
      }
      assert b[..] == PadBlock(tail);
      assert h[..] == h0;
      Compress(true, |done| + |tail|);
      assert b[..] == PadBlock(tail);
      assert h[..] == F(h0, PadBlock(tail), |done + tail|, true);
      StoreChain(h, out, outlen);
    }
  }

  /** t0 and t1 are the two words of the count t. */
  predicate Counts(t0: Word, t1: Word, t: nat) {
    t0 == t % 0x1_0000_0000 && t1 == t / 0x1_0000_0000 % 0x1_0000_0000
  }

  /** The comparison after the addition detects exactly the carry out of the low word. */
  lemma CarryCounts(t0: Word, t1: Word, t: nat, n: nat)
    requires n <= 64 && Counts(t0, t1, t)
    ensures Counts(AddW(t0, n), if AddW(t0, n) < n then AddW(t1, 1) else t1, t + n)
  {
    var q := t / 0x1_0000_0000;
    if t0 + n < 0x1_0000_0000 {
      assert (t + n) / 0x1_0000_0000 == q;
    } else {
      assert (t + n) / 0x1_0000_0000 == q + 1;
      assert (q + 1) % 0x1_0000_0000 == AddW(t1, 1);
    }
  }

  lemma InputThen(key: Bytes, a: Bytes, b: Bytes)
    requires |key| <= 64
    ensures Input(key, a) + b == Input(key, a + b)
  {
  }

  lemma HashIs(outlen: nat, key: Bytes, msg: Bytes)
    requires 1 <= outlen <= 32 && |key| <= 32
    ensures Hash(outlen, key, msg) == WordBytes(Digest(Start(|key|, outlen), Input(key, msg)))[..outlen]
  {
    hide WordBytes, Digest, Start, Input;
  }

  /** blake2s: refuses illegal lengths and otherwise computes the hash of RFC 7693. */
  method Blake2s(outlen: nat, key: Bytes, input: Bytes) returns (ok: bool, out: Bytes)
    ensures ok <==> 1 <= outlen <= 32 && |key| <= 32
    ensures ok ==> out == Hash(outlen, key, input)
  {
    hide *;
    if outlen == 0 || outlen > 32 || |key| > 32 {
      return false, [];
    }
    var ctx := new Context(outlen, key);
    ctx.Update(input);
    InputThen(key, [], input);
    assert [] + input == input;
    HashIs(outlen, key, input);
    var d := new byte[outlen];
    ctx.Final(d);
    assert d[..] == d[..outlen];
    return true, d[..];
  }

  /** Any way of cutting the message into updates gives the same digest. */
  method Chunked(outlen: nat, key: Bytes, chunks: seq<Bytes>) returns (out: Bytes)
    requires 1 <= outlen <= 32 && |key| <= 32
    ensures out == Hash(outlen, key, Flatten(chunks))
  {
    hide *;
    FlattenNone();
    var ctx := new Context(outlen, key);
    for i := 0 to |chunks|
      invariant ctx.Valid() && fresh(ctx.b) && fresh(ctx.h)
      invariant ctx.Contents() == Input(key, Flatten(chunks[..i]))
    {
      ctx.Update(chunks[i]);
      FlattenNext(chunks, i);
      InputThen(key, Flatten(chunks[..i]), chunks[i]);
    }
    assert chunks[..|chunks|] == chunks;
    HashIs(outlen, key, Flatten(chunks));
    var d := new byte[outlen];
    ctx.Final(d);
    return d[..];
  }

  function Flatten(chunks: seq<Bytes>): Bytes {
    if chunks == [] then [] else Flatten(chunks[..|chunks| - 1]) + chunks[|chunks| - 1]
  }

  lemma FlattenNone()
    ensures Flatten([]) == []
  {
  }

  lemma FlattenNext(chunks: seq<Bytes>, i: nat)
    requires i < |chunks|
    ensures Flatten(chunks[..i + 1]) == Flatten(chunks[..i]) + chunks[i]
  {
    assert chunks[..i + 1][..i] == chunks[..i];
  }
}
