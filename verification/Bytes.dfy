/** Byte strings and their little-endian values. */
module Bytes {
  import opened Arith
  import opened Bits

  type byte = x: int | 0 <= x < 256

  type Bytes = seq<byte>

  /** The number a byte string denotes, least significant byte first. */
  function LE(b: Bytes): (r: nat)
  {
    if |b| == 0 then 0 else b[0] + 256 * LE(b[1..])
  }

  /** The n low bytes of v, least significant first. */
  function ToLE(v: nat, n: nat): (b: Bytes)
    ensures |b| == n
  {
    if n == 0 then [] else [v % 256] + ToLE(v / 256, n - 1)
  }

  function Zeros(n: nat): (b: Bytes)
    ensures |b| == n && forall i :: 0 <= i < n ==> b[i] == 0
  {
    seq(n, i => 0)
  }

  lemma {:induction false} LEBound(b: Bytes)
    ensures LE(b) < Pow2(8 * |b|)
  {
    if |b| > 0 {
      LEBound(b[1..]);
      Pow2Add(8, 8 * |b| - 8);
      assert Pow2(8) == 256;
    }
  }

  lemma {:induction false} ToLEInverse(v: nat, n: nat)
    requires v < Pow2(8 * n)
    ensures LE(ToLE(v, n)) == v
  {
    if n > 0 {
      Pow2Add(8, 8 * n - 8);
      assert Pow2(8) == 256;
      ToLEInverse(v / 256, n - 1);
      assert ToLE(v, n)[1..] == ToLE(v / 256, n - 1);
    }
  }

  lemma {:induction false} LEInverse(b: Bytes)
    ensures ToLE(LE(b), |b|) == b
  {
    if |b| > 0 {
      LEInverse(b[1..]);
      assert LE(b) % 256 == b[0] && LE(b) / 256 == LE(b[1..]);
    }
  }

  lemma {:induction false} LEConcat(a: Bytes, b: Bytes)
    ensures LE(a + b) == LE(a) + Pow2(8 * |a|) * LE(b)
  {
    if |a| == 0 {
      assert a + b == b;
    } else {
      assert (a + b)[1..] == a[1..] + b;
      LEConcat(a[1..], b);
      Pow2Bytes(|a|, LE(b));
    }
  }

  lemma Pow2Bytes(n: nat, v: nat)
    requires n > 0
    ensures Pow2(8 * n) * v == 256 * (Pow2(8 * n - 8) * v)
  {
    Pow2Add(8, 8 * n - 8);
    assert Pow2(8) == 256;
    var m := Pow2(8 * n - 8);
    assert (256 * m) * v == 256 * (m * v);
  }

  lemma {:induction false} LEZeros(b: Bytes, n: nat)
    ensures LE(b + Zeros(n)) == LE(b)
  {
    LEConcat(b, Zeros(n));
    LEAllZero(Zeros(n));
  }

  lemma {:induction false} LEAllZero(b: Bytes)
    requires forall i :: 0 <= i < |b| ==> b[i] == 0
    ensures LE(b) == 0
  {
    if |b| > 0 {
      LEAllZero(b[1..]);
    }
  }

  function XorByte(x: byte, y: byte): byte {
    XorByteFits(x, y);
    Xor(x, y)
  }

  lemma XorByteFits(x: nat, y: nat)
    requires x < 256 && y < 256
    ensures Xor(x, y) < 256
  {
    hide Xor, Pow2;
    Pow2Values();
    XorBound(x, y, 8);
  }

  function At(p: Bytes, i: nat): (v: nat)
    requires i < |p|
    ensures v < 256
  {
    p[i]
  }

  /** U8TO32: four bytes at offset i as a 32-bit word. */
  function U8To32(p: Bytes, i: nat): (w: nat)
    requires i + 4 <= |p|
    ensures w < 0x1_0000_0000
  {
    At(p, i) + 0x100 * At(p, i + 1) + 0x10000 * At(p, i + 2) + 0x1000000 * At(p, i + 3)
  }

  lemma LEWord(p: Bytes, i: nat)
    requires i + 4 <= |p|
    ensures LE(p[i..i + 4]) == U8To32(p, i)
  {
    var b := p[i..i + 4];
    assert LE(b[3..]) == b[3] by { assert b[3..][1..] == []; }
    assert LE(b[2..]) == b[2] + 256 * LE(b[3..]) by { assert b[2..][1..] == b[3..]; }
    assert LE(b[1..]) == b[1] + 256 * LE(b[2..]) by { assert b[1..][1..] == b[2..]; }
  }

  lemma LEFourWords(a: Bytes, b: Bytes, c: Bytes, d: Bytes)
    requires |a| == |b| == |c| == |d| == 4
    ensures LE(a + (b + (c + d))) == LE(a) + 0x1_0000_0000 * LE(b) + 0x1_0000_0000_0000_0000 * LE(c)
                               + 0x1_0000_0000_0000_0000_0000_0000 * LE(d)
  {
    LEWordThen(c, d);
    LEWordThen(b, c + d);
    LEWordThen(a, b + (c + d));
  }

  lemma LEWordThen(a: Bytes, b: Bytes)
    requires |a| == 4
    ensures LE(a + b) == LE(a) + 0x1_0000_0000 * LE(b)
  {
    LEConcat(a, b);
    Pow2Values();
  }

  /** Sixteen bytes as four words. */
  lemma LE16(p: Bytes, i: nat)
    requires i + 16 <= |p|
    ensures LE(p[i..i + 16]) == U8To32(p, i) + 0x1_0000_0000 * U8To32(p, i + 4)
                              + 0x1_0000_0000_0000_0000 * U8To32(p, i + 8)
                              + 0x1_0000_0000_0000_0000_0000_0000 * U8To32(p, i + 12)
  {
    var a, b, c, d := p[i..i + 4], p[i + 4..i + 8], p[i + 8..i + 12], p[i + 12..i + 16];
    assert p[i..i + 16] == a + (b + (c + d));
    LEFourWords(a, b, c, d);
    LEWord(p, i);
    LEWord(p, i + 4);
    LEWord(p, i + 8);
    LEWord(p, i + 12);
  }
}
