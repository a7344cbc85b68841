/** TAI64N stamps: twelve bytes that memcmp orders like the time they were taken. */
module Tai64n {
  import opened Arith
  import opened Bits
  import opened Bytes

  /** The number a byte string denotes, most significant byte first. */
  function BE(b: Bytes): nat {
    if b == [] then 0 else Pow2(8 * (|b| - 1)) * b[0] + BE(b[1..])
  }

  /** memcmp on strings of equal length: the sign is decided at the first difference. */
  function Memcmp(a: Bytes, b: Bytes): int
    requires |a| == |b|
  {
    if a == [] then 0 else if a[0] != b[0] then a[0] as int - b[0] as int else Memcmp(a[1..], b[1..])
  }

  lemma {:induction false} BEBound(b: Bytes)
    ensures BE(b) < Pow2(8 * |b|)
  {
    if b != [] {
      BEBound(b[1..]);
      var p := Pow2(8 * (|b| - 1));
      Pow2Add(8, 8 * (|b| - 1));
      assert Pow2(8) == 256;
      MulMono(b[0], 255, p, p);
      assert p * b[0] <= p * 255;
    }
  }

  lemma LeadingByte(p: nat, x: nat, y: nat, r: nat, s: nat)
    requires x < y && r < p
    ensures p * x + r < p * y + s
  {
    MulMono(x + 1, y, p, p);
    assert p * (x + 1) == p * x + p && p * (x + 1) <= p * y;
  }

  /** memcmp is the order of the big-endian values. */
  lemma {:induction false} MemcmpIsOrder(a: Bytes, b: Bytes)
    requires |a| == |b|
    ensures Memcmp(a, b) < 0 <==> BE(a) < BE(b)
    ensures Memcmp(a, b) == 0 <==> a == b
    ensures Memcmp(a, b) == 0 <==> BE(a) == BE(b)
  {
    if a != [] {
      var p := Pow2(8 * (|a| - 1));
      BEBound(a[1..]);
      BEBound(b[1..]);
      MemcmpIsOrder(a[1..], b[1..]);
      if a[0] < b[0] {
        LeadingByte(p, a[0], b[0], BE(a[1..]), BE(b[1..]));
      } else if a[0] > b[0] {
        LeadingByte(p, b[0], a[0], BE(b[1..]), BE(a[1..]));
      } else {
        assert a == [a[0]] + a[1..] && b == [b[0]] + b[1..];
      }
    }
  }

  /** The n low bytes of v, most significant first, as the shifts of the code produce them. */
  function ToBE(v: nat, n: nat): (b: Bytes)
    ensures |b| == n
  {
    seq(n, i requires 0 <= i < n => Shr(v, 8 * (n - 1 - i)) % 256)
  }

  lemma {:induction false} ToBEInverse(v: nat, n: nat)
    ensures BE(ToBE(v, n)) == v % Pow2(8 * n)
  {
    hide Shr, Pow2;
    if n == 0 {
      assert Pow2(0) == 1 by { Pow2Zero(); }
    } else {
      var k := 8 * (n - 1);
      assert ToBE(v, n)[1..] == ToBE(v, n - 1);
      ToBEInverse(v, n - 1);
      ShrLow(v, k);
      Pow2Add(8, k);
      assert Pow2(8) == 256 by { Pow2Values(); }
      TopByte(v, Pow2(k));
    }
  }

  lemma Pow2Zero()
    ensures Pow2(0) == 1
  {
  }

  lemma TopByte(v: nat, p: nat)
    requires p > 0
    ensures p * (v / p % 256) + v % p == v % (256 * p)
  {
    var q := v / p;
    assert v == p * q + v % p;
    assert q == 256 * (q / 256) + q % 256;
    assert p * (256 * (q / 256) + q % 256) == (256 * p) * (q / 256) + p * (q % 256);
    MulMono(q % 256, 255, p, p);
    assert p * (q % 256) <= p * 255;
    DivModUnique(v, 256 * p, q / 256, p * (q % 256) + v % p);
  }

  lemma {:induction false} BEConcat(a: Bytes, b: Bytes)
    ensures BE(a + b) == Pow2(8 * |b|) * BE(a) + BE(b)
  {
    if a == [] {
      assert a + b == b;
    } else {
      assert (a + b)[1..] == a[1..] + b;
      BEConcat(a[1..], b);
      var m := 8 * (|a| - 1);
      Pow2Add(8 * |b|, m);
      Distribute(Pow2(8 * |b|), Pow2(m), a[0], BE(a[1..]));
    }
  }

  /** The stamp of a CLOCK_REALTIME reading. */
  function Stamp(sec: int, nsec: nat): (t: Bytes)
    ensures |t| == 12
  {
    ToBE((sec + 0x4000_0000_0000_000a) % 0x1_0000_0000_0000_0000, 8) + ToBE(nsec % 0x1_0000_0000, 4)
  }

  lemma StampValue(sec: int, nsec: nat)
    requires nsec < 0x1_0000_0000
    ensures BE(Stamp(sec, nsec)) == 0x1_0000_0000 * ((sec + 0x4000_0000_0000_000a) % 0x1_0000_0000_0000_0000) + nsec
  {
    hide ToBE, Pow2, BE;
    var s: nat := (sec + 0x4000_0000_0000_000a) % 0x1_0000_0000_0000_0000;
    Pow2Values();
    ToBEInverse(s, 8);
    ToBEInverse(nsec, 4);
    BEConcat(ToBE(s, 8), ToBE(nsec, 4));
  }

  /** A time_t and a nanosecond field. */
  predicate Reading(sec: int, nsec: nat) {
    -0x8000_0000_0000_0000 <= sec < 0x8000_0000_0000_0000 && nsec < 0x1_0000_0000
  }

  /** Stamps compare like the readings they were made of, seconds before nanoseconds, exactly when
      both readings lie on one side of the TAI64 epoch: below it the 64-bit addition wraps. */
  lemma StampOrder(s1: int, n1: nat, s2: int, n2: nat)
    requires Reading(s1, n1) && Reading(s2, n2)
    ensures Memcmp(Stamp(s1, n1), Stamp(s2, n2)) == 0 <==> s1 == s2 && n1 == n2
    ensures (Memcmp(Stamp(s1, n1), Stamp(s2, n2)) < 0 <==> s1 < s2 || (s1 == s2 && n1 < n2))
            <==> (s1 < -0x4000_0000_0000_000a <==> s2 < -0x4000_0000_0000_000a)
  {
    hide Stamp, Memcmp, BE;
    StampValue(s1, n1);
    StampValue(s2, n2);
    MemcmpIsOrder(Stamp(s1, n1), Stamp(s2, n2));
  }

  /** wireguard_tai64n_now for a clock reading of sec and nsec */
  method Now(output: array<byte>, sec: int, nsec: nat)
    requires output.Length == 12 && nsec < 1_000_000_000
    modifies output
    ensures output[..] == Stamp(sec, nsec)
  {
    hide Shr;
    var seconds := (sec + 0x4000_0000_0000_000a) % 0x1_0000_0000_0000_0000;
    for i := 0 to 8
      invariant output[..i] == ToBE(seconds, 8)[..i]
    {
      output[i] := Shr(seconds, 8 * (7 - i)) % 256;
    }
    ghost var first := output[..8];
    for i := 0 to 4
      invariant output[..8] == first && output[8..8 + i] == ToBE(nsec, 4)[..i]
    {
      output[8 + i] := Shr(nsec, 8 * (3 - i)) % 256;
    }
    assert ToBE(seconds, 8)[..8] == ToBE(seconds, 8) && ToBE(nsec, 4)[..4] == ToBE(nsec, 4);
    assert output[..] == output[..8] + output[8..8 + 4];
  }
}
