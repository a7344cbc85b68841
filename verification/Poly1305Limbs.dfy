/** Section 2.5 of RFC 8439: the one-time authenticator over the integers modulo 2^130 - 5. */
module Poly1305Spec {
  import opened Bits
  import opened Bytes

  /** Reduction modulo the prime 2^130 - 5. */
  function ModP(x: int): (r: nat)
    ensures r < 0x3_ffffffff_ffffffff_ffffffff_fffffffb
  {
    x % 0x3_ffffffff_ffffffff_ffffffff_fffffffb
  }

  function Mod128(x: nat): (r: nat)
    ensures r < 0x1_00000000_00000000_00000000_00000000
  {
    x % 0x1_00000000_00000000_00000000_00000000
  }

  function ClampedR(key: Bytes): nat
    requires |key| == 32
  {
    And(LE(key[..16]), 0x0ffffffc_0ffffffc_0ffffffc_0fffffff)
  }

  /** The accumulator after all of msg, whose last block may be short. */
  function Acc(r: nat, msg: Bytes): (a: nat)
    ensures a < 0x3_ffffffff_ffffffff_ffffffff_fffffffb
  {
    if |msg| == 0 then 0
    else
      var k := (|msg| - 1) / 16 * 16;
      ModP((Acc(r, msg[..k]) + LE(msg[k..]) + Pow2(8 * (|msg| - k))) * r)
  }

  function Tag(key: Bytes, msg: Bytes): (t: Bytes)
    requires |key| == 32
    ensures |t| == 16
  {
    ToLE(Mod128(Acc(ClampedR(key), msg) + LE(key[16..])), 16)
  }
}

/** One 130-bit number as five 26-bit limbs, with the carries the C code leaves pending.
    Every 32-bit or 64-bit result is truncated by W32 or W64 exactly where the C type truncates it;
    the contracts show that no truncation ever loses a bit. */
module Poly1305Limbs {
  import opened Arith
  import opened Bits
  import opened Bytes
  import opened Poly1305Spec

  datatype Limbs = Limbs(l0: nat, l1: nat, l2: nat, l3: nat, l4: nat)

  function W32(x: nat): nat { x % 0x1_0000_0000 }

  function W64(x: nat): nat { x % 0x1_0000_0000_0000_0000 }

  function Val(x: Limbs): nat {
    x.l0 + 0x4000000 * x.l1 + 0x10_0000_0000_0000 * x.l2 + 0x4000_0000_0000_0000_0000 * x.l3
    + 0x100_0000_0000_0000_0000_0000_0000 * x.l4
  }

  /** The limbs of a clamped multiplier lie under the five masks of poly1305_init. */
  predicate ClampedLimbs(r: Limbs) {
    r.l0 <= 0x3ffffff && r.l1 <= 0x3ffff03 && r.l2 <= 0x3ffc0ff && r.l3 <= 0x3f03fff && r.l4 <= 0x00fffff
  }

  /** What the block loop keeps: only the second limb may exceed 26 bits, and by less than 2^6. */
  predicate LoopBounds(h: Limbs) {
    h.l0 < 0x4000000 && h.l1 < 0x4000040 && h.l2 < 0x4000000 && h.l3 < 0x4000000 && h.l4 < 0x4000000
  }

  /** Loop bounds plus one message block. */
  predicate SumBounds(h: Limbs) {
    h.l0 < 0x8000000 && h.l1 < 0x8000040 && h.l2 < 0x8000000 && h.l3 < 0x8000000 && h.l4 < 0x6000000
  }

  /** One 64-bit column: five limb products. */
  function Dot(h: Limbs, b0: nat, b1: nat, b2: nat, b3: nat, b4: nat): nat {
    Mul(h.l0, b0) + Mul(h.l1, b1) + Mul(h.l2, b2) + Mul(h.l3, b3) + Mul(h.l4, b4)
  }

  /** h *= r: the five columns, the wrapped half folded in with s = 5 * r. */
  function Columns(h: Limbs, r: Limbs): Limbs {
    var s1, s2, s3, s4 := W32(r.l1 * 5), W32(r.l2 * 5), W32(r.l3 * 5), W32(r.l4 * 5);
    Limbs(
      W64(Dot(h, r.l0, s4, s3, s2, s1)),
      W64(Dot(h, r.l1, r.l0, s4, s3, s2)),
      W64(Dot(h, r.l2, r.l1, r.l0, s4, s3)),
      W64(Dot(h, r.l3, r.l2, r.l1, r.l0, s4)),
      W64(Dot(h, r.l4, r.l3, r.l2, r.l1, r.l0)))
  }

  /** The same columns as exact integers. */
  function ExactColumns(h: Limbs, r: Limbs): Limbs {
    Limbs(
      Dot(h, r.l0, 5 * r.l4, 5 * r.l3, 5 * r.l2, 5 * r.l1),
      Dot(h, r.l1, r.l0, 5 * r.l4, 5 * r.l3, 5 * r.l2),
      Dot(h, r.l2, r.l1, r.l0, 5 * r.l4, 5 * r.l3),
      Dot(h, r.l3, r.l2, r.l1, r.l0, 5 * r.l4),
      Dot(h, r.l4, r.l3, r.l2, r.l1, r.l0))
  }

  predicate ColumnBounds(d: Limbs) {
    && d.l0 < 0x378_0000_0000_0000 && d.l1 < 0x378_0000_0000_0000 && d.l2 < 0x378_0000_0000_0000
    && d.l3 < 0x378_0000_0000_0000 && d.l4 < 0x7c_0000_0000_0000
  }

  lemma DotBound(h: Limbs, b0: nat, b1: nat, b2: nat, b3: nat, b4: nat, m0: nat, m1: nat, m2: nat, m3: nat, m4: nat)
    requires SumBounds(h) && b0 <= m0 && b1 <= m1 && b2 <= m2 && b3 <= m3 && b4 <= m4
    ensures Dot(h, b0, b1, b2, b3, b4)
         <= 0x8000000 * m0 + 0x8000040 * m1 + 0x8000000 * m2 + 0x8000000 * m3 + 0x6000000 * m4
  {
    MulMono(h.l0, 0x8000000, b0, m0);
    MulMono(h.l1, 0x8000040, b1, m1);
    MulMono(h.l2, 0x8000000, b2, m2);
    MulMono(h.l3, 0x8000000, b3, m3);
    MulMono(h.l4, 0x6000000, b4, m4);
  }

  /** No column wraps in 64 bits, and no s = 5 * r wraps in 32 bits. */
  lemma ColumnsExact(h: Limbs, r: Limbs)
    requires SumBounds(h) && ClampedLimbs(r)
    ensures Columns(h, r) == ExactColumns(h, r) && ColumnBounds(Columns(h, r))
  {
    hide Dot, SumBounds;
    var m := 0x14000000;
    DotBound(h, r.l0, 5 * r.l4, 5 * r.l3, 5 * r.l2, 5 * r.l1, m, m, m, m, m);
    DotBound(h, r.l1, r.l0, 5 * r.l4, 5 * r.l3, 5 * r.l2, m, m, m, m, m);
    DotBound(h, r.l2, r.l1, r.l0, 5 * r.l4, 5 * r.l3, m, m, m, m, m);
    DotBound(h, r.l3, r.l2, r.l1, r.l0, 5 * r.l4, m, m, m, m, m);
    DotBound(h, r.l4, r.l3, r.l2, r.l1, r.l0, 0xfffff, 0x3f03fff, 0x3ffc0ff, 0x3ffff03, 0x3ffffff);
  }

  /** The multiple of P by which the columns fall short of the true product. */
  function Wrapped(h: Limbs, r: Limbs): nat {
    Mul(h.l1, r.l4) + Mul(h.l2, r.l3) + Mul(h.l3, r.l2) + Mul(h.l4, r.l1)
    + 0x4000000 * (Mul(h.l2, r.l4) + Mul(h.l3, r.l3) + Mul(h.l4, r.l2))
    + 0x10_0000_0000_0000 * (Mul(h.l3, r.l4) + Mul(h.l4, r.l3))
    + 0x4000_0000_0000_0000_0000 * Mul(h.l4, r.l4)
  }

  lemma TimesLimbs(a: nat, r: Limbs)
    ensures a * Val(r)
         == Mul(a, r.l0) + 0x4000000 * Mul(a, r.l1) + 0x10_0000_0000_0000 * Mul(a, r.l2)
            + 0x4000_0000_0000_0000_0000 * Mul(a, r.l3) + 0x100_0000_0000_0000_0000_0000_0000 * Mul(a, r.l4)
  {
  }

  lemma LimbsTimes(h: Limbs, v: nat)
    ensures Val(h) * v
         == h.l0 * v + 0x4000000 * (h.l1 * v) + 0x10_0000_0000_0000 * (h.l2 * v)
            + 0x4000_0000_0000_0000_0000 * (h.l3 * v) + 0x100_0000_0000_0000_0000_0000_0000 * (h.l4 * v)
  {
  }

  lemma FiveTimes(a: nat, b: nat)
    ensures Mul(a, 5 * b) == 5 * Mul(a, b)
  {
  }

  /** The columns are congruent to the product: 2^130 wraps around to 5. */
  lemma ColumnsProduct(h: Limbs, r: Limbs)
    ensures Val(h) * Val(r) == Val(ExactColumns(h, r)) + 0x3_ffffffff_ffffffff_ffffffff_fffffffb * Wrapped(h, r)
  {
    LimbsTimes(h, Val(r));
    TimesLimbs(h.l0, r);
    TimesLimbs(h.l1, r);
    TimesLimbs(h.l2, r);
    TimesLimbs(h.l3, r);
    TimesLimbs(h.l4, r);
    FiveTimes(h.l1, r.l4); FiveTimes(h.l2, r.l3); FiveTimes(h.l3, r.l2); FiveTimes(h.l4, r.l1);
    FiveTimes(h.l2, r.l4); FiveTimes(h.l3, r.l3); FiveTimes(h.l4, r.l2);
    FiveTimes(h.l3, r.l4); FiveTimes(h.l4, r.l3); FiveTimes(h.l4, r.l4);
  }

  /** x >> 26 and x & 0x3ffffff. */
  function Hi26(x: nat): nat { x / 0x4000000 }

  function Lo26(x: nat): nat { x % 0x4000000 }

  /** (partial) h %= p, first half: each column takes the carry of the one below it. */
  function CarrySums(d: Limbs): Limbs {
    var d1 := W64(d.l1 + W32(Hi26(d.l0)));
    var d2 := W64(d.l2 + W32(Hi26(d1)));
    var d3 := W64(d.l3 + W32(Hi26(d2)));
    Limbs(d.l0, d1, d2, d3, W64(d.l4 + W32(Hi26(d3))))
  }

  /** (partial) h %= p, second half: keep 26 bits of each sum; the top carry re-enters at the bottom
      times 5, and its own carry is left pending in the second limb. */
  function CarryFold(d: Limbs): Limbs {
    var h0 := W32(Lo26(W32(d.l0)) + W32(W32(Hi26(d.l4)) * 5));
    Limbs(Lo26(h0), W32(Lo26(W32(d.l1)) + Hi26(h0)), Lo26(W32(d.l2)), Lo26(W32(d.l3)), Lo26(W32(d.l4)))
  }

  /** The same sums as exact integers. */
  function ExactSums(d: Limbs): Limbs {
    var d1 := d.l1 + Hi26(d.l0);
    var d2 := d.l2 + Hi26(d1);
    var d3 := d.l3 + Hi26(d2);
    Limbs(d.l0, d1, d2, d3, d.l4 + Hi26(d3))
  }

  lemma Split26(x: nat)
    ensures x == 0x4000000 * Hi26(x) + Lo26(x) && Lo26(W32(x)) == Lo26(x) && Lo26(x) < 0x4000000
  {
  }

  lemma CarryStep(x: nat, y: nat)
    requires x < 0x3f0_0000_0000_0000 && y < 0x378_0000_0000_0000
    ensures W64(y + W32(Hi26(x))) == y + Hi26(x) < y + 0x1_0000_0000
  {
    assert Hi26(x) < 0x1_0000_0000;
  }

  /** No carry of the chain is cut off by its type. */
  lemma SumsExact(d: Limbs)
    requires ColumnBounds(d)
    ensures CarrySums(d) == ExactSums(d) && ExactSums(d).l4 < 0x7e_0000_0000_0000
  {
    CarryStep(d.l0, d.l1);
    var d1 := d.l1 + Hi26(d.l0);
    CarryStep(d1, d.l2);
    var d2 := d.l2 + Hi26(d1);
    CarryStep(d2, d.l3);
    var d3 := d.l3 + Hi26(d2);
    CarryStep(d3, d.l4);
  }

  /** The fold as exact integers; the last carry into the second limb is below 2^6. */
  lemma FoldExact(e: Limbs, h0: nat)
    requires e.l4 < 0x7e_0000_0000_0000 && h0 == Lo26(e.l0) + 5 * Hi26(e.l4)
    ensures CarryFold(e) == Limbs(Lo26(h0), Lo26(e.l1) + Hi26(h0), Lo26(e.l2), Lo26(e.l3), Lo26(e.l4))
    ensures LoopBounds(CarryFold(e))
  {
    HiBound(e.l4, 0x1f800000);
    Fits32(Hi26(e.l4));
    Fits32(Hi26(e.l4) * 5);
    Split26(e.l0); Split26(e.l1); Split26(e.l2); Split26(e.l3); Split26(e.l4); Split26(h0);
    Fits32(h0);
    HiBound(h0, 0x40);
    Fits32(Lo26(e.l1) + Hi26(h0));
  }

  lemma HiBound(x: nat, n: nat)
    requires x < 0x4000000 * n
    ensures Hi26(x) < n
  {
  }

  lemma Fits32(x: nat)
    requires x < 0x1_0000_0000
    ensures W32(x) == x
  {
  }

  /** The fold keeps the residue of the chained columns. */
  lemma FoldKeepsResidue(d: Limbs)
    requires ExactSums(d).l4 < 0x7e_0000_0000_0000
    ensures Val(d) == Val(CarryFold(ExactSums(d))) + 0x3_ffffffff_ffffffff_ffffffff_fffffffb * Hi26(ExactSums(d).l4)
    ensures LoopBounds(CarryFold(ExactSums(d)))
  {
    var e := ExactSums(d);
    var h0 := Lo26(e.l0) + 5 * Hi26(e.l4);
    FoldExact(e, h0);
    FoldValue(d, e, h0, CarryFold(e));
  }

  lemma FoldValue(d: Limbs, e: Limbs, h0: nat, f: Limbs)
    requires e.l0 == d.l0 && e.l1 == d.l1 + Hi26(e.l0) && e.l2 == d.l2 + Hi26(e.l1)
    requires e.l3 == d.l3 + Hi26(e.l2) && e.l4 == d.l4 + Hi26(e.l3)
    requires h0 == Lo26(e.l0) + 5 * Hi26(e.l4)
    requires f == Limbs(Lo26(h0), Lo26(e.l1) + Hi26(h0), Lo26(e.l2), Lo26(e.l3), Lo26(e.l4))
    ensures Val(d) == Val(f) + 0x3_ffffffff_ffffffff_ffffffff_fffffffb * Hi26(e.l4)
  {
    Split26(e.l0); Split26(e.l1); Split26(e.l2); Split26(e.l3); Split26(e.l4); Split26(h0);
  }

  /** One whole pass: same residue, loop bounds restored, nothing cut off. */
  lemma CarryPass(d: Limbs)
    requires ColumnBounds(d)
    ensures ModP(Val(CarryFold(CarrySums(d)))) == ModP(Val(d))
    ensures LoopBounds(CarryFold(CarrySums(d)))
  {
    SumsExact(d);
    FoldKeepsResidue(d);
    ModFromMultiple(Val(d), Val(CarryFold(ExactSums(d))), 0x3_ffffffff_ffffffff_ffffffff_fffffffb,
                    Hi26(ExactSums(d).l4));
  }

  /** One turn of the block loop after the message limbs were added: multiply and carry. */
  function MulReduce(h: Limbs, r: Limbs): Limbs {
    CarryFold(CarrySums(Columns(h, r)))
  }

  lemma MulReduceCorrect(h: Limbs, r: Limbs)
    requires SumBounds(h) && ClampedLimbs(r)
    ensures ModP(Val(MulReduce(h, r))) == ModP(Val(h) * Val(r))
    ensures LoopBounds(MulReduce(h, r))
  {
    ColumnsExact(h, r);
    ColumnsProduct(h, r);
    CarryPass(Columns(h, r));
    ModFromMultiple(Val(h) * Val(r), Val(Columns(h, r)), 0x3_ffffffff_ffffffff_ffffffff_fffffffb, Wrapped(h, r));
  }

  /** The 26-bit limbs of sixteen bytes at offset i, with the marker bit of a full block or none. */
  function BlockLimbs(p: Bytes, i: nat, hibit: nat): Limbs
    requires i + 16 <= |p|
  {
    Limbs(U8To32(p, i) % 0x4000000,
          U8To32(p, i + 3) / 4 % 0x4000000,
          U8To32(p, i + 6) / 16 % 0x4000000,
          U8To32(p, i + 9) / 64 % 0x4000000,
          Or(U8To32(p, i + 12) / 256, hibit))
  }

  /** Regrouping 32-bit words into 26-bit limbs loses nothing. */
  lemma BlockLimbsValue(p: Bytes, i: nat, hibit: nat)
    requires i + 16 <= |p| && (hibit == 0 || hibit == 0x1000000)
    ensures Val(BlockLimbs(p, i, hibit)) == LE(p[i..i + 16]) + 0x100_0000_0000_0000_0000_0000_0000 * hibit
    ensures var t := BlockLimbs(p, i, hibit);
            t.l0 < 0x4000000 && t.l1 < 0x4000000 && t.l2 < 0x4000000 && t.l3 < 0x4000000 && t.l4 < 0x2000000
  {
    hide Or, LE, At;
    LE16(p, i);
    MarkerBit(U8To32(p, i + 12) / 256, hibit);
    SplitByte(At(p, i + 3), 4); SplitByte(At(p, i + 6), 16); SplitByte(At(p, i + 9), 64);
    Limb0(p, i); Limb1(p, i); Limb2(p, i); Limb3(p, i); Limb4(p, i);
  }

  lemma MarkerBit(x: nat, hibit: nat)
    requires x < 0x1000000 && (hibit == 0 || hibit == 0x1000000)
    ensures Or(x, hibit) == x + hibit
  {
    Pow2Values();
    OrDisjoint(x, if hibit == 0 then 0 else 1, 24);
    OrZero(x);
  }

  lemma SplitByte(x: nat, k: nat)
    requires k == 4 || k == 16 || k == 64
    ensures x == x % k + k * (x / k)
  {
  }

  lemma Limb0(p: Bytes, i: nat)
    requires i + 16 <= |p|
    ensures U8To32(p, i) % 0x4000000
         == At(p, i) + 0x100 * At(p, i + 1) + 0x10000 * At(p, i + 2) + 0x1000000 * (At(p, i + 3) % 4)
  {
  }

  lemma Limb1(p: Bytes, i: nat)
    requires i + 16 <= |p|
    ensures U8To32(p, i + 3) / 4 % 0x4000000
         == At(p, i + 3) / 4 + 0x40 * At(p, i + 4) + 0x4000 * At(p, i + 5) + 0x400000 * (At(p, i + 6) % 16)
  {
  }

  lemma Limb2(p: Bytes, i: nat)
    requires i + 16 <= |p|
    ensures U8To32(p, i + 6) / 16 % 0x4000000
         == At(p, i + 6) / 16 + 0x10 * At(p, i + 7) + 0x1000 * At(p, i + 8) + 0x100000 * (At(p, i + 9) % 64)
  {
  }

  lemma Limb3(p: Bytes, i: nat)
    requires i + 16 <= |p|
    ensures U8To32(p, i + 9) / 64 % 0x4000000
         == At(p, i + 9) / 64 + 0x4 * At(p, i + 10) + 0x400 * At(p, i + 11) + 0x40000 * At(p, i + 12)
  {
  }

  lemma Limb4(p: Bytes, i: nat)
    requires i + 16 <= |p|
    ensures U8To32(p, i + 12) / 256 == At(p, i + 13) + 0x100 * At(p, i + 14) + 0x10000 * At(p, i + 15)
  {
  }

  /** h += m[i], limb by limb in 32 bits. */
  function AddLimbs(h: Limbs, t: Limbs): Limbs {
    Limbs(W32(h.l0 + t.l0), W32(h.l1 + t.l1), W32(h.l2 + t.l2), W32(h.l3 + t.l3), W32(h.l4 + t.l4))
  }

  lemma AddLimbsExact(h: Limbs, t: Limbs)
    requires LoopBounds(h)
    requires t.l0 < 0x4000000 && t.l1 < 0x4000000 && t.l2 < 0x4000000 && t.l3 < 0x4000000 && t.l4 < 0x2000000
    ensures SumBounds(AddLimbs(h, t)) && Val(AddLimbs(h, t)) == Val(h) + Val(t)
  {
    Fits32(h.l0 + t.l0); Fits32(h.l1 + t.l1); Fits32(h.l2 + t.l2); Fits32(h.l3 + t.l3); Fits32(h.l4 + t.l4);
  }

  /** The clamped multiplier as poly1305_init loads it. */
  function LoadR(key: Bytes): Limbs
    requires |key| == 32
  {
    Limbs(And(U8To32(key, 0), 0x3ffffff),
          And(U8To32(key, 3) / 4, 0x3ffff03),
          And(U8To32(key, 6) / 16, 0x3ffc0ff),
          And(U8To32(key, 9) / 64, 0x3f03fff),
          And(U8To32(key, 12) / 256, 0x00fffff))
  }

  /** The five masks are the 26-bit limbs of the mask of section 2.5, so clamping limb by limb is
      clamping the whole number. */
  lemma LoadRIsClamped(key: Bytes)
    requires |key| == 32
    ensures Val(LoadR(key)) == ClampedR(key) && ClampedLimbs(LoadR(key))
  {
    var t, m := BlockLimbs(key, 0, 0), Limbs(0x3ffffff, 0x3ffff03, 0x3ffc0ff, 0x3f03fff, 0x00fffff);
    BlockLimbsValue(key, 0, 0);
    AndLimbs(t, m);
    assert LoadR(key) == Limbs(And(t.l0, m.l0), And(t.l1, m.l1), And(t.l2, m.l2), And(t.l3, m.l3), And(t.l4, m.l4)) by {
      hide And, U8To32;
      LoadRLimbs(key);
    }
    assert Val(m) == 0x0ffffffc_0ffffffc_0ffffffc_0fffffff;
    assert Val(LoadR(key)) == ClampedR(key) by {
      hide And, LE, U8To32, LoadR, BlockLimbs;
      assert key[..16] == key[0..16];
    }
    LoadRBounds(key);
  }

  lemma LoadRBounds(key: Bytes)
    requires |key| == 32
    ensures ClampedLimbs(LoadR(key))
  {
    hide And, U8To32;
    AndBound(U8To32(key, 0), 0x3ffffff);
    AndBound(U8To32(key, 3) / 4, 0x3ffff03);
    AndBound(U8To32(key, 6) / 16, 0x3ffc0ff);
    AndBound(U8To32(key, 9) / 64, 0x3f03fff);
    AndBound(U8To32(key, 12) / 256, 0x00fffff);
  }

  /** The bits a shift brings in above a mask do not matter. */
  lemma LoadRLimbs(key: Bytes)
    requires |key| == 32
    ensures var t := BlockLimbs(key, 0, 0);
            LoadR(key) == Limbs(And(t.l0, 0x3ffffff), And(t.l1, 0x3ffff03), And(t.l2, 0x3ffc0ff),
                                And(t.l3, 0x3f03fff), And(t.l4, 0x00fffff))
  {
    hide And, U8To32, Or, Pow2;
    OrZero(U8To32(key, 12) / 256);
    Pow2Values();
    AndLow(U8To32(key, 0), 0x3ffffff, 26);
    AndLow(U8To32(key, 3) / 4, 0x3ffff03, 26);
    AndLow(U8To32(key, 6) / 16, 0x3ffc0ff, 26);
    AndLow(U8To32(key, 9) / 64, 0x3f03fff, 26);
  }

  /** And of two numbers given by 26-bit limbs, limb by limb. */
  lemma AndLimbs(x: Limbs, y: Limbs)
    requires x.l0 < 0x4000000 && x.l1 < 0x4000000 && x.l2 < 0x4000000 && x.l3 < 0x4000000
    requires y.l0 < 0x4000000 && y.l1 < 0x4000000 && y.l2 < 0x4000000 && y.l3 < 0x4000000
    ensures And(Val(x), Val(y))
         == Val(Limbs(And(x.l0, y.l0), And(x.l1, y.l1), And(x.l2, y.l2), And(x.l3, y.l3), And(x.l4, y.l4)))
  {
    hide And;
    var x3, y3 := x.l3 + 0x4000000 * x.l4, y.l3 + 0x4000000 * y.l4;
    var x2, y2 := x.l2 + 0x4000000 * x3, y.l2 + 0x4000000 * y3;
    var x1, y1 := x.l1 + 0x4000000 * x2, y.l1 + 0x4000000 * y2;
    AndLimb(x.l3, x.l4, y.l3, y.l4);
    AndLimb(x.l2, x3, y.l2, y3);
    AndLimb(x.l1, x2, y.l1, y2);
    AndLimb(x.l0, x1, y.l0, y1);
    assert Val(x) == x.l0 + 0x4000000 * x1 && Val(y) == y.l0 + 0x4000000 * y1;
  }

  lemma AndLimb(a: nat, x: nat, b: nat, y: nat)
    requires a < 0x4000000 && b < 0x4000000
    ensures And(a + 0x4000000 * x, b + 0x4000000 * y) == And(a, b) + 0x4000000 * And(x, y)
  {
    var u, v := a + 0x4000000 * x, b + 0x4000000 * y;
    assert Shr(u, 26) == x && Low(u, 26) == a by { Shift26(a, x); }
    assert Shr(v, 26) == y && Low(v, 26) == b by { Shift26(b, y); }
    assert Pow2(26) == 0x4000000 by { Pow2Values(); }
    AndSplit(u, v, 26);
  }

  lemma Shift26(a: nat, x: nat)
    requires a < 0x4000000
    ensures Shr(a + 0x4000000 * x, 26) == x && Low(a + 0x4000000 * x, 26) == a
  {
    Pow2Values();
    ShrLow(a + 0x4000000 * x, 26);
  }
}
