/** poly1305_finish: the full carry, the constant-time subtraction of 2^130 - 5, and the 128-bit sum
    with the pad. */
module Poly1305Final {
  import opened Arith
  import opened Bits
  import opened Bytes
  import opened Poly1305Spec
  import opened Poly1305Limbs

  predicate Full26(h: Limbs) {
    h.l0 < 0x4000000 && h.l1 < 0x4000000 && h.l2 < 0x4000000 && h.l3 < 0x4000000 && h.l4 < 0x4000000
  }

  /** Fully carry h: one pass that starts at the second limb. */
  function FullCarry(h: Limbs): Limbs {
    var h2 := W32(h.l2 + Hi26(h.l1));
    var h3 := W32(h.l3 + Hi26(h2));
    var h4 := W32(h.l4 + Hi26(h3));
    var h0 := W32(h.l0 + W32(Hi26(h4) * 5));
    Limbs(Lo26(h0), W32(Lo26(h.l1) + Hi26(h0)), Lo26(h2), Lo26(h3), Lo26(h4))
  }

  /** A single pass suffices: if the second limb overflowed 26 bits, what it keeps is below 2^6, so
      the carry that comes round again cannot overflow it; if it did not, nothing is carried. */
  lemma FullCarryCorrect(h: Limbs)
    requires LoopBounds(h)
    ensures Full26(FullCarry(h)) && ModP(Val(FullCarry(h))) == ModP(Val(h))
  {
    hide Hi26, Lo26, W32;
    var h2 := h.l2 + Hi26(h.l1);
    CarryOne(h.l2, h.l1);
    var h3 := h.l3 + Hi26(h2);
    CarryOne(h.l3, h2);
    var h4 := h.l4 + Hi26(h3);
    CarryOne(h.l4, h3);
    var h0 := h.l0 + 5 * Hi26(h4);
    Split26(h.l1); Split26(h2); Split26(h3); Split26(h4); Split26(h0);
    CarryTop(h.l0, h4, Lo26(h.l1));
    var f := FullCarry(h);
    assert f == Limbs(Lo26(h0), Lo26(h.l1) + Hi26(h0), Lo26(h2), Lo26(h3), Lo26(h4));
    assert f.l1 < 0x4000000;
    assert Val(h) == Val(f) + 0x3_ffffffff_ffffffff_ffffffff_fffffffb * Hi26(h4);
    ModFromMultiple(Val(h), Val(f), 0x3_ffffffff_ffffffff_ffffffff_fffffffb, Hi26(h4));
  }

  lemma CarryTop(x: nat, top: nat, y: nat)
    requires x < 0x4000000 && top < 0x8000000 && y < 0x4000000
    ensures W32(x + W32(Hi26(top) * 5)) == x + 5 * Hi26(top) && Hi26(top) <= 1
    ensures top < 0x4000000 ==> Hi26(top) == 0
    ensures Hi26(x + 5 * Hi26(top)) <= 1 && (Hi26(top) == 0 ==> Hi26(x) == 0)
    ensures W32(y + Hi26(x + 5 * Hi26(top))) == y + Hi26(x + 5 * Hi26(top))
  {
    HiBound(top, 2);
    HiBound(x + 5 * Hi26(top), 2);
  }

  /** At most one unit is carried, and only out of a limb that was carried into or overflowed. */
  lemma CarryOne(x: nat, below: nat)
    requires x < 0x4000000 && below < 0x8000000
    ensures W32(x + Hi26(below)) == x + Hi26(below) && Hi26(below) <= 1
    ensures below < 0x4000000 ==> Hi26(below) == 0
  {
    HiBound(below, 2);
    Fits32(x + Hi26(below));
  }

  /** Compute h + -p: h + 5 with the carry out of the top limb taken against 2^26, wrapping in 32 bits. */
  function MinusP(h: Limbs): Limbs {
    var g0 := W32(h.l0 + 5);
    var g1 := W32(h.l1 + Hi26(g0));
    var g2 := W32(h.l2 + Hi26(g1));
    var g3 := W32(h.l3 + Hi26(g2));
    Limbs(Lo26(g0), Lo26(g1), Lo26(g2), Lo26(g3), W32(h.l4 + Hi26(g3) + 0x1_0000_0000 - 0x4000000))
  }

  lemma MinusPCorrect(h: Limbs)
    requires Full26(h)
    ensures Val(h) >= 0x3_ffffffff_ffffffff_ffffffff_fffffffb ==>
              Full26(MinusP(h)) && Val(MinusP(h)) == Val(h) - 0x3_ffffffff_ffffffff_ffffffff_fffffffb
    ensures Val(h) < 0x3_ffffffff_ffffffff_ffffffff_fffffffb ==> 0x8000_0000 <= MinusP(h).l4 < 0x1_0000_0000
    ensures MinusP(h).l0 < 0x4000000 && MinusP(h).l1 < 0x4000000 && MinusP(h).l2 < 0x4000000 && MinusP(h).l3 < 0x4000000
  {
    hide Hi26, Lo26, Val;
    var g0 := h.l0 + 5;
    var g1 := h.l1 + Hi26(g0);
    CarryOne(h.l1, g0);
    var g2 := h.l2 + Hi26(g1);
    CarryOne(h.l2, g1);
    var g3 := h.l3 + Hi26(g2);
    CarryOne(h.l3, g2);
    var g4 := h.l4 + Hi26(g3);
    CarryOne(h.l4, g3);
    Fits32(g0);
    assert MinusP(h) == Limbs(Lo26(g0), Lo26(g1), Lo26(g2), Lo26(g3), W32(g4 + 0x1_0000_0000 - 0x4000000));
    MinusPValue(h, g0, g1, g2, g3, g4);
    Split26(g0); Split26(g1); Split26(g2); Split26(g3);
    if g4 >= 0x4000000 {
      assert MinusP(h).l4 == 0;
      TopLimb(Limbs(Lo26(g0), Lo26(g1), Lo26(g2), Lo26(g3), g4));
    } else {
      assert MinusP(h).l4 == g4 + 0xfc00_0000;
    }
  }

  lemma TopLimb(g: Limbs)
    requires g.l4 >= 0x4000000
    ensures Val(g) == Val(g.(l4 := g.l4 - 0x4000000)) + 0x4_00000000_00000000_00000000_00000000
  {
  }

  lemma MinusPValue(h: Limbs, g0: nat, g1: nat, g2: nat, g3: nat, g4: nat)
    requires g0 == h.l0 + 5 && g1 == h.l1 + Hi26(g0) && g2 == h.l2 + Hi26(g1)
    requires g3 == h.l3 + Hi26(g2) && g4 == h.l4 + Hi26(g3)
    ensures Val(h) + 5 == Val(Limbs(Lo26(g0), Lo26(g1), Lo26(g2), Lo26(g3), g4))
    ensures Val(h) >= 0x3_ffffffff_ffffffff_ffffffff_fffffffb <==> g4 >= 0x4000000
  {
    Split26(g0); Split26(g1); Split26(g2); Split26(g3);
  }

  /** All ones if the top bit of g4 is clear, zero otherwise. */
  function Mask(g4: nat): nat
    requires g4 < 0x1_0000_0000
  {
    W32(g4 / 0x8000_0000 + 0xffff_ffff)
  }

  function SelectLimb(x: nat, y: nat, mask: nat): nat
    requires mask < 0x1_0000_0000
  {
    Or(And(x, 0xffff_ffff - mask), And(y, mask))
  }

  lemma SelectLimbPicks(x: nat, y: nat, mask: nat)
    requires x < 0x1_0000_0000 && y < 0x1_0000_0000 && (mask == 0 || mask == 0xffff_ffff)
    ensures SelectLimb(x, y, mask) == if mask == 0 then x else y
  {
    hide And, Or;
    AndWord(x);
    AndWord(y);
    OrZero(x);
    OrZero(y);
  }

  lemma AndWord(x: nat)
    requires x < 0x1_0000_0000
    ensures And(x, 0xffff_ffff) == x && And(x, 0) == 0
  {
    assert And(x, 0) == 0;
    hide And, Pow2;
    AndOnes(x, 32);
    Pow2Values();
  }

  /** The masked choice between the limbs and the trial difference. */
  function Reduce(h: Limbs): Limbs
    requires Full26(h)
  {
    var g := MinusP(h);
    var mask := Mask(g.l4);
    Limbs(SelectLimb(h.l0, g.l0, mask), SelectLimb(h.l1, g.l1, mask), SelectLimb(h.l2, g.l2, mask),
          SelectLimb(h.l3, g.l3, mask), SelectLimb(h.l4, g.l4, mask))
  }

  lemma ReducePicks(h: Limbs, g: Limbs)
    requires Full26(h) && g == MinusP(h) && g.l4 < 0x1_0000_0000
    requires g.l4 < 0x8000_0000 ==> Full26(g)
    requires g.l0 < 0x1_0000_0000 && g.l1 < 0x1_0000_0000 && g.l2 < 0x1_0000_0000 && g.l3 < 0x1_0000_0000
    ensures Reduce(h) == if g.l4 < 0x8000_0000 then g else h
  {
    hide MinusP, SelectLimb;
    var mask := Mask(g.l4);
    assert mask == if g.l4 < 0x8000_0000 then 0xffff_ffff else 0;
    SelectLimbPicks(h.l0, g.l0, mask);
    SelectLimbPicks(h.l1, g.l1, mask);
    SelectLimbPicks(h.l2, g.l2, mask);
    SelectLimbPicks(h.l3, g.l3, mask);
    SelectLimbPicks(h.l4, g.l4, mask);
  }

  /** The branch-free subtraction leaves the least residue. */
  lemma ReduceCorrect(h: Limbs)
    requires Full26(h)
    ensures Full26(Reduce(h)) && Val(Reduce(h)) == ModP(Val(h))
  {
    assert Val(h) < 2 * 0x3_ffffffff_ffffffff_ffffffff_fffffffb;
    hide Reduce, MinusP, Val, ModP;
    MinusPCorrect(h);
    ReducePicks(h, MinusP(h));
    ModPOnce(Val(h));
  }

  lemma ModPOnce(v: nat)
    requires v < 2 * 0x3_ffffffff_ffffffff_ffffffff_fffffffb
    ensures ModP(v) == if v < 0x3_ffffffff_ffffffff_ffffffff_fffffffb then v
                       else v - 0x3_ffffffff_ffffffff_ffffffff_fffffffb
  {
  }

  datatype Words = Words(w0: nat, w1: nat, w2: nat, w3: nat)

  function WordsValue(w: Words): nat {
    w.w0 + 0x1_0000_0000 * w.w1 + 0x1_0000_0000_0000_0000 * w.w2 + 0x1_0000_0000_0000_0000_0000_0000 * w.w3
  }

  /** h = h % (2^128), as four 32-bit words. */
  function Pack(h: Limbs): Words {
    Words(W32(Or(h.l0, W32(h.l1 * 0x4000000))),
          W32(Or(h.l1 / 0x40, W32(h.l2 * 0x100000))),
          W32(Or(h.l2 / 0x1000, W32(h.l3 * 0x4000))),
          W32(Or(h.l3 / 0x40000, W32(h.l4 * 0x100))))
  }

  predicate Words32(w: Words) {
    w.w0 < 0x1_0000_0000 && w.w1 < 0x1_0000_0000 && w.w2 < 0x1_0000_0000 && w.w3 < 0x1_0000_0000
  }

  lemma PackCorrect(h: Limbs)
    requires Full26(h)
    ensures Words32(Pack(h)) && WordsValue(Pack(h)) == Mod128(Val(h))
  {
    PackWord0(h.l0, h.l1);
    PackWord1(h.l1 / 0x40, h.l2);
    PackWord2(h.l2 / 0x1000, h.l3);
    PackWord3(h.l3 / 0x40000, h.l4);
    var w := Pack(h);
    assert h.l1 == h.l1 % 0x40 + 0x40 * (h.l1 / 0x40);
    assert h.l2 == h.l2 % 0x1000 + 0x1000 * (h.l2 / 0x1000);
    assert h.l3 == h.l3 % 0x40000 + 0x40000 * (h.l3 / 0x40000);
    assert h.l4 == h.l4 % 0x1000000 + 0x1000000 * (h.l4 / 0x1000000);
    Mod128Is(Val(h), h.l4 / 0x1000000, WordsValue(w));
  }

  lemma W32Is(x: nat, q: nat, r: nat)
    requires x == 0x1_0000_0000 * q + r && r < 0x1_0000_0000
    ensures W32(x) == r
  {
  }

  /** Or of a low field and a shifted one is their sum. */
  lemma PackOr(x: nat, y: nat, k: nat, m: nat)
    requires m == Pow2(k) && x < m && x + m * y < 0x1_0000_0000
    ensures W32(Or(x, m * y)) == x + m * y
  {
    hide Or, Pow2;
    OrDisjoint(x, y, k);
    W32Is(x + m * y, 0, x + m * y);
  }

  lemma PackWord0(x: nat, y: nat)
    requires x < 0x4000000
    ensures W32(Or(x, W32(y * 0x4000000))) == x + 0x4000000 * (y % 0x40) < 0x1_0000_0000
  {
    hide Or, Pow2, W32;
    Pow2Values();
    W32Is(y * 0x4000000, y / 0x40, 0x4000000 * (y % 0x40));
    PackOr(x, y % 0x40, 26, 0x4000000);
  }

  lemma PackWord1(x: nat, y: nat)
    requires x < 0x100000
    ensures W32(Or(x, W32(y * 0x100000))) == x + 0x100000 * (y % 0x1000) < 0x1_0000_0000
  {
    hide Or, Pow2, W32;
    Pow2Values();
    W32Is(y * 0x100000, y / 0x1000, 0x100000 * (y % 0x1000));
    PackOr(x, y % 0x1000, 20, 0x100000);
  }

  lemma PackWord2(x: nat, y: nat)
    requires x < 0x4000
    ensures W32(Or(x, W32(y * 0x4000))) == x + 0x4000 * (y % 0x40000) < 0x1_0000_0000
  {
    hide Or, Pow2, W32;
    Pow2Values();
    W32Is(y * 0x4000, y / 0x40000, 0x4000 * (y % 0x40000));
    PackOr(x, y % 0x40000, 14, 0x4000);
  }

  lemma PackWord3(x: nat, y: nat)
    requires x < 0x100
    ensures W32(Or(x, W32(y * 0x100))) == x + 0x100 * (y % 0x1000000) < 0x1_0000_0000
  {
    hide Or, Pow2, W32;
    Pow2Values();
    W32Is(y * 0x100, y / 0x1000000, 0x100 * (y % 0x1000000));
    PackOr(x, y % 0x1000000, 8, 0x100);
  }

  function Hi32(x: nat): nat { x / 0x1_0000_0000 }

  /** mac = (h + pad) % (2^128): four 64-bit sums, each passing its high half on. */
  function AddPad(w: Words, pad: Words): Words {
    var f0 := W64(w.w0 + pad.w0);
    var f1 := W64(w.w1 + pad.w1 + Hi32(f0));
    var f2 := W64(w.w2 + pad.w2 + Hi32(f1));
    var f3 := W64(w.w3 + pad.w3 + Hi32(f2));
    Words(W32(f0), W32(f1), W32(f2), W32(f3))
  }

  lemma AddPadCorrect(w: Words, pad: Words)
    requires Words32(w) && Words32(pad)
    ensures Words32(AddPad(w, pad))
    ensures WordsValue(AddPad(w, pad)) == Mod128(WordsValue(w) + WordsValue(pad))
  {
    hide W32, W64, Hi32, Mod128;
    var f0 := w.w0 + pad.w0;
    SumStep(f0);
    var f1 := w.w1 + pad.w1 + Hi32(f0);
    SumStep(f1);
    var f2 := w.w2 + pad.w2 + Hi32(f1);
    SumStep(f2);
    var f3 := w.w3 + pad.w3 + Hi32(f2);
    SumStep(f3);
    Mod128Is(WordsValue(w) + WordsValue(pad), Hi32(f3), WordsValue(AddPad(w, pad)));
  }

  lemma Mod128Is(x: nat, q: nat, r: nat)
    requires x == 0x1_00000000_00000000_00000000_00000000 * q + r && r < 0x1_00000000_00000000_00000000_00000000
    ensures Mod128(x) == r
  {
  }

  lemma SumStep(f: nat)
    requires f < 0x2_0000_0000
    ensures W64(f) == f == 0x1_0000_0000 * Hi32(f) + W32(f) && W32(f) < 0x1_0000_0000 && Hi32(f) <= 1
  {
  }

  /** The four words of sixteen bytes at offset i. */
  function LoadWords(p: Bytes, i: nat): (w: Words)
    requires i + 16 <= |p|
    ensures Words32(w)
  {
    Words(U8To32(p, i), U8To32(p, i + 4), U8To32(p, i + 8), U8To32(p, i + 12))
  }

  function StoreWords(w: Words): (b: Bytes)
    ensures |b| == 16
  {
    ToLE(w.w0, 4) + (ToLE(w.w1, 4) + (ToLE(w.w2, 4) + ToLE(w.w3, 4)))
  }

  lemma StoreWordsIsLE(w: Words)
    requires Words32(w)
    ensures StoreWords(w) == ToLE(WordsValue(w), 16)
  {
    hide ToLE, LE, Pow2;
    Pow2Values();
    ToLEInverse(w.w0, 4);
    ToLEInverse(w.w1, 4);
    ToLEInverse(w.w2, 4);
    ToLEInverse(w.w3, 4);
    LEFourWords(ToLE(w.w0, 4), ToLE(w.w1, 4), ToLE(w.w2, 4), ToLE(w.w3, 4));
    LEInverse(StoreWords(w));
  }

  /** poly1305_finish from the accumulator limbs to the tag. */
  function Finish(h: Limbs, pad: Words): Bytes
    requires LoopBounds(h)
  {
    FullCarryCorrect(h);
    StoreWords(AddPad(Pack(Reduce(FullCarry(h))), pad))
  }

  lemma FinishCorrect(h: Limbs, pad: Words)
    requires LoopBounds(h) && Words32(pad)
    ensures Finish(h, pad) == ToLE(Mod128(ModP(Val(h)) + WordsValue(pad)), 16)
  {
    hide LoopBounds, Full26, FullCarry, Reduce, Val, ModP, Mod128, StoreWords, AddPad, Pack, WordsValue;
    FullCarryCorrect(h);
    ReduceCorrect(FullCarry(h));
    PadAndStore(Reduce(FullCarry(h)), pad);
  }

  lemma PadAndStore(r: Limbs, pad: Words)
    requires Full26(r) && Words32(pad)
    ensures StoreWords(AddPad(Pack(r), pad)) == ToLE(Mod128(Val(r) + WordsValue(pad)), 16)
  {
    hide *;
    PackCorrect(r);
    AddPadCorrect(Pack(r), pad);
    StoreWordsIsLE(AddPad(Pack(r), pad));
    Mod128Once(Val(r), WordsValue(pad));
  }

  lemma Mod128Once(x: nat, y: nat)
    ensures Mod128(Mod128(x) + y) == Mod128(x + y)
  {
  }
}
