/** x25519: the Montgomery ladder over limb arrays, the inversion chain, and the byte interface. */
module X25519 {
  import opened Bits
  import opened Bytes
  import opened Field25519
  import opened Inverse25519
  import opened Limbs25519
  import opened Twist25519

  /** fe xs[5]: five field elements, no two of them the same array. */
  predicate Scratch(xs: seq<Fe>) {
    && |xs| == 5
    && (forall i :: 0 <= i < 5 ==> xs[i].Length == 8)
    && (forall i, j :: 0 <= i < j < 5 ==> xs[i] != xs[j])
  }

  /** The projective points held in xs[0..4]. */
  ghost function Points(xs: seq<Fe>): Ladder
    requires Scratch(xs)
    reads xs
  {
    Ladder(Fld(xs[0]), Fld(xs[1]), Fld(xs[2]), Fld(xs[3]))
  }

  // ---- condswap ----

  function SwapWord(a: Word, b: Word, doswap: Word): (r: nat) {
    And(Xor(a, b), doswap)
  }

  lemma SwapWordPicks(a: Word, b: Word, doswap: Word)
    requires doswap == 0 || doswap == 0xffff_ffff
    ensures var x := SwapWord(a, b, doswap);
            && Xor(a, x) == (if doswap == 0 then a else b)
            && Xor(b, x) == (if doswap == 0 then b else a)
  {
    hide And, Xor, Pow2;
    if doswap == 0 {
      AndZero(Xor(a, b));
      XorZero(a);
      XorZero(b);
    } else {
      Pow2Values();
      XorBound(a, b, 32);
      AndOnes(Xor(a, b), 32);
      XorCancel(a, b);
      XorComm(a, b);
      XorCancel(b, a);
    }
  }

  lemma {:induction false} XorComm(x: nat, y: nat)
    ensures Xor(x, y) == Xor(y, x)
  {
    if x != 0 && y != 0 {
      XorComm(x / 2, y / 2);
    }
  }

  /** condswap over the sixteen limbs of (x2, z2) and (x3, z3), which lie next to each other. */
  method CondSwap(x2: Fe, z2: Fe, x3: Fe, z3: Fe, doswap: Word)
    requires x2.Length == z2.Length == x3.Length == z3.Length == 8
    requires x2 != z2 && x2 != x3 && x2 != z3 && z2 != x3 && z2 != z3 && x3 != z3
    requires doswap == 0 || doswap == 0xffff_ffff
    modifies x2, z2, x3, z3
    ensures x2[..] == old(if doswap == 0 then x2[..] else x3[..])
    ensures x3[..] == old(if doswap == 0 then x3[..] else x2[..])
    ensures z2[..] == old(if doswap == 0 then z2[..] else z3[..])
    ensures z3[..] == old(if doswap == 0 then z3[..] else z2[..])
  {
    SwapLimbs(x2, x3, doswap);
    SwapLimbs(z2, z3, doswap);
  }

  method SwapLimbs(a: Fe, b: Fe, doswap: Word)
    requires a.Length == b.Length == 8 && a != b
    requires doswap == 0 || doswap == 0xffff_ffff
    modifies a, b
    ensures a[..] == old(if doswap == 0 then a[..] else b[..])
    ensures b[..] == old(if doswap == 0 then b[..] else a[..])
  {
    hide SwapWord, Xor;
    ghost var x, y := a[..], b[..];
    ghost var x', y' := if doswap == 0 then x else y, if doswap == 0 then y else x;
    for i := 0 to 8
      invariant a[..i] == x'[..i] && a[i..] == x[i..]
      invariant b[..i] == y'[..i] && b[i..] == y[i..]
    {
      var xor := SwapWord(a[i], b[i], doswap);
      SwapWordPicks(x[i], y[i], doswap);
      assert a[i] == x[i] && b[i] == y[i];
      a[i], b[i] := Xor(a[i], xor), Xor(b[i], xor);
      assert a[i] == x'[i] && b[i] == y'[i];
    }
    assert a[..8] == a[..] && b[..8] == b[..];
  }

  // ---- one step ----

  /** The point in the middle of a ladder step, where ladder_part1 hands over to ladder_part2. */
  datatype Middle = Middle(e: nat, ez: nat, sum: nat, diff: nat, aa: nat)

  function Half(s: Ladder): Middle {
    var a := FAdd(s.x2, s.z2);
    var aa := FMul(a, a);
    var b := FSub(s.x2, s.z2);
    var bb := FMul(b, b);
    var e := FSub(aa, bb);
    var da := FMul(a, FSub(s.x3, s.z3));
    var cb := FMul(b, FAdd(s.x3, s.z3));
    Middle(e, FAdd(FMul(e, 121665), aa), FAdd(da, cb), FSub(da, cb), aa)
  }

  ghost function MiddleOf(xs: seq<Fe>): Middle
    requires Scratch(xs)
    reads xs
  {
    Middle(Fld(xs[0]), Fld(xs[1]), Fld(xs[2]), Fld(xs[3]), Fld(xs[4]))
  }

  /** ladder_part1 */
  method LadderPart1(xs: seq<Fe>, a24: array<Word>)
    requires Scratch(xs) && Small(xs[1]) && Small(xs[3])
    requires a24.Length == 1 && a24[0] == 121665 && a24 !in xs
    modifies xs
    ensures MiddleOf(xs) == Half(old(Points(xs))) && Small(xs[0])
  {
    hide Red, FAdd, FSub, FMul, Val;
    var x2, z2, x3, z3, t1 := xs[0], xs[1], xs[2], xs[3], xs[4];
    Add(t1, x2, z2);
    Sub(z2, x2, z2);
    Add(x2, x3, z3);
    Sub(z3, x3, z3);
    Mul1(z3, t1);
    Mul1(x2, z2);
    Add(x3, z3, x2);
    Sub(z3, z3, x2);
    Mul1(t1, t1);
    Mul1(z2, z2);
    Sub(x2, t1, z2);
    A24Value(a24);
    MulLimbs(z2, x2, a24, 1);
    Add(z2, z2, t1);
  }

  lemma A24Value(a24: array<Word>)
    requires a24.Length == 1 && a24[0] == 121665
    ensures Red(Val(a24[..1])) == 121665
  {
    assert a24[..1] == [] + [121665];
    ValAppend([], 121665);
    ValEmpty();
  }

  /** ladder_part2 */
  method LadderPart2(xs: seq<Fe>, x1: Fe)
    requires Scratch(xs) && x1.Length == 8 && x1 !in xs && Small(xs[0])
    modifies xs
    ensures var m := old(MiddleOf(xs));
            Points(xs) == Ladder(FMul(m.aa, FSub(m.aa, m.e)), FMul(m.e, m.ez),
                                 FMul(m.sum, m.sum), FMul(Fld(x1), FMul(m.diff, m.diff)))
    ensures Small(xs[1]) && Small(xs[3])
  {
    hide Red, FAdd, FSub, FMul, Val;
    var x2, z2, x3, z3, t1 := xs[0], xs[1], xs[2], xs[3], xs[4];
    Mul1(z3, z3);
    Mul1(z3, x1);
    Mul1(x3, x3);
    Mul1(z2, x2);
    Sub(x2, t1, x2);
    Mul1(x2, t1);
  }

  /** The two halves make the step of RFC 7748: BB is recovered as AA - E. */
  lemma HalvesMakeStep(u: nat, s: Ladder)
    ensures var m := Half(s);
            Step(u, s) == Ladder(FMul(m.aa, FSub(m.aa, m.e)), FMul(m.e, m.ez),
                                 FMul(m.sum, m.sum), FMul(u, FMul(m.diff, m.diff)))
  {
    hide Red, FMul, FSub;
    var a, b := FAdd(s.x2, s.z2), FSub(s.x2, s.z2);
    var aa, bb := FMul(a, a), FMul(b, b);
    FMulComm(a, FSub(s.x3, s.z3));
    FMulComm(b, FAdd(s.x3, s.z3));
    FMulComm(FSub(aa, bb), 121665);
    FSubTwice(aa, bb);
    SquareReduced(b);
  }

  lemma SquareReduced(b: int)
    ensures Red(FMul(b, b)) == FMul(b, b)
  {
    hide Red;
    RedRed(b * b);
  }

  /** ladder_part1 and ladder_part2 in turn: one step of RFC 7748 on the points. */
  method LadderStep(xs: seq<Fe>, x1: Fe, a24: array<Word>)
    requires Scratch(xs) && Small(xs[1]) && Small(xs[3]) && x1.Length == 8 && x1 !in xs
    requires a24.Length == 1 && a24[0] == 121665 && a24 !in xs
    modifies xs
    ensures Points(xs) == Step(Fld(x1), old(Points(xs))) && Small(xs[1]) && Small(xs[3])
  {
    hide Fld, Step, Half, FAdd, FSub, FMul, Small;
    HalvesMakeStep(Fld(x1), Points(xs));
    LadderPart1(xs, a24);
    LadderPart2(xs, x1);
  }

  // ---- the scalar ----

  /** The clamping that the core applies to byte i of the scalar as it goes. */
  function ClampByte(b: byte, i: nat, clamp: bool): byte {
    if !clamp then b
    else if i == 0 then b / 8 * 8
    else if i == 31 then Or(b % 0x80, 0x40) % 0x100
    else b
  }

  function ClampedBytes(scalar: Bytes, clamp: bool): (r: Bytes)
    requires |scalar| == 32
    ensures |r| == 32
  {
    seq(32, i requires 0 <= i < 32 => ClampByte(scalar[i], i, clamp))
  }

  /** decodeScalar25519 of RFC 7748: clear the three low bits and the top bit, set bit 254. */
  function Scalar(scalar: Bytes, clamp: bool): nat
    requires |scalar| == 32
  {
    LE(ClampedBytes(scalar, clamp))
  }

  /** Bit i of a little-endian number is bit i % 8 of byte i / 8. */
  lemma {:induction false} BitOfLE(b: Bytes, i: nat)
    requires i / 8 < |b|
    ensures Bit(LE(b), i) == Bit(b[i / 8], i % 8)
  {
    if i < 8 {
      BitLowByte(b[0], LE(b[1..]), i);
    } else {
      BitHighByte(b[0], LE(b[1..]), i);
      BitOfLE(b[1..], i - 8);
    }
  }

  lemma BitLowByte(x: byte, y: nat, i: nat)
    requires i < 8
    ensures Bit(x + 256 * y, i) == Bit(x, i)
  {
    hide Pow2, Bit;
    Pow2Values();
    BitMod(x + 256 * y, 8, i);
    assert (x + 256 * y) % 256 == x;
  }

  lemma BitHighByte(x: byte, y: nat, i: nat)
    requires i >= 8
    ensures Bit(x + 256 * y, i) == Bit(y, i - 8)
  {
    hide Pow2, Bit, Shr;
    Pow2Values();
    BitShr(x + 256 * y, 8, i - 8);
    ShrLow(x + 256 * y, 8);
    assert (x + 256 * y) / 256 == y;
  }

  /** A clamped scalar has no bit 255. */
  lemma ClampedTopBit(scalar: Bytes)
    requires |scalar| == 32
    ensures !Bit(Scalar(scalar, true), 255)
  {
    var b := ClampedBytes(scalar, true);
    BitOfLE(b, 255);
    var x := scalar[31] % 0x80;
    assert Or(x, 0x40) < 0x80 by { hide Or, Pow2; assert Pow2(7) == 0x80 by { Pow2Seven(); } OrBound(x, 0x40, 7); }
    TopBitClear(b[31]);
  }

  lemma Pow2Seven()
    ensures Pow2(7) == 0x80
  {
    assert Pow2(4) == 16;
  }

  lemma TopBitClear(b: nat)
    requires b < 0x80
    ensures !Bit(b, 7)
  {
    hide Bit, Shr, Pow2;
    Pow2Seven();
    ShrLow(b, 7);
    BitShr(b, 7, 0);
    BitZero(0);
  }

  // ---- the core ----

  /** swapin: 32 bytes as eight limbs. */
  method SwapIn(x: Bytes) returns (fe: Fe)
    requires |x| == 32
    ensures fresh(fe) && fe.Length == 8 && Val(fe[..]) == LE(x)
  {
    hide Val, Weight, LE, U8To32;
    fe := new Word[8](i => 0);
    ValEmpty();
    assert x[0..] == x;
    for i := 0 to 8
      invariant Val(fe[..i]) + Weight(i) * LE(x[4 * i..]) == LE(x)
    {
      ghost var done := fe[..i];
      LEWord(x, 4 * i);
      assert x[4 * i..] == x[4 * i..4 * i + 4] + x[4 * i + 4..];
      LEWordThen(x[4 * i..4 * i + 4], x[4 * i + 4..]);
      fe[i] := U8To32(x, 4 * i);
      assert fe[..i + 1] == done + [fe[i]];
      ValAppend(done, fe[i]);
      NextWeight(i, fe[i], LE(x[4 * i + 4..]));
    }
    assert x[32..] == [] && fe[..8] == fe[..];
    LEEmpty();
  }

  lemma LEEmpty()
    ensures LE([]) == 0
  {
  }

  lemma NextWeight(i: nat, w: int, rest: int)
    ensures Weight(i) * (w + 0x1_0000_0000 * rest) == Weight(i) * w + Weight(i + 1) * rest
  {
    var m := Weight(i);
    assert Weight(i + 1) == 0x1_0000_0000 * m;
    assert m * (w + 0x1_0000_0000 * rest) == m * w + (0x1_0000_0000 * m) * rest;
  }

  /** swapout: eight limbs as 32 bytes. */
  method SwapOut(x: Fe) returns (out: Bytes)
    requires x.Length == 8
    ensures out == ToLE(Val(x[..]), 32)
  {
    hide Val, Weight, LE, ToLE;
    out := [];
    ValEmpty();
    LEEmpty();
    assert x[..0] == [];
    for i := 0 to 8
      invariant |out| == 4 * i && LE(out) == Val(x[..i])
    {
      ValNext(x[..], i);
      assert x[..][..i] == x[..i] && x[..][..i + 1] == x[..i + 1];
      StoreLimb(out, i, x[i]);
      out := out + ToLE(x[i], 4);
    }
    assert x[..8] == x[..];
    LEInverse(out);
  }

  lemma StoreLimb(out: Bytes, i: nat, w: Word)
    requires |out| == 4 * i
    ensures LE(out + ToLE(w, 4)) == LE(out) + Weight(i) * w
  {
    hide LE, ToLE;
    LEConcat(out, ToLE(w, 4));
    Pow2Values();
    ToLEInverse(w, 4);
    WeightIsPow2(i);
  }

  lemma {:induction false} WeightIsPow2(i: nat)
    ensures Weight(i) == Pow2(8 * (4 * i))
  {
    if i > 0 {
      WeightIsPow2(i - 1);
      Pow2Values();
      Pow2Add(32, 8 * (4 * (i - 1)));
    }
  }

  /** The mask 0 or -1 that a scalar bit becomes. */
  function BitMask(b: bool): Word { if b then 0xffff_ffff else 0 }

  lemma BitMaskXor(a: bool, b: bool)
    ensures Xor(BitMask(a), BitMask(b)) == BitMask(a != b)
  {
    XorZero(BitMask(a));
    XorZero(BitMask(b));
    XorSelf(BitMask(a));
  }

  lemma MaskValues()
    ensures BitMask(false) == 0 && BitMask(true) == 0xffff_ffff
  {
  }

  lemma ScalarBit(scalar: Bytes, clamp: bool, i: nat)
    requires |scalar| == 32 && i < 256
    ensures Bit(Scalar(scalar, clamp), i) == Bit(ClampByte(scalar[i / 8], i / 8, clamp), i % 8)
  {
    hide Bit, LE, ClampByte;
    BitOfLE(ClampedBytes(scalar, clamp), i);
  }

  lemma DeferredStart(k: nat, u: nat)
    ensures Deferred(k, u, 256, 256) == Ladder(1, 0, Red(u), 1)
  {
  }

  lemma DeferredNext(k: nat, u: nat, i: nat)
    requires i < 256
    ensures Deferred(k, u, 256, i)
         == Step(Red(u), Swap(Bit(k, i) != (i + 1 < 256 && Bit(k, i + 1)), Deferred(k, u, 256, i + 1)))
  {
    hide Step, Bit, Red;
  }

  /** condswap on the four coordinates */
  method SwapPoints(xs: seq<Fe>, doswap: Word, ghost swapped: bool)
    requires Scratch(xs) && Small(xs[1]) && Small(xs[3]) && doswap == BitMask(swapped)
    modifies xs
    ensures Points(xs) == Swap(swapped, old(Points(xs))) && Small(xs[1]) && Small(xs[3])
  {
    hide Red, Val;
    CondSwap(xs[0], xs[1], xs[2], xs[3], doswap);
  }

  /** x25519_core: the ladder of RFC 7748 over all 256 bits of the scalar, with the swap deferred. */
  method Core(xs: seq<Fe>, scalar: Bytes, x1: Fe, clamp: bool)
    requires Scratch(xs) && |scalar| == 32 && x1.Length == 8 && x1 !in xs
    modifies xs
    ensures Points(xs) == Run(Scalar(scalar, clamp), old(Val(x1[..])), 256, 0)
  {
    hide Red, Step, Bit, LE, Xor, Val, Deferred, Run, Scalar, BitMask, ClampByte, Points, Small, Swap;
    ghost var k, u := Scalar(scalar, clamp), Val(x1[..]);
    Start(xs, x1);
    var a24 := new Word[1][121665];
    var swap: Word := 0;
    MaskValues();
    DeferredStart(k, u);
    var i := 255;
    while i >= 0
      invariant -1 <= i <= 255 && Small(xs[1]) && Small(xs[3]) && Fld(x1) == Red(u)
      invariant a24[0] == 121665
      invariant swap == BitMask(i + 1 < 256 && Bit(k, i + 1))
      invariant Points(xs) == Deferred(k, u, 256, i + 1)
    {
      var bytei := ClampByte(scalar[i / 8], i / 8, clamp);
      ScalarBit(scalar, clamp, i);
      DeferredNext(k, u, i);
      var doswap := BitMask(Bit(bytei, i % 8));
      BitMaskXor(i + 1 < 256 && Bit(k, i + 1), Bit(k, i));
      SwapPoints(xs, Xor(swap, doswap), Bit(k, i) != (i + 1 < 256 && Bit(k, i + 1)));
      swap := doswap;
      LadderStep(xs, x1, a24);
      i := i - 1;
    }
    SwapPoints(xs, swap, Bit(k, 0));
    DeferredIsRun(k, u, 256, 0);
  }

  /** The initial points: (1 : 0) and (x1 : 1). */
  method Start(xs: seq<Fe>, x1: Fe)
    requires Scratch(xs) && x1.Length == 8 && x1 !in xs
    modifies xs
    ensures Points(xs) == Ladder(1, 0, old(Fld(x1)), 1) && Small(xs[1]) && Small(xs[3])
  {
    hide Val, Red, Weight;
    Clear(xs[0]); Clear(xs[1]); Clear(xs[2]); Clear(xs[3]);
    One(xs[0]);
    One(xs[3]);
    Copy(xs[2], x1);
    RedZero();
  }

  lemma RedZero()
    ensures Red(0) == 0
  {
  }

  /** memcpy(dst, src, sizeof(fe)) */
  method Copy(dst: Fe, src: Fe)
    requires dst.Length == src.Length == 8 && dst != src
    modifies dst
    ensures dst[..] == src[..]
  {
    for i := 0 to 8
      invariant dst[..i] == src[..i]
    {
      dst[i] := src[i];
    }
    assert dst[..8] == dst[..] && src[..8] == src[..];
  }

  /** memset(x, 0, sizeof(fe)) */
  method Clear(x: Fe)
    requires x.Length == 8
    modifies x
    ensures (forall i :: 0 <= i < 8 ==> x[i] == 0) && Val(x[..]) == 0
  {
    for i := 0 to 8
      invariant forall k :: 0 <= k < i ==> x[k] == 0
    {
      x[i] := 0;
    }
    ValZeros(x[..]);
  }

  method One(x: Fe)
    requires x.Length == 8 && forall i :: 0 <= i < 8 ==> x[i] == 0
    modifies x
    ensures Val(x[..]) == 1 && Fld(x) == 1
  {
    x[0] := 1;
    assert x[..] == [1] + x[1..];
    ValZeros(x[1..]);
    ValConcat([1], x[1..]);
    ValAppend([], 1);
    ValEmpty();
    assert [] + [1] == [1];
  }

  // ---- the inversion chain ----

  /** steps[13]: square prev n times into xs[a], then multiply by xs[c]. */
  datatype ChainEntry = ChainEntry(a: nat, c: nat, n: nat)

  function Steps(): (s: seq<ChainEntry>)
    ensures |s| == 13
  {
    [ChainEntry(2, 1, 1), ChainEntry(2, 1, 1), ChainEntry(4, 2, 3), ChainEntry(2, 4, 6), ChainEntry(3, 1, 1),
     ChainEntry(3, 2, 12), ChainEntry(4, 3, 25), ChainEntry(2, 3, 25), ChainEntry(2, 4, 50), ChainEntry(3, 2, 125),
     ChainEntry(3, 1, 2), ChainEntry(3, 1, 2), ChainEntry(3, 1, 1)]
  }

  /** Which array holds the last product before entry i. */
  function PrevIndex(i: nat): nat
    requires i <= 13
  {
    if i == 0 then 1 else Steps()[i - 1].a
  }

  /** The powers of z that the five arrays hold before entry i; 0 where an array holds no power yet. */
  function Exponents(i: nat): (e: seq<nat>)
    requires i <= 13
    ensures |e| == 5
  {
    if i == 0 then [0, 1, 0, 0, 0]
    else if i == 1 then [0, 1, 3, 0, 0]
    else if i == 2 then [0, 1, 7, 0, 0]
    else if i == 3 then [0, 1, 7, 0, 63]
    else if i == 4 then [0, 1, 0xfff, 0, 63]
    else if i == 5 then [0, 1, 0xfff, 0x1fff, 63]
    else if i == 6 then [0, 1, 0xfff, 0x1ffffff, 63]
    else if i == 7 then [0, 1, 0xfff, 0x1ffffff, 0x3ffffffffffff]
    else if i == 8 then [0, 1, 0x7ffffffffffffffffff, 0x1ffffff, 0x3ffffffffffff]
    else if i == 9 then [0, 1, 0x1fffffffffffffffffffffffffffffff, 0x1ffffff, 0x3ffffffffffff]
    else if i == 10 then [0, 1, 0x1fffffffffffffffffffffffffffffff,
                          0x3ffffffffffffffffffffffffffffffffffffffffffffffffffffffffffffff, 0x3ffffffffffff]
    else if i == 11 then [0, 1, 0x1fffffffffffffffffffffffffffffff,
                          0xffffffffffffffffffffffffffffffffffffffffffffffffffffffffffffffd, 0x3ffffffffffff]
    else if i == 12 then [0, 1, 0x1fffffffffffffffffffffffffffffff,
                          0x3ffffffffffffffffffffffffffffffffffffffffffffffffffffffffffffff5, 0x3ffffffffffff]
    else [0, 1, 0x1fffffffffffffffffffffffffffffff,
          0x7fffffffffffffffffffffffffffffffffffffffffffffffffffffffffffffeb, 0x3ffffffffffff]
  }

  lemma ChainPowers()
    ensures Pow2(1) == 2 && Pow2(2) == 4 && Pow2(3) == 8 && Pow2(6) == 64 && Pow2(12) == 0x1000
    ensures Pow2(25) == 0x2000000 && Pow2(50) == 0x4000000000000
    ensures Pow2(125) == 0x20000000000000000000000000000000
  {
    Pow2Values();
    assert Pow2(3) == 8 && Pow2(6) == 64;
    Pow2Add(6, 6);
    Pow2Add(24, 1);
    Pow2Add(25, 25);
    Pow2Add(50, 50);
    Pow2Add(100, 25);
  }

  lemma ChainEnd()
    ensures Exponents(13)[3] == 0x80000000_00000000_00000000_00000000_00000000_00000000_00000000_00000000 - 21
  {
  }

  function Times(x: nat, y: nat): nat { x * y }

  /** Entry i reads only arrays that hold a power, never its own target, and turns the row of
      exponents before it into the row after it. */
  predicate EntryOk(i: nat)
    requires i < 13
  {
    var s, p, e := Steps()[i], PrevIndex(i), Exponents(i);
    && 2 <= s.a <= 4 && 1 <= s.c <= 4 && s.a != s.c && s.n > 0 && 1 <= p <= 4
    && e[p] > 0 && e[s.c] > 0
    && Exponents(i + 1) == e[s.a := Times(e[p], Pow2(s.n)) + e[s.c]]
  }

  lemma ChainEntryOk(i: nat)
    requires i < 13
    ensures EntryOk(i)
  {
    ChainPowers();
    hide Pow2;
    if i == 0 { assert EntryOk(0); }
    else if i == 1 { assert EntryOk(1); }
    else if i == 2 { assert EntryOk(2); }
    else if i == 3 { assert EntryOk(3); }
    else if i == 4 { assert EntryOk(4); }
    else if i == 5 { assert EntryOk(5); }
    else if i == 6 { assert EntryOk(6); }
    else if i == 7 { assert EntryOk(7); }
    else if i == 8 { assert EntryOk(8); }
    else if i == 9 { assert EntryOk(9); }
    else if i == 10 { assert EntryOk(10); }
    else if i == 11 { assert EntryOk(11); }
    else { assert EntryOk(12); }
  }

  /** The powers of z promised for the arrays that hold one. */
  ghost predicate HoldsPowers(xs: seq<Fe>, z: nat, e: seq<nat>)
    requires Scratch(xs) && |e| == 5
    reads xs
  {
    forall k :: 1 <= k < 5 && e[k] > 0 ==> Fld(xs[k]) == FPow(z, e[k])
  }

  /** Inner loop of the chain: square prev n times into xs[a], prev moving to xs[a] on the first turn. */
  method SquareTimes(xs: seq<Fe>, a: nat, p: nat, n: nat, ghost z: nat, ghost e: nat)
    requires Scratch(xs) && 1 <= p < 5 && 2 <= a < 5 && n > 0 && Fld(xs[p]) == FPow(z, e)
    modifies xs[a]
    ensures Fld(xs[a]) == FPow(z, Times(e, Pow2(n)))
  {
    hide Red, FMul, FPow, Val, Times, Pow2;
    var prev := xs[p];
    ghost var d := 0;
    TimesOne(e);
    var j := n;
    while j > 0
      modifies xs[a]
      invariant 0 <= j <= n && d == n - j
      invariant prev == if d == 0 then xs[p] else xs[a]
      invariant Fld(prev) == FPow(z, Times(e, Pow2(d)))
    {
      Sqr(xs[a], prev);
      prev := xs[a];
      TimesDouble(e, d);
      FPowAdd(z, Times(e, Pow2(d)), Times(e, Pow2(d)));
      d := d + 1;
      j := j - 1;
    }
  }

  lemma TimesOne(e: nat)
    ensures Times(e, Pow2(0)) == e
  {
  }

  lemma TimesDouble(e: nat, d: nat)
    ensures Times(e, Pow2(d + 1)) == Times(e, Pow2(d)) + Times(e, Pow2(d))
  {
    var m := Pow2(d);
    assert e * (2 * m) == e * m + e * m;
  }

  /** The inversion chain: xs[3] becomes z2^(2^255 - 21), using xs[2..5] as scratch. */
  method InvertChain(xs: seq<Fe>)
    requires Scratch(xs)
    modifies xs[2], xs[3], xs[4]
    ensures Fld(xs[3])
         == FPow(old(Fld(xs[1])), 0x7fffffff_ffffffff_ffffffff_ffffffff_ffffffff_ffffffff_ffffffff_ffffffeb)
  {
    hide Red, FMul, FPow, Val, Exponents, Steps, PrevIndex, Times, Pow2, Fld;
    ghost var z := Fld(xs[1]);
    ChainStart(xs);
    var prev := 1;
    for i := 0 to 13
      invariant prev == PrevIndex(i)
      invariant HoldsPowers(xs, z, Exponents(i))
    {
      ChainEntryOk(i);
      var s := Steps()[i];
      ghost var e := Exponents(i);
      SquareTimes(xs, s.a, prev, s.n, z, e[prev]);
      Mul1(xs[s.a], xs[s.c]);
      FMulPowers(z, e[s.c], Times(e[prev], Pow2(s.n)));
      prev := s.a;
      PrevIs(i);
    }
    ChainEnd();
  }

  lemma PrevIs(i: nat)
    requires i < 13
    ensures PrevIndex(i + 1) == Steps()[i].a && PrevIndex(0) == 1
  {
  }

  lemma FMulPowers(z: nat, m: nat, n: nat)
    ensures FMul(FPow(z, m), FPow(z, n)) == FPow(z, n + m)
  {
    hide Red, FMul, FPow;
    FPowAdd(z, m, n);
  }

  lemma ChainStart(xs: seq<Fe>)
    requires Scratch(xs)
    ensures HoldsPowers(xs, Fld(xs[1]), Exponents(0)) && PrevIndex(0) == 1
  {
    FirstPower(Fld(xs[1]));
    RedRed(Val(xs[1][..]));
  }

  lemma FirstPower(z: nat)
    ensures FPow(z, 1) == Red(z)
  {
    assert FPow(z, 0) == 1;
    FMulOne(z);
  }

  // ---- the interface ----

  /** What x25519 computes: the ladder over all 256 scalar bits, then x2 * z2^(p - 2). */
  function ScalarMult(scalar: Bytes, point: Bytes, clamp: bool): nat
    requires |scalar| == |point| == 32
  {
    Affine(Run(Scalar(scalar, clamp), LE(point), 256, 0))
  }

  /** x25519: the result is -1 exactly if clamping was asked for and the output is zero. */
  method X25519(scalar: Bytes, point: Bytes, clamp: bool) returns (out: Bytes, ret: int)
    requires |scalar| == |point| == 32
    ensures out == ToLE(ScalarMult(scalar, point, clamp), 32)
    ensures ret == if clamp && ScalarMult(scalar, point, clamp) == 0 then -1 else 0
  {
    hide Red, FMul, FPow, Val, Run, Scalar, LE, ToLE;
    var x0, x1, x2, x3, x4 := new Word[8], new Word[8], new Word[8], new Word[8], new Word[8];
    var xs := [x0, x1, x2, x3, x4];
    var u := SwapIn(point);
    Core(xs, scalar, u, clamp);
    InvertChain(xs);
    Mul1(xs[0], xs[3]);
    var res := Canon(xs[0]);
    ret := if clamp then (if res == 0xffff_ffff then -1 else res as int) else 0;
    out := SwapOut(xs[0]);
  }

  /** Against RFC 7748: for a clamped scalar the code's 256 steps reach the same projective point as the
      255 steps of the standard, so cross-multiplying the two fractions gives the same residue. */
  lemma SamePointAsRfc(scalar: Bytes, u: nat)
    requires |scalar| == 32
    ensures var s, t := Run(Scalar(scalar, true), u, 256, 0), Run(Scalar(scalar, true), u, 255, 0);
            FMul(s.x2, t.z2) == FMul(t.x2, s.z2)
  {
    var k := Scalar(scalar, true);
    ClampedTopBit(scalar);
    hide Red, FMul, Scalar, Bit, Run;
    ExtraStepRescales(k, u, 0);
    var t := Run(k, u, 255, 0);
    var m := Factors(k, Red(u), 0).0;
    FMulAssoc(m, t.x2, t.z2);
    FMulComm(t.x2, FMul(m, t.z2));
    FMulAssoc(m, t.z2, t.x2);
    FMulComm(t.x2, t.z2);
  }

  // ---- against the standard ----

  /** The function of section 5 of RFC 7748: the top bit of the point is masked, and the ladder makes 255 steps
      with the swap deferred as printed there. */
  function Rfc7748(scalar: Bytes, point: Bytes, clamp: bool): nat
    requires |scalar| == |point| == 32
  {
    var k := Scalar(scalar, clamp);
    var u := LE(point) % 0x80000000_00000000_00000000_00000000_00000000_00000000_00000000_00000000;
    Affine(Swap(Bit(k, 0), Deferred(k, u, 255, 0)))
  }

  lemma Rfc7748IsRun(scalar: Bytes, point: Bytes, clamp: bool)
    requires |scalar| == |point| == 32
    ensures Rfc7748(scalar, point, clamp)
         == Affine(Run(Scalar(scalar, clamp),
                       LE(point) % 0x80000000_00000000_00000000_00000000_00000000_00000000_00000000_00000000, 255, 0))
  {
    hide LE, Scalar, Affine, Run, Bit;
    DeferredIsRun(Scalar(scalar, clamp),
                  LE(point) % 0x80000000_00000000_00000000_00000000_00000000_00000000_00000000_00000000, 255, 0);
  }

  /** Bit 255 of the point is the top bit of its last byte. */
  lemma TopBitOfPoint(point: Bytes)
    requires |point| == 32
    ensures point[31] < 128
            <==> LE(point) < 0x80000000_00000000_00000000_00000000_00000000_00000000_00000000_00000000
    ensures LE(point) < 0x1_00000000_00000000_00000000_00000000_00000000_00000000_00000000_00000000
  {
    var low, last := point[..31], point[31..];
    assert point == low + last && last == [point[31]];
    Pow2Of248();
    hide LE, Pow2;
    SingleByte(point[31]);
    LEConcat(low, last);
    LEBound(low);
  }

  lemma Pow2Of248()
    ensures Pow2(248) == 0x1000000_00000000_00000000_00000000_00000000_00000000_00000000_00000000
  {
    hide Pow2;
    Pow2Values();
    Pow2Add(128, 64);
    Pow2Add(192, 32);
    Pow2Add(224, 24);
  }

  /** x25519 returns what the standard does for every scalar below 2^255, so for every clamped one, and every
      point whose top bit is clear. */
  lemma SameOutputAsRfc(scalar: Bytes, point: Bytes, clamp: bool)
    requires |scalar| == |point| == 32 && point[31] < 128 && (clamp || !Bit(Scalar(scalar, clamp), 255))
    ensures ScalarMult(scalar, point, clamp) == Rfc7748(scalar, point, clamp)
  {
    hide Scalar, LE, Affine, Run, Bit, Rfc7748;
    if clamp {
      ClampedTopBit(scalar);
    }
    TopBitOfPoint(point);
    Rfc7748IsRun(scalar, point, clamp);
    BelowTop(LE(point));
    ExtraStepKeepsAffine(Scalar(scalar, clamp), LE(point));
  }

  lemma BelowTop(x: nat)
    requires x < 0x80000000_00000000_00000000_00000000_00000000_00000000_00000000_00000000
    ensures x % 0x80000000_00000000_00000000_00000000_00000000_00000000_00000000_00000000 == x
  {
  }

  /** The code and the standard read the same residue from exactly the points whose top bit is clear: a set top
      bit counts as 2^255, that is 19. */
  lemma SameResidue(point: Bytes)
    requires |point| == 32
    ensures Red(LE(point)) == Red(LE(point) % 0x80000000_00000000_00000000_00000000_00000000_00000000_00000000_00000000)
            <==> point[31] < 128
  {
    TopBitOfPoint(point);
    hide LE;
    var x := LE(point);
    if x >= 0x80000000_00000000_00000000_00000000_00000000_00000000_00000000_00000000 {
      TopBitCounts(x - 0x80000000_00000000_00000000_00000000_00000000_00000000_00000000_00000000);
    }
  }

  lemma TopBitCounts(v: nat)
    requires v < 0x80000000_00000000_00000000_00000000_00000000_00000000_00000000_00000000
    ensures Red(v + 0x80000000_00000000_00000000_00000000_00000000_00000000_00000000_00000000) != Red(v)
  {
  }

  /** So the two agree on all scalars below 2^255 exactly if the top bit of the point is clear. */
  lemma RfcExactly(point: Bytes)
    requires |point| == 32
    ensures (forall scalar: Bytes, clamp: bool | |scalar| == 32 && !Bit(Scalar(scalar, clamp), 255) ::
               ScalarMult(scalar, point, clamp) == Rfc7748(scalar, point, clamp))
            <==> point[31] < 128
  {
    hide ScalarMult, Rfc7748, Red, LE, Bit, Scalar;
    if point[31] < 128 {
      forall scalar: Bytes, clamp: bool | |scalar| == 32 && !Bit(Scalar(scalar, clamp), 255)
        ensures ScalarMult(scalar, point, clamp) == Rfc7748(scalar, point, clamp)
      {
        SameOutputAsRfc(scalar, point, clamp);
      }
    } else {
      SameResidue(point);
      OneScalar(point);
      OneIsOne();
      assert ScalarMult(ScalarOne(), point, false) != Rfc7748(ScalarOne(), point, false);
    }
  }

  /** The scalar 1, which clamping would change. */
  function ScalarOne(): (scalar: Bytes)
    ensures |scalar| == 32
  {
    [1] + Zeros(31)
  }

  lemma SingleByte(b: byte)
    ensures LE([b]) == b
  {
    assert [b][1..] == [];
  }

  lemma OneIsOne()
    ensures Scalar(ScalarOne(), false) == 1 && !Bit(Scalar(ScalarOne(), false), 255)
  {
    var b := ClampedBytes(ScalarOne(), false);
    assert b == [1] + Zeros(31);
    LEZeros([1], 31);
    SingleByte(1);
    BitsOfOne(256);
    hide LE, Bit;
  }

  lemma OneScalar(point: Bytes)
    requires |point| == 32
    ensures ScalarMult(ScalarOne(), point, false) == Red(LE(point))
    ensures Rfc7748(ScalarOne(), point, false)
         == Red(LE(point) % 0x80000000_00000000_00000000_00000000_00000000_00000000_00000000_00000000)
  {
    OneIsOne();
    Rfc7748IsRun(ScalarOne(), point, false);
    hide LE, Scalar, Affine, Run, Red, Rfc7748;
    OneGivesPoint(LE(point), 256);
    OneGivesPoint(LE(point) % 0x80000000_00000000_00000000_00000000_00000000_00000000_00000000_00000000, 255);
  }

  /** The encoding of 2p, in which the top bit is set. */
  function TwiceP(): (point: Bytes)
    ensures |point| == 32
  {
    [0xda] + seq(31, i => 0xff)
  }

  /** On that point the code fails for every scalar, because it reads a multiple of p; the standard reads p - 19. */
  lemma TopBitExample(scalar: Bytes, clamp: bool)
    requires |scalar| == 32
    ensures ScalarMult(scalar, TwiceP(), clamp) == 0
    ensures Rfc7748(ScalarOne(), TwiceP(), false)
         == 0x7fffffff_ffffffff_ffffffff_ffffffff_ffffffff_ffffffff_ffffffff_ffffffda
  {
    TwicePIs();
    hide LE, Scalar, Affine, Run, Rfc7748;
    ZeroAffine(Scalar(scalar, clamp), LE(TwiceP()), 256);
    OneScalar(TwiceP());
  }

  lemma {:induction false} OnesAre(n: nat)
    ensures LE(seq(n, i => 0xff)) == Pow2(8 * n) - 1
  {
    if n > 0 {
      OnesAre(n - 1);
      assert seq(n, i => 0xff)[1..] == seq(n - 1, i => 0xff);
      Pow2Add(8, 8 * n - 8);
      assert Pow2(8) == 256;
    }
  }

  lemma TwicePIs()
    ensures LE(TwiceP()) == 0xffffffff_ffffffff_ffffffff_ffffffff_ffffffff_ffffffff_ffffffff_ffffffda
    ensures Red(LE(TwiceP())) == 0
  {
    OnesAre(31);
    Pow2Of248();
    assert TwiceP()[1..] == seq(31, i => 0xff);
    hide Pow2;
  }

  /** The all-zero scalar, clamped, is 2^254. */
  lemma ZeroScalarBits()
    ensures OnlyBit254(Scalar(Zeros(32), true)) && !Bit(Scalar(Zeros(32), true), 255)
  {
    var b := ClampedBytes(Zeros(32), true);
    assert Scalar(Zeros(32), true) == LE(b);
    hide LE, Bit, ClampedBytes, Pow2, Zeros, Scalar;
    ClampedTopBit(Zeros(32));
    ClampedZeros();
    forall i | 0 <= i < 255 ensures Bit(LE(b), i) == (i == 254) {
      BitOfLE(b, i);
      BitPow2(6, i % 8);
      BitZero(i % 8);
    }
  }

  lemma ClampedZeros()
    ensures var b := ClampedBytes(Zeros(32), true); b[31] == Pow2(6) && forall i :: 0 <= i < 31 ==> b[i] == 0
  {
    OrZero();
    hide Or, Pow2;
  }

  lemma OrZero()
    ensures Or(0, 0x40) == 0x40 == Pow2(6)
  {
    assert Or(0, 4) == 4;
  }

  /** Where the top bit moves a point from the curve to its twist or back, the code and the standard have
      different results for the all-zero scalar, clamped like every private key. */
  lemma TopBitChangesOutput(point: Bytes)
    requires |point| == 32
    requires var v := LE(point) % 0x80000000_00000000_00000000_00000000_00000000_00000000_00000000_00000000;
             || (OnTwist(Red(LE(point)), 1) && OnCurve(Red(v), 1))
             || (OnCurve(Red(LE(point)), 1) && OnTwist(Red(v), 1))
    ensures ScalarMult(Zeros(32), point, true) != Rfc7748(Zeros(32), point, true)
  {
    hide LE, Scalar, Affine, Run, Bit, Rfc7748, Red, OnTwist, OnCurve, OnlyBit254, Zeros;
    var k, u := Scalar(Zeros(32), true), LE(point);
    var v := u % 0x80000000_00000000_00000000_00000000_00000000_00000000_00000000_00000000;
    ZeroScalarBits();
    Rfc7748IsRun(Zeros(32), point, true);
    ExtraStepKeepsAffine(k, u);
    if OnTwist(Red(u), 1) && OnCurve(Red(v), 1) {
      DifferentSides(k, u, v);
    } else {
      DifferentSides(k, v, u);
    }
  }

  /** The point 1 of the curve with the top bit set: the code reads it as 20, a point of the twist. */
  function OneWithTopBit(): (point: Bytes)
    ensures |point| == 32
  {
    [1] + Zeros(30) + [0x80]
  }

  lemma OneWithTopBitIs()
    ensures LE(OneWithTopBit()) == 0x80000000_00000000_00000000_00000000_00000000_00000000_00000000_00000001
  {
    hide LE, Pow2, Zeros;
    LEZeros([1], 30);
    LEConcat([1] + Zeros(30), [0x80]);
    SingleByte(1);
    SingleByte(0x80);
    Pow2Of248();
  }

  lemma ClampedExample()
    ensures ScalarMult(Zeros(32), OneWithTopBit(), true) != Rfc7748(Zeros(32), OneWithTopBit(), true)
  {
    OneWithTopBitIs();
    OneOnCurve();
    TwentyOnTwist();
    var u := 0x80000000_00000000_00000000_00000000_00000000_00000000_00000000_00000001;
    assert Red(u) == 20 && Red(1) == 1;
    assert u % 0x80000000_00000000_00000000_00000000_00000000_00000000_00000000_00000000 == 1;
    hide *;
    TopBitChangesOutput(OneWithTopBit());
  }
}
