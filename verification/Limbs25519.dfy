/** Field elements as eight 32-bit limbs, updated in place.  A value may exceed 2^255 - 19; what the
    operations promise is its residue and that it stays below 2^255 + 2^32. */
module Limbs25519 {
  import opened Arith
  import opened Bits
  import opened Field25519

  /** eight limbs, least significant first; every operation requires the length */
  type Fe = array<Word>

  function Lo(t: int): (w: Word) { t % 0x1_0000_0000 }

  function Hi(t: int): int { t / 0x1_0000_0000 }

  lemma HiLo(t: int)
    ensures t == 0x1_0000_0000 * Hi(t) + Lo(t)
  {
  }

  /** The weight of limb i. */
  function Weight(i: nat): (w: nat)
    ensures w > 0
  {
    if i == 0 then 1 else 0x1_0000_0000 * Weight(i - 1)
  }

  function Val(s: seq<Word>): (v: nat)
  {
    if |s| == 0 then 0 else Val(s[..|s| - 1]) + Weight(|s| - 1) * s[|s| - 1]
  }

  lemma ValEmpty()
    ensures Val([]) == 0 && Weight(0) == 1
  {
  }

  lemma ValAppend(s: seq<Word>, x: Word)
    ensures Val(s + [x]) == Val(s) + Weight(|s|) * x
  {
    assert (s + [x])[..|s|] == s;
  }

  lemma ValNext(s: seq<Word>, i: nat)
    requires i < |s|
    ensures Val(s[..i + 1]) == Val(s[..i]) + Weight(i) * s[i]
  {
    assert s[..i + 1] == s[..i] + [s[i]];
    ValAppend(s[..i], s[i]);
  }

  lemma {:induction false} ValConcat(s: seq<Word>, t: seq<Word>)
    ensures Val(s + t) == Val(s) + Weight(|s|) * Val(t)
  {
    if |t| == 0 {
      assert s + t == s;
    } else {
      var t' := t[..|t| - 1];
      var x := t[|t| - 1];
      ValConcat(s, t');
      assert s + t == (s + t') + [x] && t == t' + [x];
      ValAppend(s + t', x);
      ValAppend(t', x);
      WeightAdd(|s|, |t'|);
      Distribute(Weight(|s|), Weight(|t'|), x, Val(t'));
    }
  }

  lemma {:induction false} WeightAdd(i: nat, j: nat)
    ensures Weight(i + j) == Weight(i) * Weight(j)
  {
    if j > 0 {
      WeightAdd(i, j - 1);
      var a, b := Weight(i), Weight(j - 1);
      assert 0x1_0000_0000 * (a * b) == a * (0x1_0000_0000 * b);
    }
  }

  lemma {:induction false} ValBound(s: seq<Word>)
    ensures Val(s) < Weight(|s|)
  {
    if |s| > 0 {
      ValBound(s[..|s| - 1]);
      var w := Weight(|s| - 1);
      MulMono(w, w, s[|s| - 1], 0xffff_ffff);
    }
  }

  lemma {:induction false} ValZeros(s: seq<Word>)
    requires forall i :: 0 <= i < |s| ==> s[i] == 0
    ensures Val(s) == 0
  {
    if |s| > 0 {
      ValZeros(s[..|s| - 1]);
    }
  }

  lemma WeightEight()
    ensures Weight(8) == 0x1_00000000_00000000_00000000_00000000_00000000_00000000_00000000_00000000
    ensures Weight(7) == 0x1_00000000_00000000_00000000_00000000_00000000_00000000_00000000
  {
    assert Weight(2) == 0x1_00000000_00000000;
    assert Weight(4) == 0x1_00000000_00000000_00000000_00000000;
    assert Weight(6) == 0x1_00000000_00000000_00000000_00000000_00000000_00000000;
  }

  /** One limb of a carry chain: the limbs stored so far plus the pending carry grow by the weighted
      summand, and nothing is lost between the limb stored and the carry passed on. */
  lemma ChainStep(done: seq<Word>, carry: int, add: int)
    ensures Val(done + [Lo(carry + add)]) + Weight(|done| + 1) * Hi(carry + add)
         == Val(done) + Weight(|done|) * carry + Weight(|done|) * add
  {
    var w, t := Weight(|done|), carry + add;
    HiLo(t);
    ValAppend(done, Lo(t));
    Regroup(w, Hi(t), Lo(t), carry, add);
  }

  lemma Regroup(w: int, hi: int, lo: int, carry: int, add: int)
    requires 0x1_0000_0000 * hi + lo == carry + add
    ensures w * lo + (0x1_0000_0000 * w) * hi == w * carry + w * add
  {
    assert w * (0x1_0000_0000 * hi + lo) == (0x1_0000_0000 * w) * hi + w * lo;
    assert w * (carry + add) == w * carry + w * add;
  }

  /** The residue a field element stands for. */
  ghost function Fld(x: Fe): nat
    requires x.Length == 8
    reads x
  {
    Red(Val(x[..]))
  }

  ghost predicate Small(x: Fe)
    requires x.Length == 8
    reads x
  {
    Val(x[..]) < 0x80000000_00000000_00000000_00000000_00000000_00000000_00000001_00000000
  }

  /** What propagate does to the whole number: everything from bit 255 up comes back in times 19. */
  function Fold(t: nat): (r: nat)
  {
    t % 0x80000000_00000000_00000000_00000000_00000000_00000000_00000000_00000000
    + 19 * (t / 0x80000000_00000000_00000000_00000000_00000000_00000000_00000000_00000000)
  }

  lemma FoldKeepsResidue(t: nat)
    ensures Red(Fold(t)) == Red(t)
  {
    ModFromMultiple(t, Fold(t), 0x7fffffff_ffffffff_ffffffff_ffffffff_ffffffff_ffffffff_ffffffff_ffffffed,
                    t / 0x80000000_00000000_00000000_00000000_00000000_00000000_00000000_00000000);
  }

  function Adc(carry: Word, acc: Word, mand: Word): (r: (Word, Word))
  {
    var total := carry as int + acc as int + mand as int;
    (Lo(total), Hi(total))
  }

  lemma AdcSum(carry: Word, acc: Word, mand: Word)
    ensures Adc(carry, acc, mand) == (Lo(carry + (acc as int + mand as int)), Hi(carry + (acc as int + mand as int)))
    ensures 0 <= Hi(carry + (acc as int + mand as int)) <= 2
    ensures carry <= 1 || mand == 0 ==> Hi(carry + (acc as int + mand as int)) <= 1
  {
  }

  function Umaal(carry: Word, acc: Word, mand: Word, mier: Word): (r: (Word, Word))
  {
    UmaalFits(carry, acc, mand, mier);
    var tmp := Mul(mand, mier) + acc as int + carry as int;
    (Lo(tmp), Hi(tmp))
  }

  /** A 32 by 32 bit product plus two words still fits in 64 bits. */
  lemma UmaalFits(carry: Word, acc: Word, mand: Word, mier: Word)
    ensures 0 <= Hi(Mul(mand, mier) + acc as int + carry as int) < 0x1_0000_0000
  {
    MulMono(mand, 0xffff_ffff, mier, 0xffff_ffff);
  }

  /** Cutting the top bit off the last limb leaves a value below 2^255 and a multiple of 2^255. */
  lemma CutTop(x: seq<Word>, over: nat)
    requires |x| == 8
    ensures var a := x[7 := x[7] % 0x8000_0000];
            && Val(x) + Weight(8) * over
               == Val(a) + 0x80000000_00000000_00000000_00000000_00000000_00000000_00000000_00000000
                           * (x[7] / 0x8000_0000 + 2 * over)
            && Val(a) < 0x80000000_00000000_00000000_00000000_00000000_00000000_00000000_00000000
  {
    var a := x[7 := x[7] % 0x8000_0000];
    assert a[..7] == x[..7];
    ValBound(x[..7]);
    WeightEight();
    assert x[7] as int == 0x8000_0000 * (x[7] / 0x8000_0000) + x[7] % 0x8000_0000;
  }

  lemma TimesPositive(w: int, k: int)
    requires w >= 0
    ensures k >= 1 ==> w * k >= w
    ensures k <= -1 ==> w * k <= -w
  {
  }

  /** A carry out of eight limbs is impossible when the total stays below 2^256. */
  lemma NoCarry(v: nat, carry: int, total: int)
    requires v + Weight(8) * carry == total < Weight(8) && carry >= 0
    ensures carry == 0 && v == total
  {
    TimesPositive(Weight(8), carry);
  }

  lemma FoldIs(low: nat, top: nat)
    requires low < 0x80000000_00000000_00000000_00000000_00000000_00000000_00000000_00000000
    ensures Fold(low + 0x80000000_00000000_00000000_00000000_00000000_00000000_00000000_00000000 * top)
         == low + 19 * top
  {
  }

  /** The adc0 loop of propagate and canon: add one word to eight limbs. */
  method AddWord(x: Fe, c: Word) returns (carry: Word)
    requires x.Length == 8
    modifies x
    ensures Val(x[..]) + Weight(8) * carry == old(Val(x[..])) + c
  {
    hide Red, Weight, Val, Adc, Lo, Hi;
    ghost var a := x[..];
    carry := c;
    ghost var done: seq<Word> := [];
    ValEmpty();
    for i := 0 to 8
      invariant x[..i] == done && x[i..] == a[i..]
      invariant Val(done) + Weight(i) * carry == Val(a[..i]) + c
    {
      ValNext(a, i);
      ChainStep(done, carry, a[i]);
      AdcSum(carry, a[i], 0);
      var r := Adc(carry, x[i], 0);
      x[i] := r.0;
      carry := r.1;
      done := done + [r.0];
    }
    assert a[..8] == a && x[..8] == x[..];
  }

  /** propagate: precondition, over is small enough that 19 * (2 * over + 1) fits a word. */
  method Propagate(x: Fe, over: Word)
    requires x.Length == 8 && over < 0x400_0000
    modifies x
    ensures Small(x)
    ensures Fld(x) == old(Red(Val(x[..]) + Weight(8) * over))
    ensures Val(x[..]) == old(Fold(Val(x[..]) + Weight(8) * over))
  {
    hide Red, Weight, Val, Fold, Lo;
    ghost var was := x[..];
    OverFits(x[7], over);
    var over' := x[7] / 0x8000_0000 + Lo(over as int * 2) as int;
    x[7] := x[7] % 0x8000_0000;
    ghost var a := Val(x[..]);
    CutTop(was, over);
    assert x[..] == was[7 := was[7] % 0x8000_0000];
    var carry := AddWord(x, Lo(over' * 19));
    WeightEight();
    NoCarry(Val(x[..]), carry, a + 19 * over');
    FoldIs(a, over');
    FoldKeepsResidue(Val(was) + Weight(8) * over);
  }

  /** Neither the doubled carry nor its multiple of 19 leaves 32 bits. */
  lemma OverFits(top: Word, over: Word)
    requires over < 0x400_0000
    ensures Lo(over as int * 2) == 2 * over
    ensures var o := top / 0x8000_0000 + 2 * over; Lo(o * 19) == 19 * o < 0x1_0000_0000
  {
  }

  /** out = a + b; out may be a or b. */
  method Add(out: Fe, a: Fe, b: Fe)
    requires out.Length == a.Length == b.Length == 8
    modifies out
    ensures Small(out) && Fld(out) == old(FAdd(Fld(a), Fld(b)))
  {
    hide Red, Weight, Val, Fold, Adc, Lo, Hi;
    ghost var x, y := a[..], b[..];
    var carry: Word := 0;
    ghost var done: seq<Word> := [];
    ValEmpty();
    for i := 0 to 8
      invariant out[..i] == done && a[i..] == x[i..] && b[i..] == y[i..] && carry <= 1
      invariant Val(done) + Weight(i) * carry == Val(x[..i]) + Val(y[..i])
    {
      ValNext(x, i);
      ValNext(y, i);
      SumOfTwo(Weight(i), x[i], y[i]);
      ChainStep(done, carry, x[i] as int + y[i] as int);
      AdcSum(carry, x[i], y[i]);
      var r := Adc(carry, a[i], b[i]);
      out[i] := r.0;
      carry := r.1;
      done := done + [r.0];
    }
    assert x[..8] == x && y[..8] == y && out[..8] == out[..];
    Propagate(out, carry);
    RedAdd(Val(x), Val(y));
  }

  lemma SumOfTwo(w: int, x: int, y: int)
    ensures w * (x + y) == w * x + w * y && w * (x - y) == w * x - w * y
  {
  }

  /** out = a - b, by way of a - b + 2p: the borrow chain starts at -38 and ends at -1 or 0. */
  method Sub(out: Fe, a: Fe, b: Fe)
    requires out.Length == a.Length == b.Length == 8
    requires Small(b)
    modifies out
    ensures Small(out) && Fld(out) == old(FSub(Fld(a), Fld(b)))
  {
    hide Red, Weight, Val;
    ghost var x, y := a[..], b[..];
    var carry := -38;
    ghost var done: seq<Word> := [];
    ValEmpty();
    for i := 0 to 8
      invariant out[..i] == done && a[i..] == x[i..] && b[i..] == y[i..] && -38 <= carry <= 0
      invariant Val(done) + Weight(i) * carry == Val(x[..i]) - Val(y[..i]) - 38
    {
      ValNext(x, i);
      ValNext(y, i);
      SumOfTwo(Weight(i), x[i], y[i]);
      ChainStep(done, carry, x[i] as int - y[i] as int);
      var t := carry + a[i] as int - b[i] as int;
      out[i] := Lo(t);
      carry := Hi(t);
      done := done + [Lo(t)];
    }
    assert x[..8] == x && y[..8] == y && out[..8] == out[..];
    ValBound(x);
    ValBound(done);
    WeightEight();
    TimesPositive(Weight(8), carry);
    TimesPositive(Weight(8), carry + 1);
    assert Weight(8) * (carry + 1) == Weight(8) * carry + Weight(8);
    assert -1 <= carry <= 0;
    Propagate(out, 1 + carry);
    TwiceP(Val(x) - Val(y));
    RedSub(Val(x), Val(y));
  }

  /** 2^256 - 38 is twice the modulus. */
  lemma TwiceP(v: int)
    ensures Red(v - 38 + 0x1_00000000_00000000_00000000_00000000_00000000_00000000_00000000_00000000) == Red(v)
  {
    ModAddMultiple(v, 0x7fffffff_ffffffff_ffffffff_ffffffff_ffffffff_ffffffff_ffffffff_ffffffed, 2);
  }

  /** The column step of mul: like ChainStep, with the partial product in the summand. */
  lemma RowStep(done: seq<Word>, i: nat, j: nat, carry: int, acc: int, mand: int, aj: int)
    requires |done| == i + j
    ensures var t := carry + (acc + mand * aj);
            Val(done + [Lo(t)]) + Weight(i + j + 1) * Hi(t) ==
            Val(done) + Weight(i + j) * carry + Weight(i + j) * acc + Weight(i) * mand * (Weight(j) * aj)
  {
    hide Val, Lo, Hi;
    ChainStep(done, carry, acc + mand * aj);
    WeightAdd(i, j);
    RowProduct(Weight(i), Weight(j), acc, mand, aj);
  }

  lemma RowProduct(wi: int, wj: int, acc: int, mand: int, aj: int)
    ensures (wi * wj) * (acc + mand * aj) == (wi * wj) * acc + wi * mand * (wj * aj)
  {
    assert (wi * wj) * (mand * aj) == wi * mand * (wj * aj) by {
      assert wj * (mand * aj) == mand * (wj * aj);
      assert (wi * wj) * (mand * aj) == wi * (wj * (mand * aj));
      assert wi * (mand * (wj * aj)) == wi * mand * (wj * aj);
    }
  }

  /** One turn of the row: the limbs done and the carry stand for the columns so far. */
  lemma RowTurn(done: seq<Word>, z: seq<Word>, a: seq<Word>, i: nat, j: nat, carry: Word, mand: Word)
    requires |done| == i + j < |z| && j < |a|
    requires Val(done) + Weight(i + j) * carry == Val(z[..i + j]) + Weight(i) * mand * Val(a[..j])
    ensures var t := carry + (z[i + j] + mand * a[j]);
            Val(done + [Lo(t)]) + Weight(i + j + 1) * Hi(t)
            == Val(z[..i + j + 1]) + Weight(i) * mand * Val(a[..j + 1])
  {
    hide Weight, Val, Lo, Hi;
    ValNext(a, j);
    ValNext(z, i + j);
    RowStep(done, i, j, carry, z[i + j], mand, a[j]);
    Distribute(Weight(i) * mand, Weight(j), a[j], Val(a[..j]));
    assert Weight(i) * mand * (Weight(j) * a[j]) == Weight(i) * mand * Weight(j) * a[j];
  }

  /** One row of the schoolbook product: accum += b[i] * a * 2^(32 i). */
  method MulRow(accum: array<Word>, a: seq<Word>, mand: Word, i: nat)
    requires accum.Length == 16 && |a| == 8 && i < 8
    modifies accum
    ensures accum[i + 9..] == old(accum[i + 9..])
    ensures Val(accum[..i + 9]) == old(Val(accum[..i + 8])) + Weight(i) * mand * Val(a)
  {
    hide Red, Weight, Val, Lo, Hi, Mul;
    ghost var z := accum[..];
    ghost var wm := Weight(i) * mand;
    var carry2: Word := 0;
    ghost var done := accum[..i];
    ValEmpty();
    assert a[..0] == [] && z[..i + 0] == done;
    for j := 0 to 8
      invariant |done| == i + j && accum[..i + j] == done && accum[i + j..] == z[i + j..]
      invariant Val(done) + Weight(i + j) * carry2 == Val(z[..i + j]) + wm * Val(a[..j])
    {
      RowTurn(done, z, a, i, j, carry2, mand);
      UmaalSum(carry2, z[i + j], mand, a[j]);
      var r := Umaal(carry2, accum[i + j], mand, a[j]);
      accum[i + j] := r.0;
      carry2 := r.1;
      done := done + [r.0];
    }
    assert a[..8] == a;
    accum[i + 8] := carry2;
    assert accum[..i + 9] == done + [carry2];
    assert accum[i + 9..] == z[i + 8..][1..] == z[i + 9..];
    ValAppend(done, carry2);
    assert Val(done + [carry2]) == Val(z[..i + 8]) + wm * Val(a);
  }

  lemma UmaalSum(carry: Word, acc: Word, mand: Word, mier: Word)
    ensures Umaal(carry, acc, mand, mier) == (Lo(carry + (acc + mand * mier)), Hi(carry + (acc + mand * mier)))
    ensures 0 <= Hi(carry + (acc + mand * mier)) < 0x1_0000_0000
  {
    UmaalFits(carry, acc, mand, mier);
  }

  /** The sixteen-limb product of a with the first nb limbs of b. */
  method Product(a: seq<Word>, b: seq<Word>) returns (accum: array<Word>)
    requires |a| == 8 && |b| <= 8
    ensures fresh(accum) && accum.Length == 16 && Val(accum[..]) == Val(a) * Val(b)
  {
    hide Red, Weight, Val, Lo, Hi, Mul;
    accum := new Word[16](i => 0);
    ValEmpty();
    ValZeros(accum[..8]);
    assert b[..0] == [];
    for i := 0 to |b|
      invariant forall k :: i + 8 <= k < 16 ==> accum[k] == 0
      invariant Val(accum[..i + 8]) == Val(a) * Val(b[..i])
    {
      ghost var rest := accum[i + 9..];
      MulRow(accum, a, b[i], i);
      assert accum[i + 9..] == rest;
      ValNext(b, i);
      RowAdds(Val(a), Val(b[..i]), Weight(i), b[i]);
    }
    assert b[..|b|] == b;
    ValZeros(accum[|b| + 8..]);
    ValConcat(accum[..|b| + 8], accum[|b| + 8..]);
    assert accum[..|b| + 8] + accum[|b| + 8..] == accum[..];
  }

  lemma RowAdds(va: int, vb: int, w: int, m: int)
    ensures va * (vb + w * m) == va * vb + w * m * va
  {
  }

  /** The second loop of mul: the high eight limbs come back in times 38. */
  method FoldProduct(out: Fe, accum: array<Word>) returns (carry2: Word)
    requires out.Length == 8 && accum.Length == 16 && out != accum
    modifies out
    ensures carry2 <= 38
    ensures Val(out[..]) + Weight(8) * carry2 == Val(accum[..8]) + 38 * Val(accum[8..])
  {
    hide Red, Weight, Val, Lo, Hi, Umaal;
    carry2 := 0;
    ghost var lo, hi := accum[..8], accum[8..];
    ghost var done: seq<Word> := [];
    ValEmpty();
    for j := 0 to 8
      invariant out[..j] == done && carry2 <= 38
      invariant Val(done) + Weight(j) * carry2 == Val(lo[..j]) + 38 * Val(hi[..j])
    {
      ValNext(lo, j);
      ValNext(hi, j);
      ChainStep(done, carry2, lo[j] as int + 38 * hi[j] as int);
      Fold38(Weight(j), lo[j], hi[j], carry2);
      var r := Umaal(carry2, accum[j], 38, accum[j + 8]);
      out[j] := r.0;
      carry2 := r.1;
      done := done + [r.0];
    }
    assert lo[..8] == lo && hi[..8] == hi && out[..8] == out[..];
  }

  /** mul: out = a * b[..nb]; out may be a or b. */
  method MulLimbs(out: Fe, a: Fe, b: array<Word>, nb: nat)
    requires out.Length == a.Length == 8 && nb <= 8 && nb <= b.Length
    modifies out
    ensures Small(out) && Fld(out) == old(FMul(Fld(a), Red(Val(b[..nb]))))
  {
    hide Red, Weight, Val, Fold;
    RedMul(Val(a[..]), Val(b[..nb]));
    var accum := Product(a[..], b[..nb]);
    assert accum[..] == accum[..8] + accum[8..];
    ValConcat(accum[..8], accum[8..]);
    FoldHigh(Val(accum[..8]), Val(accum[8..]));
    var carry2 := FoldProduct(out, accum);
    Propagate(out, carry2);
  }

  lemma Fold38(w: int, lo: Word, hi: Word, carry: Word)
    requires carry <= 38
    ensures var t := carry + (lo as int + 38 * hi as int);
            Umaal(carry, lo, 38, hi) == (Lo(t), Hi(t))
    ensures 0 <= Hi(carry + (lo as int + 38 * hi as int)) <= 38
    ensures w * (lo as int + 38 * hi as int) == w * lo + 38 * (w * hi)
  {
  }

  /** 2^256 counts for 38. */
  lemma FoldHigh(lo: nat, hi: nat)
    ensures Red(lo + 38 * hi) == Red(lo + Weight(8) * hi)
  {
    WeightEight();
    ModFromMultiple(lo + Weight(8) * hi, lo + 38 * hi,
                    0x7fffffff_ffffffff_ffffffff_ffffffff_ffffffff_ffffffff_ffffffff_ffffffed, 2 * hi);
  }

  /** mul over all eight limbs of b. */
  method Multiply(out: Fe, a: Fe, b: Fe)
    requires out.Length == a.Length == b.Length == 8
    modifies out
    ensures Small(out) && Fld(out) == old(FMul(Fld(a), Fld(b)))
  {
    assert b[..8] == b[..];
    MulLimbs(out, a, b, 8);
  }

  /** sqr */
  method Sqr(out: Fe, a: Fe)
    requires out.Length == a.Length == 8
    modifies out
    ensures Small(out) && Fld(out) == old(FMul(Fld(a), Fld(a)))
  {
    Multiply(out, a, a);
  }

  /** mul1: out = a * out */
  method Mul1(out: Fe, a: Fe)
    requires out.Length == a.Length == 8
    modifies out
    ensures Small(out) && Fld(out) == old(FMul(Fld(a), Fld(out)))
  {
    Multiply(out, a, out);
  }

  /** Adding 19 makes the fold subtract the modulus exactly when the value reaches it. */
  lemma LeastResidue(v: nat)
    requires v < 0x80000000_00000000_00000000_00000000_00000000_00000000_00000001_00000000
    ensures Fold(v + 19) == Red(v) + 19
  {
  }

  lemma OrWord(x: Word, y: Word)
    ensures Or(x, y) < 0x1_0000_0000 && (Or(x, y) == 0 <==> x == 0 && y == 0)
  {
    Pow2Values();
    OrBound(x, y, 32);
    OrIsZero(x, y);
  }

  lemma ZeroAppend(done: seq<Word>, w: Word)
    ensures Val(done + [w]) == 0 <==> Val(done) == 0 && w == 0
  {
    ValAppend(done, w);
    TimesPositive(Weight(|done|), w);
  }

  /** The last loop of canon: take the 19 off again, noting whether any limb is non-zero. */
  method SubNineteen(x: Fe) returns (res: Word)
    requires x.Length == 8 && Val(x[..]) >= 19
    modifies x
    ensures Val(x[..]) == old(Val(x[..])) - 19
    ensures res == 0 <==> Val(x[..]) == 0
  {
    hide Red, Weight, Val, Fold, Or;
    ghost var b := x[..];
    var carry := -19;
    ghost var done: seq<Word> := [];
    ValEmpty();
    res := 0;
    for i := 0 to 8
      invariant x[..i] == done && x[i..] == b[i..] && -19 <= carry <= 0
      invariant Val(done) + Weight(i) * carry == Val(b[..i]) - 19
      invariant res == 0 <==> Val(done) == 0
    {
      ValNext(b, i);
      ChainStep(done, carry, b[i]);
      carry := carry + x[i] as int;
      x[i] := Lo(carry);
      OrWord(res, x[i]);
      ZeroAppend(done, x[i]);
      res := Or(res, x[i]);
      done := done + [Lo(carry)];
      carry := Hi(carry);
    }
    assert b[..8] == b && x[..8] == x[..];
    ValBound(done);
    ValBound(b);
    TimesPositive(Weight(8), carry);
    NoCarry(Val(x[..]), carry, Val(b) - 19);
  }

  /** canon: the least residue, and all ones exactly if it is zero. */
  method Canon(x: Fe) returns (res: Word)
    requires x.Length == 8 && Small(x)
    modifies x
    ensures Val(x[..]) == old(Fld(x))
    ensures res == if Val(x[..]) == 0 then 0xffff_ffff else 0
  {
    hide Red, Weight, Val, Fold;
    ghost var v := Val(x[..]);
    var carry0 := AddWord(x, 19);
    WeightEight();
    NoCarry(Val(x[..]), carry0, v + 19);
    Propagate(x, carry0);
    LeastResidue(v);
    res := SubNineteen(x);
    res := Lo(Hi((res as int - 1) % 0x1_0000_0000_0000_0000));
  }
}
