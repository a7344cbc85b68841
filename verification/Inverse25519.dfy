/** What the primality of 2^255 - 19 gives the ladder: inverses, and a result that rescaling the projective
    points does not change. */
module Inverse25519 {
  import opened Bits
  import opened Field25519
  import opened Prime25519
  import opened Primes

  lemma RedIsRest(x: int)
    ensures Red(x) == Rest(x, P255())
  {
  }

  lemma {:induction false} FPowIsPow(x: nat, n: nat)
    ensures FPow(x, n) == Rest(Pow(x, n), P255())
  {
    if n == 0 {
      RestSmall(1, P255());
    } else {
      FPowIsPow(x, n - 1);
      PowSucc(x, n - 1);
      assert FPow(x, n) == Red(x * FPow(x, n - 1));
      RedIsRest(x * FPow(x, n - 1));
      hide *;
      RestOfRest(Pow(x, n - 1), P255());
      RestMul(x, x, Rest(Pow(x, n - 1), P255()), Pow(x, n - 1), P255());
    }
  }

  /** Fermat's little theorem in the field. */
  lemma FieldFermat(x: nat)
    requires Red(x) != 0
    ensures FPow(x, 0x7fffffff_ffffffff_ffffffff_ffffffff_ffffffff_ffffffff_ffffffff_ffffffec) == 1
  {
    RedIsRest(x);
    Prime255();
    assert !Divides(P255(), x);
    assert P255() - 1 == 0x7fffffff_ffffffff_ffffffff_ffffffff_ffffffff_ffffffff_ffffffff_ffffffec;
    hide *;
    Fermat(P255(), x);
    FPowIsPow(x, P255() - 1);
  }

  /** The field has no zero divisors. */
  lemma NoZeroDivisors(x: nat, y: nat)
    requires Red(x) != 0 && Red(y) != 0
    ensures FMul(x, y) != 0
  {
    RedIsRest(x);
    RedIsRest(y);
    RedIsRest(x * y);
    Prime255();
    hide Prime, Rest, P255, Red;
    if FMul(x, y) == 0 {
      Euclid(P255(), x, y);
    }
  }

  /** The power p - 2 is the inverse. */
  lemma InverseOf(x: nat)
    ensures var i := FPow(x, 0x7fffffff_ffffffff_ffffffff_ffffffff_ffffffff_ffffffff_ffffffff_ffffffeb);
            if Red(x) != 0 then FMul(x, i) == 1 else i == 0
  {
    var e := 0x7fffffff_ffffffff_ffffffff_ffffffff_ffffffff_ffffffff_ffffffff_ffffffea;
    FPowSucc(x, e);
    FPowSucc(x, e + 1);
    if Red(x) != 0 {
      FieldFermat(x);
    } else {
      ZeroTimes(x, FPow(x, e));
    }
  }

  lemma FPowSucc(x: nat, n: nat)
    ensures FPow(x, n + 1) == FMul(x, FPow(x, n))
  {
  }

  lemma ZeroTimes(x: nat, y: nat)
    requires Red(x) == 0
    ensures FMul(x, y) == 0 && FMul(y, x) == 0
  {
    FMulComm(x, y);
    RedMulRight(y, x);
    assert y * Red(x) == 0;
  }

  // ---- rescaling ----

  lemma {:induction false} FactorsNotZero(k: nat, u: nat, n: nat)
    requires n <= 255 && Red(u) != 0
    ensures Red(Factors(k, u, n).0) != 0 && Red(Factors(k, u, n).1) != 0
    decreases 255 - n
  {
    FactorsStep(k, u, n);
    hide *;
    if n == 255 {
      FirstFactors(u);
    } else {
      FactorsNotZero(k, u, n + 1);
      var (m, l) := Factors(k, u, n + 1);
      PowersNotZero(l, m);
      PowersNotZero(m, l);
    }
  }

  lemma FirstFactors(u: nat)
    requires Red(u) != 0
    ensures Red(1) != 0 && Red(FMul(4, u)) != 0
  {
    OneAndFour();
    hide *;
    NonZero(4, u);
  }

  lemma OneAndFour()
    ensures Red(1) != 0 && Red(4) != 0
  {
  }

  lemma FactorsStep(k: nat, u: nat, n: nat)
    requires n <= 255
    ensures n == 255 ==> Factors(k, u, n) == (1, FMul(4, u))
    ensures n < 255 ==> var (m, l) := Factors(k, u, n + 1);
                        Factors(k, u, n) == if Bit(k, n) then (Sq(FMul(m, l)), Sq(Sq(l)))
                                            else (Sq(Sq(m)), Sq(FMul(l, m)))
  {
    hide Bit, FMul;
  }

  lemma PowersNotZero(m: nat, l: nat)
    requires Red(m) != 0 && Red(l) != 0
    ensures Red(Sq(Sq(m))) != 0 && Red(Sq(FMul(l, m))) != 0
  {
    hide Red, FMul;
    NonZero(l, m);
    NonZero(FMul(l, m), FMul(l, m));
    NonZero(m, m);
    NonZero(Sq(m), Sq(m));
  }

  lemma NonZero(x: nat, y: nat)
    requires Red(x) != 0 && Red(y) != 0
    ensures Red(FMul(x, y)) != 0
  {
    NoZeroDivisors(x, y);
    RedRed(x * y);
  }

  /** The value of a projective point. */
  function Affine(s: Ladder): nat {
    FMul(FPow(s.z2, 0x7fffffff_ffffffff_ffffffff_ffffffff_ffffffff_ffffffff_ffffffff_ffffffeb), s.x2)
  }

  lemma {:induction false} RescalingKeepsAffine(m: nat, l: nat, s: Ladder)
    requires Red(m) != 0
    ensures Affine(Scale(m, l, s)) == Affine(s)
  {
    var e := 0x7fffffff_ffffffff_ffffffff_ffffffff_ffffffff_ffffffff_ffffffff_ffffffeb;
    FieldFermat(m);
    FPowSucc(m, e);
    hide FPow, FMul, Red;
    FPowMul(m, s.z2, e);
    FMulFour(FPow(m, e), FPow(s.z2, e), m, s.x2);
    FMulComm(FPow(m, e), m);
    OneTimes(FPow(s.z2, e), s.x2);
  }

  lemma OneTimes(x: nat, y: nat)
    ensures FMul(1, FMul(x, y)) == FMul(x, y)
  {
    hide Red;
    FMulOne(FMul(x, y));
    RedRed(x * y);
  }

  // ---- the point u = 0 ----

  /** From u = 0 the ladder never leaves the points with z = 0, or the first two. */
  lemma {:induction false} ZeroLadder(k: nat, u: nat, bits: nat, n: nat)
    requires n < bits && Red(u) == 0
    ensures Run(k, u, bits, n).z2 == 0 && Run(k, u, bits, n).z3 == 0
    decreases bits - n
  {
    var t := Run(k, u, bits, n + 1);
    if n + 1 < bits {
      ZeroLadder(k, u, bits, n + 1);
    }
    assert n + 1 == bits ==> t == Ladder(1, 0, 0, 1);
    hide Step, Run, Bit, Red;
    ZeroStep(Swap(Bit(k, n), t));
    RunStep(k, u, bits, n);
  }

  lemma RunStep(k: nat, u: nat, bits: nat, n: nat)
    requires n < bits
    ensures Run(k, u, bits, n) == Swap(Bit(k, n), Step(Red(u), Swap(Bit(k, n), Run(k, u, bits, n + 1))))
  {
  }

  lemma ZeroStep(s: Ladder)
    requires s.z2 == 0 || (s.x2 == 0 && s.z2 == 1)
    ensures Step(0, s).z2 == 0 && Step(0, s).z3 == 0
  {
    var a, b := FAdd(s.x2, s.z2), FSub(s.x2, s.z2);
    SameSquares(s.x2, s.z2);
    var e := FSub(FMul(a, a), FMul(b, b));
    hide Red, FMul, FAdd, FSub;
    FMulZero(FAdd(FMul(a, a), FMul(121665, e)));
    FMulZero(FMul(FSub(FMul(FSub(s.x3, s.z3), a), FMul(FAdd(s.x3, s.z3), b)),
                  FSub(FMul(FSub(s.x3, s.z3), a), FMul(FAdd(s.x3, s.z3), b))));
  }

  lemma SameSquares(x: nat, z: nat)
    requires z == 0 || (x == 0 && z == 1)
    ensures FSub(FMul(FAdd(x, z), FAdd(x, z)), FMul(FSub(x, z), FSub(x, z))) == 0
  {
    if z != 0 {
      assert FSub(0, 1) == Red(-1) && FAdd(0, 1) == Red(1) by { hide Red; }
      hide Red, FMul;
      RedMulOne();
      SubSelf(FMul(Red(1), Red(1)));
    } else {
      SubSelf(FMul(FAdd(x, 0), FAdd(x, 0)));
    }
  }

  lemma RedMulOne()
    ensures FMul(Red(-1), Red(-1)) == FMul(Red(1), Red(1))
  {
    hide Red;
    RedMul(-1, -1);
    RedMul(1, 1);
    assert -1 * -1 == 1 * 1;
  }

  lemma SubSelf(x: nat)
    ensures FSub(x, x) == 0
  {
  }

  lemma InfinityAffine(s: Ladder)
    requires s.z2 == 0
    ensures Affine(s) == 0
  {
    InverseOf(0);
    assert Red(0) == 0;
    hide Red, FMul, FPow;
    FMulZero(s.x2);
  }

  lemma ZeroAffine(k: nat, u: nat, bits: nat)
    requires bits > 0 && Red(u) == 0
    ensures Affine(Run(k, u, bits, 0)) == 0
  {
    hide *;
    ZeroLadder(k, u, bits, 0);
    InfinityAffine(Run(k, u, bits, 0));
  }

  /** One step more on a leading zero bit changes nothing in the end. */
  lemma ExtraStepKeepsAffine(k: nat, u: nat)
    requires !Bit(k, 255)
    ensures Affine(Run(k, u, 256, 0)) == Affine(Run(k, u, 255, 0))
  {
    RedRed(u);
    hide Red, Bit, Run, Affine;
    if Red(u) == 0 {
      ZeroAffine(k, u, 256);
      ZeroAffine(k, u, 255);
    } else {
      ExtraStepRescales(k, u, 0);
      FactorsNotZero(k, Red(u), 0);
      RescalingKeepsAffine(Factors(k, Red(u), 0).0, Factors(k, Red(u), 0).1, Run(k, u, 255, 0));
    }
  }

  // ---- the scalar 1 ----

  /** The points the ladder starts from. */
  function Start(u: nat): Ladder { Ladder(1, 0, Red(u), 1) }

  lemma ScaleTwice(m: nat, l: nat, m': nat, l': nat, s: Ladder)
    ensures Scale(m, l, Scale(m', l', s)) == Scale(FMul(m, m'), FMul(l, l'), s)
  {
    hide FMul;
    FMulAssoc(m, m', s.x2);
    FMulAssoc(m, m', s.z2);
    FMulAssoc(l, l', s.x3);
    FMulAssoc(l, l', s.z3);
  }

  lemma ScaleByOne(u: nat)
    ensures Scale(1, 1, Start(u)) == Start(u) && Sq(Sq(1)) == 1 && FMul(1, 1) == 1
  {
    hide Red, FMul;
    RedOne();
    RedRed(u);
    FMulOne(Red(u));
    FMulOne(1);
    FMulZero(1);
    FMulComm(0, 1);
  }

  lemma RedOne()
    ensures Red(1) == 1
  {
  }

  /** Leading zeros only rescale the second point. */
  lemma {:induction false} LeadingZeros(k: nat, u: nat, bits: nat, n: nat) returns (l: nat)
    requires n <= bits && forall i :: n <= i < bits ==> !Bit(k, i)
    ensures Run(k, u, bits, n) == Scale(1, l, Start(u)) && (Red(u) != 0 ==> Red(l) != 0)
    decreases bits - n
  {
    hide Red, FMul, Step, Bit;
    OneAndFour();
    ScaleByOne(u);
    RedRed(u);
    if n == bits {
      l := 1;
    } else {
      var l' := LeadingZeros(k, u, bits, n + 1);
      RunStep(k, u, bits, n);
      hide Run;
      LeadingZeroStep(Red(u));
      StepScales(Red(u), 1, l', Start(u));
      var b := Sq(FMul(l', 1));
      ScaleTwice(1, b, 1, FMul(4, Red(u)), Start(u));
      l := FMul(b, FMul(4, Red(u)));
      if Red(u) != 0 {
        NonZero(l', 1);
        NonZero(FMul(l', 1), FMul(l', 1));
        NonZero(4, Red(u));
        NonZero(b, FMul(4, Red(u)));
      }
    }
  }

  /** The step on the bit 1: from (u : 1) and (1 : 0) to points of which the second is (4u^2 : 4u). */
  lemma LastStep(u: nat)
    requires Red(u) == u
    ensures Step(u, Ladder(u, 1, 1, 0)).x3 == FMul(FMul(4, u), u)
    ensures Step(u, Ladder(u, 1, 1, 0)).z3 == FMul(4, u)
  {
    var a, b := FAdd(u, 1), FSub(u, 1);
    assert FAdd(a, b) == FAdd(b, a) by { hide Red; }
    hide Red, FMul, FAdd, FSub;
    SumAndDifference(u);
    SmallResidues();
    FMulOne(a);
    FMulOne(b);
    FMulComm(u, 4);
    OppositeSquares(a, b);
  }

  lemma OppositeSquares(a: nat, b: nat)
    ensures Sq(FSub(a, b)) == Sq(FSub(b, a))
  {
    hide Red;
    RedMul(a - b, a - b);
    RedMul(b - a, b - a);
    assert (a - b) * (a - b) == (b - a) * (b - a);
  }

  lemma RatioAffine(w: nat, v: nat, s: Ladder)
    requires Red(w) != 0 && s.z2 == w && s.x2 == FMul(w, v)
    ensures Affine(s) == Red(v)
  {
    var i := FPow(w, 0x7fffffff_ffffffff_ffffffff_ffffffff_ffffffff_ffffffff_ffffffff_ffffffeb);
    InverseOf(w);
    hide FPow, FMul, Red;
    FMulAssoc(i, w, v);
    FMulComm(i, w);
    FMulOne(v);
  }

  lemma LastStepAffine(u: nat, l: nat)
    requires Red(u) == u != 0 && Red(l) != 0
    ensures Affine(Swap(true, Step(u, Swap(true, Scale(1, l, Start(u)))))) == u
  {
    var m := Ladder(u, 1, 1, 0);
    var t := Step(u, m);
    assert Swap(true, Scale(1, l, Start(u))) == Scale(l, 1, m) by { hide FMul, Red; }
    OneAndFour();
    LastStep(u);
    hide Red, FMul, Step, Affine, Sq, FPow;
    StepScales(u, l, 1, m);
    NonZero(1, l);
    SquareNotZero(FMul(1, l));
    RescalingKeepsAffine(Sq(FMul(1, l)), Sq(Sq(l)), Swap(true, t));
    assert Swap(true, Scale(Sq(Sq(l)), Sq(FMul(1, l)), t)) == Scale(Sq(FMul(1, l)), Sq(Sq(l)), Swap(true, t));
    NonZero(4, u);
    RatioAffine(FMul(4, u), u, Swap(true, t));
  }

  lemma SquareNotZero(x: nat)
    requires Red(x) != 0
    ensures Red(Sq(x)) != 0
  {
    NonZero(x, x);
  }

  /** The ladder for the scalar 1 gives the point back. */
  lemma OneGivesPoint(u: nat, bits: nat)
    requires bits > 0
    ensures Affine(Run(1, u, bits, 0)) == Red(u)
  {
    if Red(u) == 0 {
      hide *;
      ZeroAffine(1, u, bits);
    } else {
      BitsOfOne(bits);
      RunStep(1, u, bits, 0);
      RedRed(u);
      assert Start(Red(u)) == Start(u);
      hide *;
      var l := LeadingZeros(1, u, bits, 1);
      LastStepAffine(Red(u), l);
    }
  }

  lemma BitsOfOne(bits: nat)
    ensures Bit(1, 0) && forall i :: 1 <= i < bits ==> !Bit(1, i)
  {
    forall i | 1 <= i < bits ensures !Bit(1, i) {
      BitZero(i - 1);
    }
  }
}
