/** The curve and its twist: a ladder that starts on one of them never changes sides, so points on different
    sides have different results. */
module Twist25519 {
  import opened Bits
  import opened Field25519
  import opened Inverse25519

  // ---- the quadratic character ----

  /** 1 for squares, p - 1 for non-squares, 0 for 0. */
  function Chi(x: int): nat { FPow(Red(x), Half()) }

  /** (p - 1) / 2. */
  function Half(): nat { Red(-1) / 2 }

  lemma HalfIs()
    ensures Half() == 0x3fffffff_ffffffff_ffffffff_ffffffff_ffffffff_ffffffff_ffffffff_fffffff6
  {
  }

  /** Minus one. */
  function Neg(): nat { 0x7fffffff_ffffffff_ffffffff_ffffffff_ffffffff_ffffffff_ffffffff_ffffffec }

  lemma ChiMul(x: int, y: int)
    ensures Chi(x * y) == FMul(Chi(x), Chi(y))
  {
    RedMul(x, y);
    hide Red, FMul, FPow;
    FPowMul(Red(x), Red(y), Half());
    RedRed(x * y);
    assert Red(x * y) == FMul(Red(x), Red(y));
  }

  lemma ChiRed(x: int, y: int)
    requires Red(x) == Red(y)
    ensures Chi(x) == Chi(y)
  {
  }

  lemma ChiZero(x: int)
    requires Red(x) == 0
    ensures Chi(x) == 0
  {
    HalfIs();
    hide FPow, Red, Half;
    FPowSucc(0, Half() - 1);
    FMulZero(FPow(0, Half() - 1));
  }

  /** Its square is 1. */
  lemma ChiTwice(x: int)
    requires Red(x) != 0
    ensures FMul(Chi(x), Chi(x)) == 1
  {
    HalfIs();
    RedRed(x);
    hide Red, FMul, FPow, Half;
    FieldFermat(Red(x));
    FPowAdd(Red(x), Half(), Half());
  }

  lemma ChiValues(x: int)
    ensures Red(x) == 0 <==> Chi(x) == 0
    ensures Chi(x) == 0 || Chi(x) == 1 || Chi(x) == Neg()
  {
    if Red(x) == 0 {
      hide *;
      ChiZero(x);
    } else {
      ChiTwice(x);
      FPowReduced(Red(x), Half());
      RootsOfOne(Chi(x));
    }
  }

  lemma RootsOfOne(c: nat)
    requires FMul(c, c) == 1 && Red(c) == c
    ensures c == 1 || c == Neg()
  {
    if c != 1 && c != Neg() {
      assert c != 0 by { hide Red; FMulZero(0); }
      assert Red(c - 1) != 0 && Red(c + 1) != 0;
      ProductOfRoots(c);
      hide Red, FMul;
      NoZeroDivisors(c - 1, c + 1);
    }
  }

  lemma ProductOfRoots(c: nat)
    requires FMul(c, c) == 1 && c > 0
    ensures FMul(c - 1, c + 1) == 0
  {
    assert (c - 1) * (c + 1) == c * c - 1;
    RedOne();
    RedZero();
    hide Red;
    RedSub(c * c, 1);
    assert Red((c - 1) * (c + 1)) == FSub(Red(c * c), Red(1));
  }

  lemma RedZero()
    ensures FSub(1, 1) == 0 && Red(0) == 0
  {
  }

  lemma SignRules()
    ensures FMul(1, 1) == 1 && FMul(1, Neg()) == Neg() && FMul(Neg(), 1) == Neg() && FMul(Neg(), Neg()) == 1
  {
    RedOne();
    NegTwice();
    assert Red(Neg()) == Neg();
    hide Red, FMul, Neg;
    FMulOne(1);
    FMulOne(Neg());
  }

  lemma NegTwice()
    ensures FMul(Neg(), Neg()) == 1
  {
    assert Red(-1) == Neg();
    RedOne();
    hide Red, Neg;
    RedMul(-1, -1);
    assert -1 * -1 == 1;
  }

  /** The product of two of 0, 1 and -1. */
  function Times(a: nat, b: nat): nat { if a == 0 || b == 0 then 0 else if a == b then 1 else Neg() }

  lemma ChiProduct(x: int, y: int)
    ensures Chi(x * y) == Times(Chi(x), Chi(y))
  {
    hide Chi, FMul, Red, Neg;
    ChiMul(x, y);
    ChiValues(x);
    ChiValues(y);
    SignRules();
    FMulZero(Chi(x));
    FMulZero(Chi(y));
    FMulComm(Chi(x), 0);
  }

  lemma ChiSquare(x: int)
    ensures Chi(x * x) == if Red(x) == 0 then 0 else 1
  {
    hide Chi, Red, Neg;
    ChiProduct(x, x);
    ChiValues(x);
  }

  lemma {:induction false} NegPower(n: nat)
    ensures FPow(Neg(), n) == if n % 2 == 0 then 1 else Neg()
  {
    if n > 0 {
      NegPower(n - 1);
      FPowSucc(Neg(), n - 1);
      SignRules();
      hide FPow, FMul, Neg;
    }
  }

  /** -1 is a square. */
  lemma ChiNeg()
    ensures Chi(-1) == 1
  {
    RedMinusOne();
    HalfIs();
    hide FPow, Red, Neg, Half;
    NegPower(Half());
  }

  lemma RedMinusOne()
    ensures Red(-1) == Neg()
  {
  }

  /** A square root of -1. */
  function RootOfNeg(): nat { 0x2b832480_4fc1df0b_2b4d0099_3dfbd7a7_2f431806_ad2fe478_c4ee1b27_4a0ea0b0 }

  lemma RootSquared()
    ensures FMul(RootOfNeg(), RootOfNeg()) == Neg() && Red(RootOfNeg()) == RootOfNeg() && Red(1 + RootOfNeg()) != 0
  {
  }

  lemma ChiRoot()
    ensures Chi(RootOfNeg()) == Neg()
  {
    HalfIs();
    RootSquared();
    hide FPow, FMul, Red, Neg, RootOfNeg, Half;
    var q := Half() / 2;
    FPowAdd(RootOfNeg(), q, q);
    FPowMul(RootOfNeg(), RootOfNeg(), q);
    NegPower(q);
  }

  /** (1 + i)^2 = 2i, so 2 is no square, as i is none. */
  lemma ChiTwo()
    ensures Chi(2) == Neg()
  {
    var i := RootOfNeg();
    RootSquared();
    TwoRoot(i);
    assert Neg() > 1;
    hide Chi, FMul, Red, Neg, RootOfNeg;
    ChiRed((1 + i) * (1 + i), 2 * i);
    ChiSquare(1 + i);
    ChiProduct(2, i);
    ChiRoot();
    ChiValues(2);
  }

  lemma TwoRoot(i: nat)
    requires FMul(i, i) == Neg()
    ensures Red((1 + i) * (1 + i)) == Red(2 * i)
  {
    assert Red(-1) == Neg();
    assert (1 + i) * (1 + i) == (2 * i + 1) + i * i;
    hide Red, Neg;
    RedAdd(2 * i + 1, i * i);
    RedAdd(2 * i + 1, -1);
    assert (2 * i + 1) + -1 == 2 * i;
  }

  /** 486662^2 - 4 is twice a square. */
  lemma ChiDiscriminant()
    ensures Chi(236839902240) == Neg()
  {
    var r := 0x32709c5c_4ea21110_2d0703fd_0867d993_fd311fc6_4103d75f_2b4630cc_557d2519;
    assert Red(r) != 0 && Red(2 * (r * r)) == Red(236839902240);
    assert Neg() > 1;
    hide Chi, Red, Neg;
    ChiTwo();
    ChiSquare(r);
    ChiProduct(2, r * r);
    ChiRed(2 * (r * r), 236839902240);
  }

  // ---- the two sides ----

  function Factor(x: int, z: int): int { x * x + 486662 * x * z + z * z }

  /** z^4 times the right side of the curve's equation at x / z. */
  function Curve(x: int, z: int): int { x * z * Factor(x, z) }

  /** Its character. */
  function Side(x: nat, z: nat): nat { Times(Times(Chi(x), Chi(z)), Chi(Factor(x, z))) }

  /** Not on the curve, so on its twist, and no point of order four. */
  predicate OnTwist(x: nat, z: nat) { Side(x, z) == Neg() && Red(x - z) != 0 && Red(x + z) != 0 }

  /** On the curve. */
  predicate OnCurve(x: nat, z: nat) { Side(x, z) != Neg() }

  lemma ChiCurve(x: nat, z: nat)
    ensures Chi(Curve(x, z)) == Side(x, z)
  {
    hide Chi, Factor, Times;
    ChiProduct(x * z, Factor(x, z));
    ChiProduct(x, z);
  }

  // ---- doubling ----

  lemma DoubleX(u: nat, s: Ladder)
    ensures Step(u, s).x2 == Red((s.x2 * s.x2 - s.z2 * s.z2) * (s.x2 * s.x2 - s.z2 * s.z2))
  {
    hide Red;
    var x: int, z: int := s.x2, s.z2;
    RedMul(x + z, x + z);
    RedMul(x - z, x - z);
    RedMul((x + z) * (x + z), (x - z) * (x - z));
    DifferenceOfSquares(x, z);
  }

  lemma DifferenceOfSquares(x: int, z: int)
    ensures (x + z) * (x + z) * ((x - z) * (x - z)) == (x * x - z * z) * (x * x - z * z)
  {
    var d := (x + z) * (x - z);
    assert d == x * x - z * z;
    assert (x + z) * (x + z) * ((x - z) * (x - z)) == d * d;
  }

  lemma DoubleZ(u: nat, s: Ladder)
    ensures Step(u, s).z2 == Red(4 * Curve(s.x2, s.z2))
  {
    hide Red;
    var x: int, z: int := s.x2, s.z2;
    var aa, bb, e := (x + z) * (x + z), (x - z) * (x - z), 4 * (x * z);
    RedMul(x + z, x + z);
    RedMul(x - z, x - z);
    assert aa - bb == e;
    RedSub(aa, bb);
    RedMulRight(121665, e);
    RedAdd(aa, 121665 * e);
    RedMul(e, aa + 121665 * e);
    CurveOf(x, z);
  }

  lemma CurveOf(x: int, z: int)
    ensures var e := 4 * (x * z); e * ((x + z) * (x + z) + 121665 * e) == 4 * Curve(x, z)
  {
    var t := x * z;
    assert (x + z) * (x + z) + 121665 * (4 * t) == x * x + 486662 * t + z * z;
    assert 486662 * x * z == 486662 * t;
  }

  lemma ChiDoubleX(u: nat, s: Ladder)
    ensures Chi(Step(u, s).x2) == if Red(s.x2 - s.z2) == 0 || Red(s.x2 + s.z2) == 0 then 0 else 1
  {
    var d := s.x2 * s.x2 - s.z2 * s.z2;
    assert (s.x2 - s.z2) * (s.x2 + s.z2) == d;
    hide *;
    DoubleX(u, s);
    RedRed(d * d);
    ChiRed(Step(u, s).x2, d * d);
    ChiOfProductSquared(s.x2 - s.z2, s.x2 + s.z2);
  }

  lemma ChiOfProductSquared(a: int, b: int)
    ensures Chi(a * b * (a * b)) == if Red(a) == 0 || Red(b) == 0 then 0 else 1
  {
    NegIs();
    hide Chi, Red, Neg;
    ChiProduct(a * b, a * b);
    ChiProduct(a, b);
    ChiValues(a);
    ChiValues(b);
  }

  lemma ChiDoubleZ(u: nat, s: Ladder)
    ensures Chi(Step(u, s).z2) == Side(s.x2, s.z2)
  {
    assert Red(2) != 0;
    NegIs();
    hide Chi, Red, Step, Curve, Neg, Side;
    var w := Curve(s.x2, s.z2);
    DoubleZ(u, s);
    RedRed(4 * w);
    ChiRed(Step(u, s).z2, 4 * w);
    ChiSquare(2);
    ChiProduct(4, w);
    ChiValues(w);
    ChiCurve(s.x2, s.z2);
  }

  lemma NegIs()
    ensures Neg() > 1
  {
  }

  /** The quadratic factor of the curve's equation at a doubled point is a square. */
  lemma DoubledFactor(x: int, z: int)
    ensures var d, w := (x * x - z * z) * (x * x - z * z), 4 * Curve(x, z);
            var s, t := x * x + z * z, x * z;
            var g := s * s + 973324 * t * s + 4 * (t * t);
            Factor(d, w) == g * g
  {
    var s, t := x * x + z * z, x * z;
    var q := s + 486662 * t;
    assert Curve(x, z) == t * q by { assert 486662 * x * z == 486662 * t; }
    assert (x * x - z * z) * (x * x - z * z) == s * s - 4 * (t * t) by {
      assert t * t == (x * x) * (z * z);
    }
    FactorIdentity(s, t);
  }

  lemma FactorIdentity(s: int, t: int)
    ensures var d, w, g := s * s - 4 * (t * t), 4 * (t * (s + 486662 * t)), s * s + 973324 * t * s + 4 * (t * t);
            d * d + 486662 * d * w + w * w == g * g
  {
    var a, b, c := s * s, s * t, t * t;
    assert a * c == b * b by { assert (s * s) * (t * t) == (s * t) * (s * t); }
    assert t * (s + 486662 * t) == b + 486662 * c;
    assert 973324 * t * s == 973324 * b;
    Quadratic(a, b, c);
  }

  lemma Quadratic(a: int, b: int, c: int)
    requires a * c == b * b
    ensures var d, w, g := a - 4 * c, 4 * (b + 486662 * c), a + 973324 * b + 4 * c;
            d * d + 486662 * d * w + w * w == g * g
  {
  }

  lemma FactorCong(x: int, z: int, x': int, z': int)
    requires Red(x) == Red(x') && Red(z) == Red(z')
    ensures Red(Factor(x, z)) == Red(Factor(x', z'))
  {
    hide Red;
    ProductCong(x, x, x', x');
    ProductCong(z, z, z', z');
    ProductCong(486662, x, 486662, x');
    ProductCong(486662 * x, z, 486662 * x', z');
    SumCong(x * x, 486662 * x * z, x' * x', 486662 * x' * z');
    SumCong(x * x + 486662 * x * z, z * z, x' * x' + 486662 * x' * z', z' * z');
  }

  lemma ProductCong(x: int, y: int, x': int, y': int)
    requires Red(x) == Red(x') && Red(y) == Red(y')
    ensures Red(x * y) == Red(x' * y')
  {
    hide Red;
    RedMul(x, y);
    RedMul(x', y');
  }

  lemma SumCong(x: int, y: int, x': int, y': int)
    requires Red(x) == Red(x') && Red(y) == Red(y')
    ensures Red(x + y) == Red(x' + y')
  {
    hide Red;
    RedAdd(x, y);
    RedAdd(x', y');
  }

  lemma ChiDoubledFactor(u: nat, s: Ladder)
    ensures var x, z := Step(u, s).x2, Step(u, s).z2;
            Chi(Factor(x, z)) == if Red(Factor(x, z)) == 0 then 0 else 1
  {
    var e := s.x2 * s.x2 - s.z2 * s.z2;
    var b, t := s.x2 * s.x2 + s.z2 * s.z2, s.x2 * s.z2;
    DoubledFactor(s.x2, s.z2);
    hide Chi, Red, Step, Curve, Factor;
    SquareFactor(u, s, e * e, 4 * Curve(s.x2, s.z2), b * b + 973324 * t * b + 4 * (t * t));
  }

  lemma SquareFactor(u: nat, s: Ladder, d: int, w: int, g: int)
    requires d == (s.x2 * s.x2 - s.z2 * s.z2) * (s.x2 * s.x2 - s.z2 * s.z2) && w == 4 * Curve(s.x2, s.z2)
    requires Factor(d, w) == g * g
    ensures var x, z := Step(u, s).x2, Step(u, s).z2;
            Chi(Factor(x, z)) == if Red(Factor(x, z)) == 0 then 0 else 1
  {
    hide *;
    var x, z := Step(u, s).x2, Step(u, s).z2;
    DoubleX(u, s);
    DoubleZ(u, s);
    RedRed(d);
    RedRed(w);
    FactorCong(x, z, d, w);
    ChiRed(Factor(x, z), Factor(d, w));
    ChiSquare(g);
    ChiValues(Factor(x, z));
  }

  /** The factor is not zero where z is not: its discriminant is no square. */
  lemma FactorNotZero(x: int, z: int)
    requires Red(z) != 0
    ensures Red(Factor(x, z)) != 0
  {
    var f, r := Factor(x, z), 2 * x + 486662 * z;
    CompletedSquare(x, z);
    NegIs();
    RedZero();
    hide Chi, Red, Neg;
    if Red(f) == 0 {
      ProductCong(4, f, 4, 0);
      SumCong(4 * f, 236839902240 * (z * z), 0, 236839902240 * (z * z));
      ChiRed(r * r, 236839902240 * (z * z));
      ChiSquare(r);
      ChiSquare(z);
      ChiDiscriminant();
      ChiProduct(236839902240, z * z);
    }
  }

  lemma CompletedSquare(x: int, z: int)
    ensures var r := 2 * x + 486662 * z;
            r * r == 4 * Factor(x, z) + 236839902240 * (z * z)
  {
    var t := x * z;
    assert 486662 * x * z == 486662 * t;
    assert (2 * x + 486662 * z) * (2 * x + 486662 * z) == 4 * (x * x) + 1946648 * t + 236839902244 * (z * z);
  }

  /** Doubling stays on the twist, and gives a square over a non-square. */
  lemma DoubleOnTwist(u: nat, x: nat, z: nat, x3: nat, z3: nat)
    requires OnTwist(x, z)
    ensures var t := Step(u, Ladder(x, z, x3, z3));
            OnTwist(t.x2, t.z2) && Chi(t.x2) == 1 && Chi(t.z2) == Neg()
  {
    var s := Ladder(x, z, x3, z3);
    var x', z' := Step(u, s).x2, Step(u, s).z2;
    NegIs();
    hide Chi, Red, Step, Factor, Neg;
    ChiDoubleX(u, s);
    ChiDoubleZ(u, s);
    ChiValues(z');
    FactorNotZero(x', z');
    ChiDoubledFactor(u, s);
    DifferentSquares(x', z');
  }

  lemma DifferentSquares(x: nat, z: nat)
    requires Chi(x) == 1 && Chi(z) == Neg()
    ensures Red(x - z) != 0 && Red(x + z) != 0
  {
    hide *;
    NegIs();
    var y: int := z;
    assert -1 * y == -y && x - -y == x + y;
    ChiNeg();
    ChiProduct(-1, y);
    TimesOne(Chi(z));
    DifferentClasses(x, y);
    DifferentClasses(x, -y);
  }

  lemma TimesOne(a: nat)
    requires a == Neg()
    ensures Times(1, a) == a
  {
  }

  lemma DifferentClasses(x: int, y: int)
    requires Chi(x) != Chi(y)
    ensures Red(x - y) != 0
  {
    RedZero();
    hide Chi, Red;
    if Red(x - y) == 0 {
      SumCong(x - y, y, 0, y);
      ChiRed(x, y);
    }
  }

  lemma ProductNotZero(a: int, b: int)
    requires Red(a) != 0 && Red(b) != 0
    ensures Red(a * b) != 0
  {
    hide Chi, Red;
    ChiValues(a);
    ChiValues(b);
    ChiProduct(a, b);
    ChiValues(a * b);
    NegIs();
  }

  /** Doubling stays on the curve, and gives no non-square. */
  lemma DoubleOnCurve(u: nat, x: nat, z: nat, x3: nat, z3: nat)
    requires OnCurve(x, z)
    ensures var t := Step(u, Ladder(x, z, x3, z3));
            OnCurve(t.x2, t.z2) && Chi(t.x2) != Neg() && Chi(t.z2) != Neg()
  {
    var s := Ladder(x, z, x3, z3);
    var x', z' := Step(u, s).x2, Step(u, s).z2;
    NegIs();
    hide Chi, Red, Step, Factor, Neg;
    ChiDoubleX(u, s);
    ChiDoubleZ(u, s);
    ChiValues(z');
    ChiDoubledFactor(u, s);
  }

  // ---- the ladder for 2^254 ----

  /** The character of a projective point's value. */
  lemma ChiAffine(s: Ladder)
    ensures Chi(Affine(s)) == FMul(Chi(s.z2), Chi(s.x2))
  {
    var i := FPow(s.z2, 0x7fffffff_ffffffff_ffffffff_ffffffff_ffffffff_ffffffff_ffffffff_ffffffeb);
    InverseOf(s.z2);
    RedRed(i * s.x2);
    hide Chi, Red, FPow, Neg;
    ChiRed(Affine(s), i * s.x2);
    ChiMul(i, s.x2);
    ChiInverse(s.z2, i);
  }

  lemma ChiInverse(z: nat, i: nat)
    requires if Red(z) != 0 then FMul(z, i) == 1 else i == 0
    ensures Chi(i) == Chi(z)
  {
    RedZero();
    NegIs();
    hide Chi, FPow, Neg;
    ChiValues(z);
    ChiValues(i);
    if Red(z) != 0 {
      RedOne();
      hide Red;
      ChiRed(z * i, 1);
      ChiOne();
      ChiProduct(z, i);
    }
  }

  lemma ChiOne()
    ensures Chi(1) == 1
  {
    RedOne();
    hide Chi, Red;
    ChiSquare(1);
  }

  /** 2^254, by its bits. */
  predicate OnlyBit254(k: nat) { Bit(k, 254) && forall i :: 0 <= i < 254 ==> !Bit(k, i) }

  /** The first step: the point itself, as (4u^2 : 4u). */
  lemma FirstDouble(k: nat, u: nat)
    requires OnlyBit254(k)
    ensures var s := Run(k, u, 255, 254); s.z2 == FMul(4, Red(u)) && s.x2 == FMul(s.z2, Red(u))
  {
    assert Run(k, u, 255, 255) == Start(u);
    RunStep(k, u, 255, 254);
    RedRed(u);
    assert Bit(k, 254);
    hide Red, FMul, Step, Bit, Run, OnlyBit254;
    LastStep(Red(u));
  }

  lemma ScaledFactor(w: int, v: int)
    ensures Factor(w * v, w) == (w * w) * Factor(v, 1)
  {
    var a := w * w;
    assert (w * v) * (w * v) == a * (v * v);
    assert 486662 * (w * v) * w == a * (486662 * v);
    assert a * (v * v + 486662 * v + 1) == a * (v * v) + a * (486662 * v) + a;
  }

  /** A multiple of the point (u : 1) is on the side u is on. */
  lemma SameSide(u: nat, w: nat, x: nat)
    requires x == FMul(w, u) && Red(w) != 0
    ensures Side(x, w) == Side(u, 1)
  {
    RedRed(w * u);
    assert Red(x) == Red(w * u);
    ScaledFactor(w, u);
    NegIs();
    hide Chi, Red, Factor, FMul, Neg;
    ChiRed(x, w * u);
    ChiProduct(w, u);
    ChiValues(w);
    ChiValues(u);
    ChiOne();
    FactorCong(x, w, w * u, w);
    ChiRed(Factor(x, w), Factor(w * u, w));
    ChiSquare(w);
    ChiProduct(w * w, Factor(u, 1));
    ChiValues(Factor(u, 1));
  }

  /** w * u is w or -w exactly if u is 1 or -1. */
  lemma SameOrder(u: nat, w: nat, x: nat)
    requires x == FMul(w, u) && Red(w) != 0
    ensures Red(u - 1) != 0 ==> Red(x - w) != 0
    ensures Red(u + 1) != 0 ==> Red(x + w) != 0
  {
    RedRed(w * u);
    assert Red(x) == Red(w * u);
    assert w * (u - 1) == w * u - w && w * (u + 1) == w * u + w;
    hide Chi, Red, FMul;
    RedSub(x, w);
    RedSub(w * u, w);
    RedAdd(x, w);
    RedAdd(w * u, w);
    if Red(u - 1) != 0 {
      ProductNotZero(w, u - 1);
    }
    if Red(u + 1) != 0 {
      ProductNotZero(w, u + 1);
    }
  }

  lemma FirstNotZero(k: nat, u: nat)
    requires OnlyBit254(k) && Red(Red(u)) != 0
    ensures var s := Run(k, u, 255, 254); Red(s.z2) != 0 && s.x2 == FMul(s.z2, Red(u))
  {
    hide *;
    FirstDouble(k, u);
    OneAndFour();
    NonZero(4, Red(u));
  }

  lemma FirstOnTwist(k: nat, u: nat)
    requires OnlyBit254(k) && OnTwist(Red(u), 1)
    ensures OnTwist(Run(k, u, 255, 254).x2, Run(k, u, 255, 254).z2)
  {
    hide *;
    TwistParts(Red(u), 1);
    ChiValues(Red(u));
    FirstNotZero(k, u);
    SameSide(Red(u), Run(k, u, 255, 254).z2, Run(k, u, 255, 254).x2);
    SameOrder(Red(u), Run(k, u, 255, 254).z2, Run(k, u, 255, 254).x2);
    TwistParts(Run(k, u, 255, 254).x2, Run(k, u, 255, 254).z2);
  }

  lemma TwistParts(x: nat, z: nat)
    ensures OnTwist(x, z) <==> Side(x, z) == Neg() && Red(x - z) != 0 && Red(x + z) != 0
    ensures Side(x, z) == Neg() ==> Chi(x) != 0
  {
    hide Chi, Red, Factor, Neg;
    NegIs();
  }

  lemma FirstOnCurve(k: nat, u: nat)
    requires OnlyBit254(k) && OnCurve(Red(u), 1)
    ensures OnCurve(Run(k, u, 255, 254).x2, Run(k, u, 255, 254).z2)
  {
    var s := Run(k, u, 255, 254);
    NegIs();
    hide Chi, Red, Factor, FMul, Run, Neg, OnlyBit254;
    FirstDouble(k, u);
    ChiValues(s.z2);
    if Red(s.z2) != 0 {
      SameSide(Red(u), s.z2, s.x2);
    }
  }

  lemma {:induction false} StaysOnTwist(k: nat, u: nat, n: nat)
    requires OnlyBit254(k) && OnTwist(Red(u), 1) && n <= 254
    ensures var s := Run(k, u, 255, n);
            OnTwist(s.x2, s.z2) && (n < 254 ==> Chi(s.x2) == 1 && Chi(s.z2) == Neg())
    decreases 254 - n
  {
    hide Run, OnTwist, Step, Bit, Red, Chi, Neg;
    if n == 254 {
      FirstOnTwist(k, u);
    } else {
      StaysOnTwist(k, u, n + 1);
      RunStep(k, u, 255, n);
      var s := Run(k, u, 255, n + 1);
      DoubleOnTwist(Red(u), s.x2, s.z2, s.x3, s.z3);
    }
  }

  lemma {:induction false} StaysOnCurve(k: nat, u: nat, n: nat)
    requires OnlyBit254(k) && OnCurve(Red(u), 1) && n <= 254
    ensures var s := Run(k, u, 255, n);
            OnCurve(s.x2, s.z2) && (n < 254 ==> Chi(s.x2) != Neg() && Chi(s.z2) != Neg())
    decreases 254 - n
  {
    hide Run, OnCurve, Step, Bit, Red, Chi, Neg;
    if n == 254 {
      FirstOnCurve(k, u);
    } else {
      StaysOnCurve(k, u, n + 1);
      RunStep(k, u, 255, n);
      var s := Run(k, u, 255, n + 1);
      DoubleOnCurve(Red(u), s.x2, s.z2, s.x3, s.z3);
    }
  }

  /** Points on different sides have different results for the scalar 2^254. */
  lemma DifferentSides(k: nat, u: nat, v: nat)
    requires OnlyBit254(k) && OnTwist(Red(u), 1) && OnCurve(Red(v), 1)
    ensures Affine(Run(k, u, 255, 0)) != Affine(Run(k, v, 255, 0))
  {
    var s, t := Run(k, u, 255, 0), Run(k, v, 255, 0);
    NegIs();
    hide Run, OnTwist, OnCurve, OnlyBit254, Red, Chi, Neg, FMul, Affine;
    StaysOnTwist(k, u, 0);
    StaysOnCurve(k, v, 0);
    ChiAffine(s);
    ChiAffine(t);
    SignRules();
    ChiValues(t.x2);
    ChiValues(t.z2);
    FMulZero(Chi(t.x2));
    FMulZero(Chi(t.z2));
    FMulComm(Chi(t.z2), 0);
  }

  /** 1 is on the curve: its equation gives a square. */
  lemma OneOnCurve()
    ensures OnCurve(1, 1)
  {
    var r := 0x6be4f497_f9a9c2af_c21fa77a_d7f4a6ef_635a11c7_284a9363_e9a248ef_9c884415;
    assert Curve(1, 1) == 486664 && Red(r * r) == Red(486664);
    NegIs();
    hide Chi, Red, Neg, Side;
    ChiSquare(r);
    ChiRed(r * r, 486664);
    ChiCurve(1, 1);
  }

  /** 20 is on the twist: its equation gives twice a square. */
  lemma TwentyOnTwist()
    ensures OnTwist(20, 1)
  {
    var r := 0x507688e7_f5976463_8a3f1abd_cbcbff28_f66bdff8_80862683_cb84ed14_accd381f;
    assert Curve(20, 1) == 194672820 && Red(2 * (r * r)) == Red(194672820);
    assert Red(r) != 0 && Red(19) != 0 && Red(21) != 0;
    NegIs();
    hide Chi, Red, Neg, Side;
    ChiTwo();
    ChiSquare(r);
    ChiProduct(2, r * r);
    ChiRed(2 * (r * r), 194672820);
    ChiCurve(20, 1);
  }
}
