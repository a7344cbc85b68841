/** Integers modulo 2^255 - 19 and the Montgomery ladder of section 5 of RFC 7748. */
module Field25519 {
  import opened Arith
  import opened Bits

  /** The least residue modulo 2^255 - 19. */
  function Red(x: int): (r: nat)
    ensures r < 0x7fffffff_ffffffff_ffffffff_ffffffff_ffffffff_ffffffff_ffffffff_ffffffed
  {
    x % 0x7fffffff_ffffffff_ffffffff_ffffffff_ffffffff_ffffffff_ffffffff_ffffffed
  }

  function FAdd(x: int, y: int): nat { Red(x + y) }

  function FSub(x: int, y: int): nat { Red(x - y) }

  function FMul(x: int, y: int): nat { Red(x * y) }

  function FPow(x: int, n: nat): nat {
    if n == 0 then 1 else FMul(x, FPow(x, n - 1))
  }

  lemma RedAdd(x: int, y: int)
    ensures FAdd(Red(x), Red(y)) == Red(x + y)
  {
    ModAdd(Red(x), x, Red(y), y, 0x7fffffff_ffffffff_ffffffff_ffffffff_ffffffff_ffffffff_ffffffff_ffffffed);
  }

  lemma RedSub(x: int, y: int)
    ensures FSub(Red(x), Red(y)) == Red(x - y)
  {
    ModSub(Red(x), x, Red(y), y, 0x7fffffff_ffffffff_ffffffff_ffffffff_ffffffff_ffffffff_ffffffff_ffffffed);
  }

  lemma RedMul(x: int, y: int)
    ensures FMul(Red(x), Red(y)) == Red(x * y)
  {
    ModMul(Red(x), x, Red(y), y, 0x7fffffff_ffffffff_ffffffff_ffffffff_ffffffff_ffffffff_ffffffff_ffffffed);
  }

  lemma RedRed(x: int)
    ensures Red(Red(x)) == Red(x)
  {
  }

  /** A factor may be reduced first. */
  lemma RedMulRight(x: int, y: int)
    ensures FMul(x, Red(y)) == Red(x * y) && FMul(Red(y), x) == Red(x * y)
  {
    hide Red;
    RedRed(y);
    RedMul(x, Red(y));
    RedMul(x, y);
    assert y * x == x * y && x * Red(y) == Red(y) * x;
  }

  lemma FMulComm(x: int, y: int)
    ensures FMul(x, y) == FMul(y, x)
  {
  }

  lemma FMulAssoc(x: int, y: int, z: int)
    ensures FMul(FMul(x, y), z) == FMul(x, FMul(y, z))
  {
    hide Red;
    RedMulRight(z, x * y);
    RedMulRight(x, y * z);
    assert z * (x * y) == x * (y * z);
  }

  lemma FMulAdd(m: int, x: int, y: int)
    ensures FAdd(FMul(m, x), FMul(m, y)) == FMul(m, FAdd(x, y))
  {
    hide Red;
    RedAdd(m * x, m * y);
    RedMulRight(m, x + y);
    assert m * x + m * y == m * (x + y);
  }

  lemma FMulSub(m: int, x: int, y: int)
    ensures FSub(FMul(m, x), FMul(m, y)) == FMul(m, FSub(x, y))
  {
    hide Red;
    RedSub(m * x, m * y);
    RedMulRight(m, x - y);
    assert m * x - m * y == m * (x - y);
  }

  /** Products of products regroup. */
  lemma FMulFour(a: int, x: int, b: int, y: int)
    ensures FMul(FMul(a, x), FMul(b, y)) == FMul(FMul(a, b), FMul(x, y))
  {
    hide *;
    FMulAssoc(a, x, FMul(b, y));
    FMulAssoc(x, b, y);
    FMulComm(x, b);
    FMulAssoc(b, x, y);
    FMulAssoc(a, b, FMul(x, y));
  }

  lemma FSubTwice(x: int, y: int)
    ensures FSub(x, FSub(x, y)) == Red(y)
  {
    ModFromMultiple(x - FSub(x, y), y, 0x7fffffff_ffffffff_ffffffff_ffffffff_ffffffff_ffffffff_ffffffff_ffffffed,
                    (x - y) / 0x7fffffff_ffffffff_ffffffff_ffffffff_ffffffff_ffffffff_ffffffff_ffffffed);
  }

  lemma FMulOne(x: int)
    ensures FMul(1, x) == Red(x) && FMul(x, 1) == Red(x)
  {
  }

  lemma {:induction false} FPowAdd(x: int, m: nat, n: nat)
    ensures FMul(FPow(x, m), FPow(x, n)) == FPow(x, m + n)
  {
    hide Red;
    if m == 0 {
      FMulOne(FPow(x, n));
      FPowReduced(x, n);
    } else {
      FMulAssoc(x, FPow(x, m - 1), FPow(x, n));
      FPowAdd(x, m - 1, n);
    }
  }

  lemma FPowReduced(x: int, n: nat)
    ensures Red(FPow(x, n)) == FPow(x, n)
  {
    if n > 0 {
      RedRed(x * FPow(x, n - 1));
    }
  }

  lemma {:induction false} FPowMul(x: int, y: int, n: nat)
    ensures FPow(FMul(x, y), n) == FMul(FPow(x, n), FPow(y, n))
  {
    if n == 0 {
      FMulOne(1);
    } else {
      hide Red, FMul;
      FPowMul(x, y, n - 1);
      FMulFour(x, y, FPow(x, n - 1), FPow(y, n - 1));
    }
  }

  // ---- the ladder ----

  datatype Ladder = Ladder(x2: nat, z2: nat, x3: nat, z3: nat)

  function Swap(b: bool, s: Ladder): Ladder {
    if b then Ladder(s.x3, s.z3, s.x2, s.z2) else s
  }

  /** One ladder step, with the names of RFC 7748. */
  function Step(u: nat, s: Ladder): Ladder {
    var a := FAdd(s.x2, s.z2);
    var aa := FMul(a, a);
    var b := FSub(s.x2, s.z2);
    var bb := FMul(b, b);
    var e := FSub(aa, bb);
    var c := FAdd(s.x3, s.z3);
    var d := FSub(s.x3, s.z3);
    var da := FMul(d, a);
    var cb := FMul(c, b);
    Ladder(FMul(aa, bb),
           FMul(e, FAdd(aa, FMul(121665, e))),
           FMul(FAdd(da, cb), FAdd(da, cb)),
           FMul(u, FMul(FSub(da, cb), FSub(da, cb))))
  }

  /** The ladder over the bits of k from bits - 1 down to n, swapping around each step. */
  function Run(k: nat, u: nat, bits: nat, n: nat): Ladder
    requires n <= bits
    decreases bits - n
  {
    if n == bits then Ladder(1, 0, Red(u), 1)
    else Swap(Bit(k, n), Step(Red(u), Swap(Bit(k, n), Run(k, u, bits, n + 1))))
  }

  /** The loop of RFC 7748 as printed there: the swap back is deferred and merged with the next one. */
  function Deferred(k: nat, u: nat, bits: nat, n: nat): Ladder
    requires n <= bits
    decreases bits - n
  {
    if n == bits then Ladder(1, 0, Red(u), 1)
    else Step(Red(u), Swap(Bit(k, n) != (n + 1 < bits && Bit(k, n + 1)), Deferred(k, u, bits, n + 1)))
  }

  /** Deferring the swap changes nothing but when it happens. */
  lemma {:induction false} DeferredIsRun(k: nat, u: nat, bits: nat, n: nat)
    requires n <= bits
    ensures Run(k, u, bits, n) == Swap(n < bits && Bit(k, n), Deferred(k, u, bits, n))
    decreases bits - n
  {
    hide Step, Bit, Red;
    if n < bits {
      DeferredIsRun(k, u, bits, n + 1);
    }
  }

  // ---- the extra leading step ----

  /** The pair (x2 : z2) scaled by m and (x3 : z3) scaled by l: the same two projective points. */
  function Scale(m: nat, l: nat, s: Ladder): Ladder {
    Ladder(FMul(m, s.x2), FMul(m, s.z2), FMul(l, s.x3), FMul(l, s.z3))
  }

  function Sq(x: nat): nat { FMul(x, x) }

  /** A step maps rescaled points to rescaled points. */
  lemma StepScales(u: nat, m: nat, l: nat, s: Ladder)
    ensures Step(u, Scale(m, l, s)) == Scale(Sq(Sq(m)), Sq(FMul(l, m)), Step(u, s))
  {
    hide Red, FMul, FAdd, FSub;
    var a, b, c, d := FAdd(s.x2, s.z2), FSub(s.x2, s.z2), FAdd(s.x3, s.z3), FSub(s.x3, s.z3);
    FMulAdd(m, s.x2, s.z2);
    FMulSub(m, s.x2, s.z2);
    FMulAdd(l, s.x3, s.z3);
    FMulSub(l, s.x3, s.z3);
    FMulFour(m, a, m, a);
    FMulFour(m, b, m, b);
    FMulFour(l, d, m, a);
    FMulFour(l, c, m, b);
    var aa, bb, da, cb := FMul(a, a), FMul(b, b), FMul(d, a), FMul(c, b);
    var mm, lm := Sq(m), FMul(l, m);
    FMulFour(mm, aa, mm, bb);
    FMulSub(mm, aa, bb);
    var e := FSub(aa, bb);
    ScaleA24(mm, aa, e);
    FMulAdd(lm, da, cb);
    FMulSub(lm, da, cb);
    FMulFour(lm, FAdd(da, cb), lm, FAdd(da, cb));
    FMulFour(lm, FSub(da, cb), lm, FSub(da, cb));
    ScaleU(u, Sq(lm), Sq(FSub(da, cb)));
  }

  lemma ScaleA24(m: nat, aa: nat, e: nat)
    ensures FMul(FMul(m, e), FAdd(FMul(m, aa), FMul(121665, FMul(m, e))))
         == FMul(Sq(m), FMul(e, FAdd(aa, FMul(121665, e))))
  {
    hide Red, FMul, FAdd, FSub;
    FMulAssoc(121665, m, e);
    FMulComm(121665, m);
    FMulAssoc(m, 121665, e);
    FMulAdd(m, aa, FMul(121665, e));
    FMulFour(m, e, m, FAdd(aa, FMul(121665, e)));
  }

  lemma ScaleU(u: nat, m: nat, x: nat)
    ensures FMul(u, FMul(m, x)) == FMul(m, FMul(u, x))
  {
    hide Red, FMul;
    FMulAssoc(u, m, x);
    FMulComm(u, m);
    FMulAssoc(m, u, x);
  }

  /** How far 256 steps have rescaled the result of 255 steps: the factors of the two points. */
  function Factors(k: nat, u: nat, n: nat): (f: (nat, nat))
    requires n <= 255
    decreases 255 - n
  {
    if n == 255 then (1, FMul(4, u))
    else
      var (m, l) := Factors(k, u, n + 1);
      var (m', l') := if Bit(k, n) then (l, m) else (m, l);
      var (m2, l2) := (Sq(Sq(m')), Sq(FMul(l', m')));
      if Bit(k, n) then (l2, m2) else (m2, l2)
  }

  /** On a clear bit 255 the first of 256 steps takes (1 : 0) and (u : 1) to themselves, the second
      one multiplied through by 4u. */
  lemma LeadingZeroStep(u: nat)
    requires Red(u) == u
    ensures Step(u, Ladder(1, 0, u, 1)) == Scale(1, FMul(4, u), Ladder(1, 0, u, 1))
  {
    var c, d := FAdd(u, 1), FSub(u, 1);
    SumAndDifference(u);
    hide Red, FMul, FAdd, FSub;
    SmallResidues();
    FMulOne(c);
    FMulOne(d);
    FMulZero(FAdd(1, FMul(121665, 0)));
    FMulOne(0);
    FMulOne(FMul(4, u));
    FMulComm(u, 4);
    assert Step(u, Ladder(1, 0, u, 1)) == Ladder(1, 0, Sq(FAdd(d, c)), FMul(u, Sq(FSub(d, c))));
    assert Scale(1, FMul(4, u), Ladder(1, 0, u, 1)) == Ladder(1, 0, FMul(FMul(4, u), u), FMul(4, u));
  }

  /** ((u - 1) + (u + 1))^2 = 4u^2 and ((u - 1) - (u + 1))^2 = 4. */
  lemma SumAndDifference(u: nat)
    ensures var c, d := FAdd(u, 1), FSub(u, 1);
            && Red(c) == c && Red(d) == d
            && Sq(FAdd(d, c)) == FMul(FMul(4, u), u) && Sq(FSub(d, c)) == 4
            && Red(FMul(4, u)) == FMul(4, u)
  {
    hide Red;
    RedRed(u + 1);
    RedRed(u - 1);
    RedRed(4 * u);
    SquareOfSum(u);
    SquareOfDifference(u);
  }

  lemma SquareOfSum(u: nat)
    ensures Sq(FAdd(FSub(u, 1), FAdd(u, 1))) == FMul(FMul(4, u), u)
  {
    hide Red;
    RedAdd(u - 1, u + 1);
    assert (u - 1) + (u + 1) == 2 * u;
    assert FAdd(FSub(u, 1), FAdd(u, 1)) == Red(2 * u);
    RedMul(2 * u, 2 * u);
    RedMulRight(u, 4 * u);
    assert (2 * u) * (2 * u) == u * (4 * u);
  }

  lemma SquareOfDifference(u: nat)
    ensures Sq(FSub(FSub(u, 1), FAdd(u, 1))) == 4
  {
    hide Red;
    Difference(u);
    SquareOfMinusTwo();
  }

  lemma Difference(u: nat)
    ensures FSub(FSub(u, 1), FAdd(u, 1)) == Red(-2)
  {
    hide Red;
    RedSub(u - 1, u + 1);
    assert (u - 1) - (u + 1) == -2;
  }

  lemma SquareOfMinusTwo()
    ensures Sq(Red(-2)) == 4
  {
    assert Red(4) == 4;
    hide Red;
    RedMul(-2, -2);
    assert -2 * -2 == 4;
  }

  lemma FMulZero(x: int)
    ensures FMul(0, x) == 0
  {
    assert 0 * x == 0;
  }

  lemma SmallResidues()
    ensures Red(0) == 0 && Red(1) == 1 && Red(4) == 4
    ensures FAdd(1, 0) == 1 && FSub(1, 0) == 1 && FMul(1, 1) == 1 && FSub(1, 1) == 0
  {
  }

  /** The 256-step ladder of a scalar below 2^255 reaches the points of the 255-step ladder of
      RFC 7748, rescaled by known factors. */
  lemma {:induction false} ExtraStepRescales(k: nat, u: nat, n: nat)
    requires n <= 255 && !Bit(k, 255)
    ensures Run(k, u, 256, n) == Scale(Factors(k, Red(u), n).0, Factors(k, Red(u), n).1, Run(k, u, 255, n))
    decreases 255 - n
  {
    hide Red, Step, Bit, FMul;
    if n == 255 {
      RedRed(u);
      LeadingZeroStep(Red(u));
      assert Run(k, u, 256, 256) == Ladder(1, 0, Red(u), 1);
    } else {
      ExtraStepRescales(k, u, n + 1);
      var (m, l) := Factors(k, Red(u), n + 1);
      var s := Run(k, u, 255, n + 1);
      if Bit(k, n) {
        StepScales(Red(u), l, m, Swap(true, s));
      } else {
        StepScales(Red(u), m, l, s);
      }
    }
  }
}
