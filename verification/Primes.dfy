/** Fermat's little theorem, and a test that proves a number prime from a large prime factor of its
    predecessor. */
module Primes {
  import opened Arith

  function Rest(x: int, m: nat): nat
    requires m > 0
  {
    x % m
  }

  ghost predicate Divides(d: nat, n: int)
    requires d > 0
  {
    Rest(n, d) == 0
  }

  ghost predicate Prime(n: nat) { n > 1 && forall d: nat :: 1 < d < n ==> !Divides(d, n) }

  function Pow(x: nat, n: nat): nat { if n == 0 then 1 else x * Pow(x, n - 1) }

  // ---- remainders ----

  lemma RestIs(x: int, m: nat, q: int, r: nat)
    requires m > 0 && x == m * q + r && r < m
    ensures Rest(x, m) == r && x / m == q
  {
    DivModUnique(x, m, q, r);
  }

  lemma RestSplit(x: int, m: nat)
    requires m > 0
    ensures x == m * (x / m) + Rest(x, m) && Rest(x, m) < m
  {
  }

  lemma Quotient(x: nat, m: nat) returns (k: nat, a: nat)
    requires m > 0
    ensures x == m * k + a && a < m
  {
    k, a := x / m, x % m;
  }

  lemma RestSmall(x: nat, m: nat)
    requires x < m
    ensures Rest(x, m) == x
  {
  }

  lemma RestAdd(x: int, x': int, y: int, y': int, m: nat)
    requires m > 0 && Rest(x, m) == Rest(x', m) && Rest(y, m) == Rest(y', m)
    ensures Rest(x + y, m) == Rest(x' + y', m)
  {
    ModAdd(x, x', y, y', m);
  }

  lemma RestSub(x: int, x': int, y: int, y': int, m: nat)
    requires m > 0 && Rest(x, m) == Rest(x', m) && Rest(y, m) == Rest(y', m)
    ensures Rest(x - y, m) == Rest(x' - y', m)
  {
    ModSub(x, x', y, y', m);
  }

  lemma RestMul(x: int, x': int, y: int, y': int, m: nat)
    requires m > 0 && Rest(x, m) == Rest(x', m) && Rest(y, m) == Rest(y', m)
    ensures Rest(x * y, m) == Rest(x' * y', m)
  {
    ModMul(x, x', y, y', m);
  }

  lemma RestOfRest(x: int, m: nat)
    requires m > 0
    ensures Rest(Rest(x, m), m) == Rest(x, m)
  {
  }

  lemma MultipleDivides(d: nat, k: int)
    requires d > 0
    ensures Divides(d, d * k) && Divides(d, k * d)
  {
    DivModUnique(d * k, d, k, 0);
    assert k * d == d * k;
  }

  /** A multiple of a number that d divides. */
  lemma DividesProduct(d: nat, a: int, b: int)
    requires d > 0 && Divides(d, a)
    ensures Divides(d, a * b) && Divides(d, b * a)
  {
    RestMul(a, 0, b, b, d);
    RestSmall(0, d);
    assert a * b == b * a;
  }

  lemma DividesTrans(d: nat, s: nat, n: nat)
    requires d > 0 && s > 0 && Divides(d, s) && Divides(s, n)
    ensures Divides(d, n)
  {
    hide Prime;
    RestSplit(n, s);
    DividesProduct(d, s, n / s);
  }

  // ---- Euclid's lemma ----

  /** A prime that divides a * b but not a divides b: replace a by the remainder of the prime by a. */
  lemma {:induction false} EuclidBelow(s: nat, a: nat, b: int)
    requires Prime(s) && 0 < a < s && Divides(s, a * b)
    ensures Divides(s, b)
    decreases a
  {
    if a > 1 {
      var q, r := s / a, Rest(s, a);
      assert !Divides(a, s) && r > 0;
      assert s > 1;
      hide Prime, Rest;
      RestSplit(s, a);
      RestTimes(s, a, q, r, b);
      EuclidBelow(s, r, b);
    } else {
      assert a * b == b;
    }
  }

  lemma RestTimes(s: nat, a: nat, q: nat, r: nat, b: int)
    requires s > 0 && s == a * q + r && Divides(s, a * b)
    ensures Divides(s, r * b)
  {
    hide Rest;
    MultipleDivides(s, b);
    DividesProduct(s, a * b, q);
    RestSmall(0, s);
    RestSub(s * b, 0, q * (a * b), 0, s);
    assert s * b == q * (a * b) + r * b by {
      assert (a * q + r) * b == (a * q) * b + r * b;
      assert (a * q) * b == q * (a * b);
    }
  }

  lemma Euclid(s: nat, a: int, b: int)
    requires Prime(s) && Divides(s, a * b) && !Divides(s, a)
    ensures Divides(s, b)
  {
    assert s > 1;
    var r := Rest(a, s);
    assert r != 0;
    hide Prime, Rest;
    RestSplit(a, s);
    RestOfRest(a, s);
    RestMul(r, a, b, b, s);
    EuclidBelow(s, r, b);
  }

  // ---- powers ----

  lemma PowSucc(x: nat, n: nat)
    ensures Pow(x, n + 1) == x * Pow(x, n)
  {
  }

  lemma TimesProduct(x: nat, a: nat, b: nat)
    ensures x * (a * b) == x * a * b
  {
  }

  lemma {:induction false} PowAdd(x: nat, m: nat, n: nat)
    ensures Pow(x, m + n) == Pow(x, m) * Pow(x, n)
    decreases m
  {
    if m > 0 {
      hide *;
      PowAdd(x, m - 1, n);
      PowSucc(x, m + n - 1);
      PowSucc(x, m - 1);
      TimesProduct(x, Pow(x, m - 1), Pow(x, n));
    }
  }

  lemma PowZero(x: nat)
    ensures Pow(x, 0) == 1 && Pow(x, 1) == x
  {
    assert Pow(x, 1) == x * Pow(x, 0);
  }

  /** Powers of a power that is 1 are 1. */
  lemma {:induction false} PowOfOne(x: nat, n: nat, k: nat, m: nat)
    requires m > 1 && Rest(Pow(x, n), m) == 1
    ensures Rest(Pow(x, n * k), m) == 1
    decreases k
  {
    hide Rest, Pow;
    RestSmall(1, m);
    if k == 0 {
      assert n * k == 0;
      PowZero(x);
    } else {
      PowOfOne(x, n, k - 1, m);
      Distributes(n, k);
      PowAdd(x, n, n * (k - 1));
      RestMul(Pow(x, n), 1, Pow(x, n * (k - 1)), 1, m);
    }
  }

  lemma Distributes(n: nat, k: nat)
    requires k > 0
    ensures n * k == n + n * (k - 1)
  {
  }

  /** What is left of a power after a part that is 1. */
  lemma PowRest(x: nat, n: nat, k: nat, r: nat, m: nat)
    requires m > 1 && Rest(Pow(x, n), m) == 1
    ensures Rest(Pow(x, n * k + r), m) == Rest(Pow(x, r), m)
  {
    hide Rest, Pow;
    PowOfOne(x, n, k, m);
    PowAdd(x, n * k, r);
    RestSmall(1, m);
    RestMul(Pow(x, n * k), 1, Pow(x, r), Pow(x, r), m);
  }

  // ---- the binomial theorem ----

  function Choose(n: nat, k: nat): nat {
    if k == 0 then 1 else if n == 0 then 0 else Choose(n - 1, k - 1) + Choose(n - 1, k)
  }

  lemma {:induction false} Absorb(n: nat, k: nat)
    requires n > 0 && k > 0
    ensures k * Choose(n, k) == n * Choose(n - 1, k - 1)
    decreases n
  {
    if n == 1 {
      SingleChoice(k);
    } else {
      Absorb(n - 1, k);
      if k > 1 {
        Absorb(n - 1, k - 1);
      }
      AbsorbStep(n, k);
    }
  }

  lemma SingleChoice(k: nat)
    requires k > 0
    ensures k * Choose(1, k) == Choose(0, k - 1)
  {
  }

  lemma AbsorbStep(n: nat, k: nat)
    requires n > 1 && k > 0 && k * Choose(n - 1, k) == (n - 1) * Choose(n - 2, k - 1)
    requires k > 1 ==> (k - 1) * Choose(n - 1, k - 1) == (n - 1) * Choose(n - 2, k - 2)
    ensures k * Choose(n, k) == n * Choose(n - 1, k - 1)
  {
    var x, y, a := Choose(n - 1, k), Choose(n - 1, k - 1), Choose(n - 2, k - 1);
    assert Choose(n, k) == y + x;
    if k > 1 {
      var b := Choose(n - 2, k - 2);
      assert y == b + a;
      hide Choose;
      Regroup(n - 1, k - 1, a, b, x, y);
    } else {
      assert y == 1 == a;
    }
  }

  lemma Regroup(n: int, k: int, a: int, b: int, x: int, y: int)
    requires (k + 1) * x == n * a && k * y == n * b && y == b + a
    ensures (k + 1) * (y + x) == (n + 1) * y
  {
    assert n * (b + a) == n * b + n * a;
  }

  lemma {:induction false} ChooseBeyond(n: nat, k: nat)
    requires k > n
    ensures Choose(n, k) == 0
    decreases n
  {
    if n > 0 {
      ChooseBeyond(n - 1, k - 1);
      ChooseBeyond(n - 1, k);
    }
  }

  lemma {:induction false} ChooseAll(n: nat)
    ensures Choose(n, n) == 1
  {
    if n > 0 {
      ChooseAll(n - 1);
      ChooseBeyond(n - 1, n);
    }
  }

  /** The first m terms of (x + 1)^n. */
  function Terms(n: nat, m: nat, x: nat): nat
    decreases m
  {
    if m == 0 then 0 else Terms(n, m - 1, x) + Choose(n, m - 1) * Pow(x, m - 1)
  }

  lemma NoTerms(n: nat, x: nat)
    ensures Terms(n, 0, x) == 0 && Terms(n, 1, x) == 1
  {
  }

  lemma LastTerm(n: nat, m: nat, x: nat)
    ensures Terms(n, m + 1, x) == Terms(n, m, x) + Choose(n, m) * Pow(x, m)
  {
  }

  lemma {:induction false} TermsStep(n: nat, m: nat, x: nat)
    ensures Terms(n + 1, m + 1, x) == Terms(n, m + 1, x) + x * Terms(n, m, x)
    decreases m
  {
    if m == 0 {
      NoTerms(n, x);
      NoTerms(n + 1, x);
    } else {
      TermsStep(n, m - 1, x);
      var a, b, y := Choose(n, m - 1), Choose(n, m), Pow(x, m - 1);
      assert Choose(n + 1, m) == a + b && Pow(x, m) == x * y;
      LastTerm(n + 1, m, x);
      LastTerm(n, m, x);
      LastTerm(n, m - 1, x);
      hide Terms, Choose, Pow;
      Collect(Terms(n, m - 1, x), a, b, x, y);
    }
  }

  lemma Collect(t: int, a: int, b: int, x: int, y: int)
    ensures x * t + (a + b) * (x * y) == b * (x * y) + x * (t + a * y)
  {
    assert a * (x * y) == x * (a * y);
  }

  lemma {:induction false} Binomial(n: nat, x: nat)
    ensures Terms(n, n + 1, x) == Pow(x + 1, n)
  {
    if n == 0 {
      NoTerms(0, x);
    } else {
      Binomial(n - 1, x);
      TermsStep(n - 1, n, x);
      ChooseBeyond(n - 1, n);
      LastTerm(n - 1, n, x);
      PowSucc(x + 1, n - 1);
      var t := Terms(n - 1, n, x);
      hide *;
      assert (x + 1) * t == t + x * t;
    }
  }

  // ---- Fermat ----

  lemma ChooseDivisible(s: nat, k: nat)
    requires Prime(s) && 0 < k < s
    ensures Divides(s, Choose(s, k))
  {
    assert s > 1;
    hide *;
    Absorb(s, k);
    MultipleDivides(s, Choose(s - 1, k - 1));
    EuclidBelow(s, k, Choose(s, k));
  }

  /** Of the terms of (x + 1)^s before the last only the first is left. */
  lemma {:induction false} FirstTermLeft(s: nat, m: nat, x: nat)
    requires Prime(s) && 0 < m <= s
    ensures Rest(Terms(s, m, x), s) == 1
    decreases m
  {
    RestSmall(1, s);
    if m == 1 {
      NoTerms(s, x);
      hide *;
    } else {
      FirstTermLeft(s, m - 1, x);
      ChooseDivisible(s, m - 1);
      LastTerm(s, m - 1, x);
      assert s > 1;
      hide *;
      AddMultiple(s, Terms(s, m - 1, x), Choose(s, m - 1), Pow(x, m - 1));
    }
  }

  lemma AddMultiple(s: nat, t: int, a: int, b: int)
    requires s > 0 && Divides(s, a)
    ensures Rest(t + a * b, s) == Rest(t, s)
  {
    DividesProduct(s, a, b);
    RestSmall(0, s);
    hide Rest;
    RestAdd(t, t, a * b, 0, s);
  }

  lemma {:induction false} FermatPower(s: nat, x: nat)
    requires Prime(s)
    ensures Rest(Pow(x, s), s) == Rest(x, s)
    decreases x
  {
    if x == 0 {
      PowSucc(0, s - 1);
      hide *;
    } else {
      FermatPower(s, x - 1);
      Binomial(s, x - 1);
      FirstTermLeft(s, s, x - 1);
      ChooseAll(s);
      LastTerm(s, s, x - 1);
      RestSmall(1, s);
      hide *;
      RestAdd(Terms(s, s, x - 1), 1, Pow(x - 1, s), x - 1, s);
    }
  }

  /** Fermat's little theorem. */
  lemma Fermat(s: nat, x: nat)
    requires Prime(s) && !Divides(s, x)
    ensures Rest(Pow(x, s - 1), s) == 1
  {
    FermatPower(s, x);
    PowSucc(x, s - 1);
    assert s > 1;
    var y := Pow(x, s - 1);
    RestSmall(0, s);
    RestSmall(1, s);
    hide Prime, Pow, Rest;
    RestSub(x * y, x, x, x, s);
    assert x * y - x == x * (y - 1);
    Euclid(s, x, y - 1);
    RestAdd(y - 1, 0, 1, 1, s);
  }

  // ---- the test ----

  lemma {:induction false} OrderOne(s: nat, q: nat, a: nat, c: nat)
    requires s > 1 && Prime(q) && 0 < a < q && Rest(Pow(c, q), s) == 1 && Rest(Pow(c, a), s) == 1
    ensures Rest(c, s) == 1
    decreases a
  {
    if a == 1 {
      PowZero(c);
      hide *;
    } else {
      assert !Divides(a, q) && Rest(q, a) != 0;
      hide *;
      RestSplit(q, a);
      PowRest(c, a, q / a, Rest(q, a), s);
      OrderOne(s, q, Rest(q, a), c);
    }
  }

  lemma RestOfFactor(n: nat, s: nat, x: int)
    requires s > 1 && n > 0 && Divides(s, n) && Rest(x, n) == 1
    ensures Rest(x, s) == 1
  {
    RestSplit(x, n);
    RestSmall(1, s);
    hide Rest;
    AddMultiple(s, 1, n, x / n);
  }

  lemma NotDivisible(s: nat, c: nat, q: nat)
    requires s > 1 && q > 0 && Rest(Pow(c, q), s) == 1
    ensures !Divides(s, c)
  {
    PowSucc(c, q - 1);
    if Divides(s, c) {
      hide Rest, Pow;
      DividesProduct(s, c, Pow(c, q - 1));
    }
  }

  /** A number of prime order q modulo s: q divides s - 1. */
  lemma OrderDivides(s: nat, q: nat, c: nat)
    requires Prime(s) && Prime(q) && Rest(Pow(c, q), s) == 1 && Rest(c, s) != 1
    ensures Rest(s, q) == 1
  {
    assert s > 1 && q > 1;
    hide *;
    NotDivisible(s, c, q);
    Fermat(s, c);
    var k, a := Quotient(s - 1, q);
    OrderSplit(s, q, k, a, c);
  }

  lemma OrderSplit(s: nat, q: nat, k: nat, a: nat, c: nat)
    requires s > 1 && Prime(q) && q > 1 && q * k + a == s - 1 && a < q
    requires Rest(Pow(c, q), s) == 1 && Rest(c, s) != 1 && Rest(Pow(c, s - 1), s) == 1
    ensures Rest(s, q) == 1
  {
    hide *;
    if a > 0 {
      PowRest(c, q, k, a, s);
      OrderOne(s, q, a, c);
    } else {
      RestIs(s, q, k, 1);
    }
  }

  /** If c has order q modulo every prime factor of n, such a factor is 1 modulo q. */
  lemma FactorIsOne(n: nat, q: nat, c: nat, v: nat, s: nat)
    requires Prime(q) && n > 1 && Rest(Pow(c, q), n) == 1 && Rest((c - 1) * v, n) == 1
    requires Prime(s) && Divides(s, n)
    ensures Rest(s, q) == 1
  {
    assert s > 1;
    hide Prime, Pow, Rest;
    RestOfFactor(n, s, Pow(c, q));
    RestOfFactor(n, s, (c - 1) * v);
    if Rest(c, s) == 1 {
      NoInverse(s, c, v);
    }
    OrderDivides(s, q, c);
  }

  lemma NoInverse(s: nat, c: nat, v: nat)
    requires s > 1 && Rest(c, s) == 1
    ensures Rest((c - 1) * v, s) == 0
  {
    RestSmall(1, s);
    RestSmall(0, s);
    hide Rest;
    RestSub(c, 1, 1, 1, s);
    AddMultiple(s, 0, c - 1, v);
  }

  /** The least divisor from d on. */
  ghost function Least(n: nat, d: nat): (s: nat)
    requires 2 <= d <= n && forall e: nat :: 1 < e < d ==> !Divides(e, n)
    ensures d <= s <= n && Divides(s, n) && forall e: nat :: 1 < e < s ==> !Divides(e, n)
    decreases n - d
  {
    MultipleDivides(n, 1);
    if Divides(d, n) then d else Least(n, d + 1)
  }

  /** The least divisor is a prime. */
  lemma LeastIsPrime(n: nat) returns (s: nat, t: nat)
    requires n > 1
    ensures Prime(s) && Divides(s, n) && n == s * t && t > 0 && (s == n || t > 1)
  {
    hide Rest;
    s := Least(n, 2);
    t := n / s;
    RestSplit(n, s);
    forall d: nat | 1 < d < s ensures !Divides(d, s) {
      if Divides(d, s) {
        DividesTrans(d, s, n);
        assert false;
      }
    }
  }

  /** n is prime if q is a prime factor of n - 1 beyond its cube root, c has order q and c - 1 an inverse: two
      factors 1 + j q and 1 + k q would make the cofactor j + k + j k q. */
  lemma Pocklington(n: nat, q: nat, r: nat, c: nat, v: nat)
    requires Prime(q) && n == q * r + 1 && r / q + 1 < Rest(r, q)
    requires Rest(Pow(c, q), n) == 1 && Rest((c - 1) * v, n) == 1
    ensures Prime(n)
  {
    assert q > 1;
    hide *;
    LargerThanOne(n, q, r);
    var s, t := LeastIsPrime(n);
    if s != n {
      FactorIsOne(n, q, c, v, s);
      OtherFactor(n, q, r, s, t);
      RestSplit(s, q);
      RestSplit(t, q);
      PrimeAboveOne(s);
      TwoFactors(q, r, s / q, t / q, s, t);
      assert false;
    }
  }

  lemma PrimeAboveOne(s: nat)
    requires Prime(s)
    ensures s > 1
  {
  }

  lemma LargerThanOne(n: nat, q: nat, r: nat)
    requires q > 1 && n == q * r + 1 && r / q + 1 < Rest(r, q)
    ensures n > 1
  {
    RestSmall(0, q);
    assert r > 0;
    assert q * r > 0;
  }

  lemma OtherFactor(n: nat, q: nat, r: nat, s: nat, t: nat)
    requires q > 1 && n == q * r + 1 == s * t && Rest(s, q) == 1
    ensures Rest(t, q) == 1
  {
    RestSmall(1, q);
    hide Rest;
    RestIs(n, q, r, 1);
    RestMul(s, 1, t, t, q);
  }

  lemma TwoFactors(q: nat, r: nat, j: nat, k: nat, s: nat, t: nat)
    requires q > 1 && s == q * j + 1 && t == q * k + 1 && q * r + 1 == s * t && s > 1 && t > 1
    ensures r / q + 1 >= Rest(r, q)
  {
    assert j > 0 && k > 0;
    hide Rest;
    ProductOf(q, j, k);
    Cancel(q, r, j + k + q * (j * k));
    SumAtMost(j, k);
    QuotientAtLeast(q, r, j * k, j + k);
  }

  lemma ProductOf(q: nat, j: nat, k: nat)
    ensures (q * j + 1) * (q * k + 1) == q * (j + k + q * (j * k)) + 1
  {
    assert (q * j) * (q * k) == q * (q * (j * k));
  }

  lemma SumAtMost(j: nat, k: nat)
    requires j > 0 && k > 0
    ensures j + k <= j * k + 1
  {
    assert (j - 1) * (k - 1) >= 0;
  }

  lemma QuotientAtLeast(q: nat, r: nat, m: nat, d: nat)
    requires q > 0 && r == d + q * m && d <= m + 1
    ensures r / q + 1 >= Rest(r, q)
  {
    var e, f := d / q, d % q;
    DivModUnique(r, q, m + e, f);
  }

  lemma Cancel(q: nat, x: int, y: int)
    requires q > 0 && q * x == q * y
    ensures x == y
  {
    DivModUnique(q * x, q, x, 0);
    DivModUnique(q * y, q, y, 0);
  }
}
