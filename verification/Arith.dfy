/** Integer facts shared by the limb-arithmetic proofs: remainders under a fixed modulus. */
module Arith {

  /** Quotient and remainder are unique. */
  lemma DivModUnique(x: int, m: int, q: int, r: int)
    requires m > 0 && x == m * q + r && 0 <= r < m
    ensures x / m == q && x % m == r
  {
    var q', r' := x / m, x % m;
    assert m * (q - q') == r' - r;
    if q > q' {
      MulAtLeast(m, q - q');
    } else if q < q' {
      MulAtLeast(m, q' - q);
    }
  }

  lemma MulAtLeast(m: int, k: int)
    requires m > 0 && k >= 1
    ensures m * k >= m
  {
  }

  lemma ModAddMultiple(x: int, m: int, k: int)
    requires m > 0
    ensures (x + m * k) % m == x % m
  {
    DivModUnique(x + m * k, m, x / m + k, x % m);
  }

  /** Congruence is equality up to a multiple of the modulus. */
  lemma ModFromMultiple(x: int, y: int, m: int, k: int)
    requires m > 0 && x == y + m * k
    ensures x % m == y % m
  {
    ModAddMultiple(y, m, k);
  }

  lemma ModAdd(x: int, x': int, y: int, y': int, m: int)
    requires m > 0 && x % m == x' % m && y % m == y' % m
    ensures (x + y) % m == (x' + y') % m
  {
    ModFromMultiple(x + y, x' + y', m, x / m - x' / m + (y / m - y' / m));
  }

  lemma ModSub(x: int, x': int, y: int, y': int, m: int)
    requires m > 0 && x % m == x' % m && y % m == y' % m
    ensures (x - y) % m == (x' - y') % m
  {
    ModFromMultiple(x - y, x' - y', m, x / m - x' / m - (y / m - y' / m));
  }

  lemma ModMul(x: int, x': int, y: int, y': int, m: int)
    requires m > 0 && x % m == x' % m && y % m == y' % m
    ensures (x * y) % m == (x' * y') % m
  {
    ModMulLeft(x, x', y, m);
    ModMulLeft(y, y', x', m);
  }

  lemma ModMulLeft(x: int, x': int, y: int, m: int)
    requires m > 0 && x % m == x' % m
    ensures (x * y) % m == (x' * y) % m
  {
    var k := x / m - x' / m;
    assert x == x' + m * k;
    assert x * y == x' * y + m * (k * y) by {
      assert (x' + m * k) * y == x' * y + (m * k) * y;
      assert (m * k) * y == m * (k * y);
    }
    ModFromMultiple(x * y, x' * y, m, k * y);
  }

  lemma MulMono(x: int, x': int, y: int, y': int)
    requires 0 <= x <= x' && 0 <= y <= y'
    ensures 0 <= x * y <= x' * y'
  {
  }

  /** A product that a proof can treat as one symbol. */
  function Mul(x: nat, y: nat): nat { x * y }

  lemma Distribute(a: int, w: int, x: int, v: int)
    ensures a * (w * x + v) == a * w * x + a * v
  {
    assert a * (w * x) == a * w * x;
  }
}
