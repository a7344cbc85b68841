/** Bitwise operators on natural numbers, bit by bit.  Machine words are naturals in this model,
    so an operator that can leave the word is followed by an explicit remainder where it is used. */
module Bits {
  import opened Arith

  /** A 32-bit machine word. */
  type Word = x: int | 0 <= x < 0x1_0000_0000

  function Pow2(n: nat): (r: nat)
    ensures r > 0
  {
    if n == 0 then 1 else 2 * Pow2(n - 1)
  }

  function And(x: nat, y: nat): nat {
    if x == 0 || y == 0 then 0 else (x % 2) * (y % 2) + 2 * And(x / 2, y / 2)
  }

  function Or(x: nat, y: nat): nat {
    if x == 0 then y else if y == 0 then x
    else (if x % 2 == 1 || y % 2 == 1 then 1 else 0) + 2 * Or(x / 2, y / 2)
  }

  function Xor(x: nat, y: nat): nat {
    if x == 0 then y else if y == 0 then x
    else (if x % 2 != y % 2 then 1 else 0) + 2 * Xor(x / 2, y / 2)
  }

  /** Bit j of x. */
  predicate Bit(x: nat, j: nat) {
    if j == 0 then x % 2 == 1 else Bit(x / 2, j - 1)
  }

  lemma {:induction false} Pow2Add(m: nat, n: nat)
    ensures Pow2(m + n) == Pow2(m) * Pow2(n)
  {
    if m > 0 {
      Pow2Add(m - 1, n);
      var p, q := Pow2(m - 1), Pow2(n);
      assert 2 * (p * q) == (2 * p) * q;
    }
  }

  /** The powers that occur as constants in the code. */
  lemma Pow2Values()
    ensures Pow2(4) == 0x10 && Pow2(14) == 0x4000 && Pow2(20) == 0x100000
    ensures Pow2(8) == 0x100 && Pow2(16) == 0x10000 && Pow2(24) == 0x1000000 && Pow2(26) == 0x4000000
    ensures Pow2(32) == 0x1_0000_0000 && Pow2(64) == 0x1_0000_0000_0000_0000
    ensures Pow2(128) == 0x1_0000_0000_0000_0000_0000_0000_0000_0000
  {
    assert Pow2(2) == 4 && Pow2(4) == 0x10 && Pow2(6) == 0x40;
    Pow2Add(4, 4);
    Pow2Add(8, 6);
    Pow2Add(16, 4);
    Pow2Add(8, 8);
    Pow2Add(16, 8);
    Pow2Add(24, 2);
    Pow2Add(16, 16);
    Pow2Add(32, 32);
    Pow2Add(64, 64);
  }

  lemma {:induction false} Pow2Mono(m: nat, n: nat)
    requires m <= n
    ensures Pow2(m) <= Pow2(n)
  {
    if m < n {
      Pow2Mono(m, n - 1);
    }
  }

  /** x shifted right by k, and the k low bits of x. */
  function Shr(x: nat, k: nat): nat {
    if k == 0 then x else Shr(x / 2, k - 1)
  }

  function Low(x: nat, k: nat): nat {
    if k == 0 then 0 else x % 2 + 2 * Low(x / 2, k - 1)
  }

  lemma {:induction false} ShrLow(x: nat, k: nat)
    ensures Shr(x, k) == x / Pow2(k) && Low(x, k) == x % Pow2(k)
  {
    if k > 0 {
      ShrLow(x / 2, k - 1);
      HalvePow2(x, k);
    }
  }

  /** And splits at any bit position. */
  lemma {:induction false} AndSplit(x: nat, y: nat, k: nat)
    ensures And(x, y) == And(Low(x, k), Low(y, k)) + Pow2(k) * And(Shr(x, k), Shr(y, k))
  {
    if k > 0 {
      AndSplit(x / 2, y / 2, k - 1);
      AndUnfold(x, y);
      AndUnfold(Low(x, k), Low(y, k));
      DoubleMul(k, And(Shr(x, k), Shr(y, k)));
    }
  }

  lemma DoubleMul(k: nat, a: int)
    requires k > 0
    ensures Pow2(k) * a == 2 * (Pow2(k - 1) * a)
  {
  }

  lemma AndUnfold(x: nat, y: nat)
    ensures And(x, y) == (x % 2) * (y % 2) + 2 * And(x / 2, y / 2)
  {
    if x == 0 || y == 0 {
      assert (x % 2) * (y % 2) == 0;
    }
  }

  /** Dropping the low bit commutes with dividing and reducing by a power of two. */
  lemma HalvePow2(x: nat, k: nat)
    requires k > 0
    ensures x / Pow2(k) == x / 2 / Pow2(k - 1)
    ensures x % Pow2(k) / 2 == x / 2 % Pow2(k - 1)
    ensures x % Pow2(k) % 2 == x % 2
  {
    var m := Pow2(k - 1);
    var q, r := x / 2 / m, x / 2 % m;
    assert m * q + r == x / 2;
    assert x == Pow2(k) * q + (2 * r + x % 2) by {
      assert Pow2(k) * q == 2 * (m * q);
    }
    DivModUnique(x, Pow2(k), q, 2 * r + x % 2);
  }

  lemma Pow2Step(k: nat)
    ensures Pow2(k + 1) == 2 * Pow2(k) && Pow2(0) == 1
  {
  }

  /** And with an all-ones mask is the remainder. */
  lemma {:induction false} AndOnes(x: nat, k: nat)
    ensures And(x, Pow2(k) - 1) == x % Pow2(k)
  {
    hide And, Pow2;
    if k == 0 {
      Pow2Step(0);
      AndZero(x);
    } else {
      var m := Pow2(k - 1);
      Pow2Step(k - 1);
      AndOnes(x / 2, k - 1);
      AndUnfold(x, 2 * m - 1);
      HalvePow2(x, k);
      assert (2 * m - 1) / 2 == m - 1 && (2 * m - 1) % 2 == 1;
    }
  }

  lemma {:induction false} AndBound(x: nat, y: nat)
    ensures And(x, y) <= y && And(x, y) <= x
  {
    if x != 0 && y != 0 {
      AndBound(x / 2, y / 2);
      assert (x % 2) * (y % 2) <= y % 2 && (x % 2) * (y % 2) <= x % 2;
    }
  }

  /** Only the low bits of x matter under a mask below 2^k. */
  lemma AndLow(x: nat, y: nat, k: nat)
    requires y < Pow2(k)
    ensures And(x, y) == And(x % Pow2(k), y)
  {
    AndSplit(x, y, k);
    ShrLow(x, k);
    ShrLow(y, k);
    assert y / Pow2(k) == 0 && y % Pow2(k) == y by { DivModUnique(y, Pow2(k), 0, y); }
  }

  lemma OrUnfold(x: nat, y: nat)
    ensures Or(x, y) == (if x % 2 == 1 || y % 2 == 1 then 1 else 0) + 2 * Or(x / 2, y / 2)
  {
  }

  lemma XorUnfold(x: nat, y: nat)
    ensures Xor(x, y) == (if x % 2 != y % 2 then 1 else 0) + 2 * Xor(x / 2, y / 2)
  {
  }

  /** Or of numbers that share no bit position is their sum. */
  lemma {:induction false} OrDisjoint(x: nat, y: nat, k: nat)
    requires x < Pow2(k)
    ensures Or(x, Pow2(k) * y) == x + Pow2(k) * y
  {
    if k > 0 {
      OrDisjoint(x / 2, y, k - 1);
      DoubleMul(k, y);
      var z := Pow2(k - 1) * y;
      assert Pow2(k) * y == 2 * z;
      OrUnfold(x, 2 * z);
    }
  }

  lemma {:induction false} OrZero(x: nat)
    ensures Or(x, 0) == x && Or(0, x) == x
  {
  }

  lemma {:induction false} OrIsZero(x: nat, y: nat)
    ensures Or(x, y) == 0 <==> x == 0 && y == 0
  {
    OrUnfold(x, y);
    if x != 0 || y != 0 {
      OrIsZero(x / 2, y / 2);
    }
  }

  lemma AndZero(x: nat)
    ensures And(x, 0) == 0 && And(0, x) == 0
  {
  }

  lemma {:induction false} XorZero(x: nat)
    ensures Xor(x, 0) == x && Xor(0, x) == x
  {
  }

  lemma {:induction false} XorSelf(x: nat)
    ensures Xor(x, x) == 0
  {
    if x != 0 {
      XorSelf(x / 2);
    }
  }

  lemma {:induction false} XorBound(x: nat, y: nat, k: nat)
    requires x < Pow2(k) && y < Pow2(k)
    ensures Xor(x, y) < Pow2(k)
  {
    if k > 0 {
      XorBound(x / 2, y / 2, k - 1);
      XorUnfold(x, y);
    }
  }

  lemma {:induction false} OrBound(x: nat, y: nat, k: nat)
    requires x < Pow2(k) && y < Pow2(k)
    ensures Or(x, y) < Pow2(k)
  {
    if k > 0 {
      OrBound(x / 2, y / 2, k - 1);
      OrUnfold(x, y);
    }
  }

  /** Xor-ing the same value twice gives back the first operand. */
  lemma {:induction false} XorCancel(x: nat, y: nat)
    ensures Xor(Xor(x, y), y) == x && Xor(x, Xor(x, y)) == y
    decreases x + y
  {
    if x != 0 || y != 0 {
      XorCancel(x / 2, y / 2);
      XorUnfold(x, y);
      var z, h := Xor(x, y), Xor(x / 2, y / 2);
      assert z / 2 == h && z % 2 == if x % 2 != y % 2 then 1 else 0;
      XorUnfold(z, y);
      XorUnfold(x, z);
    }
  }

  lemma {:induction false} BitOr(x: nat, y: nat, j: nat)
    ensures Bit(Or(x, y), j) == (Bit(x, j) || Bit(y, j))
  {
    OrHalves(x, y);
    if j > 0 {
      BitOr(x / 2, y / 2, j - 1);
    }
  }

  lemma OrHalves(x: nat, y: nat)
    ensures Or(x, y) / 2 == Or(x / 2, y / 2)
    ensures Or(x, y) % 2 == 1 <==> x % 2 == 1 || y % 2 == 1
  {
    OrUnfold(x, y);
  }

  lemma {:induction false} BitZero(j: nat)
    ensures !Bit(0, j)
  {
    if j > 0 {
      BitZero(j - 1);
    }
  }

  lemma {:induction false} BitShr(x: nat, s: nat, j: nat)
    ensures Bit(Shr(x, s), j) == Bit(x, j + s)
  {
    if s > 0 {
      BitShr(x / 2, s - 1, j);
    }
  }

  lemma {:induction false} BitShl(x: nat, s: nat, j: nat)
    ensures Bit(Pow2(s) * x, j) == (j >= s && Bit(x, j - s))
  {
    if s > 0 {
      assert Pow2(s) * x == 2 * (Pow2(s - 1) * x);
      if j > 0 {
        BitShl(x, s - 1, j - 1);
      }
    }
  }

  lemma {:induction false} BitMod(x: nat, n: nat, j: nat)
    ensures Bit(x % Pow2(n), j) == (j < n && Bit(x, j))
  {
    if n == 0 {
      BitZero(j);
    } else {
      HalvePow2(x, n);
      if j > 0 {
        BitMod(x / 2, n - 1, j - 1);
      }
    }
  }

  /** A power of two has exactly one bit. */
  lemma {:induction false} BitPow2(s: nat, j: nat)
    ensures Bit(Pow2(s), j) == (j == s)
  {
    if s == 0 {
      if j > 0 {
        BitZero(j - 1);
      }
    } else if j > 0 {
      BitPow2(s - 1, j - 1);
    }
  }

  /** Masking with a single bit tests it. */
  lemma {:induction false} AndPow2(x: nat, t: nat)
    ensures And(x, Pow2(t)) != 0 <==> Bit(x, t)
  {
    AndUnfold(x, Pow2(t));
    if t > 0 {
      AndPow2(x / 2, t - 1);
    } else {
      AndZero(x / 2);
    }
  }
}
