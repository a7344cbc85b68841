/** The prime of the field: 2^255 - 19 is prime, by a chain of Pocklington certificates down to 991. */
module Prime25519 {
  import opened Primes

  /** c^k is x modulo n. */
  ghost predicate At(n: nat, c: nat, k: nat, x: nat) { n > 0 && Rest(Pow(c, k), n) == x }

  lemma AtStart(n: nat, c: nat)
    requires 1 < n && c < n
    ensures At(n, c, 0, 1) && At(n, c, 1, c)
  {
    PowZero(c);
    RestSmall(1, n);
    RestSmall(c, n);
  }

  /** Powers multiply. */
  lemma AtSum(n: nat, c: nat, j: nat, x: nat, k: nat, y: nat)
    requires At(n, c, j, x) && At(n, c, k, y)
    ensures At(n, c, j + k, Rest(x * y, n))
  {
    hide Pow, Rest;
    PowAdd(c, j, k);
    RestOfRest(Pow(c, j), n);
    RestOfRest(Pow(c, k), n);
    RestMul(x, Pow(c, j), y, Pow(c, k), n);
  }

  function Eighth(x: nat): nat { x * x * x * x * x * x * x * x }

  /** One octal digit of the exponent. */
  lemma AtOctal(n: nat, c: nat, k: nat, x: nat, e: nat, y: nat)
    requires At(n, c, k, x) && At(n, c, e, y)
    ensures At(n, c, 8 * k + e, Rest(Eighth(x) * y, n))
  {
    hide Pow, Rest;
    var x2, x4, x8 := Rest(x * x, n), Rest(Rest(x * x, n) * Rest(x * x, n), n), 0;
    AtSum(n, c, k, x, k, x);
    AtSum(n, c, 2 * k, x2, 2 * k, x2);
    AtSum(n, c, 4 * k, x4, 4 * k, x4);
    x8 := Rest(x4 * x4, n);
    AtSum(n, c, 8 * k, x8, e, y);
    RestOfRest(x * x, n);
    RestMul(x2, x * x, x2, x * x, n);
    RestOfRest(x2 * x2, n);
    RestMul(x4, x2 * x2, x4, x2 * x2, n);
    RestMul(x2 * x2, x * x * (x * x), x2 * x2, x * x * (x * x), n);
    RestOfRest(x4 * x4, n);
    EighthIs(x);
    RestMul(x8, Eighth(x), y, y, n);
  }

  lemma EighthIs(x: nat)
    ensures Eighth(x) == x * x * (x * x) * (x * x * (x * x))
  {
    var y := x * x;
    assert x * x * x * x == y * y;
    assert Eighth(x) == x * x * x * x * x * x * x * x;
    assert x * x * x * x * x * x == y * y * y;
    assert x * x * x * x * x * x * x * x == y * y * y * y;
    assert y * y * y * y == y * y * (y * y);
  }

  lemma AtIs(n: nat, c: nat, k: nat, x: nat)
    requires At(n, c, k, x)
    ensures n > 0 && Rest(Pow(c, k), n) == x
  {
  }

  // ---- the prime 991 ----

  lemma Prime991()
    ensures Prime(991)
  {
    var s, t := LeastIsPrime(991);
    if s != 991 {
      if s > 31 && t > 31 {
        AboveRoot(s, t);
      }
      MultipleDivides(s, t);
      MultipleDivides(t, s);
      NoSmallFactor(if s <= 31 then s else t);
    }
  }

  lemma AboveRoot(s: nat, t: nat)
    requires s > 31 && t > 31
    ensures s * t > 991
  {
    assert (s - 31) * (t - 31) > 0;
  }

  lemma NoSmallFactor(d: nat)
    requires 2 <= d <= 31
    ensures !Divides(d, 991)
  {
  }

  // ---- the prime 8574133 ----

  function P24(): nat { 0x82d4b5 }

  /** A number of order 991. */
  function C24(): nat { 0x346cd1 }

  lemma Times24(j: nat, x: nat, y: nat)
    requires At(P24(), C24(), j, x)
    requires x * 0x346cd1
               % 0x82d4b5 == y
    ensures At(P24(), C24(), j + 1, y)
  {
    AtStart(P24(), C24());
    assert Rest(x * C24(), P24()) == y;
    hide *;
    AtSum(P24(), C24(), j, x, 1, C24());
  }

  lemma Octal24(k: nat, x: nat, e: nat, y: nat, z: nat) returns (j: nat)
    requires At(P24(), C24(), k, x) && At(P24(), C24(), e, y)
    requires x * x * x * x * x * x * x * x * y
               % 0x82d4b5 == z
    ensures j == 8 * k + e && At(P24(), C24(), j, z)
  {
    assert Rest(Eighth(x) * y, P24()) == z;
    hide *;
    AtOctal(P24(), C24(), k, x, e, y);
    j := 8 * k + e;
  }

  lemma Powers24() returns (c0: nat, c1: nat, c2: nat, c3: nat, c4: nat, c5: nat, c6: nat, c7: nat)
    ensures c0 == 1 && c1 == 0x346cd1
    ensures c2 == 0x1d7e53
    ensures c3 == 0x730281
    ensures c4 == 0x3cfe10
    ensures c5 == 0x40bea0
    ensures c6 == 0x2d7028
    ensures c7 == 0x7c5d46
    ensures At(P24(), C24(), 0, c0) && At(P24(), C24(), 1, c1) && At(P24(), C24(), 2, c2)
    ensures At(P24(), C24(), 3, c3) && At(P24(), C24(), 4, c4) && At(P24(), C24(), 5, c5)
    ensures At(P24(), C24(), 6, c6) && At(P24(), C24(), 7, c7)
  {
    AtStart(P24(), C24());
    c0, c1 := 1, 0x346cd1;
    hide *;
    c2 := 0x1d7e53;
    Times24(1, c1, c2);
    c3 := 0x730281;
    Times24(2, c2, c3);
    c4 := 0x3cfe10;
    Times24(3, c3, c4);
    c5 := 0x40bea0;
    Times24(4, c4, c5);
    c6 := 0x2d7028;
    Times24(5, c5, c6);
    c7 := 0x7c5d46;
    Times24(6, c6, c7);
  }

  lemma Power24()
    ensures At(P24(), C24(), 991,
               1)
  {
    var c0, c1, c2, c3, c4, c5, c6, c7 := Powers24();
    hide *;
    var k := 0;
    var x0 := 1;
    var x1 := 0x346cd1; k := Octal24(k, x0, 1, c1, x1);
    var x2 := 0x67873c; k := Octal24(k, x1, 7, c7, x2);
    var x3 := 0x62fece; k := Octal24(k, x2, 3, c3, x3);
    var x4 := 1; k := Octal24(k, x3, 7, c7, x4);
  }

  lemma Inverse24()
    ensures Rest((C24() - 1) * 0xf79eb, P24()) == 1
  {
  }

  lemma Sizes24()
    ensures P24() == 991 * 0x21cc + 1
    ensures 0x21cc / 991 + 1 < Rest(0x21cc, 991)
  {
  }

  lemma Prime24()
    ensures Prime(P24())
  {
    Prime991();
    Power24();
    AtIs(P24(), C24(), 991, 1);
    Inverse24();
    Sizes24();
    hide *;
    Pocklington(P24(), 991, 0x21cc, C24(),
                0xf79eb);
  }

  // ---- the prime 1919519569386763 ----

  function P51(): nat { 0x6d1cafa129d0b }

  /** A number of order P24(). */
  function C51(): nat { 0x3c3ffdef7c0b1 }

  lemma Times51(j: nat, x: nat, y: nat)
    requires At(P51(), C51(), j, x)
    requires x * 0x3c3ffdef7c0b1
               % 0x6d1cafa129d0b == y
    ensures At(P51(), C51(), j + 1, y)
  {
    AtStart(P51(), C51());
    assert Rest(x * C51(), P51()) == y;
    hide *;
    AtSum(P51(), C51(), j, x, 1, C51());
  }

  lemma Octal51(k: nat, x: nat, e: nat, y: nat, z: nat) returns (j: nat)
    requires At(P51(), C51(), k, x) && At(P51(), C51(), e, y)
    requires x * x * x * x * x * x * x * x * y
               % 0x6d1cafa129d0b == z
    ensures j == 8 * k + e && At(P51(), C51(), j, z)
  {
    assert Rest(Eighth(x) * y, P51()) == z;
    hide *;
    AtOctal(P51(), C51(), k, x, e, y);
    j := 8 * k + e;
  }

  lemma Powers51() returns (c0: nat, c1: nat, c2: nat, c3: nat, c4: nat, c5: nat, c6: nat, c7: nat)
    ensures c0 == 1 && c1 == 0x3c3ffdef7c0b1
    ensures c2 == 0x158280d1c7fe9
    ensures c3 == 0x5d17f17b76d79
    ensures c4 == 0x8343f3dc7de5
    ensures c5 == 0x6b43a90746233
    ensures c6 == 0x39b5d4b9f687b
    ensures c7 == 0x149b8d8aeb6b4
    ensures At(P51(), C51(), 0, c0) && At(P51(), C51(), 1, c1) && At(P51(), C51(), 2, c2)
    ensures At(P51(), C51(), 3, c3) && At(P51(), C51(), 4, c4) && At(P51(), C51(), 5, c5)
    ensures At(P51(), C51(), 6, c6) && At(P51(), C51(), 7, c7)
  {
    AtStart(P51(), C51());
    c0, c1 := 1, 0x3c3ffdef7c0b1;
    hide *;
    c2 := 0x158280d1c7fe9;
    Times51(1, c1, c2);
    c3 := 0x5d17f17b76d79;
    Times51(2, c2, c3);
    c4 := 0x8343f3dc7de5;
    Times51(3, c3, c4);
    c5 := 0x6b43a90746233;
    Times51(4, c4, c5);
    c6 := 0x39b5d4b9f687b;
    Times51(5, c5, c6);
    c7 := 0x149b8d8aeb6b4;
    Times51(6, c6, c7);
  }

  lemma Power51()
    ensures At(P51(), C51(), 0x82d4b5,
               1)
  {
    var c0, c1, c2, c3, c4, c5, c6, c7 := Powers51();
    hide *;
    var k := 0;
    var x0 := 1;
    var x1 := 0x8343f3dc7de5; k := Octal51(k, x0, 4, c4, x1);
    var x2 := 0x612344a925350; k := Octal51(k, x1, 0, c0, x2);
    var x3 := 0x6bb9918006e92; k := Octal51(k, x2, 5, c5, x3);
    var x4 := 0x67339e4b07ecd; k := Octal51(k, x3, 5, c5, x4);
    var x5 := 0x6bd0e231a5cd1; k := Octal51(k, x4, 2, c2, x5);
    var x6 := 0x2741e82e93a2c; k := Octal51(k, x5, 2, c2, x6);
    var x7 := 0x29c454b86c6a2; k := Octal51(k, x6, 6, c6, x7);
    var x8 := 1; k := Octal51(k, x7, 5, c5, x8);
  }

  lemma Inverse51()
    ensures Rest((C51() - 1) * 0x495bef080ea35, P51()) == 1
  {
  }

  lemma Sizes51()
    ensures P51() == P24() * 0xd580922 + 1
    ensures 0xd580922 / P24() + 1 < Rest(0xd580922, P24())
  {
  }

  lemma Prime51()
    ensures Prime(P51())
  {
    Prime24();
    Power51();
    AtIs(P51(), C51(), P24(), 1);
    Inverse51();
    Sizes51();
    hide *;
    Pocklington(P51(), P24(), 0xd580922, C51(),
                0x495bef080ea35);
  }

  // ---- the prime 75445702479781427272750846543864801 ----

  function P116(): nat { 0xe87c2a477b815a1793787395b23e1 }

  /** A number of order P51(). */
  function C116(): nat { 0xaedd80ab27e8de3ca5f2fb22d5403 }

  lemma Times116(j: nat, x: nat, y: nat)
    requires At(P116(), C116(), j, x)
    requires x * 0xaedd80ab27e8de3ca5f2fb22d5403
               % 0xe87c2a477b815a1793787395b23e1 == y
    ensures At(P116(), C116(), j + 1, y)
  {
    AtStart(P116(), C116());
    assert Rest(x * C116(), P116()) == y;
    hide *;
    AtSum(P116(), C116(), j, x, 1, C116());
  }

  lemma Octal116(k: nat, x: nat, e: nat, y: nat, z: nat) returns (j: nat)
    requires At(P116(), C116(), k, x) && At(P116(), C116(), e, y)
    requires x * x * x * x * x * x * x * x * y
               % 0xe87c2a477b815a1793787395b23e1 == z
    ensures j == 8 * k + e && At(P116(), C116(), j, z)
  {
    assert Rest(Eighth(x) * y, P116()) == z;
    hide *;
    AtOctal(P116(), C116(), k, x, e, y);
    j := 8 * k + e;
  }

  lemma Powers116() returns (c0: nat, c1: nat, c2: nat, c3: nat, c4: nat, c5: nat, c6: nat, c7: nat)
    ensures c0 == 1 && c1 == 0xaedd80ab27e8de3ca5f2fb22d5403
    ensures c2 == 0xb0da74ed5d70949974a587c3858eb
    ensures c3 == 0x22f28959a6094f3ec9a3cec3753fd
    ensures c4 == 0xd7a8d470c94d453ede0028f0b211d
    ensures c5 == 0x59ec6dcc3c053361d0f01155ae364
    ensures c6 == 0x7b07abf2a0bdfa0b9dd400295ab
    ensures c7 == 0x8c7701b913a52825d97796e03def0
    ensures At(P116(), C116(), 0, c0) && At(P116(), C116(), 1, c1) && At(P116(), C116(), 2, c2)
    ensures At(P116(), C116(), 3, c3) && At(P116(), C116(), 4, c4) && At(P116(), C116(), 5, c5)
    ensures At(P116(), C116(), 6, c6) && At(P116(), C116(), 7, c7)
  {
    AtStart(P116(), C116());
    c0, c1 := 1, 0xaedd80ab27e8de3ca5f2fb22d5403;
    hide *;
    c2 := 0xb0da74ed5d70949974a587c3858eb;
    Times116(1, c1, c2);
    c3 := 0x22f28959a6094f3ec9a3cec3753fd;
    Times116(2, c2, c3);
    c4 := 0xd7a8d470c94d453ede0028f0b211d;
    Times116(3, c3, c4);
    c5 := 0x59ec6dcc3c053361d0f01155ae364;
    Times116(4, c4, c5);
    c6 := 0x7b07abf2a0bdfa0b9dd400295ab;
    Times116(5, c5, c6);
    c7 := 0x8c7701b913a52825d97796e03def0;
    Times116(6, c6, c7);
  }

  lemma Power116Part1()
    ensures At(P116(), C116(), 0x6d1cafa,
               0x2b80db59644f026a0903288aaaa5d)
  {
    var c0, c1, c2, c3, c4, c5, c6, c7 := Powers116();
    hide *;
    var k := 0;
    var x0 := 1;
    var x1 := 0x7b07abf2a0bdfa0b9dd400295ab; k := Octal116(k, x0, 6, c6, x1);
    var x2 := 0x9d0091ad15cf6e36495814c254374; k := Octal116(k, x1, 6, c6, x2);
    var x3 := 0x71f9ced5e7ced7df9a9a7c51912e1; k := Octal116(k, x2, 4, c4, x3);
    var x4 := 0x2f3ed96edb813d61b2da8bf51ce29; k := Octal116(k, x3, 3, c3, x4);
    var x5 := 0x311c7da706526c7b84452ad03a077; k := Octal116(k, x4, 4, c4, x5);
    var x6 := 0x14051b811dcd6cc4d88bd19834f2e; k := Octal116(k, x5, 5, c5, x6);
    var x7 := 0x3153b661018255cbd0a0f75054ca4; k := Octal116(k, x6, 3, c3, x7);
    var x8 := 0x2fa31f134f23bd7fd36f5d18337bc; k := Octal116(k, x7, 7, c7, x8);
    var x9 := 0x2b80db59644f026a0903288aaaa5d; k := Octal116(k, x8, 2, c2, x9);
  }

  lemma Power116()
    ensures At(P116(), C116(), 0x6d1cafa129d0b,
               1)
  {
    var c0, c1, c2, c3, c4, c5, c6, c7 := Powers116();
    Power116Part1();
    hide *;
    var k := 0x6d1cafa;
    var x0 := 0x2b80db59644f026a0903288aaaa5d;
    var x1 := 0x93b03ea99805f634625c94e0aedf8; k := Octal116(k, x0, 0, c0, x1);
    var x2 := 0x74d5f338e0a6231fe90cf6f410723; k := Octal116(k, x1, 4, c4, x2);
    var x3 := 0x8cda73d5157a5b35948e623134b41; k := Octal116(k, x2, 5, c5, x3);
    var x4 := 0x2b021a7ab552f243edc3ba9800c8e; k := Octal116(k, x3, 1, c1, x4);
    var x5 := 0x96b899fdc0647b954aaad72656e3d; k := Octal116(k, x4, 6, c6, x5);
    var x6 := 0x7ad56a78a8c4b8c1209fe3b3e6158; k := Octal116(k, x5, 4, c4, x6);
    var x7 := 0xa812cf0dbf2e7642952efba327e7a; k := Octal116(k, x6, 1, c1, x7);
    var x8 := 1; k := Octal116(k, x7, 3, c3, x8);
  }

  lemma Inverse116()
    ensures Rest((C116() - 1) * 0xe5e342b4c0a3d507894bab5f20e8b, P116()) == 1
  {
  }

  lemma Sizes116()
    ensures P116() == P51() * 0x2217588b6b4f717a0 + 1
    ensures 0x2217588b6b4f717a0 / P51() + 1 < Rest(0x2217588b6b4f717a0, P51())
  {
  }

  lemma Prime116()
    ensures Prime(P116())
  {
    Prime51();
    Power116();
    AtIs(P116(), C116(), P51(), 1);
    Inverse116();
    Sizes116();
    hide *;
    Pocklington(P116(), P51(), 0x2217588b6b4f717a0, C116(),
                0xe5e342b4c0a3d507894bab5f20e8b);
  }

  // ---- the prime 74058212732561358302231226437062788676166966415465897661863160754340907 ----

  function P236(): nat { 0xabaf8c6b094fd0f32c2ccabab864dbecd99144679c1adf804898fb2042b }

  /** A number of order P116(). */
  function C236(): nat { 0xa118eb0f9d8184bab59e8e45df736d65fba3c64f4aa855bc8921ac18308 }

  lemma Times236(j: nat, x: nat, y: nat)
    requires At(P236(), C236(), j, x)
    requires x * 0xa118eb0f9d8184bab59e8e45df736d65fba3c64f4aa855bc8921ac18308
               % 0xabaf8c6b094fd0f32c2ccabab864dbecd99144679c1adf804898fb2042b == y
    ensures At(P236(), C236(), j + 1, y)
  {
    AtStart(P236(), C236());
    assert Rest(x * C236(), P236()) == y;
    hide *;
    AtSum(P236(), C236(), j, x, 1, C236());
  }

  lemma Octal236(k: nat, x: nat, e: nat, y: nat, z: nat) returns (j: nat)
    requires At(P236(), C236(), k, x) && At(P236(), C236(), e, y)
    requires x * x * x * x * x * x * x * x * y
               % 0xabaf8c6b094fd0f32c2ccabab864dbecd99144679c1adf804898fb2042b == z
    ensures j == 8 * k + e && At(P236(), C236(), j, z)
  {
    assert Rest(Eighth(x) * y, P236()) == z;
    hide *;
    AtOctal(P236(), C236(), k, x, e, y);
    j := 8 * k + e;
  }

  lemma Powers236() returns (c0: nat, c1: nat, c2: nat, c3: nat, c4: nat, c5: nat, c6: nat, c7: nat)
    ensures c0 == 1 && c1 == 0xa118eb0f9d8184bab59e8e45df736d65fba3c64f4aa855bc8921ac18308
    ensures c2 == 0xa5ccf5d3db56ce62be5238a53085cf2ecc7232c8797eb546caaddfb617c
    ensures c3 == 0x8b4cf1d206f83670a1bd65b3b5531c0696ae852450b960b7180d25e9d0e
    ensures c4 == 0x7f92d2bbd72b0ab2069ee0dadb5e032496dc9be76aaf1f6cf127963d857
    ensures c5 == 0xd7159dcdf189cd01fc454237e6a6a03711e08027d7c49445cf526755ac
    ensures c6 == 0x27af71b22f9cc17ead7c37dcf55e24e4bcb65b3acbc33e665ea7ee5c4dd
    ensures c7 == 0x1c285ecdff9df456e8a2d1eda35f795e719047659a5285709f272407023
    ensures At(P236(), C236(), 0, c0) && At(P236(), C236(), 1, c1) && At(P236(), C236(), 2, c2)
    ensures At(P236(), C236(), 3, c3) && At(P236(), C236(), 4, c4) && At(P236(), C236(), 5, c5)
    ensures At(P236(), C236(), 6, c6) && At(P236(), C236(), 7, c7)
  {
    AtStart(P236(), C236());
    c0, c1 := 1, 0xa118eb0f9d8184bab59e8e45df736d65fba3c64f4aa855bc8921ac18308;
    hide *;
    c2 := 0xa5ccf5d3db56ce62be5238a53085cf2ecc7232c8797eb546caaddfb617c;
    Times236(1, c1, c2);
    c3 := 0x8b4cf1d206f83670a1bd65b3b5531c0696ae852450b960b7180d25e9d0e;
    Times236(2, c2, c3);
    c4 := 0x7f92d2bbd72b0ab2069ee0dadb5e032496dc9be76aaf1f6cf127963d857;
    Times236(3, c3, c4);
    c5 := 0xd7159dcdf189cd01fc454237e6a6a03711e08027d7c49445cf526755ac;
    Times236(4, c4, c5);
    c6 := 0x27af71b22f9cc17ead7c37dcf55e24e4bcb65b3acbc33e665ea7ee5c4dd;
    Times236(5, c5, c6);
    c7 := 0x1c285ecdff9df456e8a2d1eda35f795e719047659a5285709f272407023;
    Times236(6, c6, c7);
  }

  lemma Power236Part1()
    ensures At(P236(), C236(), 0x1d0f8548,
               0x3ebd9d5d55ca7513761120e402f7b2b4d5939bad7c4b6e0a39953e4a3e9)
  {
    var c0, c1, c2, c3, c4, c5, c6, c7 := Powers236();
    hide *;
    var k := 0;
    var x0 := 1;
    var x1 := 0x8b4cf1d206f83670a1bd65b3b5531c0696ae852450b960b7180d25e9d0e; k := Octal236(k, x0, 3, c3, x1);
    var x2 := 0x655b44735bea9793d26cfbf9ca08b390404b9898b7cf1e07232912a8115; k := Octal236(k, x1, 5, c5, x2);
    var x3 := 0x96b3210909a8c8117c615e847ef91d9bb7579d4c7da760f5028d0d749ee; k := Octal236(k, x2, 0, c0, x3);
    var x4 := 0x8c4d6986c02ced31ce7b901472c22d56dc72f9e4e6b86b514b041922c02; k := Octal236(k, x3, 3, c3, x4);
    var x5 := 0x66e62422dac05613028954ef8af6a89794fe4cb8fc39a01a67918ac4463; k := Octal236(k, x4, 7, c7, x5);
    var x6 := 0x574efbe0432d1bc1463bd79851e1159e6493f1f88ab6e3f87cc00b870f2; k := Octal236(k, x5, 0, c0, x6);
    var x7 := 0xa4221117ec614844a3207f77b9b3be05f68d922de37afd7a54e101a8de5; k := Octal236(k, x6, 2, c2, x7);
    var x8 := 0x63b8ebd93c11954871c32fc2e372d743a77edaff8020cfdc80700af7c9b; k := Octal236(k, x7, 5, c5, x8);
    var x9 := 0x45deae5d1733e9e844d8f1737a466b03c3269c73dc12c13607bd020f10c; k := Octal236(k, x8, 1, c1, x9);
    var x10 := 0x3ebd9d5d55ca7513761120e402f7b2b4d5939bad7c4b6e0a39953e4a3e9; k := Octal236(k, x9, 0, c0, x10);
  }

  lemma Power236Part2()
    ensures At(P236(), C236(), 0x743e1523bdc0ad0,
               0x6fa4d8eabfdcf11a306015cf431ce0f5ca2d1d066e00531ca107ef9c104)
  {
    var c0, c1, c2, c3, c4, c5, c6, c7 := Powers236();
    Power236Part1();
    hide *;
    var k := 0x1d0f8548;
    var x0 := 0x3ebd9d5d55ca7513761120e402f7b2b4d5939bad7c4b6e0a39953e4a3e9;
    var x1 := 0x8c4e4b1bd51e029a05cebe12fcd639608ca9d69136c13fec807f0df59f1; k := Octal236(k, x0, 7, c7, x1);
    var x2 := 0xa256c07ca7201adeaa71af560709965872f70b47bb573b9afc65c68e8f1; k := Octal236(k, x1, 3, c3, x2);
    var x3 := 0x1521b4139d59dd46e5565b9db568908af5f45f9eaeef2ebe1a7d5d9f911; k := Octal236(k, x2, 6, c6, x3);
    var x4 := 0x5a7ae6b65105339b61c12d319c3c1057b4b930f763c5b98b7d5373db59c; k := Octal236(k, x3, 7, c7, x4);
    var x5 := 0x4909b9ea2ec9a7b910cf3eb8bafb40f4867d33792b4378132e9998d4c8a; k := Octal236(k, x4, 0, c0, x5);
    var x6 := 0x826cb454bce2819745430223de1b84d36322a6db64e1542fc42e29adac0; k := Octal236(k, x5, 0, c0, x6);
    var x7 := 0xdb193a211c8411a640a2dc782009608f9d15f6db4a3705061675dcae21; k := Octal236(k, x6, 5, c5, x7);
    var x8 := 0x8c5a87bb28f66d2845b1dbad230965d7c341f1338e57e9e0e55bdae2de3; k := Octal236(k, x7, 3, c3, x8);
    var x9 := 0x3adf545ec73b51fedeb89bde091359c2417c7ff0a2a6cf0a26dc49f2e97; k := Octal236(k, x8, 2, c2, x9);
    var x10 := 0x6fa4d8eabfdcf11a306015cf431ce0f5ca2d1d066e00531ca107ef9c104; k := Octal236(k, x9, 0, c0, x10);
  }

  lemma Power236Part3()
    ensures At(P236(), C236(), 0x1d0f8548ef702b42f26f0e7,
               0x71b521f7b180d00e938ba880945963d153c59e511ca39a951bbbe6e0b3a)
  {
    var c0, c1, c2, c3, c4, c5, c6, c7 := Powers236();
    Power236Part2();
    hide *;
    var k := 0x743e1523bdc0ad0;
    var x0 := 0x6fa4d8eabfdcf11a306015cf431ce0f5ca2d1d066e00531ca107ef9c104;
    var x1 := 0x42a137b599d4ccaff49da9f7f91a3595e00e3c24721375b63d046801884; k := Octal236(k, x0, 5, c5, x1);
    var x2 := 0x13d8e5901f6c8ba1bab7a879e53b73cdeefe2764865bd0c251e5ea3c736; k := Octal236(k, x1, 7, c7, x2);
    var x3 := 0x4dbda4b7be7c597933d2c2e02ed65b14f8b8beb749fb71e27a01b85eac5; k := Octal236(k, x2, 1, c1, x3);
    var x4 := 0xdc15c24c992029e8c4e6786e220ee4015fd80b154bd30e5036f1c04e50; k := Octal236(k, x3, 1, c1, x4);
    var x5 := 0x1b38053a9c01248edb08b3a320656956ef9d30e027ff2e771a3ad53c1a6; k := Octal236(k, x4, 5, c5, x5);
    var x6 := 0x1647086a7fed5d421930ecffc127b37ccc7e8dff61932f69b557cd2d278; k := Octal236(k, x5, 7, c7, x6);
    var x7 := 0x576f3c4c28aec4e2460338906ab9ac647159bbe6483e87e60682c6b6c3; k := Octal236(k, x6, 0, c0, x7);
    var x8 := 0xa879d94320d3c13283e150de5974f6f506b02c944574488f3763b3a604b; k := Octal236(k, x7, 3, c3, x8);
    var x9 := 0x1f1faa2ad73d39374e4b9a14393289259e73ff1d149fd4c38a014fc8e2c; k := Octal236(k, x8, 4, c4, x9);
    var x10 := 0x71b521f7b180d00e938ba880945963d153c59e511ca39a951bbbe6e0b3a; k := Octal236(k, x9, 7, c7, x10);
  }

  lemma Power236()
    ensures At(P236(), C236(), 0xe87c2a477b815a1793787395b23e1,
               1)
  {
    var c0, c1, c2, c3, c4, c5, c6, c7 := Powers236();
    Power236Part3();
    hide *;
    var k := 0x1d0f8548ef702b42f26f0e7;
    var x0 := 0x71b521f7b180d00e938ba880945963d153c59e511ca39a951bbbe6e0b3a;
    var x1 := 0x1eef041bbbe4684ed28066981df940860160a7f2a67079c025a8bcc97ee; k := Octal236(k, x0, 1, c1, x1);
    var x2 := 0x2f1aad0673654ce104a16d68c2d269ca9db6af558e83ddb81b12f05e607; k := Octal236(k, x1, 2, c2, x2);
    var x3 := 0x8c36d937b7fb8d95297ae3f389bd5be20a467de384373d8a4fdd91c9628; k := Octal236(k, x2, 6, c6, x3);
    var x4 := 0x5afd89e3f5f0e9cf0d27a20fd9880b987003ab470ec2c75450aefb7672e; k := Octal236(k, x3, 6, c6, x4);
    var x5 := 0x430f5a0aceb9a83e8cecc8696a4a796abd5746ff3b4aad08f17e18a89f2; k := Octal236(k, x4, 2, c2, x5);
    var x6 := 0x593999941d53fa862093b8c1312ed5dd5da4c9cfee977a895d43bdb4496; k := Octal236(k, x5, 1, c1, x6);
    var x7 := 0x1dec702ff514def393a13de3791001b6fec476630ba72aca68d010bb15a; k := Octal236(k, x6, 7, c7, x7);
    var x8 := 0x5b12fd89764032e8cf229dcee5c41333b78d93fcce1b082fd78b6aa59d9; k := Octal236(k, x7, 4, c4, x8);
    var x9 := 1; k := Octal236(k, x8, 1, c1, x9);
  }

  lemma Inverse236()
    ensures Rest((C236() - 1) * 0xa35a14fb1452ddd0fca6eef50ac9bd9a369cab894104fc366d4fa595e38, P236()) == 1
  {
  }

  lemma Sizes236()
    ensures P236() == P116() * 0xbd0d14cf78e7521a329188e9fa496a + 1
    ensures 0xbd0d14cf78e7521a329188e9fa496a / P116() + 1 < Rest(0xbd0d14cf78e7521a329188e9fa496a, P116())
  {
  }

  lemma Prime236()
    ensures Prime(P236())
  {
    Prime116();
    Power236();
    AtIs(P236(), C236(), P116(), 1);
    Inverse236();
    Sizes236();
    hide *;
    Pocklington(P236(), P116(), 0xbd0d14cf78e7521a329188e9fa496a, C236(),
                0xa35a14fb1452ddd0fca6eef50ac9bd9a369cab894104fc366d4fa595e38);
  }

  // ---- the prime 57896044618658097711785492504343953926634992332820282019728792003956564819949 ----

  function P255(): nat { 0x7fffffffffffffffffffffffffffffffffffffffffffffffffffffffffffffed }

  /** A number of order P236(). */
  function C255(): nat { 0xf1ba0c491eeef83c49fc1b744331bb096d4893142c187431f7b03e61a75a49 }

  lemma Times255(j: nat, x: nat, y: nat)
    requires At(P255(), C255(), j, x)
    requires x * 0xf1ba0c491eeef83c49fc1b744331bb096d4893142c187431f7b03e61a75a49
               % 0x7fffffffffffffffffffffffffffffffffffffffffffffffffffffffffffffed == y
    ensures At(P255(), C255(), j + 1, y)
  {
    AtStart(P255(), C255());
    assert Rest(x * C255(), P255()) == y;
    hide *;
    AtSum(P255(), C255(), j, x, 1, C255());
  }

  lemma Octal255(k: nat, x: nat, e: nat, y: nat, z: nat) returns (j: nat)
    requires At(P255(), C255(), k, x) && At(P255(), C255(), e, y)
    requires x * x * x * x * x * x * x * x * y
               % 0x7fffffffffffffffffffffffffffffffffffffffffffffffffffffffffffffed == z
    ensures j == 8 * k + e && At(P255(), C255(), j, z)
  {
    assert Rest(Eighth(x) * y, P255()) == z;
    hide *;
    AtOctal(P255(), C255(), k, x, e, y);
    j := 8 * k + e;
  }

  lemma Powers255() returns (c0: nat, c1: nat, c2: nat, c3: nat, c4: nat, c5: nat, c6: nat, c7: nat)
    ensures c0 == 1 && c1 == 0xf1ba0c491eeef83c49fc1b744331bb096d4893142c187431f7b03e61a75a49
    ensures c2 == 0x709073d1ffed033997883f60abf9ed49b8362089b7f71c7d9dea1ea56f01adee
    ensures c3 == 0x4ea246ccb138e2f755443ef3daf40219e5fcbc7235ea23171ab32bdfd9ba1c66
    ensures c4 == 0x4a73efe20ace4e6a8ac99354cc7c9a4c1e9966f13e5a2190e4f390bbff381348
    ensures c5 == 0x342a7d325b0b1ff95b5e45ca9165b32067bc4e206eb80f25089a8b32c3d11a1d
    ensures c6 == 0x3d3fc701c8e6b9e7f0b235532bf759c935e72a55e9c35157ce5b09c238703c46
    ensures c7 == 0x586b0439ad17468a434b58f31120a166c8c0b3096db7be4504b4e2982a6f3354
    ensures At(P255(), C255(), 0, c0) && At(P255(), C255(), 1, c1) && At(P255(), C255(), 2, c2)
    ensures At(P255(), C255(), 3, c3) && At(P255(), C255(), 4, c4) && At(P255(), C255(), 5, c5)
    ensures At(P255(), C255(), 6, c6) && At(P255(), C255(), 7, c7)
  {
    AtStart(P255(), C255());
    c0, c1 := 1, 0xf1ba0c491eeef83c49fc1b744331bb096d4893142c187431f7b03e61a75a49;
    hide *;
    c2 := 0x709073d1ffed033997883f60abf9ed49b8362089b7f71c7d9dea1ea56f01adee;
    Times255(1, c1, c2);
    c3 := 0x4ea246ccb138e2f755443ef3daf40219e5fcbc7235ea23171ab32bdfd9ba1c66;
    Times255(2, c2, c3);
    c4 := 0x4a73efe20ace4e6a8ac99354cc7c9a4c1e9966f13e5a2190e4f390bbff381348;
    Times255(3, c3, c4);
    c5 := 0x342a7d325b0b1ff95b5e45ca9165b32067bc4e206eb80f25089a8b32c3d11a1d;
    Times255(4, c4, c5);
    c6 := 0x3d3fc701c8e6b9e7f0b235532bf759c935e72a55e9c35157ce5b09c238703c46;
    Times255(5, c5, c6);
    c7 := 0x586b0439ad17468a434b58f31120a166c8c0b3096db7be4504b4e2982a6f3354;
    Times255(6, c6, c7);
  }

  lemma Power255Part1()
    ensures At(P255(), C255(), 0x55d7c6358,
               0x2361e3cfd291e017e1654f76faa969916ee7e6e261523f1535610aa7121a92ec)
  {
    var c0, c1, c2, c3, c4, c5, c6, c7 := Powers255();
    hide *;
    var k := 0;
    var x0 := 1;
    var x1 := 0x709073d1ffed033997883f60abf9ed49b8362089b7f71c7d9dea1ea56f01adee; k := Octal255(k, x0, 2, c2, x1);
    var x2 := 0x173b5223758edb62921c9bf8a68146cc07c570efc7c06ca7a00761d2c814953e; k := Octal255(k, x1, 5, c5, x2);
    var x3 := 0x206fd5b3d4c68b4e2d908036ae1b16e4911d221e0517027258ca8648cae9df61; k := Octal255(k, x2, 3, c3, x3);
    var x4 := 0x9313e5f19a530856ecc12c379512ac0493c0e915c3b8457a0736a263cc9ffd9; k := Octal255(k, x3, 5, c5, x4);
    var x5 := 0x1b1fd343b4c5dd12d86f1aa9dcd532e025ffed3b0ad1f12f2eda876d7a634642; k := Octal255(k, x4, 3, c3, x5);
    var x6 := 0x12e49f6bde7bb9edecf25e489856e1005576b78c1fdf843dfe9e3b538900e6ea; k := Octal255(k, x5, 7, c7, x6);
    var x7 := 0x1dadfa118c804147f38342b13a809bd489473f161be3cb125ec35016f0baf036; k := Octal255(k, x6, 0, c0, x7);
    var x8 := 0xf2b0a87ccb37618d1481272101cbcf2299ffefb0f5b4d7481db71194151371c; k := Octal255(k, x7, 6, c6, x8);
    var x9 := 0x1cd0e3de30318dbd09003d65dc46fe179f6934eaf40fc4f31234a55cacdafc75; k := Octal255(k, x8, 1, c1, x9);
    var x10 := 0x6e5fa880af41aaafff15619b0bb84882c0748b350bde7ed01a96c9884d5de8de; k := Octal255(k, x9, 5, c5, x10);
    var x11 := 0x5679a457f3f9d312d133adc8fdef7161de05d229f96e741a1616a1d3bbb18c7a; k := Octal255(k, x10, 3, c3, x11);
    var x12 := 0x2361e3cfd291e017e1654f76faa969916ee7e6e261523f1535610aa7121a92ec; k := Octal255(k, x11, 0, c0, x12);
  }

  lemma Power255Part2()
    ensures At(P255(), C255(), 0x55d7c63584a7e87996,
               0x9d68e8f7e638e308f449d21597c233445fa35a03fba5325c27aa27e64e8a0aa)
  {
    var c0, c1, c2, c3, c4, c5, c6, c7 := Powers255();
    Power255Part1();
    hide *;
    var k := 0x55d7c6358;
    var x0 := 0x2361e3cfd291e017e1654f76faa969916ee7e6e261523f1535610aa7121a92ec;
    var x1 := 0x149fada88136c7aae3fd0d56aa59202db1e12ec3a72020399e2dcac5356dd1fd; k := Octal255(k, x0, 2, c2, x1);
    var x2 := 0x33cfa5667d3565f60c39f5c51b3841c06690ba0a109bd9028eee35eda0a6ff42; k := Octal255(k, x1, 2, c2, x2);
    var x3 := 0x68afa9bc0909b911996836028aae7434c8b2b107f12709482f280331d893c583; k := Octal255(k, x2, 4, c4, x3);
    var x4 := 0x15c7080e2dd597cf730e6bd616dd42198a95e1fc574979fbb620d4b770a35cb; k := Octal255(k, x3, 7, c7, x4);
    var x5 := 0x7512e77e51dc76a239d5f7433804ae2f4e0a9567afea3dc4a1eee0ca69ab4c77; k := Octal255(k, x4, 7, c7, x5);
    var x6 := 0xeead903d09e97b46028a885b1c3aaa02b2df2896b7708f753494e4e0474d79d; k := Octal255(k, x5, 2, c2, x6);
    var x7 := 0x7d417ec6d98a1286b74f85f5140448d4347e8bc4e5cd04fc3df149a0575e3a90; k := Octal255(k, x6, 0, c0, x7);
    var x8 := 0x7d986e685fb31232060c80d7deb458c4a1dbc790dd7b037a54d6c51055955be7; k := Octal255(k, x7, 7, c7, x8);
    var x9 := 0x120173a9d1c23cefe169ae6a9594d893208de899a04b73b6f85f2809f3b4c15c; k := Octal255(k, x8, 4, c4, x9);
    var x10 := 0x436a55c2bf5f9d48d428f4c48d8c2c80d997388b64af202916032a7ae61b0a45; k := Octal255(k, x9, 6, c6, x10);
    var x11 := 0x598738696b1a78ef858825e3bb42b77d3c440b0ffb4023d034e430d68a10f92d; k := Octal255(k, x10, 2, c2, x11);
    var x12 := 0x9d68e8f7e638e308f449d21597c233445fa35a03fba5325c27aa27e64e8a0aa; k := Octal255(k, x11, 6, c6, x12);
  }

  lemma Power255Part3()
    ensures At(P255(), C255(), 0x55d7c63584a7e8799616655d5c3,
               0x32018dbca6c2d15a87ecacb643fb5b22717ffe896d86cdfb62aa032e8d4ef0d)
  {
    var c0, c1, c2, c3, c4, c5, c6, c7 := Powers255();
    Power255Part2();
    hide *;
    var k := 0x55d7c63584a7e87996;
    var x0 := 0x9d68e8f7e638e308f449d21597c233445fa35a03fba5325c27aa27e64e8a0aa;
    var x1 := 0x2851bd007acd8d127a96e681a514755649246561cd0e743ae5feacdd379e6ce1; k := Octal255(k, x0, 0, c0, x1);
    var x2 := 0x782f22fffe936fa125c3ea8e84d7dc675cb4bd5fb2c418610414741adb67f65e; k := Octal255(k, x1, 5, c5, x2);
    var x3 := 0x3a4ff0bad668aae8ee21301a2ea87405593b3f928b0646baf03caadf60a729f7; k := Octal255(k, x2, 4, c4, x3);
    var x4 := 0x4402e1f3f886ba24b3bd24737f90d2caac855b45851565ceaac2928b1b2d0a72; k := Octal255(k, x3, 6, c6, x4);
    var x5 := 0x24ab9f45bd4a4757d4777478edff94e928b99ea50d790362033312a35ee0435f; k := Octal255(k, x4, 2, c2, x5);
    var x6 := 0x1d195d06b273bcc82e61e90bde48be28925c10c7324c09f6689300f5673d0b77; k := Octal255(k, x5, 5, c5, x6);
    var x7 := 0x125807166bf9a6e02e26fbc39953d5185ffefc092a4a412139accbb5d8440f76; k := Octal255(k, x6, 3, c3, x7);
    var x8 := 0x69393507a6f478a3572216f6bca96457e9a90e344f912dc66f5f1fdcac41d9d2; k := Octal255(k, x7, 5, c5, x8);
    var x9 := 0xd619ccfc6199823806750dbb4fb04a358e1d5555a2e1a545f9b2ffecd7f489b; k := Octal255(k, x8, 2, c2, x9);
    var x10 := 0x2435441ace3107bb452c944b643468bd8fc12a3b2393df1d92f6681acd02e7a6; k := Octal255(k, x9, 7, c7, x10);
    var x11 := 0x70375f32e278a7366b098a856fcff94eb55ef90f8e8eae6573dcec0d1e3b3ee4; k := Octal255(k, x10, 0, c0, x11);
    var x12 := 0x32018dbca6c2d15a87ecacb643fb5b22717ffe896d86cdfb62aa032e8d4ef0d; k := Octal255(k, x11, 3, c3, x12);
  }

  lemma Power255Part4()
    ensures At(P255(), C255(), 0x55d7c63584a7e8799616655d5c326df66cc8,
               0x77a662f8caffedbc7c1da944039dabd5b09c18603446ad2eac2d775cb0cae344)
  {
    var c0, c1, c2, c3, c4, c5, c6, c7 := Powers255();
    Power255Part3();
    hide *;
    var k := 0x55d7c63584a7e8799616655d5c3;
    var x0 := 0x32018dbca6c2d15a87ecacb643fb5b22717ffe896d86cdfb62aa032e8d4ef0d;
    var x1 := 0x3fb7fda957cff97a18f25d50d2025558a4af39169f1c0afe615a2c2e8be44016; k := Octal255(k, x0, 1, c1, x1);
    var x2 := 0x9ec0946233fe68a605b6cc9152a4955eb3a65b7c3fb7a6d5eb37fb95b0f7f99; k := Octal255(k, x1, 1, c1, x2);
    var x3 := 0xe7aaa5b2c2d55d4d632e9bdf8ac84b1041911e93ae83cae3f93733119c113a4; k := Octal255(k, x2, 5, c5, x3);
    var x4 := 0x71dea9788e33a811b6d7e03c7c2a8686f15decaaf65213523d28db7b903b95bb; k := Octal255(k, x3, 5, c5, x4);
    var x5 := 0x3b127da5595ab21092d6ddd0093372987408a48a7bb353dd18f98b2cf1147ec; k := Octal255(k, x4, 7, c7, x5);
    var x6 := 0x1df39c337485e2d1f5829b0fccac0410fe5d806e49965096611eb5b27088edb9; k := Octal255(k, x5, 5, c5, x6);
    var x7 := 0x1ff921169ce8eb39e2b2d89c7b840a00c8bdb992423d2b382d585236579ec933; k := Octal255(k, x6, 4, c4, x7);
    var x8 := 0x527cc1a57f84707311c838d60061c3e9fe73342a665b8cc96a7565389dfd4704; k := Octal255(k, x7, 6, c6, x8);
    var x9 := 0x5b03ad4188eb393a96c354149435d01940a62f450414284d3b6b75cc817b86e2; k := Octal255(k, x8, 6, c6, x9);
    var x10 := 0x375b8bb9867b766b8bf1e874a48fdd7f28cc015deafd91de7af634d34e37eb67; k := Octal255(k, x9, 3, c3, x10);
    var x11 := 0x5cb23a07f0029392f6e377875706d02f20992fdf2a2241e0b4fdb4585212bce7; k := Octal255(k, x10, 1, c1, x11);
    var x12 := 0x77a662f8caffedbc7c1da944039dabd5b09c18603446ad2eac2d775cb0cae344; k := Octal255(k, x11, 0, c0, x12);
  }

  lemma Power255Part5()
    ensures At(P255(), C255(), 0x55d7c63584a7e8799616655d5c326df66cc8a233ce0d6,
               0x3db62297261ad2d3d998c218c8ca5e572756b8cbd0eab8a858871d7becf23d0e)
  {
    var c0, c1, c2, c3, c4, c5, c6, c7 := Powers255();
    Power255Part4();
    hide *;
    var k := 0x55d7c63584a7e8799616655d5c326df66cc8;
    var x0 := 0x77a662f8caffedbc7c1da944039dabd5b09c18603446ad2eac2d775cb0cae344;
    var x1 := 0xb972427e4c493c9f1c0b75916300016d8512f160839cce8e768552b972af872; k := Octal255(k, x0, 5, c5, x1);
    var x2 := 0x1db87bdddeb2f19ca6ab0377d6a9836cfaa50ce5daf01e1dec7e6888f6c066b9; k := Octal255(k, x1, 0, c0, x2);
    var x3 := 0x734cd3108ddf15e0e5e1c19aa5df9297e03066eb0567d3349f47da79e01335f7; k := Octal255(k, x2, 4, c4, x3);
    var x4 := 0x1db381927f44ae1e9dd744d1726181f09da6ed1c763351fb9d1f5c5c8d2664ce; k := Octal255(k, x3, 3, c3, x4);
    var x5 := 0x7f208b30bee5ca828ae7467d7617c8c9518cc2c2f3b3e90b06bc75573935f253; k := Octal255(k, x4, 1, c1, x5);
    var x6 := 0x5f8984f906d5441c391eb22925f43727c64cb6d8d120c7c028480661a0aad9ed; k := Octal255(k, x5, 7, c7, x6);
    var x7 := 0x5325fda4237781932fab467f84baa0ccd6c742e2ebae5830b29e24393b6bbd41; k := Octal255(k, x6, 1, c1, x7);
    var x8 := 0x5cbf708319f71ae6b02c4f3c1f5c85b93278b717b882863c033bd4a8974fef09; k := Octal255(k, x7, 6, c6, x8);
    var x9 := 0x33932da903b6f4f883d8ac0281a1509642b69d1f9e88c5607420c7e62801d08a; k := Octal255(k, x8, 0, c0, x9);
    var x10 := 0x6802e818520dd7868199b56365b3dce67be4bbbc6538f37533ae47823af5af44; k := Octal255(k, x9, 3, c3, x10);
    var x11 := 0x28367540d567e8cc03c54018a6bcfcc74a761686f5381a0c1ab23ac029d6d760; k := Octal255(k, x10, 2, c2, x11);
    var x12 := 0x3db62297261ad2d3d998c218c8ca5e572756b8cbd0eab8a858871d7becf23d0e; k := Octal255(k, x11, 6, c6, x12);
  }

  lemma Power255Part6()
    ensures At(P255(), C255(), 0x55d7c63584a7e8799616655d5c326df66cc8a233ce0d6fc0244c7d,
               0x5bf8654cb1e7f08cec2bada22756bc8c8d08f0acb363954e2ec201fe343ee251)
  {
    var c0, c1, c2, c3, c4, c5, c6, c7 := Powers255();
    Power255Part5();
    hide *;
    var k := 0x55d7c63584a7e8799616655d5c326df66cc8a233ce0d6;
    var x0 := 0x3db62297261ad2d3d998c218c8ca5e572756b8cbd0eab8a858871d7becf23d0e;
    var x1 := 0x4e6d7260b1537e825dc893994cc0a0ffd7854bc3ee6687b8827093487ffb3727; k := Octal255(k, x0, 7, c7, x1);
    var x2 := 0x38f96d9178f90c40c2bec85fa223580382cb67d690d087dca234e40de8baf2cb; k := Octal255(k, x1, 7, c7, x2);
    var x3 := 0x21134695adb30e4f572ae6b7a46ca2ea787d2b502887c9dd6618a850549d5da; k := Octal255(k, x2, 0, c0, x3);
    var x4 := 0x139f897fa7527cd5228b8fba14dd0b1af0a017dde67b593f2cd9611dad049e1e; k := Octal255(k, x3, 0, c0, x4);
    var x5 := 0x5e0c9d13f09097a57f414fa5a04d4f8a4dec605213e9c732df7c1cd2d4d0b1fb; k := Octal255(k, x4, 1, c1, x5);
    var x6 := 0x53cba644c6d3ec61124c0d10583438cbeb0ec56e81135ab2c6b982d072614973; k := Octal255(k, x5, 1, c1, x6);
    var x7 := 0x1ef090a7514b1305121dffd1d17232c7221af7b86d1dc1300d4a7d7c5857e93f; k := Octal255(k, x6, 0, c0, x7);
    var x8 := 0x77f7d63276c4ce318e09b500c7218a7b94f0c03708ed36d1c0ece9c41e0e00d; k := Octal255(k, x7, 4, c4, x8);
    var x9 := 0xd826b69a278e8d0c716157124d06fea88ad392e27133ed4ba3a93c9ea0ad0cd; k := Octal255(k, x8, 6, c6, x9);
    var x10 := 0x13d233c7431f78bf53dd8820456b963d590e98fb3dc14c2061abf2d819233b7a; k := Octal255(k, x9, 1, c1, x10);
    var x11 := 0x1e2bef643f7a160377e7dd036a4d6c0642b4dd24b17dbea3ed3b352f889d2c95; k := Octal255(k, x10, 7, c7, x11);
    var x12 := 0x5bf8654cb1e7f08cec2bada22756bc8c8d08f0acb363954e2ec201fe343ee251; k := Octal255(k, x11, 5, c5, x12);
  }

  lemma Power255()
    ensures At(P255(), C255(), 0xabaf8c6b094fd0f32c2ccabab864dbecd99144679c1adf804898fb2042b,
               1)
  {
    var c0, c1, c2, c3, c4, c5, c6, c7 := Powers255();
    Power255Part6();
    hide *;
    var k := 0x55d7c63584a7e8799616655d5c326df66cc8a233ce0d6fc0244c7d;
    var x0 := 0x5bf8654cb1e7f08cec2bada22756bc8c8d08f0acb363954e2ec201fe343ee251;
    var x1 := 0x29d46a557fb5b049ba95c15d2fa1258f1559a69d186ce1e0240b2fb379b455b5; k := Octal255(k, x0, 4, c4, x1);
    var x2 := 0x6bed10843b56bb2e857e985fcd9fcc89d1c3470b4609cb26203fb30c9757bb2c; k := Octal255(k, x1, 4, c4, x2);
    var x3 := 0x7665bdb55a01f0d012e89ecceb440abd6ee8d914c3f3296c8c9b4d3d242f444c; k := Octal255(k, x2, 0, c0, x3);
    var x4 := 0x5f1209051ec62933908d7664864b849a9f313c2be2b918ed4c965f59db23092b; k := Octal255(k, x3, 2, c2, x4);
    var x5 := 0x6a43f73dfb5f30b83778821eb1927938e545d7908fedd6463dec632c87886fa7; k := Octal255(k, x4, 0, c0, x5);
    var x6 := 0x5be0842af386f22659e14cd4374779e2d818ed268a24b8e923d4f1a5bd75b33d; k := Octal255(k, x5, 5, c5, x6);
    var x7 := 1; k := Octal255(k, x6, 3, c3, x7);
  }

  lemma Inverse255()
    ensures Rest((C255() - 1) * 0x7acaff384090e983b641a51e1df0807078e467d06ab8164555f0f7fd51653bdc, P255()) == 1
  {
  }

  lemma Sizes255()
    ensures P255() == P236() * 0xbedc4 + 1
    ensures 0xbedc4 / P236() + 1 < Rest(0xbedc4, P236())
  {
  }

  lemma Prime255()
    ensures Prime(P255())
  {
    Prime236();
    Power255();
    AtIs(P255(), C255(), P236(), 1);
    Inverse255();
    Sizes255();
    hide *;
    Pocklington(P255(), P236(), 0xbedc4, C255(),
                0x7acaff384090e983b641a51e1df0807078e467d06ab8164555f0f7fd51653bdc);
  }
}
