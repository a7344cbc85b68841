/** Cryptokey routing: longest-prefix match over the allowed-ips of all peers, and the netmasks it
    ranks.  Addresses and masks are 32-bit words in network order, as the code holds them on a
    little-endian machine. */
module Routing {
  import opened Arith
  import opened Bits
  import opened Options

  // ---- byte order ----

  /** ntohl and htonl */
  function Swap(x: Word): Word {
    x % 256 * 0x1000000 + x / 256 % 256 * 0x10000 + x / 65536 % 256 * 256 + x / 0x1000000
  }

  lemma AndByte(x: nat, y: nat)
    ensures And(x, y) == And(x % 256, y % 256) + 256 * And(x / 256, y / 256)
  {
    hide And, Shr, Low, Pow2;
    Pow2Values();
    AndSplit(x, y, 8);
    ShrLow(x, 8);
    ShrLow(y, 8);
  }

  function AndW(x: Word, y: Word): (r: Word) {
    AndBound(x, y);
    And(x, y)
  }

  /** Bitwise and, byte by byte. */
  lemma AndBytes(x: Word, y: Word)
    ensures And(x, y) == And(x % 256, y % 256) + 256 * And(x / 256 % 256, y / 256 % 256)
                       + 65536 * And(x / 65536 % 256, y / 65536 % 256) + 0x1000000 * And(x / 0x1000000, y / 0x1000000)
  {
    hide And;
    var x1, y1, x2, y2 := x / 256, y / 256, x / 65536, y / 65536;
    assert x1 / 256 == x2 && y1 / 256 == y2 && x2 / 256 == x / 0x1000000 && y2 / 256 == y / 0x1000000;
    AndByte(x, y);
    AndByte(x1, y1);
    AndByte(x2, y2);
  }

  /** Masking does not care about the byte order. */
  lemma SwapAnd(x: Word, y: Word)
    ensures AndW(Swap(x), Swap(y)) == Swap(AndW(x, y))
  {
    hide And, Swap;
    AndBytes(x, y);
    AndBytes(Swap(x), Swap(y));
    SwappedBytes(x);
    SwappedBytes(y);
    var a, b, c, d := And(x % 256, y % 256), And(x / 256 % 256, y / 256 % 256),
                      And(x / 65536 % 256, y / 65536 % 256), And(x / 0x1000000, y / 0x1000000);
    AndBound(x % 256, y % 256);
    AndBound(x / 256 % 256, y / 256 % 256);
    AndBound(x / 65536 % 256, y / 65536 % 256);
    AndBound(x / 0x1000000, y / 0x1000000);
    SwapOf(a, b, c, d);
  }

  lemma SwappedBytes(x: Word)
    ensures Swap(x) % 256 == x / 0x1000000 && Swap(x) / 256 % 256 == x / 65536 % 256
    ensures Swap(x) / 65536 % 256 == x / 256 % 256 && Swap(x) / 0x1000000 == x % 256
  {
    var y := Swap(x);
    var a, b, c, d := x % 256, x / 256 % 256, x / 65536 % 256, x / 0x1000000;
    assert y == a * 0x1000000 + b * 0x10000 + c * 256 + d;
    DivModUnique(y, 256, a * 65536 + b * 256 + c, d);
    DivModUnique(y, 65536, a * 256 + b, c * 256 + d);
    DivModUnique(y, 0x1000000, a, b * 65536 + c * 256 + d);
    DivModUnique(a * 65536 + b * 256 + c, 256, a * 256 + b, c);
    DivModUnique(a * 256 + b, 256, a, b);
  }

  lemma SwapTwice(x: Word)
    ensures Swap(Swap(x)) == x
  {
    SwappedBytes(x);
    SwappedBytes(Swap(x));
    FourBytes(x);
    FourBytes(Swap(Swap(x)));
  }

  lemma FourBytes(x: Word)
    ensures x == x % 256 + 256 * (x / 256 % 256) + 65536 * (x / 65536 % 256) + 0x1000000 * (x / 0x1000000)
  {
    var a, b, c := x / 256, x / 65536, x / 0x1000000;
    assert a == 256 * b + a % 256 && b == 256 * c + b % 256 && x == 256 * a + x % 256;
  }

  lemma SwapOf(a: nat, b: nat, c: nat, d: nat)
    requires a < 256 && b < 256 && c < 256 && d < 256
    ensures Swap(a + 256 * b + 65536 * c + 0x1000000 * d) == a * 0x1000000 + b * 65536 + c * 256 + d
  {
    var x := a + 256 * b + 65536 * c + 0x1000000 * d;
    DivModUnique(x, 256, b + 256 * c + 65536 * d, a);
    DivModUnique(x, 65536, c + 256 * d, a + 256 * b);
    DivModUnique(x, 0x1000000, d, a + 256 * b + 65536 * c);
    DivModUnique(b + 256 * c + 65536 * d, 256, c + 256 * d, b);
    DivModUnique(c + 256 * d, 256, d, c);
  }

  // ---- masks and prefixes, in host order ----

  /** 0xffffffff << (32 - prefix), and 0 for a prefix of 0 */
  function MaskOf(prefix: nat): (m: Word)
    requires prefix <= 32
  {
    Pow2Range(32 - prefix);
    0x1_0000_0000 - Pow2(32 - prefix)
  }

  lemma Pow2Range(k: nat)
    requires k <= 32
    ensures 1 <= Pow2(k) <= 0x1_0000_0000
  {
    Pow2Mono(k, 32);
    Pow2Values();
  }

  /** The shift the code writes is that mask. */
  lemma MaskIsShift(prefix: nat)
    requires 1 <= prefix <= 32
    ensures Pow2(32 - prefix) * 0xffff_ffff % 0x1_0000_0000 == MaskOf(prefix)
  {
    var k := Pow2(32 - prefix);
    Pow2Range(32 - prefix);
    assert Pow2(32 - prefix) < 0x1_0000_0000 by {
      Pow2Mono(32 - prefix, 31);
      assert Pow2(31) * 2 == Pow2(32);
      Pow2Values();
    }
    Negated(k);
  }

  lemma Negated(k: nat)
    requires 0 < k < 0x1_0000_0000
    ensures k * 0xffff_ffff % 0x1_0000_0000 == 0x1_0000_0000 - k
  {
    DivModUnique(k * 0xffff_ffff, 0x1_0000_0000, k - 1, 0x1_0000_0000 - k);
  }

  /** prefix is the number of leading one bits of m. */
  predicate LeadingOnes(m: Word, prefix: nat) {
    prefix <= 32 && MaskOf(prefix) <= m && (prefix < 32 ==> m < MaskOf(prefix + 1))
  }

  lemma MaskMono(p: nat, q: nat)
    requires p < q <= 32
    ensures MaskOf(p) < MaskOf(q)
  {
    Pow2Mono(32 - q, 31 - p);
    assert Pow2(32 - p) == 2 * Pow2(31 - p);
  }

  /** The mask of a prefix has just that many leading ones. */
  lemma PrefixOfMask(p: nat, q: nat)
    requires p <= 32
    ensures LeadingOnes(MaskOf(p), q) <==> q == p
  {
    if p < 32 {
      MaskMono(p, p + 1);
    }
    if q <= 32 && q < p {
      MaskBelow(q, p);
    } else if p < q <= 32 {
      MaskMono(p, q);
    }
  }

  lemma MaskBelow(q: nat, p: nat)
    requires q < p <= 32
    ensures MaskOf(q + 1) <= MaskOf(p)
  {
    if q + 1 < p {
      MaskMono(q + 1, p);
    }
  }

  /** A numerically larger mask never has fewer leading ones, contiguous or not. */
  lemma LargerMaskIsLonger(m: Word, p: nat, m': Word, p': nat)
    requires LeadingOnes(m, p) && LeadingOnes(m', p') && m <= m'
    ensures p <= p'
  {
    if p' < p {
      MaskBelow(p', p);
    }
  }

  lemma NoMask()
    ensures MaskOf(0) == 0 && Pow2(0) == 1
  {
    hide Pow2;
    Pow2Values();
    Pow2One();
  }

  /** The number of leading ones, counted on from p. */
  function OnesFrom(m: Word, p: nat): (q: nat)
    requires p <= 32 && MaskOf(p) <= m
    ensures LeadingOnes(m, q)
    decreases 32 - p
  {
    if p < 32 && MaskOf(p + 1) <= m then OnesFrom(m, p + 1) else p
  }

  function PrefixLength(m: Word): (p: nat)
    ensures LeadingOnes(m, p)
  {
    NoMask();
    OnesFrom(m, 0)
  }

  /** wg_mask_to_prefix, after the text has been parsed */
  method MaskToPrefix(mask: Word) returns (prefix: nat)
    ensures prefix == PrefixLength(mask) && LeadingOnes(mask, prefix)
  {
    hide And, MaskOf, Pow2;
    var m := mask;
    prefix := 0;
    NoMask();
    while prefix < 32 && And(m, 0x8000_0000) != 0
      invariant prefix <= 32 && MaskOf(prefix) <= mask && m == Pow2(prefix) * (mask - MaskOf(prefix))
      invariant OnesFrom(mask, prefix) == PrefixLength(mask)
    {
      NextBit(mask, prefix, m);
      m := Doubled(m);
      prefix := prefix + 1;
    }
    if prefix < 32 {
      NextBit(mask, prefix, m);
    }
  }

  function Doubled(m: Word): Word {
    var v: int := m;
    2 * v % 0x1_0000_0000
  }

  lemma TopBit(m: Word)
    ensures And(m, 0x8000_0000) != 0 <==> m >= 0x8000_0000
  {
    hide And, Shr, Pow2;
    Pow2TopBit();
    AndPow2(m, 31);
    ShrLow(m, 31);
    BitShr(m, 31, 0);
    assert Shr(m, 31) == if m >= 0x8000_0000 then 1 else 0;
  }

  lemma Pow2TopBit()
    ensures Pow2(31) == 0x8000_0000
  {
    hide Pow2;
    Pow2Values();
    Pow2Add(31, 1);
    Pow2One();
  }

  lemma Pow2One()
    ensures Pow2(1) == 2 && Pow2(0) == 1
  {
  }

  lemma MaskStep(prefix: nat)
    requires prefix < 32
    ensures MaskOf(prefix + 1) == MaskOf(prefix) + Pow2(31 - prefix)
    ensures Pow2(prefix) * Pow2(31 - prefix) == 0x8000_0000
    ensures Pow2(prefix + 1) == 2 * Pow2(prefix)
  {
    hide Pow2;
    Pow2Add(1, 31 - prefix);
    Pow2Add(1, prefix);
    Pow2One();
    Pow2Add(prefix, 31 - prefix);
    Pow2TopBit();
  }

  lemma Compare(p: nat, d: nat, q: nat)
    requires p > 0
    ensures p * d >= p * q <==> d >= q
    ensures d >= q ==> p * (d - q) == p * d - p * q
  {
    if d >= q {
      MulMono(q, d, p, p);
      assert p * (d - q) == p * d - p * q;
    } else {
      MulMono(d + 1, q, p, p);
      assert p * (d + 1) == p * d + p;
    }
  }

  /** The top bit of the shifted mask decides whether one more leading bit is set. */
  lemma NextBit(mask: Word, prefix: nat, m: Word)
    requires prefix < 32 && MaskOf(prefix) <= mask && m == Pow2(prefix) * (mask - MaskOf(prefix))
    ensures And(m, 0x8000_0000) != 0 <==> MaskOf(prefix + 1) <= mask
    ensures MaskOf(prefix + 1) <= mask ==> Doubled(m) == Pow2(prefix + 1) * (mask - MaskOf(prefix + 1))
  {
    hide And, Pow2, MaskOf;
    TopBit(m);
    MaskStep(prefix);
    var p, d, q := Pow2(prefix), mask - MaskOf(prefix), Pow2(31 - prefix);
    Compare(p, d, q);
    if d >= q {
      assert 2 * p * (d - q) == 2 * (p * (d - q));
      ModOnceAround(2 * m);
    }
  }

  lemma ModOnceAround(x: int)
    requires 0x1_0000_0000 <= x < 0x2_0000_0000
    ensures x % 0x1_0000_0000 == x - 0x1_0000_0000
  {
  }

  // ---- the table ----

  datatype AllowedIp = AllowedIp(valid: bool, ip: Word, mask: Word)

  datatype Peer = Peer(id: nat, valid: bool, allowed: seq<AllowedIp>)

  predicate Covers(a: AllowedIp, dest: Word) {
    a.valid && AndW(dest, a.mask) == AndW(a.ip, a.mask)
  }

  /** Masking keeps the leading bits. */
  lemma AndMask(x: Word, prefix: nat)
    requires prefix <= 32
    ensures And(x, MaskOf(prefix)) == Pow2(32 - prefix) * Shr(x, 32 - prefix)
  {
    hide And, Shr, Low, Pow2;
    var k := 32 - prefix;
    var p, q := Pow2(k), Pow2(prefix);
    Pow2Add(k, prefix);
    Pow2Values();
    var m := MaskOf(prefix);
    assert m == p * (q - 1) + 0;
    DivModUnique(m, p, q - 1, 0);
    AndSplit(x, m, k);
    ShrLow(x, k);
    ShrLow(m, k);
    AndZero(Low(x, k));
    AndOnes(Shr(x, k), prefix);
    Quotient(x, p, q);
  }

  lemma Quotient(x: nat, p: nat, q: nat)
    requires p > 0 && q > 0 && x < p * q
    ensures x / p % q == x / p
  {
    Compare(p, x / p, q);
    assert p * (x / p) <= x;
  }

  /** With the mask of a prefix, covering is agreement on the prefix. */
  lemma CoversIsPrefix(a: AllowedIp, dest: Word, prefix: nat)
    requires prefix <= 32 && a.mask == Swap(MaskOf(prefix)) && a.valid
    ensures Covers(a, dest) <==> Shr(Swap(dest), 32 - prefix) == Shr(Swap(a.ip), 32 - prefix)
  {
    hide And, Shr, Swap, MaskOf, Pow2;
    var d, i, m := Swap(dest), Swap(a.ip), MaskOf(prefix);
    SwapTwice(dest);
    SwapTwice(a.ip);
    SwapAnd(d, m);
    SwapAnd(i, m);
    SwapTwice(AndW(d, m));
    SwapTwice(AndW(i, m));
    assert Covers(a, dest) <==> AndW(d, m) == AndW(i, m);
    AndMask(d, prefix);
    AndMask(i, prefix);
    SameProduct(Pow2(32 - prefix), Shr(d, 32 - prefix), Shr(i, 32 - prefix));
  }

  lemma SameProduct(p: nat, x: nat, y: nat)
    requires p > 0
    ensures p * x == p * y <==> x == y
  {
    Compare(p, x, y);
    Compare(p, y, x);
  }

  /** Allowed-ip y of peer x is in use and covers dest. */
  predicate Entry(peers: seq<Peer>, dest: Word, x: nat, y: nat) {
    x < |peers| && peers[x].valid && y < |peers[x].allowed| && Covers(peers[x].allowed[y], dest)
  }

  function Rank(peers: seq<Peer>, x: nat, y: nat): Word
    requires x < |peers| && y < |peers[x].allowed|
  {
    Swap(peers[x].allowed[y].mask)
  }

  predicate Before(x: nat, y: nat, x': nat, y': nat) { x < x' || (x == x' && y < y') }

  /** best and its rank are right about the entries before (x, y). */
  ghost predicate BestBefore(peers: seq<Peer>, dest: Word, best: Maybe<nat>, bestMask: Word, x: nat, y: nat) {
    && (best.None? ==> forall x', y' :: Entry(peers, dest, x', y') ==> !Before(x', y', x, y))
    && (best.Some? ==>
          && (exists y' :: Entry(peers, dest, best.value, y') && Rank(peers, best.value, y') == bestMask)
          && (forall x', y' :: Entry(peers, dest, x', y') && Before(x', y', x, y) ==> Rank(peers, x', y') <= bestMask))
  }

  /** A peer exactly if some entry covers dest, and then one with an entry of maximal mask. */
  ghost predicate Routed(peers: seq<Peer>, dest: Word, best: Maybe<nat>) {
    match best
    case None => forall x, y :: !Entry(peers, dest, x, y)
    case Some(i) => exists y :: Entry(peers, dest, i, y) && Tops(peers, dest, Rank(peers, i, y))
  }

  /** No entry that covers dest has a larger mask. */
  ghost predicate Tops(peers: seq<Peer>, dest: Word, mask: Word) {
    forall x, y :: Entry(peers, dest, x, y) ==> Rank(peers, x, y) <= mask
  }

  /** wg_peer_for_dest */
  method PeerForDest(peers: seq<Peer>, dest: Word) returns (best: Maybe<nat>)
    ensures Routed(peers, dest, best)
  {
    hide Covers, Swap;
    best := None;
    var bestMask: Word := 0;
    for x := 0 to |peers|
      invariant BestBefore(peers, dest, best, bestMask, x, 0)
    {
      var peer := peers[x];
      if peer.valid {
        for y := 0 to |peer.allowed|
          invariant BestBefore(peers, dest, best, bestMask, x, y)
        {
          var allowed := peer.allowed[y];
          if Covers(allowed, dest) {
            assert Entry(peers, dest, x, y);
            var mask := Swap(allowed.mask);
            if best == None || mask > bestMask {
              best := Some(x);
              bestMask := mask;
            }
          }
        }
      }
    }
  }

  /** Routing is by longest prefix, whatever the masks: no covering entry has more leading ones. */
  lemma RoutedIsLongest(peers: seq<Peer>, dest: Word, i: nat) returns (y: nat)
    requires Routed(peers, dest, Some(i))
    ensures Entry(peers, dest, i, y)
    ensures forall p, p', x', y' | Entry(peers, dest, x', y') && LeadingOnes(Rank(peers, x', y'), p')
                                   && LeadingOnes(Rank(peers, i, y), p) :: p' <= p
  {
    hide Covers, Swap, MaskOf, LeadingOnes;
    y :| Entry(peers, dest, i, y) && Tops(peers, dest, Rank(peers, i, y));
    forall p, p', x', y' | Entry(peers, dest, x', y') && LeadingOnes(Rank(peers, x', y'), p')
                           && LeadingOnes(Rank(peers, i, y), p)
      ensures p' <= p
    {
      LargerMaskIsLonger(Rank(peers, x', y'), p', Rank(peers, i, y), p);
    }
  }

  /** Some entry of the peer called id covers dest with this mask. */
  ghost predicate Offers(peers: seq<Peer>, dest: Word, id: nat, mask: Word) {
    exists x: nat, y: nat :: Entry(peers, dest, x, y) && peers[x].id == id && Rank(peers, x, y) == mask
  }

  /** ... and no peer has a longer one. */
  ghost predicate BestOffer(peers: seq<Peer>, dest: Word, id: nat) {
    exists mask ::
      && Offers(peers, dest, id, mask)
      && forall id', mask' :: Offers(peers, dest, id', mask') ==> mask' <= mask
  }

  lemma RoutedIsBestOffer(peers: seq<Peer>, dest: Word, best: Maybe<nat>)
    requires Routed(peers, dest, best)
    ensures best.None? ==> forall id, mask :: !Offers(peers, dest, id, mask)
    ensures best.Some? ==> best.value < |peers| && BestOffer(peers, dest, peers[best.value].id)
  {
    hide Covers, Swap, Rank;
    if best.Some? {
      var y :| Entry(peers, dest, best.value, y) && Tops(peers, dest, Rank(peers, best.value, y));
      assert Offers(peers, dest, peers[best.value].id, Rank(peers, best.value, y));
    }
  }

  predicate SameRoutes(peers: seq<Peer>, peers': seq<Peer>, dest: Word, best: Maybe<nat>, best': Maybe<nat>) {
    match (best, best')
    case (None, None) => true
    case (Some(i), Some(j)) => i < |peers| && j < |peers'| && peers[i].id == peers'[j].id
    case _ => false
  }

  /** Peers and entries in any other slots: the same peer is found, unless two peers tie. */
  lemma SlotsOnlyBreakTies(peers: seq<Peer>, peers': seq<Peer>, dest: Word, best: Maybe<nat>, best': Maybe<nat>)
    requires forall id, mask :: Offers(peers, dest, id, mask) <==> Offers(peers', dest, id, mask)
    requires Routed(peers, dest, best) && Routed(peers', dest, best')
    requires forall id, id' :: BestOffer(peers, dest, id) && BestOffer(peers, dest, id') ==> id == id'
    ensures SameRoutes(peers, peers', dest, best, best')
  {
    hide Routed, Offers;
    RoutedIsBestOffer(peers, dest, best);
    RoutedIsBestOffer(peers', dest, best');
    if best'.Some? {
      assert BestOffer(peers, dest, peers'[best'.value].id);
    }
  }

  /** The source check of wg_process_data_message: a decrypted packet must come from an address of its peer. */
  method SourceAllowed(peer: Peer, source: Word) returns (ok: bool)
    ensures ok <==> exists y :: 0 <= y < |peer.allowed| && Covers(peer.allowed[y], source)
  {
    hide Covers;
    ok := false;
    for y := 0 to |peer.allowed|
      invariant !ok && forall y' :: 0 <= y' < y ==> !Covers(peer.allowed[y'], source)
    {
      if Covers(peer.allowed[y], source) {
        return true;
      }
    }
  }

  /** A packet let in from peer i is answered to peer i, or to a peer that lists its source at least as
      narrowly. */
  lemma ReplyGoesBack(peers: seq<Peer>, source: Word, i: nat, y: nat, best: Maybe<nat>)
    requires Entry(peers, source, i, y) && Routed(peers, source, best)
    ensures best.Some? && best.value < |peers|
    ensures best.value == i
            || exists y' :: Entry(peers, source, best.value, y') && Rank(peers, i, y) <= Rank(peers, best.value, y')
    ensures (forall x', y' :: Entry(peers, source, x', y') && x' != i ==> Rank(peers, x', y') < Rank(peers, i, y))
            ==> best.value == i
  {
    hide Covers, Swap, Rank;
  }
}
