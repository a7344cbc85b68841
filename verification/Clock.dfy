/** The wrapping millisecond clock and the expiry test built on it. */
module Clock {
  import opened Bits

  type U32 = Word

  /** A reading of wireguard_sys_now, which is never 0. */
  type Millis = x: int | 1 <= x < 0x1_0000_0000 witness 1

  function Wrap32(x: int): (r: U32) { x % 0x1_0000_0000 }

  /** wireguard_sys_now after trueMs milliseconds. */
  function SysNow(trueMs: nat): (ms: Millis) {
    var ms := Wrap32(trueMs);
    if ms == 0 then 1 else ms
  }

  /** wireguard_expired on a reading of the clock: both the difference and the limit wrap. */
  predicate Expired(now: Millis, created: U32, validSeconds: int) {
    Wrap32(now - created) >= Wrap32(Wrap32(validSeconds) * 1000)
  }

  /** What the fudge of a zero reading adds. */
  function Fudge(trueMs: nat): nat { if Wrap32(trueMs) == 0 then 1 else 0 }

  /** The true age, up to the one millisecond by which a zero reading is moved. */
  function Age(t0: nat, t1: nat): (d: nat)
    requires t0 <= t1
    ensures t1 - t0 - 1 <= d <= t1 - t0 + 1
  {
    if t0 == t1 then 0 else t1 - t0 + Fudge(t1) - Fudge(t0)
  }

  /** The limit as the test sees it. */
  function Limit(validSeconds: int): U32 { Wrap32(Wrap32(validSeconds) * 1000) }

  /** The test compares the true age with the limit exactly for ages below 2^32 ms, and beyond that for
      those whose remainder is still past the limit. */
  lemma ExpiredExactly(t0: nat, t1: nat, validSeconds: int)
    requires t0 <= t1
    ensures (Expired(SysNow(t1), SysNow(t0), validSeconds) <==> Age(t0, t1) >= Limit(validSeconds))
            <==> Age(t0, t1) < 0x1_0000_0000 || Wrap32(Age(t0, t1)) >= Limit(validSeconds)
    ensures Expired(SysNow(t1), SysNow(t0), validSeconds) <==> Wrap32(Age(t0, t1)) >= Limit(validSeconds)
  {
    var d := Age(t0, t1);
    assert d == t1 - t0 + Fudge(t1) - Fudge(t0);
    assert SysNow(t0) == Wrap32(t0) + Fudge(t0) && SysNow(t1) == Wrap32(t1) + Fudge(t1);
    SameWrap(SysNow(t1) - SysNow(t0), Wrap32(d), d / 0x1_0000_0000 + t0 / 0x1_0000_0000 - t1 / 0x1_0000_0000);
  }

  /** A limit whose milliseconds fit 32 bits is not wrapped. */
  lemma LimitFits(seconds: nat)
    requires seconds <= 4294967
    ensures Limit(seconds) == 1000 * seconds
  {
  }

  /** So on true ages below 2^32 - 1 ms the test is right. */
  lemma ExpiredIsTrueAge(t0: nat, t1: nat, seconds: nat)
    requires t0 <= t1 && t1 - t0 < 0xffff_ffff && seconds <= 4294967
    ensures Expired(SysNow(t1), SysNow(t0), seconds) <==> Age(t0, t1) >= 1000 * seconds
    ensures !Expired(SysNow(t1), SysNow(t0), seconds) ==> t1 - t0 <= 1000 * seconds
  {
    hide Expired, Limit, Age, SysNow;
    ExpiredExactly(t0, t1, seconds);
    LimitFits(seconds);
  }

  lemma SameWrap(x: int, d: int, k: int)
    requires x == d + 0x1_0000_0000 * k && 0 <= d < 0x1_0000_0000
    ensures Wrap32(x) == d
  {
  }

  /** A stamp that is a multiple of 2^32 ms old looks new, whatever the limit. */
  lemma OldStampLooksNew(t0: nat, rounds: nat, seconds: nat)
    requires 0 < seconds <= 4294967
    ensures !Expired(SysNow(t0 + 0x1_0000_0000 * rounds), SysNow(t0), seconds)
  {
    var t1 := t0 + 0x1_0000_0000 * rounds;
    LimitFits(seconds);
    SameWrap(t1, Wrap32(t0), t0 / 0x1_0000_0000 + rounds);
    SameWrap(Age(t0, t1), 0, rounds);
    hide Expired, Limit, Age, SysNow;
    ExpiredExactly(t0, t1, seconds);
  }

  /** REJECT_AFTER_TIME - keepalive - REKEY_TIMEOUT, in milliseconds as wireguard_expired reads it,
      stays at or below the 180 s reject limit exactly for keepalive intervals up to 175 s; beyond, the
      unsigned subtraction wraps and the rekey never comes due in time. */
  lemma RekeyDeadline(keepalive: nat)
    requires keepalive < 0x10000
    ensures Wrap32(Wrap32(180 - keepalive - 5) * 1000) <= 180_000 <==> keepalive <= 175
    ensures keepalive <= 175 ==> Wrap32(Wrap32(180 - keepalive - 5) * 1000) == (175 - keepalive) * 1000
  {
    if keepalive > 175 {
      assert Wrap32(180 - keepalive - 5) == 0x1_0000_0000 + 175 - keepalive;
      SameWrap((0x1_0000_0000 + 175 - keepalive) * 1000, 0x1_0000_0000 - (keepalive - 175) * 1000, 999);
    }
  }

  /** The responder's deadline in wg_run_timers, REJECT_AFTER_TIME - keepalive, likewise up to 180. */
  lemma ResponderDeadline(keepalive: nat)
    requires keepalive < 0x10000
    ensures Wrap32(Wrap32(180 - keepalive) * 1000) <= 180_000 <==> keepalive <= 180
  {
    if keepalive > 180 {
      assert Wrap32(180 - keepalive) == 0x1_0000_0000 + 180 - keepalive;
      SameWrap((0x1_0000_0000 + 180 - keepalive) * 1000, 0x1_0000_0000 - (keepalive - 180) * 1000, 999);
    }
  }
}
