/** The load decision of section 5.4.7 of the WireGuard whitepaper: which handshake initiations get
    as far as Diffie-Hellman. */
module Load {
  import opened Clock

  /** init_window_start and init_count: the one-second bucket being filled. */
  datatype Bucket = Bucket(start: U32, count: U32)

  /** The bucket once an initiation read at now has been counted. */
  function Counted(b: Bucket, now: Millis): Bucket {
    var b' := if Wrap32(now - b.start) >= 1000 then Bucket(now, 0) else b;
    b'.(count := Wrap32(b'.count + 1))
  }

  /** An initiation at a true time, and which of its two MACs check out. */
  datatype Arrival = Arrival(at: nat, mac1: bool, mac2: bool)

  datatype Verdict = Dropped | CookieReply | Processed

  function Next(b: Bucket, a: Arrival): Bucket {
    if a.mac1 then Counted(b, SysNow(a.at)) else b
  }

  function Judge(b: Bucket, a: Arrival, threshold: nat): Verdict {
    if !a.mac1 then Dropped
    else if Next(b, a).count > threshold && !a.mac2 then CookieReply
    else Processed
  }

  class Gate {
    var windowStart: U32
    var count: U32
    const threshold: nat

    ghost function State(): Bucket
      reads this
    {
      Bucket(windowStart, count)
    }

    /** memset of the device */
    constructor (threshold: nat)
      ensures State() == Bucket(0, 0) && this.threshold == threshold
    {
      windowStart, count := 0, 0;
      this.threshold := threshold;
    }

    /** wg_under_load */
    method UnderLoad(now: Millis) returns (under: bool)
      modifies this
      ensures State() == Counted(old(State()), now)
      ensures under == (State().count > threshold)
    {
      if Wrap32(now - windowStart) >= 1000 {
        windowStart := now;
        count := 0;
      }
      count := Wrap32(count + 1);
      under := count > threshold;
    }

    /** The initiation case of wg_process_udp_packet, up to the Diffie-Hellman work. */
    method Initiation(a: Arrival) returns (v: Verdict)
      modifies this
      ensures v == Judge(old(State()), a, threshold) && State() == Next(old(State()), a)
    {
      if !a.mac1 {
        return Dropped;
      }
      var under := UnderLoad(SysNow(a.at));
      if under && !a.mac2 {
        return CookieReply;
      }
      return Processed;
    }
  }

  // ---- whole runs ----

  /** How many of the arrivals in [from, from + 1000) are processed without a valid mac2. */
  function Admitted(b: Bucket, threshold: nat, arrivals: seq<Arrival>, from: nat): nat
    decreases |arrivals|
  {
    if arrivals == [] then 0
    else
      var a := arrivals[0];
      (if from <= a.at < from + 1000 && !a.mac2 && Judge(b, a, threshold) == Processed then 1 else 0)
      + Admitted(Next(b, a), threshold, arrivals[1..], from)
  }

  predicate InOrder(arrivals: seq<Arrival>, since: nat)
    decreases |arrivals|
  {
    arrivals == [] || (since <= arrivals[0].at && InOrder(arrivals[1..], arrivals[0].at))
  }

  /** No bucket ever counts 2^32 initiations. */
  predicate CountFits(b: Bucket, arrivals: seq<Arrival>)
    decreases |arrivals|
  {
    arrivals == []
    || ((arrivals[0].mac1 ==> Next(b, arrivals[0]).count > 0) && CountFits(Next(b, arrivals[0]), arrivals[1..]))
  }

  function Left(b: Bucket, threshold: nat): nat { if b.count < threshold then threshold - b.count else 0 }

  /** Two readings less than 999 ms apart never start a new bucket, also across the wrap and the
      skipped zero. */
  lemma CloseReadings(r: nat, s: nat)
    requires r <= s < r + 999
    ensures Wrap32(SysNow(s) - SysNow(r)) < 1000
  {
    ExpiredIsTrueAge(r, s, 1);
    var d := s - r + Fudge(s) - Fudge(r);
    assert 0 <= d < 1000 by {
      if r == s {
        assert Fudge(r) == Fudge(s);
      }
    }
    SameWrap(SysNow(s) - SysNow(r), d, r / 0x1_0000_0000 - s / 0x1_0000_0000);
  }

  lemma {:induction false} NoneAfter(b: Bucket, threshold: nat, arrivals: seq<Arrival>, from: nat, last: nat)
    requires InOrder(arrivals, last) && last >= from + 1000
    ensures Admitted(b, threshold, arrivals, from) == 0
    decreases |arrivals|
  {
    hide Next, Judge;
    if arrivals != [] {
      NoneAfter(Next(b, arrivals[0]), threshold, arrivals[1..], from, arrivals[0].at);
    }
  }

  /** Counting one more initiation in the same bucket uses up one place. */
  lemma SameBucket(b: Bucket, a: Arrival, threshold: nat)
    requires a.mac1 && Wrap32(SysNow(a.at) - b.start) < 1000 && Next(b, a).count > 0
    ensures Next(b, a).start == b.start
    ensures Left(Next(b, a), threshold) + (if !a.mac2 && Judge(b, a, threshold) == Processed then 1 else 0)
         <= Left(b, threshold)
  {
  }

  lemma NewBucket(b: Bucket, a: Arrival, threshold: nat)
    requires a.mac1 && Wrap32(SysNow(a.at) - b.start) >= 1000
    ensures Next(b, a).start == SysNow(a.at)
    ensures Left(Next(b, a), threshold) + (if !a.mac2 && Judge(b, a, threshold) == Processed then 1 else 0) <= threshold
  {
  }

  lemma Unauthentic(b: Bucket, a: Arrival, threshold: nat)
    requires !a.mac1
    ensures Next(b, a) == b && Judge(b, a, threshold) == Dropped
  {
  }

  /** Once a bucket has begun after the start of the interval, no further one begins inside it. */
  lemma {:induction false} LastBucket(b: Bucket, r: nat, last: nat, threshold: nat, arrivals: seq<Arrival>, from: nat)
    requires b.start == SysNow(r) && from < r <= last && InOrder(arrivals, last) && CountFits(b, arrivals)
    ensures Admitted(b, threshold, arrivals, from) <= Left(b, threshold)
    decreases |arrivals|
  {
    hide Next, Judge, Left;
    if arrivals != [] {
      var a := arrivals[0];
      if a.at >= from + 1000 {
        NoneAfter(Next(b, a), threshold, arrivals[1..], from, a.at);
      } else {
        if a.mac1 {
          CloseReadings(r, a.at);
          SameBucket(b, a, threshold);
        } else {
          Unauthentic(b, a, threshold);
        }
        LastBucket(Next(b, a), r, a.at, threshold, arrivals[1..], from);
      }
    }
  }

  /** A bucket that begins with the interval can be followed by one more, in its last millisecond. */
  lemma {:induction false} FirstBucket(b: Bucket, last: nat, threshold: nat, arrivals: seq<Arrival>, from: nat)
    requires b.start == SysNow(from) && from <= last && InOrder(arrivals, last) && CountFits(b, arrivals)
    ensures Admitted(b, threshold, arrivals, from) <= Left(b, threshold) + threshold
    decreases |arrivals|
  {
    hide Next, Judge, Left;
    if arrivals != [] {
      var a := arrivals[0];
      if a.at >= from + 1000 {
        NoneAfter(Next(b, a), threshold, arrivals[1..], from, a.at);
      } else if a.mac1 && Wrap32(SysNow(a.at) - b.start) >= 1000 {
        if a.at < from + 999 {
          CloseReadings(from, a.at);
        }
        NewBucket(b, a, threshold);
        LastBucket(Next(b, a), a.at, a.at, threshold, arrivals[1..], from);
      } else {
        if a.mac1 {
          SameBucket(b, a, threshold);
        } else {
          Unauthentic(b, a, threshold);
        }
        FirstBucket(Next(b, a), a.at, threshold, arrivals[1..], from);
      }
    }
  }

  /** A bucket that counted an arrival inside the interval, at time seen, is followed by at most one. */
  lemma {:induction false} OldBucket(b: Bucket, seen: nat, last: nat, threshold: nat, arrivals: seq<Arrival>, from: nat)
    requires from <= seen <= last && Wrap32(SysNow(seen) - b.start) < 1000
    requires InOrder(arrivals, last) && CountFits(b, arrivals)
    ensures Admitted(b, threshold, arrivals, from) <= Left(b, threshold) + threshold
    decreases |arrivals|
  {
    hide Next, Judge, Left;
    if arrivals != [] {
      var a := arrivals[0];
      if a.at >= from + 1000 {
        NoneAfter(Next(b, a), threshold, arrivals[1..], from, a.at);
      } else if !a.mac1 {
        Unauthentic(b, a, threshold);
        OldBucket(Next(b, a), seen, a.at, threshold, arrivals[1..], from);
      } else if Wrap32(SysNow(a.at) - b.start) >= 1000 {
        NewBucket(b, a, threshold);
        LastBucket(Next(b, a), a.at, a.at, threshold, arrivals[1..], from);
      } else {
        SameBucket(b, a, threshold);
        OldBucket(Next(b, a), a.at, a.at, threshold, arrivals[1..], from);
      }
    }
  }

  /** In every interval of 1000 ms of true time, wherever the clock wraps, at most twice the threshold
      of initiations without a valid mac2 reach the Diffie-Hellman work. */
  lemma {:induction false} SheddingBound(b: Bucket, last: nat, threshold: nat, arrivals: seq<Arrival>, from: nat)
    requires InOrder(arrivals, last) && CountFits(b, arrivals)
    ensures Admitted(b, threshold, arrivals, from) <= 2 * threshold
    decreases |arrivals|
  {
    hide Next, Judge, Left;
    if arrivals != [] {
      var a := arrivals[0];
      LeftBound(b, threshold);
      if a.at < from || !a.mac1 {
        if !a.mac1 {
          Unauthentic(b, a, threshold);
        }
        SheddingBound(Next(b, a), a.at, threshold, arrivals[1..], from);
      } else if a.at >= from + 1000 {
        NoneAfter(Next(b, a), threshold, arrivals[1..], from, a.at);
      } else if Wrap32(SysNow(a.at) - b.start) < 1000 {
        SameBucket(b, a, threshold);
        OldBucket(Next(b, a), a.at, a.at, threshold, arrivals[1..], from);
      } else {
        NewBucket(b, a, threshold);
        if a.at == from {
          FirstBucket(Next(b, a), a.at, threshold, arrivals[1..], from);
        } else {
          LastBucket(Next(b, a), a.at, a.at, threshold, arrivals[1..], from);
        }
      }
    }
  }

  // ---- the count that wraps ----

  lemma {:induction false} AdmittedAtMost(b: Bucket, threshold: nat, arrivals: seq<Arrival>, from: nat)
    ensures Admitted(b, threshold, arrivals, from) <= |arrivals|
    decreases |arrivals|
  {
    hide Next, Judge;
    if arrivals != [] {
      AdmittedAtMost(Next(b, arrivals[0]), threshold, arrivals[1..], from);
    }
  }

  /** How many initiations a bucket has yet to count, beyond those it may admit, before its count wraps. */
  function ToWrap(b: Bucket, threshold: nat): int {
    0xffff_ffff - (if b.count < threshold then threshold else b.count)
  }

  /** One initiation is admitted, or takes the bucket one nearer to the wrap, but not both. */
  lemma OneOrNearer(b: Bucket, a: Arrival, threshold: nat)
    requires 1 <= threshold < 0xffff_ffff
    ensures a.mac1 && Next(b, a).count == 0 ==> ToWrap(b, threshold) == 0
    ensures !(a.mac1 && Next(b, a).count == 0) ==>
              (if !a.mac2 && Judge(b, a, threshold) == Processed then 1 else 0) + ToWrap(b, threshold)
              <= 1 + ToWrap(Next(b, a), threshold)
  {
  }

  /** A run in which a count wraps has spent that many initiations without admitting them. */
  lemma {:induction false} Overflowing(b: Bucket, threshold: nat, arrivals: seq<Arrival>, from: nat)
    requires 1 <= threshold < 0xffff_ffff && !CountFits(b, arrivals)
    ensures Admitted(b, threshold, arrivals, from) + ToWrap(b, threshold) <= |arrivals|
    decreases |arrivals|
  {
    var a := arrivals[0];
    OneOrNearer(b, a, threshold);
    hide Next, Judge, ToWrap;
    if a.mac1 && Next(b, a).count == 0 {
      AdmittedAtMost(b, threshold, arrivals, from);
    } else {
      Overflowing(Next(b, a), threshold, arrivals[1..], from);
    }
  }

  /** From the start of the device on, the bound holds for fewer than 2^32 + threshold initiations. */
  lemma SheddingFromStart(threshold: nat, arrivals: seq<Arrival>, from: nat)
    requires 1 <= threshold < 0xffff_ffff && InOrder(arrivals, 0) && |arrivals| < 0x1_0000_0000 + threshold
    ensures Admitted(Bucket(0, 0), threshold, arrivals, from) <= 2 * threshold
  {
    hide Admitted, CountFits, InOrder;
    if CountFits(Bucket(0, 0), arrivals) {
      SheddingBound(Bucket(0, 0), 0, threshold, arrivals, from);
    } else {
      Overflowing(Bucket(0, 0), threshold, arrivals, from);
    }
  }

  lemma LeftBound(b: Bucket, threshold: nat)
    ensures Left(b, threshold) <= threshold
  {
  }

  // ---- the bound is reached ----

  function Burst(n: nat, at: nat): (s: seq<Arrival>)
    ensures |s| == n
  {
    if n == 0 then [] else [Arrival(at, true, false)] + Burst(n - 1, at)
  }

  /** A burst that fits what is left of a bucket is admitted whole. */
  lemma {:induction false} BurstFits(b: Bucket, n: nat, at: nat, threshold: nat, rest: seq<Arrival>, from: nat)
    requires from <= at < from + 1000 && Wrap32(SysNow(at) - b.start) < 1000 && b.count + n <= threshold < 0x1_0000_0000
    ensures Admitted(b, threshold, Burst(n, at) + rest, from)
         == n + Admitted(Bucket(b.start, b.count + n), threshold, rest, from)
    decreases n
  {
    if n == 0 {
      assert Burst(n, at) + rest == rest;
    } else {
      var a := Arrival(at, true, false);
      var all := Burst(n, at) + rest;
      assert all[0] == a && all[1..] == Burst(n - 1, at) + rest;
      assert Next(b, a) == Bucket(b.start, b.count + 1);
      BurstFits(Next(b, a), n - 1, at, threshold, rest, from);
    }
  }

  lemma FirstOfBurst(n: nat, at: nat)
    requires n > 0
    ensures Burst(n, at) == [Arrival(at, true, false)] + Burst(n - 1, at)
  {
  }

  lemma FirstAdmitted(b: Bucket, threshold: nat, a: Arrival, rest: seq<Arrival>, from: nat)
    requires from <= a.at < from + 1000 && !a.mac2 && Judge(b, a, threshold) == Processed
    ensures Admitted(b, threshold, [a] + rest, from) == 1 + Admitted(Next(b, a), threshold, rest, from)
  {
    hide Judge, Next;
    assert ([a] + rest)[1..] == rest;
  }

  lemma NoneAdmitted(b: Bucket, threshold: nat, from: nat)
    ensures Admitted(b, threshold, [], from) == 0
  {
  }

  lemma SecondBurst(b: Bucket, threshold: nat)
    requires 1 <= threshold <= 1000 && b.start == 0
    ensures Admitted(b, threshold, Burst(threshold, 1000), 999) == threshold
  {
    hide Admitted, Burst;
    var a := Arrival(1000, true, false);
    var rest := Burst(threshold - 1, 1000);
    FirstOfBurst(threshold, 1000);
    FirstAdmitted(b, threshold, a, rest, 999);
    assert Next(b, a) == Bucket(1000, 1);
    BurstFits(Bucket(1000, 1), threshold - 1, 1000, threshold, [], 999);
    assert rest + [] == rest;
    NoneAdmitted(Bucket(1000, threshold), threshold, 999);
  }

  /** After start-up, a burst in the last millisecond of the first bucket and one in the first
      millisecond of the next: the bound cannot be improved. */
  lemma BoundIsReached(threshold: nat)
    requires 1 <= threshold <= 1000
    ensures Admitted(Bucket(0, 0), threshold, Burst(threshold, 999) + Burst(threshold, 1000), 999) == 2 * threshold
  {
    hide Burst, Admitted;
    BurstFits(Bucket(0, 0), threshold, 999, threshold, Burst(threshold, 1000), 999);
    SecondBurst(Bucket(0, threshold), threshold);
  }

  // ---- the shortest flood that breaks the bound ----

  /** A burst beyond the threshold is refused whole, as long as the bucket can count it. */
  lemma {:induction false} BurstRefused(b: Bucket, n: nat, at: nat, threshold: nat, rest: seq<Arrival>, from: nat)
    requires Wrap32(SysNow(at) - b.start) < 1000 && threshold <= b.count && b.count + n < 0x1_0000_0000
    ensures Admitted(b, threshold, Burst(n, at) + rest, from)
         == Admitted(Bucket(b.start, b.count + n), threshold, rest, from)
    decreases n
  {
    if n == 0 {
      assert Burst(n, at) + rest == rest;
    } else {
      var a := Arrival(at, true, false);
      var all := Burst(n, at) + rest;
      assert all[0] == a && all[1..] == Burst(n - 1, at) + rest;
      assert Next(b, a) == Bucket(b.start, b.count + 1);
      BurstRefused(Next(b, a), n - 1, at, threshold, rest, from);
    }
  }

  lemma {:induction false} BurstInOrder(n: nat, at: nat, rest: seq<Arrival>, since: nat)
    requires since <= at && InOrder(rest, at)
    ensures InOrder(Burst(n, at) + rest, since)
    decreases n
  {
    if n == 0 {
      assert Burst(n, at) + rest == rest;
    } else {
      var all := Burst(n, at) + rest;
      assert all[0] == Arrival(at, true, false) && all[1..] == Burst(n - 1, at) + rest;
      BurstInOrder(n - 1, at, rest, at);
    }
  }

  /** threshold initiations at 999 ms, as many more as the count can hold, one that wraps it to 0 and is
      admitted again, and threshold in the next bucket. */
  function Flood(threshold: nat): seq<Arrival>
    requires threshold < 0x1_0000_0000
  {
    Burst(threshold, 999)
    + (Burst(0xffff_ffff - threshold, 999) + ([Arrival(999, true, false)] + Burst(threshold, 1000)))
  }

  lemma FloodBreaksBound(threshold: nat)
    requires 1 <= threshold <= 1000
    ensures InOrder(Flood(threshold), 0) && |Flood(threshold)| == 0x1_0000_0000 + threshold
    ensures Admitted(Bucket(0, 0), threshold, Flood(threshold), 999) == 2 * threshold + 1
  {
    FloodInOrder(threshold);
    hide Burst, Admitted, InOrder;
    var a, last := Arrival(999, true, false), Burst(threshold, 1000);
    BurstFits(Bucket(0, 0), threshold, 999, threshold, Burst(0xffff_ffff - threshold, 999) + ([a] + last), 999);
    BurstRefused(Bucket(0, threshold), 0xffff_ffff - threshold, 999, threshold, [a] + last, 999);
    assert Next(Bucket(0, 0xffff_ffff), a) == Bucket(0, 0);
    FirstAdmitted(Bucket(0, 0xffff_ffff), threshold, a, last, 999);
    SecondBurst(Bucket(0, 0), threshold);
  }

  lemma FloodInOrder(threshold: nat)
    requires 1 <= threshold <= 1000
    ensures InOrder(Flood(threshold), 0)
  {
    var a, last := Arrival(999, true, false), Burst(threshold, 1000);
    assert InOrder([], 1000);
    BurstInOrder(threshold, 1000, [], 999);
    assert last + [] == last && ([a] + last)[1..] == last;
    assert InOrder([a] + last, 999);
    hide Burst, InOrder;
    BurstInOrder(0xffff_ffff - threshold, 999, [a] + last, 999);
    BurstInOrder(threshold, 999, Burst(0xffff_ffff - threshold, 999) + ([a] + last), 0);
  }

  /** The bound holds of all runs of at most n initiations from the start of the device exactly if n is
      below 2^32 + threshold. */
  lemma SheddingExactly(threshold: nat, n: nat)
    requires 1 <= threshold <= 1000
    ensures (forall arrivals, from :: InOrder(arrivals, 0) && |arrivals| <= n ==>
               Admitted(Bucket(0, 0), threshold, arrivals, from) <= 2 * threshold)
            <==> n < 0x1_0000_0000 + threshold
  {
    hide Admitted, InOrder, Flood;
    if n < 0x1_0000_0000 + threshold {
      forall arrivals, from | InOrder(arrivals, 0) && |arrivals| <= n
        ensures Admitted(Bucket(0, 0), threshold, arrivals, from) <= 2 * threshold
      {
        SheddingFromStart(threshold, arrivals, from);
      }
    } else {
      FloodBreaksBound(threshold);
      assert Admitted(Bucket(0, 0), threshold, Flood(threshold), 999) > 2 * threshold;
    }
  }
}
