/** How old packets are in true time, over runs whose clock readings are taken at nondecreasing times. */
module TrueTime {
  import opened Clock
  import opened Options
  import opened Replay
  import opened Session
  import opened SessionSafety

  /** An event with the true time, in milliseconds, at each of its call sites of wireguard_sys_now. */
  datatype Timed = Timed(event: Event, sendOk: bool, made: bool, index: U32, clock: nat -> nat)

  /** No event reads the clock at more than nine places. */
  const SITES := 9

  function Read(x: Timed): Input {
    Input(x.event, x.sendOk, x.made, x.index, (n: nat) => SysNow(x.clock(n)))
  }

  function Run(p: Peer, xs: seq<Timed>): Peer {
    if xs == [] then p else Step(Run(p, xs[..|xs| - 1]), Read(xs[|xs| - 1]))
  }

  function Reads(xs: seq<Timed>): seq<Input> { seq(|xs|, i requires 0 <= i < |xs| => Read(xs[i])) }

  lemma {:induction false} RunReads(p: Peer, xs: seq<Timed>)
    ensures Run(p, xs) == RunFrom(p, Reads(xs))
  {
    hide Step;
    if xs == [] {
    } else {
      RunReads(p, xs[..|xs| - 1]);
      assert Reads(xs)[..|xs| - 1] == Reads(xs[..|xs| - 1]);
    }
  }

  /** The readings of an event are nondecreasing, and none is after now. */
  ghost predicate Onward(clock: nat -> nat, now: nat) {
    forall m, n :: 0 <= m <= n < SITES ==> clock(m) <= clock(n) <= now
  }

  /** Time does not run backwards, within an event or from one to the next. */
  ghost predicate Forward(xs: seq<Timed>) {
    && (forall i :: 0 <= i < |xs| ==> Onward(xs[i].clock, xs[i].clock(SITES - 1)))
    && (forall i, j :: 0 <= i < j < |xs| ==> xs[i].clock(SITES - 1) <= xs[j].clock(0))
  }

  /** All readings are taken within n milliseconds of the first. */
  ghost predicate Within(xs: seq<Timed>, n: nat) {
    forall i :: 0 <= i < |xs| ==> xs[i].clock(SITES - 1) <= xs[0].clock(0) + n
  }

  // ---- when packets were sent and sessions began ----

  /** The reading that dates a packet sent on an event. */
  function SendSite(e: Event): nat {
    match e
    case Transmit(_) => 0
    case ResponseIn(_) => 1
    case _ => 3
  }

  /** The reading that dates a session begun on an event. */
  function BirthSite(e: Event): nat { if e.ResponseIn? then 0 else 1 }

  /** The true times of the packets sent, in order, and of the beginning of each session. */
  datatype Times = Times(sent: seq<nat>, born: map<nat, nat>)

  function Noted(t: Times, before: History, after: History, x: Timed): Times {
    Times(
      if after.sent == before.sent then t.sent else t.sent + [x.clock(SendSite(x.event))],
      if after.seeded == before.seeded || after.seeded == [] then t.born
      else t.born[after.seeded[|after.seeded| - 1] := x.clock(BirthSite(x.event))])
  }

  function TimesOf(p: Peer, xs: seq<Timed>): Times {
    if xs == [] then Times([], map[])
    else
      Noted(TimesOf(p, xs[..|xs| - 1]), Run(p, xs[..|xs| - 1]).history, Run(p, xs).history, xs[|xs| - 1])
  }

  // ---- what one event adds to the log ----

  /** At most one packet is sent, dated by the reading of SendSite. */
  predicate SendsOne(before: History, after: History, x: Input) {
    || after.sent == before.sent
    || (&& !x.event.InitiationIn? && |after.sent| > 0 && after.sent[..|after.sent| - 1] == before.sent
        && after.sent[|after.sent| - 1].at == x.clk(SendSite(x.event)))
  }

  /** At most one session begins, dated by the reading of BirthSite. */
  predicate BeginsOne(before: History, after: History, x: Input) {
    || (after.seeded == before.seeded && after.births == before.births)
    || (&& (x.event.InitiationIn? || x.event.ResponseIn?)
        && |after.seeded| > 0 && after.seeded[..|after.seeded| - 1] == before.seeded
        && var s := after.seeded[|after.seeded| - 1];
           s !in before.seeded
           && exists initiator :: after.births == before.births[s := Birth(initiator, x.clk(BirthSite(x.event)))])
  }

  /** The log grows by nothing or by one packet read at now. */
  predicate AddsOne(before: History, after: History, now: Millis) {
    || after == before
    || (&& |after.sent| > 0 && after == before.(sent := after.sent)
        && after.sent[..|after.sent| - 1] == before.sent && after.sent[|after.sent| - 1].at == now)
  }

  lemma SendAdds(p: Peer, len: nat, sendOk: bool, clk: Readings)
    ensures AddsOne(p.history, EncryptAndSend(p, len, sendOk, clk).history, clk(0))
  {
    hide Expired;
    var k := Get(p, SendSlot(p));
    assert Logged(p.history, k, clk(0)).sent[..|p.history.sent|] == p.history.sent;
  }

  lemma AcceptAdds(p: Peer, s: Slot, d: Datagram, clk: Readings)
    ensures var h := Accept(p, s, d, clk).history; h == p.history.(delivered := h.delivered)
  {
    hide Expired, Mark;
  }

  lemma DataAdds(p: Peer, d: Datagram, sendOk: bool, clk: Readings)
    ensures var h := ProcessData(p, d, sendOk, clk).history;
            AddsOne(p.history.(delivered := h.delivered), h, clk(3))
  {
    hide Expired, EncryptAndSend, Accept, Fresh;
    if KeypairForIndex(p, d.index).Some? {
      var p1 := Accept(p, KeypairForIndex(p, d.index).value, d, clk);
      AcceptAdds(p, KeypairForIndex(p, d.index).value, d, clk);
      if d.reply.Some? { SendAdds(p1, d.reply.value, sendOk, (i: nat) => clk(i + 3)); }
    }
  }

  lemma TimersAdd(p: Peer, sendOk: bool, made: bool, index: U32, clk: Readings)
    ensures var h := RunTimers(p, sendOk, made, index, clk).history;
            AddsOne(p.history.(nextSid := h.nextSid), h, clk(3))
  {
    var q := ExpireSlots(p, clk);
    assert q.history == p.history by { hide Expired; }
    SendAdds(q, 0, sendOk, (i: nat) => clk(i + 3));
    StartAdds(KeepaliveIfDue(q, sendOk, clk), made, index, clk(8));
    hide Expired, EncryptAndSend, ExpireSlots, StartHandshake, ShouldInitiate;
  }

  lemma StartAdds(p: Peer, made: bool, index: U32, now: Millis)
    ensures var h := StartHandshake(p, made, index, now).history; h == p.history.(nextSid := h.nextSid)
  {
  }

  lemma StartBegins(p: Peer, initiator: bool, now: Millis)
    ensures var h := StartSession(p, initiator, now).history;
            && h.sent == p.history.sent && h.seeded == p.history.seeded + [p.hs.sid]
            && h.births == p.history.births[p.hs.sid := Birth(initiator, now)]
  {
  }

  lemma InitiationBegins(p: Peer, m: Initiation, x: Input)
    requires Inv(p) && x.event == InitiationIn(m)
    ensures SendsOne(p.history, Step(p, x).history, x) && BeginsOne(p.history, Step(p, x).history, x)
  {
    hide StartSession, AcceptsInitiation, SlotOk;
    var q := Redrawn(p.(lastInitiationRx := x.clk(0), greatestTimestamp := m.stamp, endpoint := m.from,
                        hs := p.hs.(remoteIndex := m.sender, valid := true, initiator := false)));
    StartBegins(q.(hs := q.hs.(localIndex := x.index)), false, x.clk(1));
    assert (p.history.seeded + [p.history.nextSid])[..|p.history.seeded|] == p.history.seeded;
  }

  lemma ResponseBegins(p: Peer, m: Response, x: Input)
    requires Inv(p) && x.event == ResponseIn(m)
    ensures SendsOne(p.history, Step(p, x).history, x) && BeginsOne(p.history, Step(p, x).history, x)
  {
    hide StartSession, EncryptAndSend, SlotOk;
    var q := p.(hs := p.hs.(remoteIndex := m.sender), endpoint := m.from);
    StartBegins(q, true, x.clk(0));
    SendAdds(StartSession(q, true, x.clk(0)), 0, x.sendOk, (i: nat) => x.clk(i + 1));
    assert (p.history.seeded + [p.hs.sid])[..|p.history.seeded|] == p.history.seeded;
  }

  lemma StepAdds(p: Peer, x: Input)
    requires Inv(p)
    ensures SendsOne(p.history, Step(p, x).history, x) && BeginsOne(p.history, Step(p, x).history, x)
  {
    hide Inv, EncryptAndSend, ProcessData, ProcessInitiation, ProcessResponse, RunTimers;
    match x.event
    case InitiationIn(m) => InitiationBegins(p, m, x);
    case ResponseIn(m) => ResponseBegins(p, m, x);
    case Transmit(len) => SendAdds(p, len, x.sendOk, x.clk);
    case Data(d) => DataAdds(p, d, x.sendOk, x.clk);
    case CookieIn(_, _) =>
    case Tick => TimersAdd(p, x.sendOk, x.made, x.index, x.clk);
    case Up =>
    case Down =>
  }

  // ---- the times and the log ----

  /** The log shows the readings of these times, all from since to now, and no packet was sent before its
      session. */
  ghost predicate Dates(t: Times, h: History, since: nat, now: nat) {
    && |t.sent| == |h.sent| && t.born.Keys == h.births.Keys
    && (forall s :: s in t.born ==> h.births[s].start == SysNow(t.born[s]) && since <= t.born[s] <= now)
    && (forall i :: 0 <= i < |h.sent| ==>
          && h.sent[i].at == SysNow(t.sent[i]) && h.sent[i].sid in t.born
          && t.born[h.sent[i].sid] <= t.sent[i] <= now)
  }

  predicate BirthsSeeded(h: History) { forall s :: s in h.births ==> s in h.seeded }

  lemma BirthNoted(t: Times, before: History, after: History, x: Timed, since: nat, now: nat)
    requires Dates(t, before, since, x.clock(0)) && BeginsOne(before, after, Read(x)) && since <= x.clock(0) <= now
    requires BirthsSeeded(before)
    requires after.seeded != before.seeded ==> since <= x.clock(BirthSite(x.event)) <= now
    ensures Dates(Times(t.sent, Noted(t, before, after, x).born), before.(births := after.births), since, now)
  {
    hide Dates, SysNow, BirthsSeeded;
    if after.seeded != before.seeded {
      var s, at := after.seeded[|after.seeded| - 1], x.clock(BirthSite(x.event));
      var initiator :| after.births == before.births[s := Birth(initiator, SysNow(at))];
      BornNow(t, before, s, initiator, at, since, x.clock(0), now);
    } else {
      assert before.(births := after.births) == before;
      DatesLater(t, before, since, x.clock(0), now);
    }
  }

  lemma DatesLater(t: Times, h: History, since: nat, last: nat, now: nat)
    requires Dates(t, h, since, last) && last <= now
    ensures Dates(t, h, since, now)
  {
  }

  lemma BornNow(t: Times, h: History, s: nat, initiator: bool, at: nat, since: nat, last: nat, now: nat)
    requires Dates(t, h, since, last) && s !in h.seeded && BirthsSeeded(h) && last <= now && since <= at <= now
    ensures Dates(t.(born := t.born[s := at]), h.(births := h.births[s := Birth(initiator, SysNow(at))]), since, now)
  {
    assert s !in h.births;
    hide SysNow, BirthsSeeded;
  }

  lemma SendNoted(t: Times, before: History, after: History, x: Timed, since: nat, between: nat, now: nat)
    requires Dates(Times(t.sent, Noted(t, before, after, x).born), before.(births := after.births), since, between)
    requires SendsOne(before, after, Read(x)) && between <= now
    requires after.sent != before.sent ==> between == x.clock(SendSite(x.event))
    requires after.sent != [] ==> after.sent[|after.sent| - 1].sid in after.births
    ensures Dates(Noted(t, before, after, x), after, since, now)
  {
    var born := Noted(t, before, after, x).born;
    if after.sent == before.sent {
    } else {
      var last := after.sent[|after.sent| - 1];
      assert last.at == SysNow(between) && last.sid in born;
      assert after.sent == before.sent + [last] && Noted(t, before, after, x).sent == t.sent + [between];
      hide Noted, SendsOne, SysNow, SendSite, Read;
    }
  }

  lemma SessionsLogged(h: History)
    requires HistoryOk(h)
    ensures h.sent != [] ==> h.sent[|h.sent| - 1].sid in h.births
    ensures BirthsSeeded(h)
  {
    hide Heard;
    if h.sent != [] { assert SendOk(h, h.sent[|h.sent| - 1]); }
  }

  lemma SiteOrder(e: Event, clock: nat -> nat, now: nat)
    requires Onward(clock, now)
    ensures clock(0) <= clock(SendSite(e)) <= now && clock(0) <= clock(BirthSite(e)) <= now
    ensures e.ResponseIn? ==> clock(BirthSite(e)) <= clock(SendSite(e))
  {
  }

  /** Where an event both begins a session and sends, the session is first. */
  lemma BirthThenSend(before: History, after: History, x: Timed, now: nat)
    requires SendsOne(before, after, Read(x)) && BeginsOne(before, after, Read(x)) && Onward(x.clock, now)
    ensures after.seeded != before.seeded && after.sent != before.sent ==>
              x.clock(BirthSite(x.event)) <= x.clock(SendSite(x.event))
    ensures x.clock(0) <= x.clock(SendSite(x.event)) <= now
    ensures x.clock(0) <= x.clock(BirthSite(x.event)) <= now
  {
    hide Onward, SysNow;
    SiteOrder(x.event, x.clock, now);
  }

  /** The last event of a run, with every reading up to now. */
  lemma StepDates(t: Times, before: History, after: History, x: Timed, since: nat, now: nat)
    requires HistoryOk(before) && HistoryOk(after) && Dates(t, before, since, x.clock(0)) && since <= x.clock(0)
    requires SendsOne(before, after, Read(x)) && BeginsOne(before, after, Read(x))
    requires Onward(x.clock, now)
    ensures Dates(Noted(t, before, after, x), after, since, now)
  {
    hide HistoryOk, Dates, BeginsOne, SendsOne, Noted, SendSite, BirthSite, BirthsSeeded, Onward, Read;
    SessionsLogged(before);
    SessionsLogged(after);
    BirthThenSend(before, after, x, now);
    var between := if after.sent == before.sent then now else x.clock(SendSite(x.event));
    BirthNoted(t, before, after, x, since, between);
    SendNoted(t, before, after, x, since, between, now);
  }

  // ---- whole runs ----

  lemma {:induction false} RunDates(p: Peer, xs: seq<Timed>, since: nat, now: nat)
    requires Initial(p) && Forward(xs)
    requires xs != [] ==> since <= xs[0].clock(0) && xs[|xs| - 1].clock(SITES - 1) <= now
    ensures Inv(Run(p, xs)) && Dates(TimesOf(p, xs), Run(p, xs).history, since, now)
  {
    if xs == [] {
      InitialInv(p);
    } else {
      var before, x := xs[..|xs| - 1], xs[|xs| - 1];
      LastReadings(xs, since, now);
      hide Step, Initial, Inv, Dates, BeginsOne, SendsOne, Noted, Onward, Forward;
      RunDates(p, before, since, x.clock(0));
      StepKeeps(Run(p, before), Read(x));
      StepAdds(Run(p, before), Read(x));
      LogOk(Run(p, before));
      LogOk(Run(p, xs));
      StepDates(TimesOf(p, before), Run(p, before).history, Run(p, xs).history, x, since, now);
    }
  }

  lemma LastReadings(xs: seq<Timed>, since: nat, now: nat)
    requires Forward(xs) && xs != [] && since <= xs[0].clock(0) && xs[|xs| - 1].clock(SITES - 1) <= now
    ensures var before, x := xs[..|xs| - 1], xs[|xs| - 1];
            && Onward(x.clock, now) && since <= x.clock(0) && Forward(before)
            && (before != [] ==> since <= before[0].clock(0) && before[|before| - 1].clock(SITES - 1) <= x.clock(0))
  {
    assert Onward(xs[0].clock, xs[0].clock(SITES - 1));
  }

  lemma LogOk(p: Peer)
    requires Inv(p)
    ensures HistoryOk(p.history)
  {
  }

  /** Packet i was sent after its session began and within 180 s of it, in true time. */
  predicate Young(t: Times, h: History, i: nat)
    requires i < |h.sent|
  {
    && i < |t.sent| && h.sent[i].sid in t.born
    && t.born[h.sent[i].sid] <= t.sent[i] <= t.born[h.sent[i].sid] + 180_000
  }

  ghost predicate AllYoung(t: Times, h: History) { forall i :: 0 <= i < |h.sent| ==> Young(t, h, i) }

  /** Packet i was sent after its session began, both between since and now, when the true age of the
      session was less than 180 s past a multiple of 2^32 ms. */
  predicate YoungAsRead(t: Times, h: History, since: nat, now: nat, i: nat)
    requires i < |h.sent|
  {
    && i < |t.sent| && h.sent[i].sid in t.born
    && since <= t.born[h.sent[i].sid] <= t.sent[i] <= now
    && Wrap32(Age(t.born[h.sent[i].sid], t.sent[i])) < 180_000
  }

  lemma DatedAge(t: Times, h: History, since: nat, now: nat, i: nat)
    requires Dates(t, h, since, now) && i < |h.sent| && Wrap32(h.sent[i].at - h.births[h.sent[i].sid].start) < 180_000
    ensures YoungAsRead(t, h, since, now, i)
  {
    ExpiredExactly(t.born[h.sent[i].sid], t.sent[i], 180);
    LimitFits(180);
    hide Age, SysNow, Limit;
  }

  lemma NothingYet(p: Peer)
    requires Initial(p)
    ensures Run(p, []).history.sent == []
  {
    hide Step;
  }

  lemma SentAsRead(p: Peer, xs: seq<Timed>, i: nat)
    requires Initial(p) && i < |Run(p, xs).history.sent|
    ensures xs != []
    ensures var h := Run(p, xs).history;
            h.sent[i].sid in h.births && Wrap32(h.sent[i].at - h.births[h.sent[i].sid].start) < 180_000
  {
    hide Initial, Run, RunFrom, Wrap32, Reads;
    NothingYet(p);
    RunReads(p, xs);
    SentWithinLimits(p, Reads(xs), i);
  }

  /** In any run, every packet is sent after its session began, while the true age of the session is
      less than 180 s past a multiple of 2^32 ms. */
  lemma SentAtTrueAge(p: Peer, xs: seq<Timed>, i: nat)
    requires Initial(p) && Forward(xs) && i < |Run(p, xs).history.sent|
    ensures xs != []
    ensures YoungAsRead(TimesOf(p, xs), Run(p, xs).history, xs[0].clock(0), xs[|xs| - 1].clock(SITES - 1), i)
  {
    hide Initial, Forward, Run, RunFrom, TimesOf, Inv, Dates, Wrap32, YoungAsRead;
    SentAsRead(p, xs, i);
    RunDates(p, xs, xs[0].clock(0), xs[|xs| - 1].clock(SITES - 1));
    DatedAge(TimesOf(p, xs), Run(p, xs).history, xs[0].clock(0), xs[|xs| - 1].clock(SITES - 1), i);
  }

  // ---- the limit is reached ----

  /** A session begun when the clock reads 1 is used again when it reads 1 the next time. */
  function Reused(): (xs: seq<Timed>) {
    [Timed(Tick, true, true, 7, (n: nat) => 1),
     Timed(ResponseIn(Response(7, true, 8, 0)), true, true, 0, (n: nat) => 1),
     Timed(Transmit(0), true, true, 0, (n: nat) => 0x1_0000_0000)]
  }

  function Started(): (p: Peer) {
    Peer(DESTROYED, DESTROYED, DESTROYED, Handshake(false, false, 0, 0, 0), 0, 0, 0, 1,
         0, 0, 0, 0, 0, true, true, false, History(0, [], map[], [], []))
  }

  lemma HandshakeStarts()
    ensures var q := Step(Started(), Read(Reused()[0]));
            q.hs == Handshake(true, true, 7, 0, 0) && q.history == History(1, [], map[], [], [])
  {
    hide Expired;
  }

  /** The current keypair, one of our own session 0 with n packets sent, sends one more. */
  lemma SendsAgain(p: Peer, n: nat, sendOk: bool, clk: Readings)
    requires p.curr.valid && p.curr.initiator && p.curr.sid == 0 && p.curr.millis == 1 && p.curr.sendingCounter == n < 2
    requires clk(0) == 1
    ensures var q := EncryptAndSend(p, 0, sendOk, clk);
            && q.history == p.history.(sent := p.history.sent + [Sent(0, n, 1, |p.history.delivered|)])
            && q.curr.valid && q.curr.initiator && q.curr.sid == 0 && q.curr.millis == 1
            && q.curr.sendingCounter == n + 1
  {
    assert !Expired(1, 1, 180);
    hide Expired;
  }

  lemma SessionStarts(p: Peer)
    requires p.hs == Handshake(true, true, 7, 0, 0) && p.history == History(1, [], map[], [], [])
    ensures var q := Step(p, Read(Reused()[1]));
            && q.history == History(1, [0], map[0 := Birth(true, 1)], [Sent(0, 0, 1, 0)], [])
            && q.curr.valid && q.curr.initiator && q.curr.sid == 0 && q.curr.millis == 1 && q.curr.sendingCounter == 1
  {
    var x := Read(Reused()[1]);
    var q := StartSession(p.(hs := p.hs.(remoteIndex := 8), endpoint := 0), true, 1);
    assert q.history == History(1, [0], map[0 := Birth(true, 1)], [], []);
    SendsAgain(q, 0, true, (i: nat) => x.clk(i + 1));
    hide EncryptAndSend, StartSession;
  }

  lemma StillSends(p: Peer)
    requires p.history == History(1, [0], map[0 := Birth(true, 1)], [Sent(0, 0, 1, 0)], [])
    requires p.curr.valid && p.curr.initiator && p.curr.sid == 0 && p.curr.millis == 1 && p.curr.sendingCounter == 1
    ensures Step(p, Read(Reused()[2])).history == p.history.(sent := [Sent(0, 0, 1, 0), Sent(0, 1, 1, 0)])
  {
    SendsAgain(p, 1, true, Read(Reused()[2]).clk);
    hide EncryptAndSend;
  }

  lemma ReusedRuns()
    ensures var p, xs := Started(), Reused();
            && Run(p, xs[..0]).history == History(0, [], map[], [], [])
            && Run(p, xs[..1]).history == History(1, [], map[], [], [])
            && Run(p, xs[..2]).history == History(1, [0], map[0 := Birth(true, 1)], [Sent(0, 0, 1, 0)], [])
            && Run(p, xs).history ==
               History(1, [0], map[0 := Birth(true, 1)], [Sent(0, 0, 1, 0), Sent(0, 1, 1, 0)], [])
  {
    var p, xs := Started(), Reused();
    HandshakeStarts();
    SessionStarts(Step(p, Read(xs[0])));
    StillSends(Step(Step(p, Read(xs[0])), Read(xs[1])));
    hide Step, Read;
    assert xs[..2][..1] == xs[..1] == [xs[0]] && xs[..1][..0] == [];
  }

  lemma ReusedTimes()
    ensures TimesOf(Started(), Reused()) == Times([1, 0x1_0000_0000], map[0 := 1])
  {
    var p, xs := Started(), Reused();
    ReusedRuns();
    hide Run, Started;
    assert xs[..2][..1] == xs[..1] && xs[..1][..0] == xs[..0] == [];
    assert TimesOf(p, xs[..1]) == Times([], map[]);
    assert TimesOf(p, xs[..2]) == Times([1], map[0 := 1]);
  }

  lemma ReusedIsOld()
    ensures Initial(Started()) && Forward(Reused()) && Within(Reused(), 0xffff_ffff)
    ensures !AllYoung(TimesOf(Started(), Reused()), Run(Started(), Reused()).history)
  {
    hide TimesOf, Run;
    ReusedRuns();
    ReusedTimes();
    var h, t := Run(Started(), Reused()).history, TimesOf(Started(), Reused());
    assert !Young(t, h, 1);
  }

  lemma YoungBelow(t: Times, h: History, since: nat, now: nat, i: nat)
    requires i < |h.sent| && YoungAsRead(t, h, since, now, i) && now - since < 0xffff_ffff
    ensures Young(t, h, i)
  {
    var t0, t1 := t.born[h.sent[i].sid], t.sent[i];
    assert Age(t0, t1) < 0x1_0000_0000;
  }

  /** In every run that spans at most n ms all packets are sent within 180 s of true time after their
      session began, if and only if n < 2^32 - 1: no longer than the clock needs to read the same again. */
  ghost predicate YoungWithin(n: nat) {
    forall p, xs :: Initial(p) && Forward(xs) && Within(xs, n) ==> AllYoung(TimesOf(p, xs), Run(p, xs).history)
  }

  lemma YoungExactly(n: nat)
    ensures YoungWithin(n) <==> n < 0xffff_ffff
  {
    hide Initial, Forward, TimesOf, Run, AllYoung;
    if n < 0xffff_ffff {
      forall p, xs | Initial(p) && Forward(xs) && Within(xs, n)
        ensures AllYoung(TimesOf(p, xs), Run(p, xs).history)
      {
        ShortRunIsYoung(p, xs, n);
      }
    } else {
      ReusedIsOld();
      assert Within(Reused(), n);
    }
  }

  lemma ShortRunIsYoung(p: Peer, xs: seq<Timed>, n: nat)
    requires Initial(p) && Forward(xs) && Within(xs, n) && n < 0xffff_ffff
    ensures AllYoung(TimesOf(p, xs), Run(p, xs).history)
  {
    hide Run, TimesOf, Initial, Forward, YoungAsRead, Young;
    var h, t := Run(p, xs).history, TimesOf(p, xs);
    forall i | 0 <= i < |h.sent| ensures Young(t, h, i) {
      SentAtTrueAge(p, xs, i);
      YoungBelow(t, h, xs[0].clock(0), xs[|xs| - 1].clock(SITES - 1), i);
    }
  }
}
