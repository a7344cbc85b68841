/** What every step of the session machine keeps, and what follows for whole runs. */
module SessionSafety {
  import opened Clock
  import opened Options
  import opened Replay
  import opened Session

  // ---- the invariant ----

  /** The counters delivered so far in a session. */
  ghost function Received(h: History, sid: nat): set<U64> {
    set i | 0 <= i < |h.delivered| && h.delivered[i].sid == sid :: h.delivered[i].counter
  }

  ghost predicate SlotOk(k: Keypair, h: History, size: nat) {
    k.valid ==>
      && k.sid in h.seeded && k.receivingValid && k.sendingCounter <= REJECT_AFTER_MESSAGES
      && (forall i :: 0 <= i < |h.sent| && h.sent[i].sid == k.sid ==> h.sent[i].counter < k.sendingCounter)
      && Remembers(k.window, size, Received(h, k.sid))
      && Known(k, h)
  }

  /** A keypair still has the role and the start of its session, however often it was copied, and a
      responder's that has been received on has a delivery in the log. */
  predicate Known(k: Keypair, h: History) {
    && k.sid in h.births && h.births[k.sid] == Birth(k.initiator, k.millis)
    && (!k.initiator && k.lastRx != 0 ==> Heard(h.delivered, k.sid))
  }

  /** Some packet of the session is among those delivered. */
  predicate Heard(delivered: seq<Delivered>, sid: nat) {
    exists j :: 0 <= j < |delivered| && delivered[j].sid == sid
  }

  predicate Apart(k: Keypair, l: Keypair) { k.valid && l.valid ==> k.sid != l.sid }

  /** No nonce twice, no delivery twice, no handshake used twice, and every packet sent under a
      confirmed key within its age and message limits. */
  ghost predicate HistoryOk(h: History) {
    && (forall i, j :: 0 <= i < j < |h.sent| ==>
          h.sent[i].sid != h.sent[j].sid || h.sent[i].counter != h.sent[j].counter)
    && (forall i, j :: 0 <= i < j < |h.delivered| ==> h.delivered[i] != h.delivered[j])
    && (forall i, j :: 0 <= i < j < |h.seeded| ==> h.seeded[i] != h.seeded[j])
    && (forall i :: 0 <= i < |h.sent| ==> SendOk(h, h.sent[i]))
    && (forall i :: 0 <= i < |h.sent| ==> h.sent[i].sid in h.seeded)
    && (forall i :: 0 <= i < |h.delivered| ==> h.delivered[i].sid in h.seeded)
    && (forall s :: s in h.seeded ==> s < h.nextSid)
    && (forall s :: s in h.births ==> s in h.seeded)
  }

  /** A packet sent in a session that began less than 180 s before as read, below the message limit, by
      its initiator or after a delivery in that session. */
  predicate SendOk(h: History, s: Sent) {
    && s.sid in h.births && Wrap32(s.at - h.births[s.sid].start) < 180_000 && s.counter < REJECT_AFTER_MESSAGES
    && s.after <= |h.delivered| && (h.births[s.sid].initiator || Heard(h.delivered[..s.after], s.sid))
  }

  ghost predicate Inv(p: Peer) {
    && p.size > 0
    && HistoryOk(p.history)
    && SlotOk(p.curr, p.history, p.size) && SlotOk(p.prev, p.history, p.size) && SlotOk(p.next, p.history, p.size)
    && Apart(p.curr, p.prev) && Apart(p.curr, p.next) && Apart(p.prev, p.next)
    && (p.curr.valid ==> Confirmed(p.curr))
    && (p.next.valid ==> !p.next.initiator && p.next.lastRx == 0)
    && (p.hs.valid && p.hs.initiator ==> p.hs.sid !in p.history.seeded && p.hs.sid < p.history.nextSid)
  }

  // ---- each function keeps it ----

  lemma InitialInv(p: Peer)
    requires Initial(p)
    ensures Inv(p)
  {
  }

  lemma DestroyKeeps(p: Peer, s: Slot)
    requires Inv(p)
    ensures Inv(Set(p, s, DESTROYED))
  {
    hide HistoryOk, Remembers, Received;
  }

  lemma KeypairUpdateKeeps(p: Peer, s: Slot)
    requires Inv(p.(next := p.next.(lastRx := 0)))
    requires s == Next && p.next.valid ==> p.next.lastRx != 0 && Known(p.next, p.history)
    requires s != Next ==> Inv(p)
    ensures Inv(KeypairUpdate(p, s))
  {
    hide HistoryOk, Remembers, Received;
  }

  /** A packet sent in another session, or with a counter below k's next one, does not concern k. */
  lemma SlotSent(k: Keypair, h: History, size: nat, log: Sent)
    requires SlotOk(k, h, size) && (k.valid && k.sid == log.sid ==> log.counter < k.sendingCounter)
    ensures SlotOk(k, h.(sent := h.sent + [log]), size)
  {
    assert Received(h.(sent := h.sent + [log]), k.sid) == Received(h, k.sid);
    hide Remembers, Received, Heard;
  }

  lemma SlotCounted(k: Keypair, h: History, size: nat, tx: U32)
    requires SlotOk(k, h, size) && k.sendingCounter < REJECT_AFTER_MESSAGES
    ensures SlotOk(k.(sendingCounter := k.sendingCounter + 1, lastTx := tx), h, size)
  {
    hide Remembers, Received, Heard;
  }

  /** The counter of a slot was never used in its session, and the next one is one higher. */
  lemma EncryptKeeps(p: Peer, s: Slot, log: Sent, k: Keypair)
    requires Inv(p) && Get(p, s).valid && Confirmed(Get(p, s)) && Get(p, s).sendingCounter < REJECT_AFTER_MESSAGES
    requires SendOk(p.history, log) && log.sid == Get(p, s).sid && log.counter == Get(p, s).sendingCounter
    requires k == Get(p, s).(sendingCounter := log.counter + 1, lastTx := k.lastTx)
    ensures Inv(Set(p, s, k).(history := p.history.(sent := p.history.sent + [log])))
  {
    var h := p.history.(sent := p.history.sent + [log]);
    SlotUnused(Get(p, s), p.history, p.size);
    SentHistoryOk(p.history, h, Get(p, s), log);
    SlotCounted(Get(p, s), p.history, p.size, k.lastTx);
    hide HistoryOk, SendOk, SlotOk;
    assert s != Next;
    SlotSent(k, p.history, p.size, log);
    if s != Curr { SlotSent(p.curr, p.history, p.size, log); }
    if s != Prev { SlotSent(p.prev, p.history, p.size, log); }
    SlotSent(p.next, p.history, p.size, log);
  }

  lemma SlotUnused(k: Keypair, h: History, size: nat)
    requires SlotOk(k, h, size) && k.valid
    ensures k.sid in h.seeded
    ensures forall i :: 0 <= i < |h.sent| && h.sent[i].sid == k.sid ==> h.sent[i].counter < k.sendingCounter
  {
  }

  /** A packet with the next counter of its slot joins the log. */
  lemma SentHistoryOk(h: History, h': History, k: Keypair, log: Sent)
    requires HistoryOk(h) && SendOk(h, log) && h' == h.(sent := h.sent + [log])
    requires log.sid == k.sid && log.counter == k.sendingCounter && k.sid in h.seeded
    requires forall i :: 0 <= i < |h.sent| && h.sent[i].sid == k.sid ==> h.sent[i].counter < k.sendingCounter
    ensures HistoryOk(h')
  {
    assert forall s :: SendOk(h', s) == SendOk(h, s);
    hide SendOk;
  }

  /** The guards of the send, read off the keypair, are facts about its session. */
  lemma SlotSendOk(p: Peer, k: Keypair, now: Millis)
    requires k.valid && SlotOk(k, p.history, p.size) && Confirmed(k)
    requires !Expired(now, k.millis, 180) && k.sendingCounter < REJECT_AFTER_MESSAGES
    ensures SendOk(p.history, Sent(k.sid, k.sendingCounter, now, |p.history.delivered|))
  {
    hide Remembers, Received;
    assert p.history.delivered[..|p.history.delivered|] == p.history.delivered;
  }

  lemma AfterChanges(p: Peer, s: Slot, k: Keypair, h: History, sendOk: bool, clk: Readings)
    ensures var q := AfterEncrypt(Set(p, s, k).(history := h), s, sendOk, clk);
            q == Set(p, s, k.(lastTx := if sendOk then clk(1) else k.lastTx))
                 .(history := h, lastTx := q.lastTx, sendHandshake := q.sendHandshake)
  {
    hide Expired;
    match s
    case Curr =>
    case Prev =>
    case Next =>
  }

  /** What a send changes, apart from the fields of the peer that the invariant does not speak of. */
  lemma SendChanges(p: Peer, len: nat, sendOk: bool, clk: Readings)
    ensures var s, q := SendSlot(p), EncryptAndSend(p, len, sendOk, clk);
            var k := Get(p, s);
            if !k.valid || !Confirmed(k) then q == p
            else if Expired(clk(0), k.millis, 180) || k.sendingCounter >= REJECT_AFTER_MESSAGES
            then q == Set(p, s, DESTROYED)
            else
              || q == p
              || q == Set(p, s, k.(sendingCounter := k.sendingCounter + 1,
                                   lastTx := if sendOk then clk(1) else k.lastTx))
                      .(history := Logged(p.history, k, clk(0)), lastTx := q.lastTx, sendHandshake := q.sendHandshake)
  {
    hide Expired, Logged, AfterEncrypt, Get, Set, SendSlot, Confirmed, PaddedLength;
    var s, k := SendSlot(p), Get(p, SendSlot(p));
    AfterChanges(p, s, k.(sendingCounter := Number(k.sendingCounter)), Logged(p.history, k, clk(0)), sendOk, clk);
  }

  lemma SendFieldsIrrelevant(p: Peer, lastTx: U32, sendHandshake: bool)
    requires Inv(p)
    ensures Inv(p.(lastTx := lastTx, sendHandshake := sendHandshake))
  {
    hide HistoryOk, SlotOk, Confirmed, Apart;
  }

  lemma SendSlotOk(p: Peer)
    requires Inv(p)
    ensures SlotOk(Get(p, SendSlot(p)), p.history, p.size)
  {
    hide HistoryOk, SlotOk, Confirmed, Apart;
  }

  lemma EncryptAndSendKeeps(p: Peer, len: nat, sendOk: bool, clk: Readings)
    requires Inv(p)
    ensures Inv(EncryptAndSend(p, len, sendOk, clk))
  {
    hide Inv, SlotOk, EncryptAndSend, Expired, SendOk, Get, Set, SendSlot;
    var s, q := SendSlot(p), EncryptAndSend(p, len, sendOk, clk);
    var k := Get(p, s);
    SendChanges(p, len, sendOk, clk);
    SendSlotOk(p);
    DestroyKeeps(p, s);
    if k.valid && Confirmed(k) && !Expired(clk(0), k.millis, 180) && k.sendingCounter < REJECT_AFTER_MESSAGES {
      var log := Sent(k.sid, k.sendingCounter, clk(0), |p.history.delivered|);
      var k2 := k.(sendingCounter := k.sendingCounter + 1, lastTx := if sendOk then clk(1) else k.lastTx);
      SlotSendOk(p, k, clk(0));
      EncryptKeeps(p, s, log, k2);
      SendFieldsIrrelevant(Set(p, s, k2).(history := Logged(p.history, k, clk(0))), q.lastTx, q.sendHandshake);
    }
  }

  /** Recording that handshake sid was used up touches no slot. */
  lemma SeedKeeps(p: Peer, q: Peer, sid: nat, initiator: bool, now: U32)
    requires Inv(p) && sid !in p.history.seeded && sid < p.history.nextSid && p.hs.sid == sid
    requires q == p.(hs := q.hs, history := Seeded(p.history, sid, initiator, now)) && !q.hs.valid
    ensures Inv(q)
  {
    hide Remembers;
    assert forall x :: Received(q.history, x) == Received(p.history, x);
  }

  /** A session nobody has used yet starts with an empty window and counter 0. */
  lemma NewSlotOk(h: History, h': History, size: nat, k: Keypair)
    requires HistoryOk(h) && k.sid !in h.seeded && h' == Seeded(h, k.sid, k.initiator, k.millis)
    requires k.receivingValid && k.sendingCounter == 0 && k.window == Window(0, {}) && k.lastRx == 0
    ensures SlotOk(k, h', size)
  {
    assert Received(h', k.sid) == {};
  }

  lemma AddNewKeypairKeeps(q: Peer, k: Keypair)
    requires Inv(q) && SlotOk(k, q.history, q.size) && k.valid && k.lastRx == 0
    requires Apart(k, q.curr) && Apart(k, q.prev) && Apart(k, q.next)
    ensures Inv(AddNewKeypair(q, k))
  {
    hide HistoryOk, Remembers, Received;
  }

  /** A keypair seeded by a handshake no session came from takes its slot without touching others. */
  lemma StartSessionKeeps(p: Peer, initiator: bool, now: Millis)
    requires Inv(p) && p.hs.sid !in p.history.seeded && p.hs.sid < p.history.nextSid
    ensures Inv(StartSession(p, initiator, now))
  {
    var q := p.(hs := p.hs.(valid := false, localIndex := 0, remoteIndex := 0),
                history := Seeded(p.history, p.hs.sid, initiator, now));
    var k := NewKeypair(p, initiator, now);
    NewSlotOk(p.history, q.history, p.size, k);
    hide HistoryOk, Remembers, Received;
    SeedKeeps(p, q, p.hs.sid, initiator, now);
    AddNewKeypairKeeps(q, k);
  }

  lemma StartHandshakeKeeps(p: Peer, made: bool, index: U32, now: Millis)
    requires Inv(p)
    ensures Inv(StartHandshake(p, made, index, now))
  {
    NextSidKeeps(p);
    hide HistoryOk, SlotOk;
  }

  /** A number not given out yet names no session. */
  lemma NextSidKeeps(p: Peer)
    requires Inv(p)
    ensures p.history.nextSid !in p.history.seeded
    ensures Inv(p.(history := p.history.(nextSid := p.history.nextSid + 1)))
  {
    hide Remembers;
    var h := p.history.(nextSid := p.history.nextSid + 1);
    assert forall x :: Received(h, x) == Received(p.history, x);
  }

  lemma SendResponseKeeps(p: Peer, made: bool, index: U32, now: Millis)
    requires Inv(p)
    ensures Inv(SendResponse(p, made, index, now))
  {
    NextSidKeeps(p);
    hide HistoryOk, SlotOk, StartSession;
    var q := Redrawn(p);
    if made && p.hs.valid && !p.hs.initiator {
      StartSessionKeeps(q.(hs := q.hs.(localIndex := index)), false, now);
    }
  }

  /** A delivery in another session does not concern k. */
  lemma SlotElsewhere(k: Keypair, h: History, size: nat, sid: nat, c: U64)
    requires SlotOk(k, h, size) && (k.valid ==> k.sid != sid)
    ensures SlotOk(k, h.(delivered := h.delivered + [Delivered(sid, c)]), size)
  {
    ReceivedGrows(h, h.(delivered := h.delivered + [Delivered(sid, c)]), sid, c);
    HeardGrows(h.delivered, sid, c);
    hide Remembers, Received, Heard;
  }

  /** Marking the counter delivered keeps the window in step. */
  lemma SlotMarked(k: Keypair, h: History, size: nat, c: U64)
    requires SlotOk(k, h, size) && k.valid && size > 0 && Fresh(k.window, size, c)
    ensures SlotOk(k.(window := Mark(k.window, size, c)), h.(delivered := h.delivered + [Delivered(k.sid, c)]), size)
    ensures k.sid in h.seeded && Delivered(k.sid, c) !in h.delivered
  {
    ReceivedGrows(h, h.(delivered := h.delivered + [Delivered(k.sid, c)]), k.sid, c);
    MarkRemembers(k.window, size, Received(h, k.sid), c);
    FreshIsNew(h, k.window, size, k.sid, c);
    HeardGrows(h.delivered, k.sid, c);
    hide Remembers, Received, Heard, Mark, Fresh;
  }

  /** A fresh counter was not delivered before, and marking it keeps the window in step. */
  lemma DeliverKeeps(p: Peer, s: Slot, d: Datagram, k: Keypair)
    requires Inv(p) && Get(p, s).valid && Fresh(Get(p, s).window, p.size, d.counter)
    requires k == Get(p, s).(window := Mark(Get(p, s).window, p.size, d.counter), lastRx := Get(p, s).lastRx)
    ensures Inv(Set(p, s, k).(history := p.history.(delivered := p.history.delivered + [Delivered(k.sid, d.counter)])))
    ensures Heard(p.history.delivered + [Delivered(k.sid, d.counter)], k.sid)
  {
    var h := p.history.(delivered := p.history.delivered + [Delivered(k.sid, d.counter)]);
    HeardGrows(p.history.delivered, k.sid, d.counter);
    hide HistoryOk, SlotOk, Mark, Fresh, Heard;
    SlotMarked(Get(p, s), p.history, p.size, d.counter);
    DeliveredHistoryOk(p.history, h, k.sid, d.counter);
    if s != Curr { SlotElsewhere(p.curr, p.history, p.size, k.sid, d.counter); }
    if s != Prev { SlotElsewhere(p.prev, p.history, p.size, k.sid, d.counter); }
    if s != Next { SlotElsewhere(p.next, p.history, p.size, k.sid, d.counter); }
  }

  lemma ReceivedGrows(h: History, h': History, sid: nat, c: U64)
    requires h' == h.(delivered := h.delivered + [Delivered(sid, c)])
    ensures Received(h', sid) == Received(h, sid) + {c}
    ensures forall x :: x != sid ==> Received(h', x) == Received(h, x)
  {
    var n := |h.delivered|;
    assert h'.delivered[n] == Delivered(sid, c);
    forall x: nat ensures Received(h', x) == Received(h, x) + (if x == sid then {c} else {}) {
      forall i | 0 <= i < n ensures h'.delivered[i] == h.delivered[i] {
      }
    }
  }

  lemma FreshIsNew(h: History, w: Window, size: nat, sid: nat, c: U64)
    requires Remembers(w, size, Received(h, sid)) && Fresh(w, size, c)
    ensures Delivered(sid, c) !in h.delivered
  {
    forall i | 0 <= i < |h.delivered| ensures h.delivered[i] != Delivered(sid, c) {
      assert h.delivered[i].sid == sid ==> h.delivered[i].counter in Received(h, sid);
    }
  }

  lemma DeliveredHistoryOk(h: History, h': History, sid: nat, c: U64)
    requires HistoryOk(h) && sid in h.seeded && Delivered(sid, c) !in h.delivered
    requires h' == h.(delivered := h.delivered + [Delivered(sid, c)])
    ensures HistoryOk(h')
  {
    forall s | SendOk(h, s) ensures SendOk(h', s) {
      assert h'.delivered[..s.after] == h.delivered[..s.after];
    }
    hide SendOk;
  }

  /** What was heard stays heard, and the session just delivered in is heard now. */
  lemma HeardGrows(delivered: seq<Delivered>, sid: nat, c: U64)
    ensures forall x :: Heard(delivered, x) ==> Heard(delivered + [Delivered(sid, c)], x)
    ensures Heard(delivered + [Delivered(sid, c)], sid)
  {
    var d := delivered + [Delivered(sid, c)];
    assert d[|delivered|].sid == sid;
    forall x | Heard(delivered, x) ensures Heard(d, x) {
      var j :| 0 <= j < |delivered| && delivered[j].sid == x;
      assert d[j].sid == x;
    }
  }

  /** Noting the time of reception keeps the invariant, except that a slot in waiting is now to move. */
  lemma TouchKeeps(q: Peer, s: Slot, rx: Millis, from: nat)
    requires Inv(q) && Get(q, s).valid && Heard(q.history.delivered, Get(q, s).sid)
    ensures var p1 := Touched(q, s, rx, from);
            && Inv(p1.(next := p1.next.(lastRx := 0))) && (s != Next ==> Inv(p1))
            && (s == Next ==> p1.next.lastRx != 0 && Known(p1.next, p1.history))
  {
    hide HistoryOk, Remembers, Received;
  }

  function Touched(q: Peer, s: Slot, rx: Millis, from: nat): Peer {
    Set(q, s, Get(q, s).(lastRx := rx)).(endpoint := from, lastRx := rx)
  }

  lemma AcceptKeeps(p: Peer, s: Slot, d: Datagram, clk: Readings)
    requires Inv(p) && Get(p, s).valid && Fresh(Get(p, s).window, p.size, d.counter)
    ensures Inv(Accept(p, s, d, clk))
  {
    var k := Get(p, s).(window := Mark(Get(p, s).window, p.size, d.counter));
    DeliverKeeps(p, s, d, k);
    var q := Set(p, s, k).(history := p.history.(delivered := p.history.delivered + [Delivered(k.sid, d.counter)]));
    TouchKeeps(q, s, clk(1), d.from);
    KeypairUpdateKeeps(Touched(q, s, clk(1), d.from), s);
    AcceptSteps(p, s, d, clk);
    RekeyFlagKeeps(KeypairUpdate(Touched(q, s, clk(1), d.from), s));
    hide Inv, Touched, KeypairUpdate, Accept;
  }

  lemma RekeyFlagKeeps(p: Peer)
    requires Inv(p)
    ensures Inv(p.(sendHandshake := true))
  {
    hide HistoryOk, SlotOk;
  }

  /** Accepting a datagram is delivering it, noting the time, rotating the slots and perhaps asking for a rekey. */
  lemma AcceptSteps(p: Peer, s: Slot, d: Datagram, clk: Readings)
    ensures var k := Get(p, s).(window := Mark(Get(p, s).window, p.size, d.counter));
            var log := p.history.delivered + [Delivered(k.sid, d.counter)];
            var q := Set(p, s, k).(history := p.history.(delivered := log));
            var r := KeypairUpdate(Touched(q, s, clk(1), d.from), s);
            Accept(p, s, d, clk) == r || Accept(p, s, d, clk) == r.(sendHandshake := true)
  {
    hide Mark;
  }

  lemma ProcessDataKeeps(p: Peer, d: Datagram, sendOk: bool, clk: Readings)
    requires Inv(p)
    ensures Inv(ProcessData(p, d, sendOk, clk))
  {
    hide HistoryOk, SlotOk, Replay.Mark, Replay.Fresh, Accept, EncryptAndSend;
    match KeypairForIndex(p, d.index)
    case None =>
    case Some(s) =>
      var k := Get(p, s);
      DestroyKeeps(p, s);
      if k.receivingValid && !Expired(clk(0), k.millis, 180) && k.window.counter < REJECT_AFTER_MESSAGES
         && 16 <= d.length <= 1516 && d.opens && Fresh(k.window, p.size, d.counter) {
        AcceptKeeps(p, s, d, clk);
        if d.reply.Some? {
          EncryptAndSendKeeps(Accept(p, s, d, clk), d.reply.value, sendOk, (i: nat) => clk(i + 3));
        }
      }
  }

  lemma ProcessInitiationKeeps(p: Peer, m: Initiation, made: bool, index: U32, clk: Readings)
    requires Inv(p)
    ensures Inv(ProcessInitiation(p, m, made, index, clk))
  {
    hide HistoryOk, SlotOk, SendResponse;
    if AcceptsInitiation(p, m, clk(0)) {
      var q := p.(lastInitiationRx := clk(0), greatestTimestamp := m.stamp, endpoint := m.from,
                  hs := p.hs.(remoteIndex := m.sender, valid := true, initiator := false));
      SendResponseKeeps(q, made, index, clk(1));
    }
  }

  lemma ProcessResponseKeeps(p: Peer, m: Response, sendOk: bool, clk: Readings)
    requires Inv(p)
    ensures Inv(ProcessResponse(p, m, sendOk, clk))
  {
    hide HistoryOk, SlotOk, StartSession, EncryptAndSend;
    if AnswersOurs(p, m.index) && m.opens {
      var q := p.(hs := p.hs.(remoteIndex := m.sender), endpoint := m.from);
      StartSessionKeeps(q, true, clk(0));
      EncryptAndSendKeeps(StartSession(q, true, clk(0)), 0, sendOk, (i: nat) => clk(i + 1));
    }
  }

  lemma RunTimersKeeps(p: Peer, sendOk: bool, made: bool, index: U32, clk: Readings)
    requires Inv(p)
    ensures Inv(RunTimers(p, sendOk, made, index, clk))
  {
    ExpireSlotsKeeps(p, clk);
    hide HistoryOk, SlotOk, EncryptAndSend, StartHandshake, ExpireSlots;
    var q := ExpireSlots(p, clk);
    EncryptAndSendKeeps(q, 0, sendOk, (i: nat) => clk(i + 3));
    StartHandshakeKeeps(KeepaliveIfDue(q, sendOk, clk), made, index, clk(8));
  }

  lemma ExpireSlotsKeeps(p: Peer, clk: Readings)
    requires Inv(p)
    ensures Inv(ExpireSlots(p, clk))
  {
    hide HistoryOk, Remembers, Received;
  }

  lemma IfDownKeeps(p: Peer)
    requires Inv(p)
    ensures Inv(IfDown(p)) && Inv(IfUp(p))
  {
    hide HistoryOk, Remembers, Received;
  }

  lemma StepKeeps(p: Peer, x: Input)
    requires Inv(p)
    ensures Inv(Step(p, x))
  {
    hide Inv, EncryptAndSend, ProcessData, ProcessInitiation, ProcessResponse, RunTimers, IfUp, IfDown, StartHandshake;
    match x.event
    case Transmit(len) => EncryptAndSendKeeps(p, len, x.sendOk, x.clk);
    case Data(d) => ProcessDataKeeps(p, d, x.sendOk, x.clk);
    case InitiationIn(i) => ProcessInitiationKeeps(p, i, x.made, x.index, x.clk);
    case ResponseIn(r) => ProcessResponseKeeps(p, r, x.sendOk, x.clk);
    case CookieIn(index, opens) =>
      Mac1Irrelevant(p);
      StartHandshakeKeeps(p.(mac1Valid := false), x.made, x.index, x.clk(0));
    case Tick => RunTimersKeeps(p, x.sendOk, x.made, x.index, x.clk);
    case Up => IfDownKeeps(p);
    case Down => IfDownKeeps(p);
  }

  lemma Mac1Irrelevant(p: Peer)
    requires Inv(p)
    ensures Inv(p.(mac1Valid := false))
  {
  }

  // ---- whole runs ----

  lemma {:induction false} RunKeeps(p: Peer, inputs: seq<Input>)
    requires Initial(p)
    ensures Inv(RunFrom(p, inputs))
  {
    hide Inv, Step, Initial;
    if inputs == [] {
      InitialInv(p);
    } else {
      RunKeeps(p, inputs[..|inputs| - 1]);
      StepKeeps(RunFrom(p, inputs[..|inputs| - 1]), inputs[|inputs| - 1]);
    }
  }

  /** In any run, no session and counter pair is ever encrypted under twice. */
  lemma NoNonceReuse(p: Peer, inputs: seq<Input>, i: nat, j: nat)
    requires Initial(p)
    requires i < j < |RunFrom(p, inputs).history.sent|
    ensures var s := RunFrom(p, inputs).history.sent;
            s[i].sid != s[j].sid || s[i].counter != s[j].counter
  {
    RunKeeps(p, inputs);
    hide RunFrom, SlotOk, Initial;
  }

  /** In any run, no session and counter pair passes the freshness check twice, whatever slots the
      session has been in meanwhile. */
  lemma AtMostOnceDelivery(p: Peer, inputs: seq<Input>, i: nat, j: nat)
    requires Initial(p)
    requires i < j < |RunFrom(p, inputs).history.delivered|
    ensures RunFrom(p, inputs).history.delivered[i] != RunFrom(p, inputs).history.delivered[j]
  {
    RunKeeps(p, inputs);
    hide RunFrom, SlotOk, Initial;
  }

  /** In any run, a handshake seeds at most one session. */
  lemma OneSessionPerHandshake(p: Peer, inputs: seq<Input>, i: nat, j: nat)
    requires Initial(p)
    requires i < j < |RunFrom(p, inputs).history.seeded|
    ensures RunFrom(p, inputs).history.seeded[i] != RunFrom(p, inputs).history.seeded[j]
  {
    RunKeeps(p, inputs);
    hide RunFrom, SlotOk, Initial;
  }

  lemma SentOk(p: Peer, inputs: seq<Input>, i: nat)
    requires Initial(p) && i < |RunFrom(p, inputs).history.sent|
    ensures SendOk(RunFrom(p, inputs).history, RunFrom(p, inputs).history.sent[i])
  {
    hide RunFrom, SlotOk, Initial, SendOk;
    RunKeeps(p, inputs);
  }

  /** In any run, every packet was sent in a session that had begun less than 180 s before, on the clock
      as read at both times, and with a counter below the message limit. */
  lemma SentWithinLimits(p: Peer, inputs: seq<Input>, i: nat)
    requires Initial(p) && i < |RunFrom(p, inputs).history.sent|
    ensures var h := RunFrom(p, inputs).history;
            && h.sent[i].sid in h.births && Wrap32(h.sent[i].at - h.births[h.sent[i].sid].start) < 180_000
            && h.sent[i].counter < REJECT_AFTER_MESSAGES
  {
    hide RunFrom, Initial, Heard;
    SentOk(p, inputs, i);
  }

  /** In any run, a responder sends in a session only after a packet of that session was delivered to it. */
  lemma ResponderHearsFirst(p: Peer, inputs: seq<Input>, i: nat)
    requires Initial(p) && i < |RunFrom(p, inputs).history.sent|
    ensures var h := RunFrom(p, inputs).history;
            && h.sent[i].sid in h.births && h.sent[i].after <= |h.delivered|
            && (!h.births[h.sent[i].sid].initiator ==>
                  exists j :: 0 <= j < h.sent[i].after && h.delivered[j].sid == h.sent[i].sid)
  {
    hide RunFrom, Initial;
    SentOk(p, inputs, i);
    var h := RunFrom(p, inputs).history;
    if !h.births[h.sent[i].sid].initiator {
      var j :| 0 <= j < h.sent[i].after && h.delivered[..h.sent[i].after][j].sid == h.sent[i].sid;
      assert h.delivered[j].sid == h.sent[i].sid;
    }
  }

  /** In any reachable state the fallback to the previous keypair does not fire, and a valid keypair
      in waiting is a responder's that nothing was received on. */
  lemma FallbackNeverFires(p: Peer, inputs: seq<Input>)
    requires Initial(p)
    ensures var q := RunFrom(p, inputs);
            && SendSlot(q) == Curr
            && (q.curr.valid ==> Confirmed(q.curr))
            && (q.next.valid ==> !q.next.initiator && q.next.lastRx == 0)
            && Apart(q.curr, q.prev) && Apart(q.curr, q.next) && Apart(q.prev, q.next)
  {
    RunKeeps(p, inputs);
    hide RunFrom, SlotOk, HistoryOk, Initial;
  }

  // ---- what a datagram can do ----

  /** A counter that was accepted is never fresh again. */
  lemma AcceptedIsStale(w: Window, size: nat, accepted: set<U64>, c: U64)
    requires Remembers(w, size, accepted) && c in accepted
    ensures !Fresh(w, size, c)
  {
    assert Number(c) == c + 1;
  }

  /** Only a keypair past its limits is ever erased by a datagram that is then refused. */
  predicate ErasedOnly(p: Peer, q: Peer, d: Datagram, now: Millis) {
    match KeypairForIndex(p, d.index)
    case None => q == p
    case Some(s) =>
      || q == p
      || (&& q == Set(p, s, DESTROYED)
          && (Expired(now, Get(p, s).millis, 180) || Get(p, s).window.counter >= REJECT_AFTER_MESSAGES))
  }

  /** In any reachable state, a transport datagram that does not authenticate, or repeats a packet already
      delivered in the session its index finds, leaves everything as it was; at most an expired keypair
      is erased on the way. */
  lemma ForgedOrReplayedChangesNothing(p0: Peer, inputs: seq<Input>, d: Datagram, sendOk: bool, clk: Readings)
    requires Initial(p0)
    requires var p := RunFrom(p0, inputs);
             match KeypairForIndex(p, d.index)
             case None => true
             case Some(s) => !d.opens || Delivered(Get(p, s).sid, d.counter) in p.history.delivered
    ensures ErasedOnly(RunFrom(p0, inputs), ProcessData(RunFrom(p0, inputs), d, sendOk, clk), d, clk(0))
  {
    RunKeeps(p0, inputs);
    var p := RunFrom(p0, inputs);
    hide RunFrom, Initial, HistoryOk, Fresh, Mark, Accept, EncryptAndSend;
    match KeypairForIndex(p, d.index)
    case None =>
    case Some(s) =>
      var k := Get(p, s);
      if d.opens {
        var i :| 0 <= i < |p.history.delivered| && p.history.delivered[i] == Delivered(k.sid, d.counter);
        assert d.counter in Received(p.history, k.sid);
        AcceptedIsStale(k.window, p.size, Received(p.history, k.sid), d.counter);
      }
  }

  /** Accepted initiations of a peer carry strictly increasing timestamps and are at least 500 ms
      apart on the clock as read. */
  lemma InitiationsSpaced(p: Peer, m: Initiation, made: bool, index: U32, clk: Readings)
    ensures var q := ProcessInitiation(p, m, made, index, clk);
            if AcceptsInitiation(p, m, clk(0)) then
              && q.greatestTimestamp == m.stamp > p.greatestTimestamp
              && q.lastInitiationRx == clk(0)
              && (p.lastInitiationRx != 0 ==> Wrap32(q.lastInitiationRx - p.lastInitiationRx) >= 500)
            else q == p
  {
  }

  predicate SameStamps(p: Peer, q: Peer) {
    q.greatestTimestamp == p.greatestTimestamp && q.lastInitiationRx == p.lastInitiationRx
  }

  lemma SendKeepsStamps(p: Peer, len: nat, sendOk: bool, clk: Readings)
    ensures SameStamps(p, EncryptAndSend(p, len, sendOk, clk))
  {
  }

  lemma AcceptKeepsStamps(p: Peer, s: Slot, d: Datagram, clk: Readings)
    ensures SameStamps(p, Accept(p, s, d, clk))
  {
    hide Mark, Expired;
  }

  lemma DataKeepsStamps(p: Peer, d: Datagram, sendOk: bool, clk: Readings)
    ensures SameStamps(p, ProcessData(p, d, sendOk, clk))
  {
    hide Mark, Fresh, Expired, EncryptAndSend, Accept;
    if KeypairForIndex(p, d.index).Some? {
      var p1 := Accept(p, KeypairForIndex(p, d.index).value, d, clk);
      AcceptKeepsStamps(p, KeypairForIndex(p, d.index).value, d, clk);
      if d.reply.Some? {
        SendKeepsStamps(p1, d.reply.value, sendOk, (i: nat) => clk(i + 3));
      }
    }
  }

  lemma TimersKeepStamps(p: Peer, sendOk: bool, made: bool, index: U32, clk: Readings)
    ensures SameStamps(p, RunTimers(p, sendOk, made, index, clk))
  {
    hide EncryptAndSend;
    SendKeepsStamps(ExpireSlots(p, clk), 0, sendOk, (i: nat) => clk(i + 3));
  }

  /** No other step touches those two. */
  lemma StampsMoveOnlyOnInitiations(p: Peer, x: Input)
    ensures Step(p, x).greatestTimestamp >= p.greatestTimestamp
    ensures !x.event.InitiationIn? ==> SameStamps(p, Step(p, x))
  {
    hide EncryptAndSend, ProcessData, RunTimers, StartSession;
    match x.event
    case Transmit(len) => SendKeepsStamps(p, len, x.sendOk, x.clk);
    case Data(d) => DataKeepsStamps(p, d, x.sendOk, x.clk);
    case InitiationIn(i) => InitiationsSpaced(p, i, x.made, x.index, x.clk);
    case ResponseIn(r) =>
      var q := p.(hs := p.hs.(remoteIndex := r.sender), endpoint := r.from);
      SessionKeepsStamps(q, true, x.clk(0));
      SendKeepsStamps(StartSession(q, true, x.clk(0)), 0, x.sendOk, (i: nat) => x.clk(i + 1));
    case CookieIn(_, _) =>
    case Tick => TimersKeepStamps(p, x.sendOk, x.made, x.index, x.clk);
    case Up =>
    case Down =>
  }

  lemma SessionKeepsStamps(p: Peer, initiator: bool, now: Millis)
    ensures SameStamps(p, StartSession(p, initiator, now))
  {
  }

  /** The timestamps of the initiations accepted in a run, oldest first. */
  function AcceptedStamps(p: Peer, inputs: seq<Input>): seq<nat> {
    if inputs == [] then []
    else
      var q, x := RunFrom(p, inputs[..|inputs| - 1]), inputs[|inputs| - 1];
      AcceptedStamps(p, inputs[..|inputs| - 1])
      + (if x.event.InitiationIn? && AcceptsInitiation(q, x.event.i, x.clk(0)) then [x.event.i.stamp] else [])
  }

  ghost predicate IncreasingTo(a: seq<nat>, greatest: nat) {
    && (forall i, j :: 0 <= i < j < |a| ==> a[i] < a[j])
    && (forall i :: 0 <= i < |a| ==> a[i] <= greatest)
  }

  lemma IncreasingExtends(a: seq<nat>, g: nat, t: nat)
    requires IncreasingTo(a, g)
    ensures t >= g ==> IncreasingTo(a, t)
    ensures t > g ==> IncreasingTo(a + [t], t)
  {
  }

  /** In any run they strictly increase, so no initiation is ever accepted twice. */
  lemma {:induction false} StampsIncrease(p: Peer, inputs: seq<Input>)
    ensures IncreasingTo(AcceptedStamps(p, inputs), RunFrom(p, inputs).greatestTimestamp)
  {
    if inputs != [] {
      hide Step, AcceptsInitiation, IncreasingTo;
      var before, x := inputs[..|inputs| - 1], inputs[|inputs| - 1];
      StampsIncrease(p, before);
      var q := RunFrom(p, before);
      StampsMoveOnlyOnInitiations(q, x);
      IncreasingExtends(AcceptedStamps(p, before), q.greatestTimestamp, Step(q, x).greatestTimestamp);
      if x.event.InitiationIn? && AcceptsInitiation(q, x.event.i, x.clk(0)) {
        AcceptedIsGreater(q, x);
      } else {
        assert AcceptedStamps(p, inputs) == AcceptedStamps(p, before);
      }
    }
  }

  lemma AcceptedIsGreater(q: Peer, x: Input)
    requires x.event.InitiationIn? && AcceptsInitiation(q, x.event.i, x.clk(0))
    ensures q.greatestTimestamp < x.event.i.stamp == Step(q, x).greatestTimestamp
  {
    InitiationsSpaced(q, x.event.i, x.made, x.index, x.clk);
  }

  /** The clock readings at which initiations were accepted in a run, oldest first. */
  function AcceptedReadings(p: Peer, inputs: seq<Input>): seq<Millis> {
    if inputs == [] then []
    else
      var q, x := RunFrom(p, inputs[..|inputs| - 1]), inputs[|inputs| - 1];
      AcceptedReadings(p, inputs[..|inputs| - 1])
      + (if x.event.InitiationIn? && AcceptsInitiation(q, x.event.i, x.clk(0)) then [x.clk(0)] else [])
  }

  /** Each reading is at least 500 ms after the one before, and the last one is remembered. */
  ghost predicate SpacedTo(a: seq<Millis>, last: U32) {
    && (forall i :: 0 < i < |a| ==> Wrap32(a[i] as int - a[i - 1] as int) >= 500)
    && (a != [] ==> a[|a| - 1] == last)
  }

  lemma SpacedExtends(a: seq<Millis>, last: U32, now: Millis)
    requires SpacedTo(a, last) && (last == 0 || Wrap32(now - last) >= 500)
    ensures SpacedTo(a + [now], now)
  {
  }

  /** In any run, accepted initiations are at least 500 ms apart on the clock as read. */
  lemma {:induction false} AcceptedAreSpaced(p: Peer, inputs: seq<Input>)
    ensures SpacedTo(AcceptedReadings(p, inputs), RunFrom(p, inputs).lastInitiationRx)
  {
    if inputs != [] {
      hide Step, AcceptsInitiation, SpacedTo, SameStamps;
      var before, x := inputs[..|inputs| - 1], inputs[|inputs| - 1];
      AcceptedAreSpaced(p, before);
      var q := RunFrom(p, before);
      if x.event.InitiationIn? && AcceptsInitiation(q, x.event.i, x.clk(0)) {
        AcceptedReading(q, x);
        SpacedExtends(AcceptedReadings(p, before), q.lastInitiationRx, x.clk(0));
      } else {
        RefusedReading(q, x);
        assert AcceptedReadings(p, inputs) == AcceptedReadings(p, before);
      }
    }
  }

  lemma AcceptedReading(q: Peer, x: Input)
    requires x.event.InitiationIn? && AcceptsInitiation(q, x.event.i, x.clk(0))
    ensures Step(q, x).lastInitiationRx == x.clk(0)
    ensures q.lastInitiationRx == 0 || Wrap32(x.clk(0) - q.lastInitiationRx) >= 500
  {
    InitiationsSpaced(q, x.event.i, x.made, x.index, x.clk);
  }

  lemma RefusedReading(q: Peer, x: Input)
    requires !x.event.InitiationIn? || !AcceptsInitiation(q, x.event.i, x.clk(0))
    ensures Step(q, x).lastInitiationRx == q.lastInitiationRx
  {
    if !x.event.InitiationIn? {
      StampsMoveOnlyOnInitiations(q, x);
      hide Step;
    }
  }
}
