/** The peer as the C code changes it: fields overwritten in place, keypairs copied by value between
    slots, early returns in the order of the source.  Each method is proved equal to its function in
    Session, over which SessionSafety proves what holds. */
module PeerDevice {
  import opened Clock
  import opened Options
  import opened Replay
  import opened Session

  /** Writing a slot and reading it back, whatever else changed meanwhile. */
  lemma ReadBack(p: Peer, s: Slot, k: Keypair, q: Peer)
    requires var w := Set(p, s, k); q.curr == w.curr && q.prev == w.prev && q.next == w.next
    ensures Get(q, s) == k
  {
  }

  lemma PutHistory(p: Peer, s: Slot, k: Keypair, h: History)
    ensures Set(p.(history := h), s, k) == Set(p, s, k).(history := h)
  {
  }

  /** A slot write leaves the rest of the peer alone. */
  lemma SetKeeps(p: Peer, s: Slot, k: Keypair)
    ensures Set(p, s, k) == p.(curr := Set(p, s, k).curr, prev := Set(p, s, k).prev, next := Set(p, s, k).next)
  {
  }

  lemma UpdateKeeps(p: Peer, s: Slot)
    ensures Session.KeypairUpdate(p, s).keepalive == p.keepalive
  {
  }

  lemma PutFields(p: Peer, s: Slot, k: Keypair, from: nat, now: Millis, h: History)
    ensures Set(p.(endpoint := from, lastRx := now, history := h), s, k)
         == Set(p, s, k).(endpoint := from, lastRx := now, history := h)
  {
  }

  lemma ConfirmedIs(k: Keypair)
    ensures Confirmed(k) <==> k.initiator || k.lastRx != 0
  {
  }

  lemma SameSlots(p: Peer, q: Peer, s: Slot)
    requires q.curr == p.curr && q.prev == p.prev && q.next == p.next
    ensures Get(q, s) == Get(p, s)
  {
  }

  /** struct wireguard_keypair: like the keypair of the session machine, with the replay window as the
      bitmap it is.  Copying the struct copies the bitmap. */
  datatype Record = Record(
    valid: bool, initiator: bool, millis: U32, sendingCounter: U64, receivingValid: bool,
    lastTx: U32, lastRx: U32, replayCounter: U64, replayBitmap: seq<U64>, localIndex: U32, remoteIndex: U32, sid: nat)

  /** The keypair a record stands for. */
  ghost function Abs(r: Record): Keypair {
    Keypair(r.valid, r.initiator, r.millis, r.sendingCounter, r.receivingValid, r.lastTx, r.lastRx,
            Window(r.replayCounter, Seen(r.replayBitmap, r.replayCounter)), r.localIndex, r.remoteIndex, r.sid)
  }

  /** A keypair with every byte zero. */
  function Zeroed(words: nat): Record {
    Record(false, false, 0, 0, false, 0, 0, 0, seq(words, i => 0), 0, 0, 0)
  }

  lemma ZeroedIsDestroyed(words: nat)
    ensures Abs(Zeroed(words)) == DESTROYED && |Zeroed(words).replayBitmap| == words
  {
  }

  /** A window that has seen nothing, whatever its length. */
  lemma EmptyWindow(words: seq<U64>)
    ensures Seen(words, 0) == {}
  {
  }

  lemma SetSame(p: Peer, s: Slot)
    ensures Set(p, s, Get(p, s)) == p
  {
  }

  lemma AbsFields(r: Record)
    ensures Abs(r).sendingCounter == r.sendingCounter && Abs(r).initiator == r.initiator && Abs(r).millis == r.millis
  {
  }

  lemma AbsSent(r: Record, now: Millis)
    ensures Abs(r.(lastTx := now)) == Abs(r).(lastTx := now)
  {
  }

  lemma LoggedRecord(h: History, r: Record, now: Millis)
    ensures Logged(h, Abs(r), now) == h.(sent := h.sent + [Sent(r.sid, r.sendingCounter, now, |h.delivered|)])
  {
  }

  lemma AdmissionRule(p: Peer, m: Initiation, made: bool, index: U32, clk: Readings)
    ensures Session.ProcessInitiation(p, m, made, index, clk) ==
            if m.opens && m.stamp > p.greatestTimestamp
               && (p.lastInitiationRx == 0 || Wrap32(clk(0) - p.lastInitiationRx) >= 500)
            then
              Session.SendResponse(
                p.(lastInitiationRx := clk(0), greatestTimestamp := m.stamp, endpoint := m.from,
                   hs := p.hs.(remoteIndex := m.sender, valid := true, initiator := false)), made, index, clk(1))
            else p
  {
    hide Session.SendResponse;
  }

  class WireguardPeer {
    var currKeypair: Record
    var prevKeypair: Record
    var nextKeypair: Record
    var handshake: Handshake
    var endpoint: nat
    var connectEndpoint: nat
    var keepaliveInterval: nat
    const replayWords: nat
    var lastTx: U32
    var lastRx: U32
    var lastInitiationTx: U32
    var lastInitiationRx: U32
    var greatestTimestamp: nat
    var sendHandshake: bool
    var active: bool
    var handshakeMac1Valid: bool
    var history: History  // bookkeeping of the model; nothing of the C state depends on it

    /** Every slot has its bitmap, in use or not. */
    ghost predicate Valid()
      reads this
    {
      && replayWords >= 1 && |currKeypair.replayBitmap| == replayWords
      && |prevKeypair.replayBitmap| == replayWords && |nextKeypair.replayBitmap| == replayWords
    }

    /** All of it as one value. */
    ghost function State(): Peer
      reads this
    {
      Peer(Abs(currKeypair), Abs(prevKeypair), Abs(nextKeypair), handshake, endpoint, connectEndpoint,
           keepaliveInterval, 64 * replayWords, lastTx, lastRx, lastInitiationTx, lastInitiationRx, greatestTimestamp,
           sendHandshake, active, handshakeMac1Valid, history)
    }

    /** wireguard_peer_init followed by wg_add_peer */
    constructor (replayWords: nat, home: nat, keepalive: nat)
      requires replayWords >= 1
      ensures Valid() && Initial(State()) && connectEndpoint == home && keepaliveInterval == keepalive
      ensures this.replayWords == replayWords
    {
      ZeroedIsDestroyed(replayWords);
      currKeypair, prevKeypair, nextKeypair := Zeroed(replayWords), Zeroed(replayWords), Zeroed(replayWords);
      handshake := Handshake(false, false, 0, 0, 0);
      endpoint, connectEndpoint, keepaliveInterval := home, home, keepalive;
      this.replayWords := replayWords;
      lastTx, lastRx, lastInitiationTx, lastInitiationRx, greatestTimestamp := 0, 0, 0, 0, 0;
      sendHandshake, active, handshakeMac1Valid := false, false, false;
      history := History(0, [], map[], [], []);
    }

    function At(s: Slot): (r: Record)
      reads this
      ensures Abs(r) == Get(State(), s) && (Valid() ==> |r.replayBitmap| == replayWords)
    {
      match s case Curr => currKeypair case Prev => prevKeypair case Next => nextKeypair
    }

    method Put(s: Slot, r: Record)
      requires Valid() && |r.replayBitmap| == replayWords
      modifies this`currKeypair, this`prevKeypair, this`nextKeypair
      ensures Valid() && State() == Set(old(State()), s, Abs(r)) && At(s) == r
    {
      match s
      case Curr => currKeypair := r;
      case Prev => prevKeypair := r;
      case Next => nextKeypair := r;
    }

    method KeypairDestroy(s: Slot)
      requires Valid()
      modifies this`currKeypair, this`prevKeypair, this`nextKeypair
      ensures Valid() && State() == Set(old(State()), s, DESTROYED)
    {
      ZeroedIsDestroyed(replayWords);
      Put(s, Zeroed(replayWords));
    }

    method KeypairUpdate(received: Slot)
      requires Valid()
      modifies this`currKeypair, this`prevKeypair, this`nextKeypair
      ensures Valid() && State() == Session.KeypairUpdate(old(State()), received)
    {
      hide Abs;
      var keyIsNext := received == Next;
      if keyIsNext {
        prevKeypair := currKeypair;
        currKeypair := nextKeypair;
        KeypairDestroy(Next);
      }
    }

    method AddNewKeypair(k: Record)
      requires Valid() && |k.replayBitmap| == replayWords
      modifies this`currKeypair, this`prevKeypair, this`nextKeypair
      ensures Valid() && State() == Session.AddNewKeypair(old(State()), Abs(k))
    {
      hide Seen;
      if k.initiator {
        if nextKeypair.valid {
          prevKeypair := nextKeypair;
          KeypairDestroy(Next);
        } else {
          prevKeypair := currKeypair;
        }
        currKeypair := k;
      } else {
        nextKeypair := k;
        KeypairDestroy(Prev);
      }
    }

    method StartSession(initiator: bool, now: Millis)
      requires Valid()
      modifies this
      ensures Valid()
      ensures State() == Session.StartSession(old(State()), initiator, now)
    {
      hide Seen;
      var k := Zeroed(replayWords);
      k := k.(initiator := initiator, localIndex := handshake.localIndex, remoteIndex := handshake.remoteIndex);
      k := k.(millis := now, receivingValid := true, sid := handshake.sid);
      k := k.(replayBitmap := seq(replayWords, i => 0), replayCounter := 0, lastTx := 0, lastRx := 0, valid := true);
      EmptyWindow(k.replayBitmap);
      history := Seeded(history, handshake.sid, initiator, now);
      handshake := handshake.(remoteIndex := 0, localIndex := 0, valid := false);
      AddNewKeypair(k);
    }

    method EncryptAndSend(len: nat, sendOk: bool, clk: Readings) returns (ok: bool)
      requires Valid()
      modifies this
      ensures Valid()
      ensures State() == Session.EncryptAndSend(old(State()), len, sendOk, clk)
      ensures ok ==> sendOk && |history.sent| == old(|history.sent|) + 1
    {
      hide Set, Get, At, Confirmed, PaddedLength, Seen;
      var keypair := Curr;
      ok := false;
      ConfirmedIs(Abs(currKeypair));
      if currKeypair.valid && !currKeypair.initiator && currKeypair.lastRx == 0 {
        keypair := Prev;
      }
      ConfirmedIs(Abs(At(keypair)));
      if !At(keypair).valid || (!At(keypair).initiator && At(keypair).lastRx == 0) {
        return;
      }
      if Expired(clk(0), At(keypair).millis, 180) || At(keypair).sendingCounter >= REJECT_AFTER_MESSAGES {
        KeypairDestroy(keypair);
        return;
      }
      var totalLen := 16 + PaddedLength(len) + 16;
      if totalLen > 1532 {
        return;
      }
      EncryptPacket(keypair, clk(0));
      ok := AfterEncrypt(keypair, sendOk, clk);
    }

    /** wg_encrypt_and_send from the socket call on. */
    method AfterEncrypt(keypair: Slot, sendOk: bool, clk: Readings) returns (ok: bool)
      requires Valid()
      modifies this
      ensures Valid()
      ensures State() == Session.AfterEncrypt(old(State()), keypair, sendOk, clk)
      ensures ok == sendOk && history == old(history)
    {
      hide Set, Get, At, Abs;
      var keep := At(keypair);
      AbsFields(keep);
      ok := false;
      if sendOk {
        ghost var p := State();
        keep := keep.(lastTx := clk(1));
        AbsSent(At(keypair), clk(1));
        Put(keypair, keep);
        lastTx := clk(1);
        ReadBack(p, keypair, Abs(keep), State());
        ok := true;
        assert history == old(history) by { SetKeeps(p, keypair, Abs(keep)); }
      }
      if keep.sendingCounter >= REKEY_AFTER_MESSAGES {
        sendHandshake := true;
      } else if keep.initiator && Expired(clk(2), keep.millis, 120) {
        sendHandshake := true;
      }
    }

    /** wireguard_encrypt_packet: the counter is used, then counted up. */
    method EncryptPacket(keypair: Slot, now: Millis)
      requires Valid()
      modifies this`currKeypair, this`prevKeypair, this`nextKeypair, this`history
      ensures Valid()
      ensures var p := old(State());
              var k := Get(p, keypair);
              State() == Set(p, keypair, k.(sendingCounter := Number(k.sendingCounter)))
                         .(history := Logged(p.history, k, now))
    {
      hide Get, At, Seen, Logged;
      var r := At(keypair);
      PutHistory(State(), keypair, Abs(r).(sendingCounter := Number(r.sendingCounter)), Logged(history, Abs(r), now));
      LoggedRecord(history, r, now);
      history := history.(sent := history.sent + [Sent(r.sid, r.sendingCounter, now, |history.delivered|)]);
      Put(keypair, r.(sendingCounter := (r.sendingCounter + 1) % 0x1_0000_0000_0000_0000));
    }

    /** wireguard_generate_private_key into the handshake, the first thing that creating a message does. */
    method Redraw()
      requires Valid()
      modifies this`handshake, this`history
      ensures Valid() && State() == Redrawn(old(State()))
    {
      hide Abs;
      handshake := handshake.(sid := history.nextSid);
      history := history.(nextSid := history.nextSid + 1);
    }

    method StartHandshake(made: bool, index: U32, now: Millis)
      requires Valid()
      modifies this
      ensures Valid()
      ensures State() == Session.StartHandshake(old(State()), made, index, now)
    {
      hide Abs;
      Redraw();
      if !made {
        return;
      }
      handshake := handshake.(valid := true, initiator := true, localIndex := index);
      sendHandshake := false;
      lastInitiationTx := now;
      handshakeMac1Valid := true;
    }

    method SendResponse(made: bool, index: U32, now: Millis)
      requires Valid()
      modifies this
      ensures Valid()
      ensures State() == Session.SendResponse(old(State()), made, index, now)
    {
      hide Abs, Session.StartSession;
      if handshake.valid && !handshake.initiator {
        Redraw();
        if made {
          handshake := handshake.(localIndex := index);
          StartSession(false, now);
        }
      }
    }

    method GetKeypairForIndex(index: U32) returns (s: Maybe<Slot>)
      ensures s == KeypairForIndex(State(), index)
    {
      if currKeypair.valid && currKeypair.localIndex == index {
        return Some(Curr);
      } else if nextKeypair.valid && nextKeypair.localIndex == index {
        return Some(Next);
      } else if prevKeypair.valid && prevKeypair.localIndex == index {
        return Some(Prev);
      }
      return None;
    }

    /** wireguard_check_replay on the bitmap of a slot: the verdict and the bits of ReplayWindow.Check
        are those of the abstract window, and no other slot or field moves. */
    method CheckReplay(s: Slot, ctr: U64) returns (result: bool)
      requires Valid()
      modifies this`currKeypair, this`prevKeypair, this`nextKeypair
      ensures Valid() && result == Fresh(Get(old(State()), s).window, 64 * replayWords, ctr)
      ensures var p := old(State());
              var k := Get(p, s);
              State() == if result then Set(p, s, k.(window := Mark(k.window, 64 * replayWords, ctr))) else p
    {
      hide Get, At, Seen, Fresh, Mark;
      var r := At(s);
      SetSame(State(), s);
      var w := new ReplayWindow.Of(r.replayBitmap, r.replayCounter);
      result := w.Check(ctr);
      Put(s, r.(replayBitmap := w.bitmap[..], replayCounter := w.counter));
    }

    method ProcessData(d: Datagram, sendOk: bool, clk: Readings)
      requires Valid()
      modifies this
      ensures Valid()
      ensures State() == Session.ProcessData(old(State()), d, sendOk, clk)
    {
      hide Replay.Mark, Replay.Fresh, Session.EncryptAndSend, ReceiveFresh, Set, Get, At, Seen;
      var found := GetKeypairForIndex(d.index);
      if found == None {
        return;
      }
      var keypair := found.value;
      if !At(keypair).receivingValid || Expired(clk(0), At(keypair).millis, 180)
         || At(keypair).replayCounter >= REJECT_AFTER_MESSAGES
      {
        KeypairDestroy(keypair);
        return;
      }
      if d.length < 16 || d.length - 16 > 1500 {
        return;
      }
      if !d.opens {
        return;
      }
      var fresh_ := CheckReplay(keypair, d.counter);
      if !fresh_ {
        return;
      }
      Receive(keypair, d, clk);
      if d.reply.Some? {
        var _ := EncryptAndSend(d.reply.value, sendOk, (i: nat) => clk(i + 3));
      }
    }

    /** wg_process_data_message from the endpoint update to the rekey decision, which reads the keypair
        through the old address: after a promotion that slot is empty. */
    method Receive(keypair: Slot, d: Datagram, clk: Readings)
      requires Valid()
      modifies this
      ensures Valid()
      ensures State() == ReceiveFresh(old(State()), keypair, d, clk)
    {
      hide Set, Get, At, Session.KeypairUpdate, Seen;
      Deliver(keypair, d, clk(1));
      UpdateKeeps(State(), keypair);
      KeypairUpdate(keypair);
      if At(keypair).initiator && Expired(clk(2), At(keypair).millis, 180 - keepaliveInterval - 5) {
        sendHandshake := true;
      }
    }

    method Deliver(keypair: Slot, d: Datagram, now: Millis)
      requires Valid()
      modifies this
      ensures Valid()
      ensures var p := old(State());
              var k := Get(p, keypair);
              State() == Set(p, keypair, k.(lastRx := now))
                         .(endpoint := d.from, lastRx := now,
                           history := p.history.(delivered := p.history.delivered + [Delivered(k.sid, d.counter)]))
      ensures keepaliveInterval == old(keepaliveInterval)
    {
      hide Set, Get, At, Seen;
      ghost var k := Abs(At(keypair));
      SetKeeps(State(), keypair, k.(lastRx := now));
      history := history.(delivered := history.delivered + [Delivered(At(keypair).sid, d.counter)]);
      PutFields(old(State()), keypair, k.(lastRx := now), d.from, now, history);
      endpoint := d.from;
      lastRx := now;
      SameSlots(old(State()), State(), keypair);
      Put(keypair, At(keypair).(lastRx := now));
    }

    method ProcessInitiation(m: Initiation, made: bool, index: U32, clk: Readings)
      requires Valid()
      modifies this
      ensures Valid()
      ensures State() == Session.ProcessInitiation(old(State()), m, made, index, clk)
    {
      hide Session.SendResponse, Session.ProcessInitiation, AcceptsInitiation, Abs, Wrap32;
      AdmissionRule(State(), m, made, index, clk);
      if !m.opens {
        return;
      }
      var replay := m.stamp <= greatestTimestamp;
      var rateLimit := lastInitiationRx != 0 && Wrap32(clk(0) - lastInitiationRx) < 500;
      if !replay && !rateLimit {
        lastInitiationRx := clk(0);
        greatestTimestamp := m.stamp;
        handshake := handshake.(remoteIndex := m.sender, valid := true, initiator := false);
        endpoint := m.from;
        SendResponse(made, index, clk(1));
      }
    }

    method ProcessResponse(m: Response, sendOk: bool, clk: Readings)
      requires Valid()
      modifies this
      ensures Valid()
      ensures State() == Session.ProcessResponse(old(State()), m, sendOk, clk)
    {
      hide Session.EncryptAndSend, Session.StartSession;
      if handshake.valid && handshake.initiator && handshake.localIndex == m.index && m.opens {
        handshake := handshake.(remoteIndex := m.sender);
        endpoint := m.from;
        StartSession(true, clk(0));
        var _ := EncryptAndSend(0, sendOk, (i: nat) => clk(i + 1));
      }
    }

    method ProcessCookie(index: U32, opens: bool, made: bool, newIndex: U32, now: Millis)
      requires Valid()
      modifies this
      ensures Valid()
      ensures State() == Session.ProcessCookie(old(State()), index, opens, made, newIndex, now)
    {
      if handshake.valid && handshake.initiator && handshake.localIndex == index {
        if handshakeMac1Valid && opens {
          handshakeMac1Valid := false;
          StartHandshake(made, newIndex, now);
        }
      }
    }

    method ExpireSlots(clk: Readings)
      requires Valid()
      modifies this
      ensures Valid()
      ensures State() == Session.ExpireSlots(old(State()), clk)
    {
      if currKeypair.valid && Expired(clk(0), currKeypair.millis, 540) {
        KeypairDestroy(Next);
        KeypairDestroy(Curr);
        KeypairDestroy(Prev);
        endpoint := connectEndpoint;
      }
      if currKeypair.valid
         && (Expired(clk(1), currKeypair.millis, 180) || currKeypair.sendingCounter >= REJECT_AFTER_MESSAGES)
      {
        KeypairDestroy(Curr);
      }
    }

    method RunTimers(sendOk: bool, made: bool, index: U32, clk: Readings)
      requires Valid()
      modifies this
      ensures Valid()
      ensures State() == Session.RunTimers(old(State()), sendOk, made, index, clk)
    {
      hide Session.EncryptAndSend, Session.ExpireSlots, Session.StartHandshake;
      ExpireSlots(clk);
      if keepaliveInterval > 0 && (currKeypair.valid || prevKeypair.valid)
         && Expired(clk(2), lastTx, keepaliveInterval) {
        var _ := EncryptAndSend(0, sendOk, (i: nat) => clk(i + 3));
      }
      var canSendInitiation := lastInitiationTx == 0 || Expired(clk(6), lastInitiationTx, 5);
      var rekeyAt := 180 - keepaliveInterval;
      var shouldInitiate := canSendInitiation
        && (sendHandshake
            || (currKeypair.valid && !currKeypair.initiator && Expired(clk(7), currKeypair.millis, rekeyAt))
            || (!currKeypair.valid && active));
      if shouldInitiate {
        StartHandshake(made, index, clk(8));
      }
    }

    method IfUp()
      requires Valid()
      modifies this
      ensures Valid()
      ensures State() == Session.IfUp(old(State()))
    {
      if connectEndpoint != 0 {
        active := true;
        endpoint := connectEndpoint;
        sendHandshake := true;
      }
    }

    method IfDown()
      requires Valid()
      modifies this
      ensures Valid()
      ensures State() == Session.IfDown(old(State()))
    {
      hide Abs, Seen;
      KeypairDestroy(Curr);
      KeypairDestroy(Prev);
      KeypairDestroy(Next);
      handshake := Handshake(false, false, 0, 0, 0);
      handshakeMac1Valid := false;
      active := false;
      sendHandshake := false;
      endpoint := connectEndpoint;
    }

    /** Any event, as the receive task, the transmit job or the interface callbacks deliver it. */
    method Handle(x: Input)
      requires Valid()
      modifies this
      ensures Valid()
      ensures State() == Step(old(State()), x)
    {
      hide Session.EncryptAndSend, Session.ProcessData, Session.ProcessInitiation, Session.ProcessResponse;
      hide Session.RunTimers, Session.IfUp, Session.IfDown, Session.ProcessCookie;
      match x.event
      case Transmit(len) => var _ := EncryptAndSend(len, x.sendOk, x.clk);
      case Data(d) => ProcessData(d, x.sendOk, x.clk);
      case InitiationIn(i) => ProcessInitiation(i, x.made, x.index, x.clk);
      case ResponseIn(r) => ProcessResponse(r, x.sendOk, x.clk);
      case CookieIn(index, opens) => ProcessCookie(index, opens, x.made, x.index, x.clk(0));
      case Tick => RunTimers(x.sendOk, x.made, x.index, x.clk);
      case Up => IfUp();
      case Down => IfDown();
    }
  }
}
