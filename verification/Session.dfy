/** The life of one peer's sessions: three keypair slots, the handshake that feeds them, and every
    event that moves them.  Each function gives the whole new state after one function of the C code;
    PeerDevice carries the code itself, statement by statement, and is proved equal to them.

    A session is named by the number sid given to its handshake when the fresh ephemeral key was
    drawn; it stands for the pair of keys derived from that handshake.  Whether a message decrypts,
    whether a send succeeds and what the clock reads are inputs of the step, so that whatever holds
    holds for any network and any clock. */
module Session {
  import opened Clock
  import opened Options
  import opened Replay

  // ---- state ----

  datatype Keypair = Keypair(
    valid: bool, initiator: bool, millis: U32, sendingCounter: U64, receivingValid: bool,
    lastTx: U32, lastRx: U32, window: Window, localIndex: U32, remoteIndex: U32, sid: nat)

  /** keypair_destroy: every field zero. */
  const DESTROYED: Keypair := Keypair(false, false, 0, 0, false, 0, 0, Window(0, {}), 0, 0, 0)

  datatype Handshake = Handshake(valid: bool, initiator: bool, localIndex: U32, remoteIndex: U32, sid: nat)

  /** How a session began: the role its handshake was completed in, and the clock reading then. */
  datatype Birth = Birth(initiator: bool, start: U32)

  /** One packet passed to wireguard_encrypt_packet: the session and counter that make its nonce, the
      clock reading before it, and how many packets had been delivered by then. */
  datatype Sent = Sent(sid: nat, counter: nat, at: Millis, after: nat)

  /** One packet that passed the freshness check. */
  datatype Delivered = Delivered(sid: nat, counter: U64)

  /** What happened so far, oldest first; no step reads it.  The handshakes in seeded were completed,
      each with an entry in births. */
  datatype History = History(
    nextSid: nat, seeded: seq<nat>, births: map<nat, Birth>, sent: seq<Sent>, delivered: seq<Delivered>)

  /** The log of a handshake completed now. */
  function Seeded(h: History, sid: nat, initiator: bool, now: U32): History {
    h.(seeded := h.seeded + [sid], births := h.births[sid := Birth(initiator, now)])
  }

  function Logged(h: History, k: Keypair, now: Millis): History {
    h.(sent := h.sent + [Sent(k.sid, k.sendingCounter, now, |h.delivered|)])
  }

  datatype Peer = Peer(
    curr: Keypair, prev: Keypair, next: Keypair, hs: Handshake,
    endpoint: nat, home: nat, keepalive: nat, size: nat,
    lastTx: U32, lastRx: U32, lastInitiationTx: U32, lastInitiationRx: U32, greatestTimestamp: nat,
    sendHandshake: bool, active: bool, mac1Valid: bool,
    history: History)

  datatype Slot = Curr | Prev | Next

  function Get(p: Peer, s: Slot): Keypair {
    match s case Curr => p.curr case Prev => p.prev case Next => p.next
  }

  function Set(p: Peer, s: Slot, k: Keypair): Peer {
    match s
    case Curr => p.(curr := k)
    case Prev => p.(prev := k)
    case Next => p.(next := k)
  }

  /** What the clock reads at each call site of a step, numbered in program order. */
  type Readings = nat -> Millis

  const REJECT_AFTER_MESSAGES: int := 0xffff_ffff_ffff_ffff - 0x2000
  const REKEY_AFTER_MESSAGES: int := 0x1000_0000_0000_0000

  // ---- keypair rotation ----

  /** keypair_update: the first packet received on the next keypair promotes it. */
  function KeypairUpdate(p: Peer, received: Slot): Peer {
    if received == Next then p.(prev := p.curr, curr := p.next, next := DESTROYED) else p
  }

  /** add_new_keypair: an initiator uses its new session at once, a responder keeps it in waiting. */
  function AddNewKeypair(p: Peer, k: Keypair): Peer {
    if k.initiator then
      if p.next.valid then p.(prev := p.next, next := DESTROYED, curr := k)
      else p.(prev := p.curr, curr := k)
    else p.(next := k, prev := DESTROYED)
  }

  function NewKeypair(p: Peer, initiator: bool, now: Millis): Keypair {
    Keypair(true, initiator, now, 0, true, 0, 0, Window(0, {}), p.hs.localIndex, p.hs.remoteIndex, p.hs.sid)
  }

  /** wireguard_start_session: the handshake is used up. */
  function StartSession(p: Peer, initiator: bool, now: Millis): Peer {
    var q := p.(hs := p.hs.(valid := false, localIndex := 0, remoteIndex := 0),
                history := Seeded(p.history, p.hs.sid, initiator, now));
    AddNewKeypair(q, NewKeypair(p, initiator, now))
  }

  // ---- sending ----

  predicate Confirmed(k: Keypair) { k.initiator || k.lastRx != 0 }

  /** The keypair wg_encrypt_and_send uses: the previous one while the current one is unconfirmed. */
  function SendSlot(p: Peer): Slot {
    if p.curr.valid && !Confirmed(p.curr) then Prev else Curr
  }

  function PaddedLength(len: nat): nat { (len + 15) / 16 * 16 }

  /** wg_encrypt_and_send */
  function EncryptAndSend(p: Peer, len: nat, sendOk: bool, clk: Readings): Peer {
    var s := SendSlot(p);
    var k := Get(p, s);
    if !k.valid || !Confirmed(k) then p
    else if Expired(clk(0), k.millis, 180) || k.sendingCounter >= REJECT_AFTER_MESSAGES then Set(p, s, DESTROYED)
    else if 16 + PaddedLength(len) + 16 > 1532 then p
    else
      var k1 := k.(sendingCounter := Number(k.sendingCounter));
      AfterEncrypt(Set(p, s, k1).(history := Logged(p.history, k, clk(0))), s, sendOk, clk)
  }

  /** wg_encrypt_and_send from the socket call on: time stamps, and whether to rekey. */
  function AfterEncrypt(p: Peer, s: Slot, sendOk: bool, clk: Readings): Peer {
    var k := Get(p, s);
    var q := if sendOk then Set(p, s, k.(lastTx := clk(1))).(lastTx := clk(1)) else p;
    if k.sendingCounter >= REKEY_AFTER_MESSAGES || (k.initiator && Expired(clk(2), k.millis, 120))
    then q.(sendHandshake := true) else q
  }

  /** A fresh ephemeral key is drawn over the old one: whatever keys come of the handshake are new ones. */
  function Redrawn(p: Peer): Peer {
    p.(hs := p.hs.(sid := p.history.nextSid), history := p.history.(nextSid := p.history.nextSid + 1))
  }

  /** wg_start_handshake, where made says that wireguard_create_handshake_initiation succeeded.  If it fails, the
      handshake in progress stays as valid as it was, with its key material overwritten. */
  function StartHandshake(p: Peer, made: bool, index: U32, now: Millis): Peer {
    var q := Redrawn(p);
    if !made then q
    else q.(hs := q.hs.(valid := true, initiator := true, localIndex := index),
            sendHandshake := false, lastInitiationTx := now, mac1Valid := true)
  }

  /** wg_send_handshake_response, where made says that wireguard_create_handshake_response succeeded. */
  function SendResponse(p: Peer, made: bool, index: U32, now: Millis): Peer {
    if !p.hs.valid || p.hs.initiator then p
    else
      var q := Redrawn(p);
      if !made then q else StartSession(q.(hs := q.hs.(localIndex := index)), false, now)
  }

  // ---- receiving ----

  /** get_peer_keypair_for_idx */
  function KeypairForIndex(p: Peer, index: U32): Maybe<Slot> {
    if p.curr.valid && p.curr.localIndex == index then Some(Curr)
    else if p.next.valid && p.next.localIndex == index then Some(Next)
    else if p.prev.valid && p.prev.localIndex == index then Some(Prev)
    else None
  }

  /** A datagram of transport data: opens says whether it authenticates under the keypair found, and
      reply is the length of an answer the stack sends at once, if any. */
  datatype Datagram = Datagram(index: U32, counter: U64, length: nat, opens: bool, from: nat, reply: Maybe<nat>)

  /** wg_process_data_message from the endpoint update to the rekey decision. */
  function ReceiveFresh(p: Peer, s: Slot, d: Datagram, clk: Readings): Peer {
    var k := Get(p, s);
    var h := p.history.(delivered := p.history.delivered + [Delivered(k.sid, d.counter)]);
    var q := KeypairUpdate(Set(p, s, k.(lastRx := clk(1))).(endpoint := d.from, lastRx := clk(1), history := h), s);
    if Get(q, s).initiator && Expired(clk(2), Get(q, s).millis, 180 - p.keepalive - 5)
    then q.(sendHandshake := true) else q
  }

  /** The same with the replay window marked first. */
  function Accept(p: Peer, s: Slot, d: Datagram, clk: Readings): Peer {
    ReceiveFresh(Set(p, s, Get(p, s).(window := Mark(Get(p, s).window, p.size, d.counter))), s, d, clk)
  }

  /** wg_process_data_message */
  function ProcessData(p: Peer, d: Datagram, sendOk: bool, clk: Readings): Peer {
    match KeypairForIndex(p, d.index)
    case None => p
    case Some(s) =>
      var k := Get(p, s);
      if !k.receivingValid || Expired(clk(0), k.millis, 180) || k.window.counter >= REJECT_AFTER_MESSAGES
      then Set(p, s, DESTROYED)
      else if d.length < 16 || d.length - 16 > 1500 then p
      else if !d.opens || !Fresh(k.window, p.size, d.counter) then p
      else
        var p1 := Accept(p, s, d, clk);
        match d.reply
        case None => p1
        case Some(n) => EncryptAndSend(p1, n, sendOk, (i: nat) => clk(i + 3))
  }

  /** An initiation that passed mac1 and the load check: opens covers its two decryptions and the peer
      lookup, stamp is the big-endian value of its timestamp. */
  datatype Initiation = Initiation(opens: bool, stamp: nat, sender: U32, from: nat)

  predicate AcceptsInitiation(p: Peer, m: Initiation, now: Millis) {
    && m.opens
    && m.stamp > p.greatestTimestamp
    && (p.lastInitiationRx == 0 || Wrap32(now - p.lastInitiationRx) >= 500)
  }

  /** wireguard_process_initiation_message and the answer in wg_process_udp_packet */
  function ProcessInitiation(p: Peer, m: Initiation, made: bool, index: U32, clk: Readings): Peer {
    if !AcceptsInitiation(p, m, clk(0)) then p
    else
      var q := p.(lastInitiationRx := clk(0), greatestTimestamp := m.stamp, endpoint := m.from,
                  hs := p.hs.(remoteIndex := m.sender, valid := true, initiator := false));
      SendResponse(q, made, index, clk(1))
  }

  datatype Response = Response(index: U32, opens: bool, sender: U32, from: nat)

  predicate AnswersOurs(p: Peer, index: U32) {
    p.hs.valid && p.hs.initiator && p.hs.localIndex == index
  }

  /** MESSAGE_HANDSHAKE_RESPONSE: the session starts and a keepalive confirms it. */
  function ProcessResponse(p: Peer, m: Response, sendOk: bool, clk: Readings): Peer {
    if !AnswersOurs(p, m.index) || !m.opens then p
    else
      var q := p.(hs := p.hs.(remoteIndex := m.sender), endpoint := m.from);
      EncryptAndSend(StartSession(q, true, clk(0)), 0, sendOk, (i: nat) => clk(i + 1))
  }

  /** MESSAGE_COOKIE_REPLY: a good cookie is answered with a new initiation. */
  function ProcessCookie(p: Peer, index: U32, opens: bool, made: bool, newIndex: U32, now: Millis): Peer {
    if !AnswersOurs(p, index) || !p.mac1Valid || !opens then p
    else StartHandshake(p.(mac1Valid := false), made, newIndex, now)
  }

  // ---- timers and interface state ----

  function ExpireSlots(p: Peer, clk: Readings): Peer {
    var q := if p.curr.valid && Expired(clk(0), p.curr.millis, 540)
             then p.(next := DESTROYED, curr := DESTROYED, prev := DESTROYED, endpoint := p.home) else p;
    if q.curr.valid && (Expired(clk(1), q.curr.millis, 180) || q.curr.sendingCounter >= REJECT_AFTER_MESSAGES)
    then q.(curr := DESTROYED) else q
  }

  function KeepaliveIfDue(p: Peer, sendOk: bool, clk: Readings): Peer {
    if p.keepalive > 0 && (p.curr.valid || p.prev.valid) && Expired(clk(2), p.lastTx, p.keepalive)
    then EncryptAndSend(p, 0, sendOk, (i: nat) => clk(i + 3)) else p
  }

  predicate ShouldInitiate(p: Peer, clk: Readings) {
    && (p.lastInitiationTx == 0 || Expired(clk(6), p.lastInitiationTx, 5))
    && (|| p.sendHandshake
        || (p.curr.valid && !p.curr.initiator && Expired(clk(7), p.curr.millis, 180 - p.keepalive))
        || (!p.curr.valid && p.active))
  }

  /** wg_run_timers, for one valid peer */
  function RunTimers(p: Peer, sendOk: bool, made: bool, index: U32, clk: Readings): Peer {
    var q := KeepaliveIfDue(ExpireSlots(p, clk), sendOk, clk);
    if ShouldInitiate(q, clk) then StartHandshake(q, made, index, clk(8)) else q
  }

  /** wg_ifup */
  function IfUp(p: Peer): Peer {
    if p.home != 0 then p.(active := true, endpoint := p.home, sendHandshake := true) else p
  }

  /** wg_ifdown */
  function IfDown(p: Peer): Peer {
    p.(curr := DESTROYED, prev := DESTROYED, next := DESTROYED, hs := Handshake(false, false, 0, 0, 0),
       mac1Valid := false, active := false, sendHandshake := false, endpoint := p.home)
  }

  // ---- runs ----

  datatype Event =
    | Transmit(len: nat)
    | Data(d: Datagram)
    | InitiationIn(i: Initiation)
    | ResponseIn(r: Response)
    | CookieIn(cookieIndex: U32, opens: bool)
    | Tick
    | Up
    | Down

  /** An event with everything the environment decides about it. */
  datatype Input = Input(event: Event, sendOk: bool, made: bool, index: U32, clk: Readings)

  function Step(p: Peer, x: Input): Peer {
    match x.event
    case Transmit(len) => EncryptAndSend(p, len, x.sendOk, x.clk)
    case Data(d) => ProcessData(p, d, x.sendOk, x.clk)
    case InitiationIn(i) => ProcessInitiation(p, i, x.made, x.index, x.clk)
    case ResponseIn(r) => ProcessResponse(p, r, x.sendOk, x.clk)
    case CookieIn(index, opens) => ProcessCookie(p, index, opens, x.made, x.index, x.clk(0))
    case Tick => RunTimers(p, x.sendOk, x.made, x.index, x.clk)
    case Up => IfUp(p)
    case Down => IfDown(p)
  }

  function RunFrom(p: Peer, inputs: seq<Input>): Peer {
    if inputs == [] then p else Step(RunFrom(p, inputs[..|inputs| - 1]), inputs[|inputs| - 1])
  }

  /** A peer as wireguard_peer_init and wg_add_peer leave it. */
  predicate Initial(p: Peer) {
    && p.curr == p.prev == p.next == DESTROYED && !p.hs.valid && p.size > 0
    && p.history == History(0, [], map[], [], [])
  }
}
