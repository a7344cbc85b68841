/** The Noise_IKpsk2 handshake of sections 5.4.2 to 5.4.5 of the WireGuard whitepaper.  Hash, MAC,
    Diffie-Hellman and the two AEADs are parameters; the key derivation built on the hash is the
    code's own. */
module Handshake {
  import opened Bits
  import opened Bytes
  import opened Options

  datatype Primitives = Primitives(
    hash: Bytes -> Bytes,
    mac: (Bytes, Bytes) -> Bytes,
    publicKey: Bytes -> Bytes,
    dh: (Bytes, Bytes) -> Bytes,
    seal: (Bytes, nat, Bytes, Bytes) -> Bytes,
    open: (Bytes, nat, Bytes, Bytes) -> Maybe<Bytes>,
    xseal: (Bytes, Bytes, Bytes, Bytes) -> Bytes,
    xopen: (Bytes, Bytes, Bytes, Bytes) -> Maybe<Bytes>)

  /** What the primitives are relied on for: decryption undoes encryption, and the two sides of a
      Diffie-Hellman exchange arrive at the same secret. */
  ghost predicate Laws(c: Primitives) {
    && (forall k, n, ad, m :: c.open(k, n, ad, c.seal(k, n, ad, m)) == Some(m))
    && (forall k, n, ad, m :: c.xopen(k, n, ad, c.xseal(k, n, ad, m)) == Some(m))
    && (forall a, b :: c.dh(a, c.publicKey(b)) == c.dh(b, c.publicKey(a)))
  }

  // ---- key derivation ----

  /** The key zero-filled to a block and xored with the pad byte. */
  function PadKey(key: Bytes, pad: byte): Bytes
    requires |key| <= 64
  {
    var k := key + Zeros(64 - |key|);
    seq(64, i requires 0 <= i < 64 => XorByte(k[i], pad))
  }

  /** wireguard_hmac */
  function Hmac(c: Primitives, key: Bytes, text: Bytes): Bytes {
    var k := if |key| > 64 then c.hash(key) else key;
    var k' := if |k| > 64 then k[..64] else k;
    c.hash(PadKey(k', 0x5c) + c.hash(PadKey(k', 0x36) + text))
  }

  function Tau1(c: Primitives, ck: Bytes, data: Bytes): Bytes { Hmac(c, Hmac(c, ck, data), [1]) }

  function Tau2(c: Primitives, ck: Bytes, data: Bytes): Bytes {
    Hmac(c, Hmac(c, ck, data), Tau1(c, ck, data) + [2])
  }

  function Tau3(c: Primitives, ck: Bytes, data: Bytes): Bytes {
    Hmac(c, Hmac(c, ck, data), Tau2(c, ck, data) + [3])
  }

  // ---- the transcript of the whitepaper ----

  const CONSTRUCTION: Bytes := Text("Noise_IKpsk2_25519_ChaChaPoly_BLAKE2s")
  const IDENTIFIER: Bytes := Text("WireGuard v1 zx2c4 Jason@zx2c4.com")

  function Text(s: string): Bytes { seq(|s|, i requires 0 <= i < |s| => (s[i] as int) % 256) }

  function C0(c: Primitives): Bytes { c.hash(CONSTRUCTION) }

  function MixHash(c: Primitives, h: Bytes, x: Bytes): Bytes { c.hash(h + x) }

  /** Hash(Hash(Hash(C0 || IDENTIFIER) || responder static) || initiator ephemeral) */
  function HashToEphemeral(c: Primitives, responder: Bytes, e: Bytes): Bytes {
    MixHash(c, MixHash(c, c.hash(C0(c) + IDENTIFIER), responder), e)
  }

  /** The chaining key after the initiator's ephemeral e and the shared secret es. */
  function ChainToStatic(c: Primitives, e: Bytes, es: Bytes): Bytes { Tau1(c, Tau1(c, C0(c), e), es) }

  function StaticKey(c: Primitives, e: Bytes, es: Bytes): Bytes { Tau2(c, Tau1(c, C0(c), e), es) }

  /** The chaining key after the first message, with the static shared secret ss. */
  function ChainAfterInitiation(c: Primitives, e: Bytes, es: Bytes, ss: Bytes): Bytes {
    Tau1(c, ChainToStatic(c, e, es), ss)
  }

  function TimestampKey(c: Primitives, e: Bytes, es: Bytes, ss: Bytes): Bytes {
    Tau2(c, ChainToStatic(c, e, es), ss)
  }

  /** The chaining key before the preshared key: the responder's ephemeral and two secrets. */
  function ChainToPsk(c: Primitives, ck: Bytes, e: Bytes, ee: Bytes, se: Bytes): Bytes {
    Tau1(c, Tau1(c, Tau1(c, ck, e), ee), se)
  }

  function HashToEmpty(c: Primitives, h: Bytes, e: Bytes, tau: Bytes): Bytes { MixHash(c, MixHash(c, h, e), tau) }

  // ---- messages ----

  datatype InitiationMsg = InitiationMsg(sender: nat, ephemeral: Bytes, encStatic: Bytes, encTimestamp: Bytes,
                                         mac1: Bytes, mac2: Bytes)

  datatype ResponseMsg = ResponseMsg(sender: nat, receiver: nat, ephemeral: Bytes, encEmpty: Bytes,
                                     mac1: Bytes, mac2: Bytes)

  /** The packed bytes that mac1 covers, and with mac1 the bytes that mac2 covers. */
  function InitiationBody(m: InitiationMsg): Bytes {
    [1, 0, 0, 0] + ToLE(m.sender, 4) + m.ephemeral + m.encStatic + m.encTimestamp
  }

  function ResponseBody(m: ResponseMsg): Bytes {
    [2, 0, 0, 0] + ToLE(m.sender, 4) + ToLE(m.receiver, 4) + m.ephemeral + m.encEmpty
  }

  /** wireguard_mac_key: Hash(label || public key) */
  function LabelKey(c: Primitives, tag: string, public: Bytes): Bytes { c.hash(Text(tag) + public) }

  const ZERO_KEY: Bytes := Zeros(32)

  // ---- one device with one peer ----

  class Endpoint {
    const c: Primitives
    const privateKey: Bytes
    const publicKey: Bytes
    const peerPublicKey: Bytes
    const presharedKey: Bytes
    const publicKeyDh: Bytes

    var hsValid: bool
    var hsInitiator: bool
    var localIndex: nat
    var remoteIndex: nat
    var ephemeralPrivate: Bytes
    var remoteEphemeral: Bytes
    var hash: Bytes
    var chainingKey: Bytes

    var cookie: Maybe<Bytes>          // None while cookie_millis is 0 or the cookie has expired
    var sentMac1: Maybe<Bytes>        // handshake_mac1 while handshake_mac1_valid

    var sendingKey: Bytes
    var receivingKey: Bytes
    var sessionLocal: nat
    var sessionRemote: nat

    /** wireguard_device_init and wireguard_peer_init */
    constructor (c: Primitives, privateKey: Bytes, peerPublicKey: Bytes, presharedKey: Bytes)
      ensures this.c == c && this.privateKey == privateKey && publicKey == c.publicKey(privateKey)
      ensures this.peerPublicKey == peerPublicKey && this.presharedKey == presharedKey
      ensures publicKeyDh == c.dh(privateKey, peerPublicKey)
      ensures !hsValid && cookie == None && sentMac1 == None
    {
      this.c, this.privateKey, publicKey := c, privateKey, c.publicKey(privateKey);
      this.peerPublicKey, this.presharedKey := peerPublicKey, presharedKey;
      publicKeyDh := c.dh(privateKey, peerPublicKey);
      hsValid, hsInitiator, localIndex, remoteIndex := false, false, 0, 0;
      ephemeralPrivate, remoteEphemeral, hash, chainingKey := [], [], [], [];
      cookie, sentMac1 := None, None;
      sendingKey, receivingKey, sessionLocal, sessionRemote := [], [], 0, 0;
    }

    /** wireguard_mac over the message, mac1 with the receiver's label key, mac2 with a cookie if held. */
    function Mac1(body: Bytes): Bytes { c.mac(LabelKey(c, "mac1----", peerPublicKey), body) }

    function Mac2(body: Bytes, mac1: Bytes): Bytes
      reads this`cookie
    {
      match cookie case None => Zeros(16) case Some(k) => c.mac(k, body + mac1)
    }

    /** wireguard_create_handshake_initiation with a drawn ephemeral key, timestamp and index */
    method CreateInitiation(ephemeral: Bytes, timestamp: Bytes, index: nat) returns (ok: bool, m: InitiationMsg)
      modifies this`hsValid, this`hsInitiator, this`localIndex, this`ephemeralPrivate, this`hash, this`chainingKey
      ensures var e, es := c.publicKey(ephemeral), c.dh(ephemeral, peerPublicKey);
              && ok == (ephemeral != ZERO_KEY && e != ZERO_KEY && es != ZERO_KEY)
              && (!ok ==> hsValid == old(hsValid) && hsInitiator == old(hsInitiator) && localIndex == old(localIndex))
              && (ok ==>
                  && hsValid && hsInitiator && localIndex == index == m.sender && ephemeralPrivate == ephemeral
                  && m.ephemeral == e
                  && m.encStatic == c.seal(StaticKey(c, e, es), 0, HashToEphemeral(c, peerPublicKey, e), publicKey)
                  && m.encTimestamp == c.seal(TimestampKey(c, e, es, publicKeyDh), 0,
                                              MixHash(c, HashToEphemeral(c, peerPublicKey, e), m.encStatic), timestamp)
                  && chainingKey == ChainAfterInitiation(c, e, es, publicKeyDh)
                  && hash == MixHash(c, MixHash(c, HashToEphemeral(c, peerPublicKey, e), m.encStatic), m.encTimestamp)
                  && m.mac1 == Mac1(InitiationBody(m)) && m.mac2 == Mac2(InitiationBody(m), m.mac1))
    {
      hide Hmac, Text, LabelKey, InitiationBody, Tau1, Tau2, Zeros;
      m := InitiationMsg(0, [], [], [], [], []);
      ok := false;
      chainingKey := C0(c);
      hash := c.hash(C0(c) + IDENTIFIER);
      hash := MixHash(c, hash, peerPublicKey);
      ephemeralPrivate := ephemeral;
      var e := c.publicKey(ephemeral);
      if ephemeral != ZERO_KEY && e != ZERO_KEY {
        chainingKey := Tau1(c, chainingKey, e);
        hash := MixHash(c, hash, e);
        var secret := c.dh(ephemeral, peerPublicKey);
        if secret != ZERO_KEY {
          var key := Tau2(c, chainingKey, secret);
          chainingKey := Tau1(c, chainingKey, secret);
          var encStatic := c.seal(key, 0, hash, publicKey);
          hash := MixHash(c, hash, encStatic);
          key := Tau2(c, chainingKey, publicKeyDh);
          chainingKey := Tau1(c, chainingKey, publicKeyDh);
          var encTimestamp := c.seal(key, 0, hash, timestamp);
          hash := MixHash(c, hash, encTimestamp);
          m := InitiationMsg(index, e, encStatic, encTimestamp, [], []);
          hsValid, hsInitiator, localIndex := true, true, index;
          ok := true;
        }
      }
      if ok {
        var body := InitiationBody(m);
        BodyIgnoresMacs(m, Mac1(body), Mac2(body, Mac1(body)));
        m := m.(mac1 := Mac1(body), mac2 := Mac2(body, Mac1(body)));
      }
    }

    /** wg_start_handshake: the initiation's mac1 is kept for a cookie reply to refer to. */
    method StartHandshake(ephemeral: Bytes, timestamp: Bytes, index: nat) returns (ok: bool, m: InitiationMsg)
      modifies this`hsValid, this`hsInitiator, this`localIndex, this`ephemeralPrivate, this`hash, this`chainingKey
      modifies this`sentMac1
      ensures sentMac1 == if ok then Some(m.mac1) else old(sentMac1)
      ensures ok ==> m.mac1 == Mac1(InitiationBody(m)) && m.mac2 == Mac2(InitiationBody(m), m.mac1)
      ensures ok == (&& ephemeral != ZERO_KEY && c.publicKey(ephemeral) != ZERO_KEY
                     && c.dh(ephemeral, peerPublicKey) != ZERO_KEY)
    {
      hide Hmac, Text, LabelKey, InitiationBody, Tau1, Tau2, Zeros;
      ok, m := CreateInitiation(ephemeral, timestamp, index);
      if ok {
        sentMac1 := Some(m.mac1);
      }
    }

    /** wireguard_process_initiation_message; admit is its decision on the decrypted timestamp.  A message
        that is not accepted changes nothing. */
    method ProcessInitiation(m: InitiationMsg, admit: Bytes -> bool) returns (ok: bool)
      modifies this`hsValid, this`hsInitiator, this`remoteIndex, this`remoteEphemeral, this`hash, this`chainingKey
      ensures !ok ==> unchanged(this)
      ensures var es := c.dh(privateKey, m.ephemeral);
              var h := HashToEphemeral(c, publicKey, m.ephemeral);
              var s := c.open(StaticKey(c, m.ephemeral, es), 0, h, m.encStatic);
              var t := c.open(TimestampKey(c, m.ephemeral, es, publicKeyDh), 0, MixHash(c, h, m.encStatic),
                              m.encTimestamp);
              && ok == (es != ZERO_KEY && s == Some(peerPublicKey) && t.Some? && admit(t.value))
              && (ok ==>
                  && hsValid && !hsInitiator && remoteIndex == m.sender && remoteEphemeral == m.ephemeral
                  && chainingKey == ChainAfterInitiation(c, m.ephemeral, es, publicKeyDh)
                  && hash == MixHash(c, MixHash(c, h, m.encStatic), m.encTimestamp))
    {
      hide Hmac, Text, LabelKey, Zeros, Tau1, Tau2;
      ok := false;
      var ck := C0(c);
      var h := c.hash(C0(c) + IDENTIFIER);
      h := MixHash(c, h, publicKey);
      ck := Tau1(c, ck, m.ephemeral);
      h := MixHash(c, h, m.ephemeral);
      var secret := c.dh(privateKey, m.ephemeral);
      if secret != ZERO_KEY {
        var key := Tau2(c, ck, secret);
        ck := Tau1(c, ck, secret);
        var s := c.open(key, 0, h, m.encStatic);
        if s.Some? {
          h := MixHash(c, h, m.encStatic);
          if s.value == peerPublicKey {
            key := Tau2(c, ck, publicKeyDh);
            ck := Tau1(c, ck, publicKeyDh);
            var t := c.open(key, 0, h, m.encTimestamp);
            if t.Some? {
              h := MixHash(c, h, m.encTimestamp);
              if admit(t.value) {
                remoteEphemeral, hash, chainingKey, remoteIndex := m.ephemeral, h, ck, m.sender;
                hsValid, hsInitiator := true, false;
                ok := true;
              }
            }
          }
        }
      }
    }

    /** wireguard_create_handshake_response with a drawn ephemeral key and index */
    method CreateResponse(ephemeral: Bytes, index: nat) returns (ok: bool, m: ResponseMsg)
      modifies this`localIndex, this`ephemeralPrivate, this`hash, this`chainingKey
      ensures !ok ==> localIndex == old(localIndex)
      ensures !old(hsValid) || old(hsInitiator) ==> unchanged(this)
      ensures var e, ee := c.publicKey(ephemeral), c.dh(ephemeral, old(remoteEphemeral));
              var se := c.dh(ephemeral, peerPublicKey);
              var ck := ChainToPsk(c, old(chainingKey), e, ee, se);
              var h := HashToEmpty(c, old(hash), e, Tau2(c, ck, presharedKey));
              && ok == (&& old(hsValid) && !old(hsInitiator)
                        && ephemeral != ZERO_KEY && e != ZERO_KEY && ee != ZERO_KEY && se != ZERO_KEY)
              && (ok ==>
                  && ephemeralPrivate == ephemeral && hash == MixHash(c, h, m.encEmpty)
                  && m.ephemeral == e && m.sender == localIndex == index && m.receiver == remoteIndex
                  && m.encEmpty == c.seal(Tau3(c, ck, presharedKey), 0, h, [])
                  && chainingKey == Tau1(c, ck, presharedKey)
                  && m.mac1 == Mac1(ResponseBody(m)) && m.mac2 == Mac2(ResponseBody(m), m.mac1))
    {
      hide Hmac, Text, LabelKey, ResponseBody, Zeros, Tau1, Tau2, Tau3;
      m := ResponseMsg(0, 0, [], [], [], []);
      ok := false;
      if hsValid && !hsInitiator {
        ephemeralPrivate := ephemeral;
        var e := c.publicKey(ephemeral);
        if ephemeral != ZERO_KEY && e != ZERO_KEY {
          chainingKey := Tau1(c, chainingKey, e);
          hash := MixHash(c, hash, e);
          var secret := c.dh(ephemeral, remoteEphemeral);
          if secret != ZERO_KEY {
            chainingKey := Tau1(c, chainingKey, secret);
            secret := c.dh(ephemeral, peerPublicKey);
            if secret != ZERO_KEY {
              chainingKey := Tau1(c, chainingKey, secret);
              var tau, key := Tau2(c, chainingKey, presharedKey), Tau3(c, chainingKey, presharedKey);
              chainingKey := Tau1(c, chainingKey, presharedKey);
              hash := MixHash(c, hash, tau);
              var encEmpty := c.seal(key, 0, hash, []);
              hash := MixHash(c, hash, encEmpty);
              m := ResponseMsg(index, remoteIndex, e, encEmpty, [], []);
              localIndex := index;
              ok := true;
            }
          }
        }
      }
      if ok {
        var body := ResponseBody(m);
        ResponseBodyIgnoresMacs(m, Mac1(body), Mac2(body, Mac1(body)));
        m := m.(mac1 := Mac1(body), mac2 := Mac2(body, Mac1(body)));
      }
    }

    /** wireguard_process_handshake_response; a message that does not decrypt changes nothing. */
    method ProcessResponse(m: ResponseMsg) returns (ok: bool)
      modifies this`remoteIndex, this`remoteEphemeral, this`hash, this`chainingKey
      ensures !ok ==> unchanged(this)
      ensures var ee, se := c.dh(old(ephemeralPrivate), m.ephemeral), c.dh(privateKey, m.ephemeral);
              var ck := ChainToPsk(c, old(chainingKey), m.ephemeral, ee, se);
              var h := HashToEmpty(c, old(hash), m.ephemeral, Tau2(c, ck, presharedKey));
              && ok == (old(hsValid) && old(hsInitiator) && ee != ZERO_KEY && se != ZERO_KEY
                        && c.open(Tau3(c, ck, presharedKey), 0, h, m.encEmpty).Some?)
              && (ok ==>
                  && remoteIndex == m.sender && remoteEphemeral == m.ephemeral
                  && chainingKey == Tau1(c, ck, presharedKey) && hash == h)
    {
      hide Hmac, Text, LabelKey, Zeros, Tau1, Tau2, Tau3;
      ok := false;
      if hsValid && hsInitiator {
        var h, ck := hash, chainingKey;
        ck := Tau1(c, ck, m.ephemeral);
        h := MixHash(c, h, m.ephemeral);
        var secret := c.dh(ephemeralPrivate, m.ephemeral);
        if secret != ZERO_KEY {
          ck := Tau1(c, ck, secret);
          secret := c.dh(privateKey, m.ephemeral);
          if secret != ZERO_KEY {
            ck := Tau1(c, ck, secret);
            var tau, key := Tau2(c, ck, presharedKey), Tau3(c, ck, presharedKey);
            ck := Tau1(c, ck, presharedKey);
            h := MixHash(c, h, tau);
            if c.open(key, 0, h, m.encEmpty).Some? {
              remoteEphemeral, hash, chainingKey, remoteIndex := m.ephemeral, h, ck, m.sender;
              ok := true;
            }
          }
        }
      }
    }

    /** wireguard_start_session: section 5.4.5, (T-send-i = T-recv-r, T-recv-i = T-send-r) := Kdf2(C, empty) */
    method StartSession(initiator: bool)
      modifies this`hsValid, this`localIndex, this`remoteIndex, this`ephemeralPrivate, this`remoteEphemeral
      modifies this`hash, this`chainingKey, this`sendingKey, this`receivingKey, this`sessionLocal, this`sessionRemote
      ensures var t1, t2 := Tau1(c, old(chainingKey), []), Tau2(c, old(chainingKey), []);
              && sendingKey == (if initiator then t1 else t2) && receivingKey == (if initiator then t2 else t1)
      ensures sessionLocal == old(localIndex) && sessionRemote == old(remoteIndex)
      ensures !hsValid && ephemeralPrivate == remoteEphemeral == hash == chainingKey == ZERO_KEY
      ensures localIndex == remoteIndex == 0
    {
      hide Hmac, Text, Tau1, Tau2, Zeros;
      sessionLocal, sessionRemote := localIndex, remoteIndex;
      if initiator {
        sendingKey, receivingKey := Tau1(c, chainingKey, []), Tau2(c, chainingKey, []);
      } else {
        receivingKey, sendingKey := Tau1(c, chainingKey, []), Tau2(c, chainingKey, []);
      }
      ephemeralPrivate, remoteEphemeral, hash, chainingKey := ZERO_KEY, ZERO_KEY, ZERO_KEY, ZERO_KEY;
      remoteIndex, localIndex, hsValid := 0, 0, false;
    }

    /** wireguard_check_mac1 */
    function CheckMac1(body: Bytes, mac1: Bytes): bool { c.mac(LabelKey(c, "mac1----", publicKey), body) == mac1 }

    /** wireguard_check_mac2, where secret is the current cookie secret and source the sender's address */
    function CheckMac2(secret: Bytes, source: Bytes, covered: Bytes, mac2: Bytes): bool {
      c.mac(c.mac(secret, source), covered) == mac2
    }

    /** wireguard_create_cookie_reply: the cookie for source, sealed to the mac1 that provoked it */
    function CookieReply(secret: Bytes, source: Bytes, nonce: Bytes, mac1: Bytes): Bytes {
      c.xseal(LabelKey(c, "cookie--", publicKey), nonce, mac1, c.mac(secret, source))
    }

    /** wireguard_process_cookie_message */
    method ProcessCookie(nonce: Bytes, encCookie: Bytes) returns (ok: bool)
      modifies this`cookie, this`sentMac1
      ensures var key := LabelKey(c, "cookie--", peerPublicKey);
              var k := if old(sentMac1).Some? then c.xopen(key, nonce, old(sentMac1).value, encCookie) else None;
              && ok == k.Some?
              && (if ok then cookie == k && sentMac1 == None
                  else cookie == old(cookie) && sentMac1 == old(sentMac1))
    {
      ok := false;
      if sentMac1.Some? {
        var k := c.xopen(LabelKey(c, "cookie--", peerPublicKey), nonce, sentMac1.value, encCookie);
        if k.Some? {
          cookie := k;
          sentMac1 := None;
          ok := true;
        }
      }
    }
  }

  lemma BodyIgnoresMacs(m: InitiationMsg, mac1: Bytes, mac2: Bytes)
    ensures InitiationBody(m.(mac1 := mac1, mac2 := mac2)) == InitiationBody(m)
  {
  }

  lemma ResponseBodyIgnoresMacs(m: ResponseMsg, mac1: Bytes, mac2: Bytes)
    ensures ResponseBody(m.(mac1 := mac1, mac2 := mac2)) == ResponseBody(m)
  {
  }

  // ---- agreement ----

  /** Two endpoints configured for each other. */
  ghost predicate Paired(a: Endpoint, b: Endpoint) {
    && a.c == b.c && Laws(a.c) && a != b
    && a.publicKey == a.c.publicKey(a.privateKey) && b.publicKey == b.c.publicKey(b.privateKey)
    && a.peerPublicKey == b.publicKey && b.peerPublicKey == a.publicKey
    && a.presharedKey == b.presharedKey
    && a.publicKeyDh == a.c.dh(a.privateKey, a.peerPublicKey) && b.publicKeyDh == b.c.dh(b.privateKey, b.peerPublicKey)
  }

  lemma Mac1Accepted(a: Endpoint, b: Endpoint, body: Bytes)
    requires Paired(a, b)
    ensures b.CheckMac1(body, a.Mac1(body))
  {
  }

  /** Section 5.4.7: an initiator whose first message met a loaded responder gets a cookie for its
      address, and its next message carries a mac2 that the responder accepts from that address as long
      as it keeps the same cookie secret. */
  method RetryUnderLoad(a: Endpoint, b: Endpoint, ea: Bytes, eb: Bytes, t: Bytes, secret: Bytes, source: Bytes,
                        nonce: Bytes)
    returns (ok: bool, m: InitiationMsg)
    requires Paired(a, b)
    modifies a
    ensures ok == (&& ea != ZERO_KEY && a.c.publicKey(ea) != ZERO_KEY && a.c.dh(ea, b.publicKey) != ZERO_KEY
                   && eb != ZERO_KEY && a.c.publicKey(eb) != ZERO_KEY && a.c.dh(eb, b.publicKey) != ZERO_KEY)
    ensures ok ==> b.CheckMac1(InitiationBody(m), m.mac1)
                   && b.CheckMac2(secret, source, InitiationBody(m) + m.mac1, m.mac2)
  {
    hide Hmac, Text, LabelKey, InitiationBody, Zeros;
    var first;
    ok, first := a.StartHandshake(ea, t, 1);
    m := first;
    if !ok {
      return;
    }
    var got := a.ProcessCookie(nonce, b.CookieReply(secret, source, nonce, first.mac1));
    assert got;
    ok, m := a.StartHandshake(eb, t, 2);
  }

  /** An honest run over a network that delivers both messages unchanged. */
  method HonestRun(a: Endpoint, b: Endpoint, ea: Bytes, eb: Bytes, timestamp: Bytes, ia: nat, ib: nat,
                   admit: Bytes -> bool)
    returns (ok: bool)
    requires Paired(a, b) && admit(timestamp)
    modifies a, b
    ensures ok == (&& ea != ZERO_KEY && a.c.publicKey(ea) != ZERO_KEY && a.c.dh(ea, b.publicKey) != ZERO_KEY
                   && eb != ZERO_KEY && a.c.publicKey(eb) != ZERO_KEY
                   && a.c.dh(eb, a.c.publicKey(ea)) != ZERO_KEY && a.c.dh(eb, a.publicKey) != ZERO_KEY)
    ensures ok ==> a.sendingKey == b.receivingKey && b.sendingKey == a.receivingKey
    ensures ok ==> a.sessionLocal == b.sessionRemote == ia && b.sessionLocal == a.sessionRemote == ib
    ensures ok ==> forall n, m ::
              && a.c.open(b.receivingKey, n, [], a.c.seal(a.sendingKey, n, [], m)) == Some(m)
              && a.c.open(a.receivingKey, n, [], a.c.seal(b.sendingKey, n, [], m)) == Some(m)
  {
    hide Hmac, Text, LabelKey, InitiationBody, ResponseBody, Tau1, Tau2, Tau3, Zeros, MixHash;
    var m1;
    ok, m1 := a.CreateInitiation(ea, timestamp, ia);
    if !ok {
      return;
    }
    Mac1Accepted(a, b, InitiationBody(m1));
    assert b.CheckMac1(InitiationBody(m1), m1.mac1);
    assert a.c.dh(ea, b.publicKey) == a.c.dh(b.privateKey, a.c.publicKey(ea));
    assert a.publicKeyDh == b.publicKeyDh;
    var taken := b.ProcessInitiation(m1, admit);
    assert taken;
    var m2;
    ok, m2 := b.CreateResponse(eb, ib);
    if !ok {
      return;
    }
    Mac1Accepted(b, a, ResponseBody(m2));
    assert a.CheckMac1(ResponseBody(m2), m2.mac1);
    assert a.c.dh(eb, a.c.publicKey(ea)) == a.c.dh(ea, a.c.publicKey(eb));
    assert a.c.dh(eb, a.publicKey) == a.c.dh(a.privateKey, a.c.publicKey(eb));
    b.StartSession(false);
    var done := a.ProcessResponse(m2);
    assert done;
    a.StartSession(true);
  }
}
