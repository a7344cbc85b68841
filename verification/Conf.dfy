/** Staging a configuration from commands and from wg(8) files, and writing it back. */
module Conf {
  import opened Bits
  import opened Options
  import opened Bytes
  import Base64
  import Routing

  // ---- C strings ----

  /** strlcpy into a buffer of n + 1 bytes */
  function Cut(s: string, n: nat): string { if |s| <= n then s else s[..n] }

  function FirstIndex(s: string, c: char): (i: nat)
    ensures i <= |s| && (i < |s| ==> s[i] == c) && forall j :: 0 <= j < i ==> s[j] != c
  {
    if s == "" || s[0] == c then 0 else 1 + FirstIndex(s[1..], c)
  }

  /** One past the last c, or 0. */
  function AfterLast(s: string, c: char): (i: nat)
    ensures i <= |s| && (i > 0 ==> s[i - 1] == c) && forall j :: i <= j < |s| ==> s[j] != c
  {
    if s == "" then 0 else if s[|s| - 1] == c then |s| else AfterLast(s[..|s| - 1], c)
  }

  predicate Digit(c: char) { '0' <= c <= '9' }

  /** %d of a number that is not negative */
  function Decimal(n: nat): (s: string)
    ensures |s| > 0 && forall i :: 0 <= i < |s| ==> Digit(s[i])
    decreases n
  {
    if n < 10 then ['0' + n as char] else Decimal(n / 10) + ['0' + (n % 10) as char]
  }

  /** The digits at the start of s, continuing from n. */
  function Digits(s: string, n: nat): nat
    decreases |s|
  {
    if s == "" || !Digit(s[0]) then n else Digits(s[1..], 10 * n + (s[0] - '0') as int)
  }

  /** atoi */
  function Atoi(s: string): int {
    if s == "" then 0
    else if s[0] == ' ' || s[0] == '\t' || s[0] == '\n' || s[0] == '\r' then Atoi(s[1..])
    else if s[0] == '-' then 0 - (Digits(s[1..], 0) as int)
    else if s[0] == '+' then Digits(s[1..], 0)
    else Digits(s, 0)
  }

  lemma {:induction false} DigitsThen(s: string, c: char, n: nat)
    requires Digit(c) && forall i :: 0 <= i < |s| ==> Digit(s[i])
    ensures Digits(s + [c], n) == 10 * Digits(s, n) + (c - '0') as int
    decreases |s|
  {
    if s == "" {
      assert s + [c] == [c] && [c][1..] == "";
    } else {
      assert (s + [c])[1..] == s[1..] + [c];
      DigitsThen(s[1..], c, 10 * n + (s[0] - '0') as int);
    }
  }

  lemma {:induction false} DigitsOfDecimal(n: nat)
    ensures Digits(Decimal(n), 0) == n
    decreases n
  {
    var c := '0' + (n % 10) as char;
    if n < 10 {
      assert Decimal(n)[1..] == "";
    } else {
      DigitsOfDecimal(n / 10);
      DigitsThen(Decimal(n / 10), c, 0);
    }
  }

  /** Reading a printed number gives it back. */
  lemma AtoiDecimal(n: nat)
    ensures Atoi(Decimal(n)) == n
  {
    DigitsOfDecimal(n);
    assert Digit(Decimal(n)[0]);
  }

  predicate Blank(c: char) { c == ' ' || c == '\t' }
  predicate EndBlank(c: char) { c == ' ' || c == '\t' || c == '\r' || c == '\n' }

  function TrimLeft(s: string): string {
    if s != "" && Blank(s[0]) then TrimLeft(s[1..]) else s
  }

  function TrimRight(s: string): string {
    if s != "" && EndBlank(s[|s| - 1]) then TrimRight(s[..|s| - 1]) else s
  }

  /** wg_conf_trim */
  function Trim(s: string): string { TrimRight(TrimLeft(s)) }

  function Lower(c: char): char { if 'A' <= c <= 'Z' then c + 32 as char else c }

  /** strcasecmp(a, b) == 0 */
  predicate SameNoCase(a: string, b: string) {
    |a| == |b| && forall i :: 0 <= i < |a| ==> Lower(a[i]) == Lower(b[i])
  }

  // ---- what is staged ----

  datatype Peer = Peer(publicKey: string, endpointIp: string, endpointPort: nat, allowedIp: string,
                       allowedMask: string, keepalive: int)

  datatype Kconfig = Kconfig(privateKey: string, listenPort: nat, peerKey: string, allowedIp: string,
                             allowedMask: string, endpointIp: string, endpointPort: nat, keepalive: nat, maxPeers: nat)

  /** inet_pton and inet_ntop of the C library. */
  datatype Inet = Inet(pton: string -> Maybe<Word>, ntop: Word -> string)

  predicate Dotted(s: string) { |s| <= 15 && forall i :: 0 <= i < |s| ==> Digit(s[i]) || s[i] == '.' }

  ghost predicate InetLaws(net: Inet) {
    && (forall s :: net.pton(s).Some? ==> Dotted(s) && s != "")
    && (forall w: Word :: net.pton(net.ntop(w)) == Some(w))
  }

  datatype Result = Ok | Busy | BadInput | NoRoom | NotThere

  datatype Staged = Staged(registered: bool, privateKey: string, peers: seq<Peer>)

  function FindPeer(peers: seq<Peer>, key: string): (i: nat)
    ensures i <= |peers| && (i < |peers| ==> peers[i].publicKey == key)
    ensures forall j :: 0 <= j < i ==> peers[j].publicKey != key
  {
    if peers == [] || peers[0].publicKey == key then 0 else 1 + FindPeer(peers[1..], key)
  }

  function WithEndpoint(net: Inet, p: Peer, endpoint: Maybe<string>): Maybe<Peer> {
    match endpoint
    case None => Some(p)
    case Some(text) =>
      var s := Cut(text, 23);
      var i := AfterLast(s, ':');
      if i == 0 then None
      else
        var ip, port := s[..i - 1], Atoi(s[i..]);
        if port <= 0 || port > 65535 || net.pton(ip).None? then None
        else Some(p.(endpointIp := Cut(ip, 15), endpointPort := port))
  }

  function WithAllowed(net: Inet, p: Peer, allowed: Maybe<string>): Maybe<Peer> {
    match allowed
    case None => Some(p)
    case Some(text) =>
      var s := Cut(text, 23);
      var i := FirstIndex(s, '/');
      var prefix := if i < |s| then Atoi(s[i + 1..]) else 32;
      if prefix < 0 || prefix > 32 || net.pton(s[..i]).None? then None
      else Some(p.(allowedIp := Cut(s[..i], 15), allowedMask := MaskText(net, prefix)))
  }

  /** The netmask of a prefix as a dotted quad. */
  function MaskText(net: Inet, prefix: nat): string
    requires prefix <= 32
  {
    net.ntop(Routing.Swap(Routing.MaskOf(prefix)))
  }

  function NewPeer(k: Kconfig, key: string): Peer {
    Peer(Cut(key, 47), "", 0, Cut(k.allowedIp, 15), Cut(k.allowedMask, 15), -1)
  }

  /** wg_set_peer */
  function SetPeer(k: Kconfig, net: Inet, st: Staged, key: string, endpoint: Maybe<string>, allowed: Maybe<string>,
                   keepalive: int): (Staged, Result)
  {
    if st.registered then (st, Busy)
    else if !Base64.KeyOk(key) then (st, BadInput)
    else
      var i := FindPeer(st.peers, key);
      if i == |st.peers| && |st.peers| >= k.maxPeers then (st, NoRoom)
      else
        var p := if i < |st.peers| then st.peers[i] else NewPeer(k, key);
        match WithEndpoint(net, p, endpoint)
        case None => (st, BadInput)
        case Some(p1) =>
          match WithAllowed(net, p1, allowed)
          case None => (st, BadInput)
          case Some(p2) =>
            var p3 := if keepalive >= 0 then p2.(keepalive := keepalive) else p2;
            (st.(peers := if i < |st.peers| then st.peers[i := p3] else st.peers + [p3]), Ok)
  }

  /** wg_set_private_key */
  function SetPrivateKey(st: Staged, key: string): (Staged, Result) {
    if st.registered then (st, Busy)
    else if !Base64.KeyOk(key) then (st, BadInput)
    else (st.(privateKey := Cut(key, 47)), Ok)
  }

  // ---- writing ----

  /** wg_mask_to_prefix */
  function MaskPrefix(net: Inet, mask: string): (p: nat)
    ensures p <= 32
  {
    match net.pton(mask)
    case None => 32
    case Some(w) => Routing.PrefixLength(Routing.Swap(w))
  }

  function PortOf(k: Kconfig, p: Peer): nat { if p.endpointPort != 0 then p.endpointPort else k.endpointPort }

  function KeepaliveOf(k: Kconfig, p: Peer): nat { if p.keepalive >= 0 then p.keepalive else k.keepalive }

  function EndpointText(k: Kconfig, p: Peer): string { p.endpointIp + ":" + Decimal(PortOf(k, p)) }

  function AllowedText(net: Inet, p: Peer): string {
    p.allowedIp + "/" + Decimal(MaskPrefix(net, p.allowedMask))
  }

  function Entry(key: string, value: string): string { key + " = " + value + "\n" }

  /** wg_showconf_peer */
  function PeerText(k: Kconfig, net: Inet, p: Peer): string {
    "\n" + ("[Peer]\n" + (Entry("PublicKey", p.publicKey) + (Entry("AllowedIPs", AllowedText(net, p))
      + ((if p.endpointIp != "" then Entry("Endpoint", EndpointText(k, p)) else "")
         + Entry("PersistentKeepalive", Decimal(KeepaliveOf(k, p)))))))
  }

  function PeersText(k: Kconfig, net: Inet, peers: seq<Peer>): string {
    if peers == [] then "" else PeerText(k, net, peers[0]) + PeersText(k, net, peers[1..])
  }

  function KeyInUse(k: Kconfig, st: Staged): string { if st.privateKey != "" then st.privateKey else k.privateKey }

  /** The peers that wg_writeconf describes and wg_configure_peer registers: the staged ones, or else the one
      built in. */
  function Described(k: Kconfig, st: Staged): seq<Peer> {
    if st.peers != [] then st.peers
    else if k.peerKey == "" then []
    else [Peer(Cut(k.peerKey, 47), Cut(k.endpointIp, 15), k.endpointPort, Cut(k.allowedIp, 15),
               Cut(k.allowedMask, 15), k.keepalive)]
  }

  /** wg_writeconf */
  function WriteConf(k: Kconfig, net: Inet, st: Staged): Maybe<string> {
    if KeyInUse(k, st) == "" then None
    else Some("[Interface]\n" + (Entry("PrivateKey", KeyInUse(k, st)) + (Entry("ListenPort", Decimal(k.listenPort))
              + PeersText(k, net, Described(k, st)))))
  }

  // ---- reading ----

  /** What a [Peer] section has said so far. */
  datatype Section = Section(pubkey: string, endpoint: string, allowed: string, keepalive: int, valid: bool)

  function NoSection(): Section { Section("", "", "", -1, false) }

  datatype Reading = Reading(st: Staged, acc: Section, ret: Result)

  function Given(s: string): Maybe<string> { if s == "" then None else Some(s) }

  /** wg_conf_flush_peer */
  function Flush(k: Kconfig, net: Inet, r: Reading): Reading {
    if !r.acc.valid then Reading(r.st, NoSection(), Ok)
    else
      var endpoint, allowed := Given(r.acc.endpoint), Given(r.acc.allowed);
      var (st, ret) := SetPeer(k, net, r.st, r.acc.pubkey, endpoint, allowed, r.acc.keepalive);
      Reading(st, NoSection(), ret)
  }

  /** The key names wg_setconf knows; everything else is ignored. */
  function Assign(r: Reading, key: string, v: string): Reading {
    if SameNoCase(key, "PrivateKey") then
      var (st, ret) := SetPrivateKey(r.st, v);
      r.(st := st, ret := ret)
    else if SameNoCase(key, "PublicKey") then r.(acc := r.acc.(pubkey := Cut(v, 47), valid := true))
    else if SameNoCase(key, "Endpoint") then r.(acc := r.acc.(endpoint := Cut(v, 23)))
    else if SameNoCase(key, "AllowedIPs") then r.(acc := r.acc.(allowed := Cut(v, 23)))
    else if SameNoCase(key, "PersistentKeepalive") then r.(acc := r.acc.(keepalive := Atoi(v)))
    else r
  }

  /** One line of the file. */
  function Line(k: Kconfig, net: Inet, r: Reading, line: string): Reading {
    var t := Trim(line);
    if t == "" || t[0] == '#' || t[0] == ';' then r
    else if t[0] == '[' then Flush(k, net, r)
    else
      var eq := FirstIndex(t, '=');
      if eq == |t| then r else Assign(r, Trim(t[..eq]), Trim(t[eq + 1..]))
  }

  /** fgets into 128 bytes: up to a newline, at most 127 characters. */
  function LineLength(text: string): (n: nat)
    ensures n <= |text| && (text != "" ==> n > 0)
  {
    var i := FirstIndex(text, '\n');
    var n := if i < |text| then i + 1 else i;
    if n <= 127 then n else 127
  }

  function ReadAll(k: Kconfig, net: Inet, r: Reading, text: string): Reading
    decreases |text|
  {
    if text == "" || r.ret != Ok then r
    else ReadAll(k, net, Line(k, net, r, text[..LineLength(text)]), text[LineLength(text)..])
  }

  /** The end of wg_setconf: the last section, and on any error no peers at all. */
  function Finish(k: Kconfig, net: Inet, r: Reading): (Staged, Result) {
    var r' := if r.ret == Ok then Flush(k, net, r) else r;
    if r'.ret == Ok then (r'.st, Ok) else (r'.st.(peers := []), r'.ret)
  }

  /** wg_setconf on the contents of a file, if it could be opened */
  function SetConf(k: Kconfig, net: Inet, st: Staged, file: Maybe<string>): (Staged, Result) {
    if st.registered then (st, Busy)
    else match file
      case None => (st, NotThere)
      case Some(text) => Finish(k, net, ReadAll(k, net, Reading(st.(peers := []), NoSection(), Ok), text))
  }

  // ---- a failing request leaves nothing half done ----

  lemma SetPeerAllOrNothing(k: Kconfig, net: Inet, st: Staged, key: string, endpoint: Maybe<string>,
                            allowed: Maybe<string>, keepalive: int)
    ensures var (st', ret) := SetPeer(k, net, st, key, endpoint, allowed, keepalive);
            && (ret != Ok ==> st' == st)
            && st'.registered == st.registered && st'.privateKey == st.privateKey
            && |st.peers| <= |st'.peers| <= |st.peers| + 1
            && forall i :: 0 <= i < |st.peers| && st.peers[i].publicKey != key ==> st'.peers[i] == st.peers[i]
  {
    hide WithEndpoint, WithAllowed, Base64.KeyOk;
  }

  /** A file that fails part-way leaves no staged peers.  The next wg_initialize then takes the built-in peer,
      so there is no peer at all exactly if Kconfig names none. */
  lemma FailedFileLeavesNoPeers(k: Kconfig, net: Inet, st: Staged, text: string)
    requires !st.registered
    ensures var (st', ret) := SetConf(k, net, st, Some(text));
            ret != Ok ==> st'.peers == [] && (Described(k, st') == [] <==> k.peerKey == "")
  {
    hide ReadAll, Flush;
  }

  // ---- reading back what was written ----

  /** Not empty, and without blanks and line ends. */
  predicate Solid(s: string) {
    s != "" && forall i :: 0 <= i < |s| ==> s[i] != ' ' && s[i] != '\t' && s[i] != '\r' && s[i] != '\n'
  }

  lemma TrimSolid(s: string)
    requires Solid(s)
    ensures Trim(s) == s && Trim(" " + s) == s && Trim(s + " ") == s && Trim(s + "\n") == s
  {
    assert (" " + s)[1..] == s;
    assert (s + " ")[..|s|] == s && (s + "\n")[..|s|] == s;
    assert TrimRight(s) == s && TrimLeft(s) == s;
    assert TrimLeft(" " + s) == s;
    assert TrimRight(s + " ") == s && TrimRight(s + "\n") == s;
  }

  /** A value that does not end in a blank, as everything that ends in a number. */
  predicate Ends(s: string) { s != "" && !EndBlank(s[|s| - 1]) }

  predicate OneLine(s: string) { '\n' !in s }

  lemma {:induction false} TrimEnds(v: string)
    requires Ends(v)
    ensures Ends(TrimLeft(v)) && Trim(" " + v) == TrimLeft(v) && |TrimLeft(v)| <= |v|
    decreases |v|
  {
    assert (" " + v)[1..] == v;
    if Blank(v[0]) {
      TrimEnds(v[1..]);
      assert (" " + v[1..])[1..] == v[1..];
    }
  }

  lemma SolidEnds(s: string)
    requires Solid(s)
    ensures Ends(s) && OneLine(s) && TrimLeft(s) == s
  {
  }

  lemma LineIs(k: Kconfig, net: Inet, r: Reading, line: string, t: string)
    requires Trim(line) == t && t != "" && t[0] != '#' && t[0] != ';'
    ensures t[0] == '[' ==> Line(k, net, r, line) == Flush(k, net, r)
    ensures var eq := FirstIndex(t, '=');
            t[0] != '[' && eq < |t| ==> Line(k, net, r, line) == Assign(r, Trim(t[..eq]), Trim(t[eq + 1..]))
  {
    hide Trim, Assign, Flush;
  }

  /** A line of a key and a value is taken apart again; only blanks before the value are lost. */
  lemma EntryLine(k: Kconfig, net: Inet, r: Reading, key: string, v: string)
    requires Solid(key) && Ends(v) && FirstIndex(key, '=') == |key|
    requires key[0] != '#' && key[0] != ';' && key[0] != '['
    ensures Line(k, net, r, Entry(key, v)) == Assign(r, key, TrimLeft(v))
  {
    hide Assign, Line, Trim, TrimLeft, FirstIndex, Flush;
    var t := key + " = " + v;
    EntryTrims(key, v);
    EqualsSign(key, v);
    assert t[..|key| + 1] == key + " " && t[|key| + 2..] == " " + v;
    TrimSolid(key);
    TrimEnds(v);
    LineIs(k, net, r, Entry(key, v), t);
  }

  lemma EntryTrims(key: string, v: string)
    requires Solid(key) && Ends(v)
    ensures Trim(Entry(key, v)) == key + " = " + v
  {
    var t := key + " = " + v;
    assert Entry(key, v) == t + "\n" && (t + "\n")[..|t|] == t;
    assert TrimLeft(t + "\n") == t + "\n";
    assert t[|t| - 1] == v[|v| - 1];
    assert TrimRight(t) == t;
  }

  lemma {:induction false} EqualsSign(key: string, v: string)
    requires FirstIndex(key, '=') == |key|
    ensures FirstIndex(key + " = " + v, '=') == |key| + 1
    decreases |key|
  {
    var t := key + " = " + v;
    assert forall j :: 0 <= j < |key| ==> t[j] == key[j];
    assert t[|key|] == ' ' && t[|key| + 1] == '=';
  }

  /** fgets returns the first line. */
  lemma FirstLine(l: string, rest: string)
    requires |l| <= 126 && FirstIndex(l, '\n') == |l|
    ensures LineLength(l + "\n" + rest) == |l| + 1
  {
    var t := l + "\n" + rest;
    assert forall j :: 0 <= j < |l| ==> t[j] == l[j];
    assert t[|l|] == '\n';
  }

  lemma ReadLine(k: Kconfig, net: Inet, r: Reading, l: string, rest: string)
    requires |l| <= 126 && FirstIndex(l, '\n') == |l| && r.ret == Ok
    ensures ReadAll(k, net, r, l + "\n" + rest) == ReadAll(k, net, Line(k, net, r, l + "\n"), rest)
  {
    hide Line;
    var t := l + "\n" + rest;
    FirstLine(l, rest);
    assert t[..|l| + 1] == l + "\n" && t[|l| + 1..] == rest;
  }

  /** What can stand before the equals sign. */
  predicate KeyName(key: string) {
    Solid(key) && FirstIndex(key, '=') == |key| <= 20 && key[0] != '#' && key[0] != ';' && key[0] != '['
  }

  predicate Letter(c: char) { 'A' <= c <= 'Z' || 'a' <= c <= 'z' }

  lemma WordIsKeyName(key: string)
    requires 0 < |key| <= 20 && forall i :: 0 <= i < |key| ==> Letter(key[i])
    ensures KeyName(key)
  {
    assert Letter(key[0]);
  }

  lemma NamesPublicKey()
    ensures KeyName("PublicKey")
  {
    hide KeyName;
    WordIsKeyName("PublicKey");
  }

  lemma NamesPrivateKey()
    ensures KeyName("PrivateKey")
  {
    hide KeyName;
    WordIsKeyName("PrivateKey");
  }

  lemma NamesListenPort()
    ensures KeyName("ListenPort")
  {
    hide KeyName;
    WordIsKeyName("ListenPort");
  }

  lemma NamesAllowedIPs()
    ensures KeyName("AllowedIPs")
  {
    hide KeyName;
    WordIsKeyName("AllowedIPs");
  }

  lemma NamesEndpoint()
    ensures KeyName("Endpoint")
  {
    hide KeyName;
    WordIsKeyName("Endpoint");
  }

  lemma NamesKeepalive()
    ensures KeyName("PersistentKeepalive")
  {
    hide KeyName;
    WordIsKeyName("PersistentKeepalive");
  }

  /** An entry of the file is one assignment. */
  lemma ReadEntry(k: Kconfig, net: Inet, r: Reading, key: string, v: string, rest: string)
    requires KeyName(key) && Ends(v) && OneLine(v) && |v| <= 100 && r.ret == Ok
    ensures ReadAll(k, net, r, Entry(key, v) + rest) == ReadAll(k, net, Assign(r, key, TrimLeft(v)), rest)
  {
    hide Line, Assign, ReadAll, TrimLeft;
    var l := key + " = " + v;
    assert FirstIndex(l, '\n') == |l|;
    assert Entry(key, v) + rest == l + "\n" + rest;
    ReadLine(k, net, r, l, rest);
    EntryLine(k, net, r, key, v);
  }

  lemma ReadSolidEntry(k: Kconfig, net: Inet, r: Reading, key: string, v: string, rest: string)
    requires KeyName(key) && Solid(v) && |v| <= 100 && r.ret == Ok
    ensures ReadAll(k, net, r, Entry(key, v) + rest) == ReadAll(k, net, Assign(r, key, v), rest)
  {
    SolidEnds(v);
    hide *;
    ReadEntry(k, net, r, key, v, rest);
  }

  lemma KeySolid(s: string)
    requires Base64.KeyOk(s)
    ensures Solid(s) && |s| == 44
  {
    hide Base64.Decode;
    Base64.KeyText(s);
    Base64.DecodedCharacters(s);
  }

  lemma {:induction false} DecimalShort(n: nat, d: nat)
    requires d > 0 && n < Pow10(d)
    ensures |Decimal(n)| <= d
    decreases d
  {
    if n >= 10 {
      DecimalShort(n / 10, d - 1);
    }
  }

  function Pow10(d: nat): (r: nat)
    ensures r > 0
  {
    if d == 0 then 1 else 10 * Pow10(d - 1)
  }

  /** What wg_set_peer and the Kconfig options make sure of: keys that decode, texts that fit their buffers,
      numbers in range.  An inherited address may be any text of one line. */
  predicate PeerOk(k: Kconfig, p: Peer) {
    && Base64.KeyOk(p.publicKey) && KeepaliveOf(k, p) < 0x8000_0000 && PortOf(k, p) <= 65535
    && |p.allowedIp| <= 15 && OneLine(p.allowedIp) && |p.endpointIp| <= 15 && OneLine(p.endpointIp)
  }

  /** What the reader takes for the address of a written allowed-ips entry: the text up to a slash of its own. */
  function AllowedAddress(p: Peer): string {
    var a := TrimLeft(p.allowedIp);
    a[..FirstIndex(a, '/')]
  }

  /** What the reader takes for the prefix of a written allowed-ips entry. */
  function AllowedPrefix(net: Inet, p: Peer): int {
    var a := TrimLeft(p.allowedIp);
    var i := FirstIndex(a, '/');
    if i < |a| then Atoi(a[i + 1..]) else MaskPrefix(net, p.allowedMask)
  }

  predicate AllowedReads(net: Inet, p: Peer) {
    net.pton(AllowedAddress(p)).Some? && 0 <= AllowedPrefix(net, p) <= 32
  }

  predicate EndpointReads(k: Kconfig, net: Inet, p: Peer) {
    p.endpointIp != "" ==> net.pton(TrimLeft(p.endpointIp)).Some? && PortOf(k, p) >= 1
  }

  /** The peers whose written section is taken. */
  predicate Acceptable(k: Kconfig, net: Inet, p: Peer) { AllowedReads(net, p) && EndpointReads(k, net, p) }

  /** A peer as it comes back: unset port and keepalive filled in, the address as it was read, the mask in its
      standard text. */
  function Loaded(k: Kconfig, net: Inet, p: Peer): Peer
    requires Acceptable(k, net, p)
  {
    Peer(p.publicKey, TrimLeft(p.endpointIp), if p.endpointIp != "" then PortOf(k, p) else 0, AllowedAddress(p),
         MaskText(net, AllowedPrefix(net, p)), KeepaliveOf(k, p))
  }

  function EndpointOf(k: Kconfig, p: Peer): string {
    if p.endpointIp != "" then TrimLeft(EndpointText(k, p)) else ""
  }

  function AllowedOf(net: Inet, p: Peer): string { TrimLeft(AllowedText(net, p)) }

  /** What the section of a peer has said at its end. */
  function SectionOf(k: Kconfig, net: Inet, p: Peer): Section {
    Section(p.publicKey, EndpointOf(k, p), AllowedOf(net, p), KeepaliveOf(k, p), true)
  }

  /** The texts of a peer are short, of one line, and end in a number. */
  lemma TextsEnd(k: Kconfig, net: Inet, p: Peer)
    requires PeerOk(k, p)
    ensures Ends(AllowedText(net, p)) && OneLine(AllowedText(net, p)) && |AllowedText(net, p)| <= 18
    ensures Ends(EndpointText(k, p)) && OneLine(EndpointText(k, p)) && |EndpointText(k, p)| <= 21
  {
    hide Decimal, MaskPrefix, Pow10;
    TenPowers();
    DecimalShort(MaskPrefix(net, p.allowedMask), 2);
    DecimalShort(PortOf(k, p), 5);
    var d, e := Decimal(MaskPrefix(net, p.allowedMask)), Decimal(PortOf(k, p));
    assert AllowedText(net, p)[|AllowedText(net, p)| - 1] == d[|d| - 1];
    assert EndpointText(k, p)[|EndpointText(k, p)| - 1] == e[|e| - 1];
  }

  lemma ValuesShort(k: Kconfig, net: Inet, p: Peer)
    requires PeerOk(k, p)
    ensures 0 < |AllowedOf(net, p)| <= 23 && |EndpointOf(k, p)| <= 23
    ensures p.endpointIp != "" ==> EndpointOf(k, p) != ""
  {
    TextsEnd(k, net, p);
    hide TrimLeft, AllowedText, EndpointText;
    TrimEnds(AllowedText(net, p));
    TrimEnds(EndpointText(k, p));
  }

  lemma NumberSolid(n: nat)
    requires n < 0x8000_0000
    ensures Solid(Decimal(n)) && |Decimal(n)| <= 10
  {
    hide Decimal, Pow10;
    TenPowers();
    DecimalShort(n, 10);
  }

  lemma TenPowers()
    ensures Pow10(2) == 100 && Pow10(5) == 100_000 && Pow10(10) == 10_000_000_000
  {
    assert Pow10(4) == 10_000;
    assert Pow10(7) == 10_000_000;
  }

  lemma AssignKey(r: Reading, v: string)
    requires |v| <= 47
    ensures Assign(r, "PublicKey", v) == r.(acc := r.acc.(pubkey := v, valid := true))
  {
  }

  lemma AssignAllowed(r: Reading, v: string)
    requires |v| <= 23
    ensures Assign(r, "AllowedIPs", v) == r.(acc := r.acc.(allowed := v))
  {
    assert Lower("AllowedIPs"[0]) != Lower("PrivateKey"[0]);
  }

  lemma AssignEndpoint(r: Reading, v: string)
    requires |v| <= 23
    ensures Assign(r, "Endpoint", v) == r.(acc := r.acc.(endpoint := v))
  {
  }

  lemma AssignKeepalive(r: Reading, n: nat)
    ensures Assign(r, "PersistentKeepalive", Decimal(n)) == r.(acc := r.acc.(keepalive := n))
  {
    hide Decimal, Atoi;
    AtoiDecimal(n);
  }

  lemma AssignPort(r: Reading, v: string)
    ensures Assign(r, "ListenPort", v) == r
  {
    assert Lower("ListenPort"[0]) != Lower("PrivateKey"[0]) && Lower("ListenPort"[0]) != Lower("AllowedIPs"[0]);
  }

  /** A section header ends the section before. */
  lemma ReadSection(k: Kconfig, net: Inet, r: Reading, header: string, rest: string)
    requires r.ret == Ok && Solid(header) && header[0] == '[' && |header| <= 126
    ensures ReadAll(k, net, r, header + "\n" + rest) == ReadAll(k, net, Flush(k, net, r), rest)
  {
    hide Flush, ReadAll, Assign, Line, Trim;
    TrimSolid(header);
    LineIs(k, net, r, header + "\n", header);
    ReadLine(k, net, r, header, rest);
  }

  lemma ReadEmptyLine(k: Kconfig, net: Inet, r: Reading, rest: string)
    requires r.ret == Ok
    ensures ReadAll(k, net, r, "\n" + rest) == ReadAll(k, net, r, rest)
  {
    hide Flush, ReadAll, Assign;
    assert Trim("\n") == "";
    assert "" + "\n" + rest == "\n" + rest;
    ReadLine(k, net, r, "", rest);
  }

  /** An empty line and a section header. */
  lemma ReadHeader(k: Kconfig, net: Inet, r: Reading, rest: string)
    requires r.ret == Ok
    ensures ReadAll(k, net, r, "\n" + ("[Peer]\n" + rest)) == ReadAll(k, net, Flush(k, net, r), rest)
  {
    hide Flush, ReadAll;
    ReadEmptyLine(k, net, r, "[Peer]\n" + rest);
    assert "[Peer]" + "\n" + rest == "[Peer]\n" + rest;
    ReadSection(k, net, r, "[Peer]", rest);
  }

  /** The section of a peer, as far as the key and the allowed-ips. */
  lemma ReadPeerStart(k: Kconfig, net: Inet, st: Staged, p: Peer, rest: string)
    requires PeerOk(k, p)
    ensures ReadAll(k, net, Reading(st, NoSection(), Ok),
                    Entry("PublicKey", p.publicKey) + (Entry("AllowedIPs", AllowedText(net, p)) + rest))
         == ReadAll(k, net, Reading(st, Section(p.publicKey, "", AllowedOf(net, p), -1, true), Ok), rest)
  {
    KeySolid(p.publicKey);
    TextsEnd(k, net, p);
    ValuesShort(k, net, p);
    AssignKey(Reading(st, NoSection(), Ok), p.publicKey);
    var r1 := Reading(st, Section(p.publicKey, "", "", -1, true), Ok);
    AssignAllowed(r1, AllowedOf(net, p));
    NamesPublicKey();
    NamesAllowedIPs();
    assert AllowedOf(net, p) == TrimLeft(AllowedText(net, p));
    hide *;
    ReadSolidEntry(k, net, Reading(st, NoSection(), Ok), "PublicKey", p.publicKey,
                   Entry("AllowedIPs", AllowedText(net, p)) + rest);
    ReadEntry(k, net, r1, "AllowedIPs", AllowedText(net, p), rest);
  }

  /** The section with the endpoint, if there is one. */
  function Half(k: Kconfig, net: Inet, p: Peer): Section {
    Section(p.publicKey, EndpointOf(k, p), AllowedOf(net, p), -1, true)
  }

  lemma ReadEndpoint(k: Kconfig, net: Inet, st: Staged, p: Peer, rest: string)
    requires PeerOk(k, p)
    ensures ReadAll(k, net, Reading(st, Section(p.publicKey, "", AllowedOf(net, p), -1, true), Ok),
                    (if p.endpointIp != "" then Entry("Endpoint", EndpointText(k, p)) else "") + rest)
         == ReadAll(k, net, Reading(st, Half(k, net, p), Ok), rest)
  {
    TextsEnd(k, net, p);
    ValuesShort(k, net, p);
    NamesEndpoint();
    var r1 := Reading(st, Section(p.publicKey, "", AllowedOf(net, p), -1, true), Ok);
    hide ReadAll, Assign, Entry, AllowedOf, TrimLeft, EndpointText, KeyName;
    if p.endpointIp != "" {
      AssignEndpoint(r1, EndpointOf(k, p));
      ReadEntry(k, net, r1, "Endpoint", EndpointText(k, p), rest);
    } else {
      assert "" + rest == rest;
    }
  }

  /** The rest of the section. */
  lemma ReadPeerEnd(k: Kconfig, net: Inet, st: Staged, p: Peer, rest: string)
    requires PeerOk(k, p)
    ensures ReadAll(k, net, Reading(st, Section(p.publicKey, "", AllowedOf(net, p), -1, true), Ok),
                    (if p.endpointIp != "" then Entry("Endpoint", EndpointText(k, p)) else "")
                    + (Entry("PersistentKeepalive", Decimal(KeepaliveOf(k, p))) + rest))
         == ReadAll(k, net, Reading(st, SectionOf(k, net, p), Ok), rest)
  {
    NumberSolid(KeepaliveOf(k, p));
    NamesKeepalive();
    SectionParts(k, net, p);
    hide *;
    ReadEndpoint(k, net, st, p, Entry("PersistentKeepalive", Decimal(KeepaliveOf(k, p))) + rest);
    AssignKeepalive(Reading(st, Half(k, net, p), Ok), KeepaliveOf(k, p));
    ReadSolidEntry(k, net, Reading(st, Half(k, net, p), Ok), "PersistentKeepalive", Decimal(KeepaliveOf(k, p)), rest);
  }

  lemma SectionParts(k: Kconfig, net: Inet, p: Peer)
    ensures SectionOf(k, net, p) == Half(k, net, p).(keepalive := KeepaliveOf(k, p))
  {
  }

  /** One peer of the file: the section before it is staged, its own becomes the current one. */
  lemma ReadPeer(k: Kconfig, net: Inet, r: Reading, p: Peer, rest: string)
    requires PeerOk(k, p) && r.ret == Ok
    ensures ReadAll(k, net, r, PeerText(k, net, p) + rest)
         == if Flush(k, net, r).ret != Ok then Flush(k, net, r)
            else ReadAll(k, net, Reading(Flush(k, net, r).st, SectionOf(k, net, p), Ok), rest)
  {
    var a, b := Entry("PublicKey", p.publicKey), Entry("AllowedIPs", AllowedText(net, p));
    var c := if p.endpointIp != "" then Entry("Endpoint", EndpointText(k, p)) else "";
    var d := Entry("PersistentKeepalive", Decimal(KeepaliveOf(k, p)));
    var f := Flush(k, net, r);
    PeerTextParts(k, net, p, rest);
    FlushEnds(k, net, r, a + (b + (c + (d + rest))));
    hide ReadAll, Flush, Entry, SectionOf, PeerText, PeerOk;
    ReadHeader(k, net, r, a + (b + (c + (d + rest))));
    if f.ret == Ok {
      ReadPeerStart(k, net, f.st, p, c + (d + rest));
      ReadPeerEnd(k, net, f.st, p, rest);
    }
  }

  lemma FlushEnds(k: Kconfig, net: Inet, r: Reading, rest: string)
    ensures Flush(k, net, r).acc == NoSection()
    ensures Flush(k, net, r).ret != Ok ==> ReadAll(k, net, Flush(k, net, r), rest) == Flush(k, net, r)
  {
    hide SetPeer;
  }

  lemma PeerTextParts(k: Kconfig, net: Inet, p: Peer, rest: string)
    ensures var a, b := Entry("PublicKey", p.publicKey), Entry("AllowedIPs", AllowedText(net, p));
            var c := if p.endpointIp != "" then Entry("Endpoint", EndpointText(k, p)) else "";
            var d := Entry("PersistentKeepalive", Decimal(KeepaliveOf(k, p)));
            PeerText(k, net, p) + rest == "\n" + ("[Peer]\n" + (a + (b + (c + (d + rest)))))
  {
    hide Entry, AllowedText, EndpointText, Decimal;
    var a, b := Entry("PublicKey", p.publicKey), Entry("AllowedIPs", AllowedText(net, p));
    var c := if p.endpointIp != "" then Entry("Endpoint", EndpointText(k, p)) else "";
    var d := Entry("PersistentKeepalive", Decimal(KeepaliveOf(k, p)));
    assert PeerText(k, net, p) == "\n" + ("[Peer]\n" + (a + (b + (c + d))));
    Reassociate("\n", "[Peer]\n", a, b, c, d, rest);
  }

  lemma Reassociate(x: string, y: string, a: string, b: string, c: string, d: string, rest: string)
    ensures x + (y + (a + (b + (c + d)))) + rest == x + (y + (a + (b + (c + (d + rest)))))
  {
  }

  // ---- staging what was read ----

  lemma {:induction false} TrimLeftThen(a: string, b: string)
    requires b != "" && !Blank(b[0])
    ensures TrimLeft(a + b) == TrimLeft(a) + b
    decreases |a|
  {
    if a == "" {
      assert a + b == b;
    } else if Blank(a[0]) {
      assert (a + b)[1..] == a[1..] + b;
      TrimLeftThen(a[1..], b);
    }
  }

  lemma {:induction false} DigitsStop(s: string, t: string, n: nat)
    requires t != "" && t[0] == '/'
    ensures Digits(s + t, n) == Digits(s, n)
    decreases |s|
  {
    if s == "" {
      assert s + t == t;
    } else if Digit(s[0]) {
      assert (s + t)[1..] == s[1..] + t;
      DigitsStop(s[1..], t, 10 * n + (s[0] - '0') as int);
    }
  }

  /** atoi stops at a slash. */
  lemma {:induction false} AtoiStops(s: string, t: string)
    requires t != "" && t[0] == '/'
    ensures Atoi(s + t) == Atoi(s)
    decreases |s|
  {
    hide Digits;
    DigitsStop(s, t, 0);
    if s == "" {
      assert s + t == t && Digits("", 0) == 0 by { EmptyDigits(); }
    } else {
      assert (s + t)[1..] == s[1..] + t;
      DigitsStop(s[1..], t, 0);
      if s[0] == ' ' || s[0] == '\t' || s[0] == '\n' || s[0] == '\r' {
        AtoiStops(s[1..], t);
      }
    }
  }

  lemma EmptyDigits()
    ensures Digits("", 0) == 0
  {
  }

  /** The first slash of a text that another text with a slash follows. */
  lemma {:induction false} SlashThen(a: string, d: string)
    ensures FirstIndex(a + "/" + d, '/') == FirstIndex(a, '/')
    decreases |a|
  {
    var s := a + "/" + d;
    if a != "" && a[0] != '/' {
      assert s[1..] == a[1..] + "/" + d;
      SlashThen(a[1..], d);
    }
  }

  /** A written allowed-ips value is read as the address before the first slash and the number after it. */
  lemma AllowedAgain(net: Inet, q: Peer, p: Peer)
    requires InetLaws(net) && |AllowedOf(net, p)| <= 23
    ensures WithAllowed(net, q, Some(AllowedOf(net, p)))
         == if AllowedReads(net, p)
            then Some(q.(allowedIp := AllowedAddress(p), allowedMask := MaskText(net, AllowedPrefix(net, p))))
            else None
  {
    hide MaskPrefix, MaskText, Atoi, Decimal, TrimLeft, FirstIndex;
    var a, d := TrimLeft(p.allowedIp), Decimal(MaskPrefix(net, p.allowedMask));
    var i, s := FirstIndex(a, '/'), a + "/" + d;
    AllowedParts(net, p);
    SlashThen(a, d);
    AtoiDecimal(MaskPrefix(net, p.allowedMask));
    assert s[..i] == a[..i];
    if i < |a| {
      assert s[i + 1..] == a[i + 1..] + ("/" + d);
      AtoiStops(a[i + 1..], "/" + d);
    } else {
      assert s[i + 1..] == d;
    }
    assert net.pton(a[..i]).Some? ==> Dotted(a[..i]);
  }

  lemma AllowedParts(net: Inet, p: Peer)
    ensures AllowedOf(net, p) == TrimLeft(p.allowedIp) + "/" + Decimal(MaskPrefix(net, p.allowedMask))
  {
    hide TrimLeft, MaskPrefix, Decimal;
    var d := Decimal(MaskPrefix(net, p.allowedMask));
    TrimLeftThen(p.allowedIp, "/" + d);
    assert p.allowedIp + ("/" + d) == AllowedText(net, p);
    assert TrimLeft(p.allowedIp) + ("/" + d) == TrimLeft(p.allowedIp) + "/" + d;
  }

  lemma EndpointParts(k: Kconfig, p: Peer)
    requires p.endpointIp != ""
    ensures EndpointOf(k, p) == TrimLeft(p.endpointIp) + ":" + Decimal(PortOf(k, p))
  {
    hide TrimLeft, Decimal;
    var d := Decimal(PortOf(k, p));
    TrimLeftThen(p.endpointIp, ":" + d);
    assert p.endpointIp + (":" + d) == EndpointText(k, p);
    assert TrimLeft(p.endpointIp) + (":" + d) == TrimLeft(p.endpointIp) + ":" + d;
  }

  lemma EndpointAgain(k: Kconfig, net: Inet, q: Peer, p: Peer)
    requires InetLaws(net) && p.endpointIp != "" && PortOf(k, p) <= 65535 && |EndpointOf(k, p)| <= 23
    ensures WithEndpoint(net, q, Some(EndpointOf(k, p)))
         == if EndpointReads(k, net, p)
            then Some(q.(endpointIp := TrimLeft(p.endpointIp), endpointPort := PortOf(k, p))) else None
  {
    hide Atoi, Decimal, TrimLeft, AfterLast, PortOf;
    var port, ip := PortOf(k, p), TrimLeft(p.endpointIp);
    var s := ip + ":" + Decimal(port);
    EndpointParts(k, p);
    AtoiDecimal(port);
    assert AfterLast(s, ':') == |ip| + 1 by {
      assert s[|ip|] == ':' && forall j :: |ip| < j < |s| ==> s[j] == Decimal(port)[j - |ip| - 1];
    }
    assert s[..|ip|] == ip && s[|ip| + 1..] == Decimal(port);
  }

  /** A section of the file stages the peer it was written for, if its addresses are taken. */
  lemma FlushPeer(k: Kconfig, net: Inet, st: Staged, p: Peer)
    requires InetLaws(net) && PeerOk(k, p) && !st.registered
    requires FindPeer(st.peers, p.publicKey) == |st.peers| < k.maxPeers
    ensures Flush(k, net, Reading(st, SectionOf(k, net, p), Ok))
         == if Acceptable(k, net, p) then Reading(st.(peers := st.peers + [Loaded(k, net, p)]), NoSection(), Ok)
            else Reading(st, NoSection(), BadInput)
  {
    hide WithEndpoint, WithAllowed, MaskPrefix, MaskText, EndpointOf, AllowedOf, Decimal, Base64.KeyOk, AllowedReads;
    hide TrimLeft, AllowedAddress, AllowedPrefix, PortOf;
    KeySolid(p.publicKey);
    ValuesShort(k, net, p);
    var q := NewPeer(k, p.publicKey);
    EndpointGiven(k, net, q, p);
    if EndpointReads(k, net, p) {
      AllowedAgain(net, WithEndpoint(net, q, Given(EndpointOf(k, p))).value, p);
    }
  }

  /** The endpoint line, if there is one. */
  lemma EndpointGiven(k: Kconfig, net: Inet, q: Peer, p: Peer)
    requires InetLaws(net) && PeerOk(k, p) && q.endpointIp == "" && q.endpointPort == 0
    ensures WithEndpoint(net, q, Given(EndpointOf(k, p)))
         == if EndpointReads(k, net, p)
            then Some(q.(endpointIp := TrimLeft(p.endpointIp),
                         endpointPort := if p.endpointIp != "" then PortOf(k, p) else 0))
            else None
  {
    ValuesShort(k, net, p);
    hide WithEndpoint, Decimal, PortOf, EndpointText;
    if p.endpointIp != "" {
      EndpointAgain(k, net, q, p);
    } else {
      NoEndpoint(net, q);
    }
  }

  lemma NoEndpoint(net: Inet, q: Peer)
    ensures WithEndpoint(net, q, None) == Some(q)
  {
  }

  predicate AllAcceptable(k: Kconfig, net: Inet, ps: seq<Peer>) {
    forall i :: 0 <= i < |ps| ==> Acceptable(k, net, ps[i])
  }

  function LoadedAll(k: Kconfig, net: Inet, ps: seq<Peer>): (r: seq<Peer>)
    requires AllAcceptable(k, net, ps)
    ensures |r| == |ps| && forall i :: 0 <= i < |ps| ==> r[i] == Loaded(k, net, ps[i])
  {
    if ps == [] then [] else [Loaded(k, net, ps[0])] + LoadedAll(k, net, ps[1..])
  }

  predicate PeersOk(k: Kconfig, ps: seq<Peer>) { forall i :: 0 <= i < |ps| ==> PeerOk(k, ps[i]) }

  predicate Distinct(ps: seq<Peer>) { forall i, j :: 0 <= i < j < |ps| ==> ps[i].publicKey != ps[j].publicKey }

  /** None of the peers to come is staged yet. */
  predicate Unseen(staged: seq<Peer>, ps: seq<Peer>) {
    forall i, j :: 0 <= i < |staged| && 0 <= j < |ps| ==> staged[i].publicKey != ps[j].publicKey
  }

  /** The peers from the current section on. */
  lemma {:induction false} ReadPeers(k: Kconfig, net: Inet, st: Staged, ps: seq<Peer>)
    requires InetLaws(net) && !st.registered && ps != [] && PeersOk(k, ps) && Distinct(ps) && Unseen(st.peers, ps)
    requires |st.peers| + |ps| <= k.maxPeers
    ensures Finish(k, net, ReadAll(k, net, Reading(st, SectionOf(k, net, ps[0]), Ok), PeersText(k, net, ps[1..])))
         == if AllAcceptable(k, net, ps) then (st.(peers := st.peers + LoadedAll(k, net, ps)), Ok)
            else (st.(peers := []), BadInput)
    decreases |ps|
  {
    hide SectionOf, Loaded, PeerText, SetPeer, PeerOk, Line, Acceptable;
    var p := ps[0];
    var r := Reading(st, SectionOf(k, net, p), Ok);
    FlushPeer(k, net, st, p);
    if |ps| == 1 {
      assert ps[1..] == [];
      assert Acceptable(k, net, p) ==> LoadedAll(k, net, ps) == [Loaded(k, net, p)];
    } else {
      PeersTextParts(k, net, ps[1..]);
      assert ps[1..][1..] == ps[2..] && ps[1..][0] == ps[1];
      hide PeersText, Flush, ReadAll, LoadedAll;
      ReadPeer(k, net, r, ps[1], PeersText(k, net, ps[2..]));
      if Acceptable(k, net, p) {
        var st1 := st.(peers := st.peers + [Loaded(k, net, p)]);
        NextUnseen(k, net, st.peers, ps);
        ReadPeers(k, net, st1, ps[1..]);
        AcceptableRest(k, net, ps);
        LoadedRest(k, net, st.peers, ps);
      }
    }
  }

  lemma LoadedRest(k: Kconfig, net: Inet, before: seq<Peer>, ps: seq<Peer>)
    requires ps != []
    ensures AllAcceptable(k, net, ps)
            ==> AllAcceptable(k, net, ps[1..])
                && before + [Loaded(k, net, ps[0])] + LoadedAll(k, net, ps[1..]) == before + LoadedAll(k, net, ps)
  {
    hide Loaded, Acceptable;
  }

  lemma AcceptableRest(k: Kconfig, net: Inet, ps: seq<Peer>)
    requires ps != [] && Acceptable(k, net, ps[0])
    ensures AllAcceptable(k, net, ps) <==> AllAcceptable(k, net, ps[1..])
  {
    hide Acceptable;
    if AllAcceptable(k, net, ps[1..]) {
      forall i | 0 <= i < |ps| ensures Acceptable(k, net, ps[i]) {
        if i > 0 {
          assert ps[i] == ps[1..][i - 1];
        }
      }
    }
  }

  lemma NextUnseen(k: Kconfig, net: Inet, staged: seq<Peer>, ps: seq<Peer>)
    requires ps != [] && Distinct(ps) && Unseen(staged, ps) && Acceptable(k, net, ps[0])
    ensures Distinct(ps[1..]) && Unseen(staged + [Loaded(k, net, ps[0])], ps[1..])
  {
    hide Acceptable, AllowedAddress, AllowedPrefix, TrimLeft, MaskText;
  }

  /** All peers of a file, from the state after its [Interface] section. */
  lemma ReadAllPeers(k: Kconfig, net: Inet, st1: Staged, ps: seq<Peer>)
    requires InetLaws(net) && !st1.registered && st1.peers == [] && PeersOk(k, ps) && Distinct(ps)
    requires |ps| <= k.maxPeers
    ensures Finish(k, net, ReadAll(k, net, Reading(st1, NoSection(), Ok), PeersText(k, net, ps)))
         == if AllAcceptable(k, net, ps) then (st1.(peers := LoadedAll(k, net, ps)), Ok)
            else (st1.(peers := []), BadInput)
  {
    NothingToFlush(k, net, st1);
    hide Flush, PeerText, SectionOf, PeerOk, Acceptable;
    if ps == [] {
      assert PeersText(k, net, ps) == "" && LoadedAll(k, net, ps) == [];
    } else {
      PeersTextParts(k, net, ps);
      hide ReadAll, PeersText, LoadedAll, Finish;
      ReadPeer(k, net, Reading(st1, NoSection(), Ok), ps[0], PeersText(k, net, ps[1..]));
      ReadPeers(k, net, st1, ps);
      if AllAcceptable(k, net, ps) {
        assert [] + LoadedAll(k, net, ps) == LoadedAll(k, net, ps);
      }
    }
  }

  lemma NothingToFlush(k: Kconfig, net: Inet, st: Staged)
    ensures Flush(k, net, Reading(st, NoSection(), Ok)) == Reading(st, NoSection(), Ok)
  {
  }

  /** The [Interface] section of a written file. */
  lemma ReadInterfaceSection(k: Kconfig, net: Inet, st0: Staged, key: string, rest: string)
    requires !st0.registered && Base64.KeyOk(key) && k.listenPort <= 65535
    ensures ReadAll(k, net, Reading(st0.(peers := []), NoSection(), Ok),
                    "[Interface]\n" + (Entry("PrivateKey", key) + (Entry("ListenPort", Decimal(k.listenPort)) + rest)))
         == ReadAll(k, net, Reading(Staged(false, key, []), NoSection(), Ok), rest)
  {
    KeySolid(key);
    NumberSolid(k.listenPort);
    NamesPrivateKey();
    NamesListenPort();
    ReadInterface(k, net, st0, Entry("PrivateKey", key) + (Entry("ListenPort", Decimal(k.listenPort)) + rest));
    AssignPrivateKey(st0, key);
    AssignPort(Reading(Staged(false, key, []), NoSection(), Ok), Decimal(k.listenPort));
    hide *;
    ReadSolidEntry(k, net, Reading(st0.(peers := []), NoSection(), Ok), "PrivateKey", key,
                   Entry("ListenPort", Decimal(k.listenPort)) + rest);
    ReadSolidEntry(k, net, Reading(Staged(false, key, []), NoSection(), Ok), "ListenPort", Decimal(k.listenPort), rest);
  }

  /** What wg_writeconf writes, wg_setconf reads back: the same key and the same peers in the same
      order, each as Loaded; the whole file is refused exactly if some peer is not Acceptable. */
  lemma WrittenIsReadBack(k: Kconfig, net: Inet, st: Staged, st0: Staged)
    requires InetLaws(net) && !st0.registered && Base64.KeyOk(KeyInUse(k, st)) && k.listenPort <= 65535
    requires var ps := Described(k, st); |ps| <= k.maxPeers && PeersOk(k, ps) && Distinct(ps)
    ensures WriteConf(k, net, st).Some?
    ensures var ps := Described(k, st);
            SetConf(k, net, st0, WriteConf(k, net, st))
            == if AllAcceptable(k, net, ps) then (Staged(false, KeyInUse(k, st), LoadedAll(k, net, ps)), Ok)
               else (Staged(false, KeyInUse(k, st), []), BadInput)
  {
    var ps, key := Described(k, st), KeyInUse(k, st);
    KeySolid(key);
    WriteConfParts(k, net, st);
    hide Base64.KeyOk, KeyInUse, Described, WriteConf, PeersOk, Distinct, InetLaws, Entry, Decimal, PeersText, ReadAll;
    hide Finish, LoadedAll, AllAcceptable;
    ReadInterfaceSection(k, net, st0, key, PeersText(k, net, ps));
    ReadAllPeers(k, net, Staged(false, key, []), ps);
  }

  lemma WriteConfParts(k: Kconfig, net: Inet, st: Staged)
    requires KeyInUse(k, st) != ""
    ensures WriteConf(k, net, st) == Some("[Interface]\n" + (Entry("PrivateKey", KeyInUse(k, st))
              + (Entry("ListenPort", Decimal(k.listenPort)) + PeersText(k, net, Described(k, st)))))
  {
  }

  lemma PeersTextParts(k: Kconfig, net: Inet, ps: seq<Peer>)
    requires ps != []
    ensures PeersText(k, net, ps) == PeerText(k, net, ps[0]) + PeersText(k, net, ps[1..])
  {
  }

  /** The first header closes a section that never began. */
  lemma ReadInterface(k: Kconfig, net: Inet, st0: Staged, rest: string)
    ensures var r0 := Reading(st0.(peers := []), NoSection(), Ok);
            ReadAll(k, net, r0, "[Interface]\n" + rest) == ReadAll(k, net, r0, rest)
  {
    hide ReadAll, Flush;
    NothingToFlush(k, net, st0.(peers := []));
    assert "[Interface]" + "\n" + rest == "[Interface]\n" + rest;
    ReadSection(k, net, Reading(st0.(peers := []), NoSection(), Ok), "[Interface]", rest);
  }

  lemma AssignPrivateKey(st0: Staged, key: string)
    requires Base64.KeyOk(key) && |key| == 44 && !st0.registered
    ensures Assign(Reading(st0.(peers := []), NoSection(), Ok), "PrivateKey", key)
         == Reading(Staged(false, key, []), NoSection(), Ok)
  {
    hide Base64.KeyOk;
  }

  // ---- inherited addresses ----

  /** The written address comes back as it was exactly if it is an address. */
  lemma AddressKept(net: Inet, p: Peer)
    requires InetLaws(net)
    ensures AllowedReads(net, p) && AllowedAddress(p) == p.allowedIp <==> net.pton(p.allowedIp).Some?
    ensures net.pton(p.allowedIp).Some? ==> AllowedPrefix(net, p) == MaskPrefix(net, p.allowedMask)
  {
    hide MaskPrefix, Atoi, FirstIndex;
    if net.pton(p.allowedIp).Some? {
      var i := FirstIndex(p.allowedIp, '/');
      assert Dotted(p.allowedIp) && TrimLeft(p.allowedIp) == p.allowedIp;
      assert i == |p.allowedIp| && p.allowedIp[..i] == p.allowedIp;
    }
  }

  /** An inherited text that is no address is not always refused: with a prefix of its own, it is the prefix
      that is read, and the mask is lost. */
  lemma InheritedPrefixIsTaken(k: Kconfig, net: Inet, p: Peer)
    requires InetLaws(net) && p.allowedIp == "10.0.0.0/24" && net.pton("10.0.0.0").Some? && p.endpointIp == ""
    ensures net.pton(p.allowedIp).None? && Acceptable(k, net, p)
    ensures Loaded(k, net, p).allowedIp == "10.0.0.0" && Loaded(k, net, p).allowedMask == MaskText(net, 24)
  {
    hide MaskPrefix, MaskText, Base64.KeyOk, Atoi, FirstIndex, TrimLeft;
    SlashedParts();
    AtoiOf24();
    assert !Dotted(p.allowedIp) by { assert p.allowedIp[8] == '/'; }
  }

  lemma SlashedParts()
    ensures var a := "10.0.0.0/24";
            FirstIndex(a, '/') == 8 && TrimLeft(a) == a && a[..8] == "10.0.0.0" && a[9..] == "24"
  {
    hide FirstIndex;
    var a := "10.0.0.0/24";
    assert a[8] == '/' && forall j :: 0 <= j < 8 ==> a[j] != '/';
  }

  lemma AtoiOf24()
    ensures Atoi("24") == 24
  {
    assert "24"[1..] == "4" && "4"[1..] == "";
    assert Digits("4", 2) == 24;
  }

  /** An inherited text that is empty, or blank, is refused. */
  lemma BlankAddressFails(k: Kconfig, net: Inet, p: Peer)
    requires InetLaws(net) && TrimLeft(p.allowedIp) == ""
    ensures !Acceptable(k, net, p)
  {
    assert AllowedAddress(p) == "";
  }

  /** A file that fails although the board has a peer to fall back on: no key is that short. */
  lemma FailedFileFallsBack(k: Kconfig, net: Inet, st: Staged)
    requires !st.registered && k.peerKey != ""
    ensures var (st', ret) := SetConf(k, net, st, Some(Entry("PrivateKey", "x")));
            ret == BadInput && st'.peers == [] && |Described(k, st')| == 1
  {
    hide ReadAll, KeyName, Assign, Entry;
    var r := Reading(st.(peers := []), NoSection(), Ok);
    NamesPrivateKey();
    NoKey();
    AssignNoKey(r);
    assert Entry("PrivateKey", "x") + "" == Entry("PrivateKey", "x");
    ReadSolidEntry(k, net, r, "PrivateKey", "x", "");
    NothingLeft(k, net, Assign(r, "PrivateKey", "x"));
  }

  lemma NoKey()
    ensures !Base64.KeyOk("x")
  {
    hide Base64.Decode;
    if Base64.KeyOk("x") {
      KeySolid("x");
    }
  }

  lemma AssignNoKey(r: Reading)
    requires !r.st.registered && !Base64.KeyOk("x")
    ensures Assign(r, "PrivateKey", "x") == r.(ret := BadInput)
  {
    hide Base64.KeyOk;
  }

  lemma NothingLeft(k: Kconfig, net: Inet, r: Reading)
    ensures ReadAll(k, net, r, "") == r
  {
  }

  // ---- states built by the commands ----

  /** The text of a contiguous mask, as wg_set_peer writes it. */
  ghost predicate StandardMask(net: Inet, s: string) { exists q: nat :: q <= 32 && s == MaskText(net, q) }

  predicate KconfigOk(k: Kconfig) { OneLine(k.allowedIp) && k.keepalive < 0x8000_0000 && k.endpointPort <= 65535 }

  ghost predicate PeerBuilt(k: Kconfig, net: Inet, p: Peer) {
    && PeerOk(k, p) && p.keepalive >= -1
    && (if p.endpointIp == "" then p.endpointPort == 0
        else net.pton(p.endpointIp).Some? && 1 <= p.endpointPort <= 65535)
    && (StandardMask(net, p.allowedMask) || p.allowedMask == Cut(k.allowedMask, 15))
    && (net.pton(p.allowedIp).Some? || p.allowedIp == Cut(k.allowedIp, 15))
  }

  ghost predicate Built(k: Kconfig, net: Inet, st: Staged) {
    && Distinct(st.peers) && |st.peers| <= k.maxPeers && (st.privateKey == "" || Base64.KeyOk(st.privateKey))
    && forall i :: 0 <= i < |st.peers| ==> PeerBuilt(k, net, st.peers[i])
  }

  lemma WithEndpointBuilt(k: Kconfig, net: Inet, p: Peer, endpoint: Maybe<string>)
    requires InetLaws(net) && PeerBuilt(k, net, p)
    ensures WithEndpoint(net, p, endpoint).Some? ==> PeerBuilt(k, net, WithEndpoint(net, p, endpoint).value)
    ensures WithEndpoint(net, p, endpoint).Some? ==> WithEndpoint(net, p, endpoint).value.publicKey == p.publicKey
  {
    hide Base64.KeyOk, Atoi, StandardMask;
  }

  lemma WithAllowedBuilt(k: Kconfig, net: Inet, p: Peer, allowed: Maybe<string>)
    requires InetLaws(net) && PeerBuilt(k, net, p)
    ensures WithAllowed(net, p, allowed).Some? ==> PeerBuilt(k, net, WithAllowed(net, p, allowed).value)
    ensures WithAllowed(net, p, allowed).Some? ==> WithAllowed(net, p, allowed).value.publicKey == p.publicKey
  {
    hide Base64.KeyOk, Atoi;
  }

  lemma NewPeerBuilt(k: Kconfig, net: Inet, key: string)
    requires KconfigOk(k) && Base64.KeyOk(key)
    ensures PeerBuilt(k, net, NewPeer(k, key)) && NewPeer(k, key).publicKey == key
  {
    KeySolid(key);
  }

  /** Replacing the peer of a key, or adding one for a new key. */
  lemma StoreBuilds(k: Kconfig, net: Inet, st: Staged, i: nat, p: Peer)
    requires Built(k, net, st) && PeerBuilt(k, net, p) && i == FindPeer(st.peers, p.publicKey)
    requires i < |st.peers| || |st.peers| < k.maxPeers
    ensures Built(k, net, st.(peers := if i < |st.peers| then st.peers[i := p] else st.peers + [p]))
  {
    hide PeerBuilt, Base64.KeyOk;
  }

  lemma KeepaliveBuilt(k: Kconfig, net: Inet, p: Peer, keepalive: nat)
    requires PeerBuilt(k, net, p) && keepalive < 0x8000_0000
    ensures PeerBuilt(k, net, p.(keepalive := keepalive))
  {
    hide Base64.KeyOk, StandardMask;
  }

  /** Every wg_set_peer keeps the staged state fit for writing, whether it succeeds or not. */
  lemma SetPeerBuilds(k: Kconfig, net: Inet, st: Staged, key: string, endpoint: Maybe<string>,
                      allowed: Maybe<string>, keepalive: int)
    requires InetLaws(net) && KconfigOk(k) && Built(k, net, st) && keepalive < 0x8000_0000
    ensures Built(k, net, SetPeer(k, net, st, key, endpoint, allowed, keepalive).0)
  {
    hide Base64.KeyOk, WithEndpoint, WithAllowed, NewPeer, PeerBuilt, KconfigOk, InetLaws;
    if !st.registered && Base64.KeyOk(key) {
      var i := FindPeer(st.peers, key);
      var p := if i < |st.peers| then st.peers[i] else NewPeer(k, key);
      NewPeerBuilt(k, net, key);
      WithEndpointBuilt(k, net, p, endpoint);
      var p1 := WithEndpoint(net, p, endpoint);
      if p1.Some? {
        WithAllowedBuilt(k, net, p1.value, allowed);
        var p2 := WithAllowed(net, p1.value, allowed);
        if p2.Some? && (i < |st.peers| || |st.peers| < k.maxPeers) {
          if keepalive >= 0 {
            KeepaliveBuilt(k, net, p2.value, keepalive);
          }
          StoreBuilds(k, net, st, i, if keepalive >= 0 then p2.value.(keepalive := keepalive) else p2.value);
        }
      }
    }
  }

  lemma SetPrivateKeyBuilds(k: Kconfig, net: Inet, st: Staged, key: string)
    requires Built(k, net, st)
    ensures Built(k, net, SetPrivateKey(st, key).0)
  {
    if Base64.KeyOk(key) {
      KeySolid(key);
    }
    hide Base64.KeyOk, PeerBuilt;
  }

  /** Counting the ones of a standard mask gives its prefix: the mask text comes back unchanged, and no other
      text does. */
  lemma StandardMaskKept(net: Inet, s: string)
    requires InetLaws(net)
    ensures MaskText(net, MaskPrefix(net, s)) == s <==> StandardMask(net, s)
  {
    if StandardMask(net, s) {
      var q: nat :| q <= 32 && s == MaskText(net, q);
      Routing.SwapTwice(Routing.MaskOf(q));
      var p := Routing.PrefixLength(Routing.MaskOf(q));
      Routing.PrefixOfMask(q, p);
      hide Routing.MaskOf, Routing.Swap, Routing.LeadingOnes, Routing.PrefixLength;
    }
  }

  /** The peer comes back as it was, but for a keepalive left to Kconfig, exactly if its allowed-ips are an
      address and a standard mask. */
  lemma PeerKept(k: Kconfig, net: Inet, p: Peer)
    requires InetLaws(net) && PeerBuilt(k, net, p)
    ensures Acceptable(k, net, p) && Loaded(k, net, p) == p.(keepalive := KeepaliveOf(k, p))
            <==> net.pton(p.allowedIp).Some? && StandardMask(net, p.allowedMask)
  {
    hide AllowedReads, AllowedAddress, AllowedPrefix, MaskText, MaskPrefix, Base64.KeyOk, StandardMask;
    AddressKept(net, p);
    StandardMaskKept(net, p.allowedMask);
    assert p.endpointIp != "" ==> Dotted(p.endpointIp);
  }

  ghost predicate WellAddressed(net: Inet, ps: seq<Peer>) {
    forall i :: 0 <= i < |ps| ==> net.pton(ps[i].allowedIp).Some? && StandardMask(net, ps[i].allowedMask)
  }

  /** Saving and loading a staged state changes nothing but keepalives that were left to Kconfig, exactly if
      every peer has an address and a standard mask; usable Kconfig defaults make sure of it. */
  lemma ReloadKeepsPeers(k: Kconfig, net: Inet, st: Staged, st0: Staged)
    requires InetLaws(net) && KconfigOk(k) && Built(k, net, st) && st.peers != [] && k.listenPort <= 65535
    requires Base64.KeyOk(KeyInUse(k, st)) && !st0.registered
    ensures var (st', ret) := SetConf(k, net, st0, WriteConf(k, net, st));
            (&& ret == Ok && st'.privateKey == KeyInUse(k, st) && |st'.peers| == |st.peers|
             && forall i :: 0 <= i < |st.peers| ==>
                  st'.peers[i] == st.peers[i].(keepalive := KeepaliveOf(k, st.peers[i])))
            <==> WellAddressed(net, st.peers)
    ensures net.pton(k.allowedIp).Some? && StandardMask(net, Cut(k.allowedMask, 15)) ==> WellAddressed(net, st.peers)
  {
    WrittenIsReadBack(k, net, st, st0);
    AllKept(k, net, st);
    hide SetConf, WriteConf, Base64.KeyOk, StandardMask, LoadedAll, Loaded, Acceptable, KeepaliveOf, PeerOk, InetLaws;
    hide KeyInUse, KconfigOk, WellAddressed, Distinct, AllAcceptable;
  }

  lemma AllKept(k: Kconfig, net: Inet, st: Staged)
    requires InetLaws(net) && KconfigOk(k) && Built(k, net, st)
    ensures PeersOk(k, st.peers) && Distinct(st.peers)
    ensures var ps := st.peers;
            (AllAcceptable(k, net, ps)
             && forall i :: 0 <= i < |ps| ==> LoadedAll(k, net, ps)[i] == ps[i].(keepalive := KeepaliveOf(k, ps[i])))
            <==> WellAddressed(net, ps)
    ensures net.pton(k.allowedIp).Some? && StandardMask(net, Cut(k.allowedMask, 15)) ==> WellAddressed(net, st.peers)
  {
    forall i | 0 <= i < |st.peers|
      ensures Acceptable(k, net, st.peers[i])
              && Loaded(k, net, st.peers[i]) == st.peers[i].(keepalive := KeepaliveOf(k, st.peers[i]))
              <==> net.pton(st.peers[i].allowedIp).Some? && StandardMask(net, st.peers[i].allowedMask)
    {
      PeerKept(k, net, st.peers[i]);
    }
    hide StandardMask, Loaded, Acceptable, KeepaliveOf, PeerOk;
  }

  // ---- the code ----

  class Staging {
    var registered: bool
    var privateKey: string
    var peers: seq<Peer>
    const k: Kconfig
    const net: Inet

    ghost function State(): Staged
      reads this
    {
      Staged(registered, privateKey, peers)
    }

    constructor (k: Kconfig, net: Inet)
      ensures State() == Staged(false, "", []) && this.k == k && this.net == net
    {
      registered, privateKey, peers := false, "", [];
      this.k := k;
      this.net := net;
    }

    /** wg_set_private_key */
    method SetKey(b64: string) returns (ret: Result)
      modifies this
      ensures (State(), ret) == SetPrivateKey(old(State()), b64)
    {
      if registered {
        return Busy;
      }
      var key := new byte[32];
      var ok := Base64.DecodeKey(b64, key);
      if !ok {
        return BadInput;
      }
      privateKey := Cut(b64, 47);
      return Ok;
    }

    /** wg_set_peer: nothing is written before everything has been checked. */
    method Set(key: string, endpoint: Maybe<string>, allowed: Maybe<string>, keepalive: int) returns (ret: Result)
      modifies this
      ensures (State(), ret) == SetPeer(k, net, old(State()), key, endpoint, allowed, keepalive)
    {
      hide WithEndpoint, WithAllowed, Base64.Decode;
      if registered {
        return Busy;
      }
      var bytes := new byte[32];
      var ok := Base64.DecodeKey(key, bytes);
      if !ok {
        return BadInput;
      }
      var i := Find(key);
      var tmp;
      if i < |peers| {
        tmp := peers[i];
      } else if |peers| >= k.maxPeers {
        return NoRoom;
      } else {
        tmp := NewPeer(k, key);
      }
      var tmp1 := WithEndpoint(net, tmp, endpoint);
      if tmp1.None? {
        return BadInput;
      }
      var tmp2 := WithAllowed(net, tmp1.value, allowed);
      if tmp2.None? {
        return BadInput;
      }
      tmp := tmp2.value;
      if keepalive >= 0 {
        tmp := tmp.(keepalive := keepalive);
      }
      peers := if i < |peers| then peers[i := tmp] else peers + [tmp];
      return Ok;
    }

    /** The search loop of wg_set_peer and wg_remove_peer. */
    method Find(key: string) returns (i: nat)
      ensures i == FindPeer(peers, key)
    {
      i := 0;
      while i < |peers| && peers[i].publicKey != key
        invariant i <= |peers| && forall j :: 0 <= j < i ==> peers[j].publicKey != key
      {
        i := i + 1;
      }
    }

    /** wg_remove_peer */
    method Remove(key: string) returns (ret: Result)
      modifies this
      ensures registered == old(registered) && privateKey == old(privateKey)
      ensures old(registered) ==> ret == Busy && peers == old(peers)
      ensures var i := FindPeer(old(peers), key);
              !old(registered) ==>
                if i < |old(peers)| then ret == Ok && peers == old(peers)[..i] + old(peers)[i + 1..]
                else ret == NotThere && peers == old(peers)
    {
      if registered {
        return Busy;
      }
      var i := Find(key);
      if i < |peers| {
        peers := peers[..i] + peers[i + 1..];
        return Ok;
      }
      return NotThere;
    }

    /** wg_conf_flush_peer */
    method FlushSection(acc: Section) returns (acc': Section, ret: Result)
      modifies this
      ensures Reading(State(), acc', ret) == Flush(k, net, Reading(old(State()), acc, Ok))
    {
      ret := Ok;
      if acc.valid {
        ret := Set(acc.pubkey, Given(acc.endpoint), Given(acc.allowed), acc.keepalive);
      }
      acc' := NoSection();
    }

    /** One turn of the loop of wg_setconf. */
    method TakeLine(acc: Section, line: string) returns (acc': Section, ret: Result)
      modifies this
      ensures Reading(State(), acc', ret) == Line(k, net, Reading(old(State()), acc, Ok), line)
    {
      hide Flush, SetPrivateKey, Trim;
      acc', ret := acc, Ok;
      var t := Trim(line);
      if t == "" || t[0] == '#' || t[0] == ';' {
        return;
      }
      if t[0] == '[' {
        acc', ret := FlushSection(acc);
        return;
      }
      var eq := FirstIndex(t, '=');
      if eq == |t| {
        return;
      }
      var v, key := Trim(t[eq + 1..]), Trim(t[..eq]);
      if SameNoCase(key, "PrivateKey") {
        ret := SetKey(v);
      } else if SameNoCase(key, "PublicKey") {
        acc' := acc'.(pubkey := Cut(v, 47), valid := true);
      } else if SameNoCase(key, "Endpoint") {
        acc' := acc'.(endpoint := Cut(v, 23));
      } else if SameNoCase(key, "AllowedIPs") {
        acc' := acc'.(allowed := Cut(v, 23));
      } else if SameNoCase(key, "PersistentKeepalive") {
        acc' := acc'.(keepalive := Atoi(v));
      }
    }

    /** wg_setconf */
    method Load(file: Maybe<string>) returns (ret: Result)
      modifies this
      ensures (State(), ret) == SetConf(k, net, old(State()), file)
    {
      hide Flush, Line;
      if registered {
        return Busy;
      }
      if file.None? {
        return NotThere;
      }
      peers := [];
      ghost var r0 := Reading(State(), NoSection(), Ok);
      var acc, text := NoSection(), file.value;
      ret := Ok;
      while text != "" && ret == Ok
        invariant ReadAll(k, net, Reading(State(), acc, ret), text) == ReadAll(k, net, r0, file.value)
        decreases |text|
      {
        var n := LineLength(text);
        acc, ret := TakeLine(acc, text[..n]);
        text := text[n..];
      }
      if ret == Ok {
        acc, ret := FlushSection(acc);
      }
      if ret != Ok {
        peers := [];
      }
    }
  }
}
