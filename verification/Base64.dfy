/** Base64 of keys: the encoder, and the character-by-character decoder with its padding rules. */
module Base64 {
  import opened Arith
  import opened Bytes

  datatype Decoded = Invalid | Valid(bytes: Bytes)

  // ---- the alphabet ----

  type Sextet = x: int | 0 <= x < 64

  /** base64_lookup */
  function Lookup(v: Sextet): (c: char)
    ensures c != '='
  {
    if v < 26 then 'A' + v as char
    else if v < 52 then 'a' + (v - 26) as char
    else if v < 62 then '0' + (v - 52) as char
    else if v == 62 then '+' else '/'
  }

  predicate InAlphabet(c: char) {
    'A' <= c <= 'Z' || 'a' <= c <= 'z' || '0' <= c <= '9' || c == '+' || c == '/'
  }

  /** The place of c in base64_lookup. */
  function Value(c: char): (v: Sextet)
    requires InAlphabet(c)
    ensures Lookup(v) == c
  {
    if 'A' <= c <= 'Z' then (c - 'A') as int
    else if 'a' <= c <= 'z' then (c - 'a') as int + 26
    else if '0' <= c <= '9' then (c - '0') as int + 52
    else if c == '+' then 62 else 63
  }

  lemma LookupValue(v: Sextet)
    ensures InAlphabet(Lookup(v)) && Value(Lookup(v)) == v
  {
  }

  // ---- groups of three bytes and four characters ----

  function Sextets(a: byte, b: byte, c: byte): (Sextet, Sextet, Sextet, Sextet) {
    (a / 4, a % 4 * 16 + b / 16, b % 16 * 4 + c / 64, c % 64)
  }

  function Octets(p: Sextet, q: Sextet, r: Sextet, s: Sextet): (byte, byte, byte) {
    (p * 4 + q / 16, q % 16 * 16 + r / 4, r % 4 * 64 + s)
  }

  function EncodeGroup(a: byte, b: byte, c: byte): (g: string)
    ensures |g| == 4
  {
    var (p, q, r, s) := Sextets(a, b, c);
    [Lookup(p), Lookup(q), Lookup(r), Lookup(s)]
  }

  /** The text of a byte string, padded to a multiple of four characters. */
  function Encode(b: Bytes): string {
    if |b| == 0 then []
    else if |b| == 1 then EncodeGroup(b[0], 0, 0)[..2] + "=="
    else if |b| == 2 then EncodeGroup(b[0], b[1], 0)[..3] + "="
    else EncodeGroup(b[0], b[1], b[2]) + Encode(b[3..])
  }

  /** How many of the four characters are padding at the end; 4 if they are no group at all. */
  function Padding(g: string): (k: nat)
    requires |g| == 4
    ensures k <= 4
  {
    if !InAlphabet(g[0]) then 4
    else if g[1..] == "===" then 3
    else if !InAlphabet(g[1]) then 4
    else if g[2..] == "==" then 2
    else if !InAlphabet(g[2]) then 4
    else if g[3] == '=' then 1
    else if InAlphabet(g[3]) then 0 else 4
  }

  function ValueOr0(c: char): Sextet { if InAlphabet(c) then Value(c) else 0 }

  /** The bytes of a group; a lone character still makes one byte. */
  function GroupBytes(g: string): Bytes
    requires |g| == 4
  {
    var (a, b, c) := Octets(ValueOr0(g[0]), ValueOr0(g[1]), ValueOr0(g[2]), ValueOr0(g[3]));
    if Padding(g) == 0 then [a, b, c] else if Padding(g) == 1 then [a, b] else [a]
  }

  /** What a text means: groups of four, padding only in the last. */
  function Decode(s: string): Decoded {
    if s == [] then Valid([])
    else if |s| < 4 || Padding(s[..4]) == 4 then Invalid
    else if Padding(s[..4]) > 0 then if |s| == 4 then Valid(GroupBytes(s[..4])) else Invalid
    else match Decode(s[4..])
      case Invalid => Invalid
      case Valid(rest) => Valid(GroupBytes(s[..4]) + rest)
  }

  lemma OctetsOfSextets(a: byte, b: byte, c: byte)
    ensures var (p, q, r, s) := Sextets(a, b, c); Octets(p, q, r, s) == (a, b, c)
  {
    var (p, q, r, s) := Sextets(a, b, c);
    DivModUnique(q, 16, a % 4, b / 16);
    DivModUnique(r, 4, b % 16, c / 64);
    assert 4 * p + a % 4 == a && q % 16 * 16 + r / 4 == b && r % 4 * 64 + s == c;
  }

  lemma SextetsOfOctets(p: Sextet, q: Sextet, r: Sextet, s: Sextet)
    ensures var (a, b, c) := Octets(p, q, r, s); Sextets(a, b, c) == (p, q, r, s)
  {
    var (a, b, c) := Octets(p, q, r, s);
    DivModUnique(a, 4, p, q / 16);
    DivModUnique(b, 16, q % 16, r / 4);
    DivModUnique(c, 64, r % 4, s);
  }

  /** The characters of a group decode to its bytes. */
  lemma GroupRoundTrip(a: byte, b: byte, c: byte)
    ensures var g := EncodeGroup(a, b, c);
            && Padding(g) == 0 && GroupBytes(g) == [a, b, c]
            && (c == 0 ==> Padding(g[..3] + "=") == 1 && GroupBytes(g[..3] + "=") == [a, b])
            && (b == 0 && c == 0 ==> Padding(g[..2] + "==") == 2 && GroupBytes(g[..2] + "==") == [a])
  {
    hide Lookup, Value, Sextets, Octets, InAlphabet;
    var (p, q, r, s) := Sextets(a, b, c);
    OctetsOfSextets(a, b, c);
    LowSextets(a, b, c);
    LookupValue(p);
    LookupValue(q);
    LookupValue(r);
    LookupValue(s);
    PadIsOutside();
    var g := EncodeGroup(a, b, c);
    assert g[..3] + "=" == [g[0], g[1], g[2], '='] && g[..2] + "==" == [g[0], g[1], '=', '='];
  }

  lemma LowSextets(a: byte, b: byte, c: byte)
    ensures c == 0 ==> Sextets(a, b, c).3 == 0
    ensures b == 0 && c == 0 ==> Sextets(a, b, c).2 == 0
  {
  }

  lemma PadIsOutside()
    ensures !InAlphabet('=')
  {
  }

  /** Decoding undoes encoding, whatever the bytes. */
  lemma {:induction false} DecodeEncode(b: Bytes)
    ensures Decode(Encode(b)) == Valid(b)
  {
    hide EncodeGroup, Padding, GroupBytes;
    if |b| == 1 {
      GroupRoundTrip(b[0], 0, 0);
      var e := Encode(b);
      assert e[..4] == e;
    } else if |b| == 2 {
      GroupRoundTrip(b[0], b[1], 0);
      var e := Encode(b);
      assert e[..4] == e;
    } else if |b| >= 3 {
      GroupRoundTrip(b[0], b[1], b[2]);
      DecodeEncode(b[3..]);
      var g := EncodeGroup(b[0], b[1], b[2]);
      assert Encode(b)[..4] == g && Encode(b)[4..] == Encode(b[3..]);
      assert [b[0], b[1], b[2]] + b[3..] == b;
    }
  }

  /** The bits that padding leaves unused are zero, and no group is a lone character. */
  predicate Canonical(s: string)
    requires Decode(s).Valid?
  {
    if s == [] then true
    else if Padding(s[..4]) == 0 then Canonical(s[4..])
    else match Padding(s[..4])
      case 1 => ValueOr0(s[2]) % 4 == 0
      case 2 => ValueOr0(s[1]) % 16 == 0
      case _ => false
  }

  /** What the encoder makes of the bytes of a group, one padding length at a time. */
  lemma EncodeOfGroup(g: string)
    requires |g| == 4 && Padding(g) < 4
    ensures Padding(g) == 0 ==> var b := GroupBytes(g); EncodeGroup(b[0], b[1], b[2]) == g
    ensures Padding(g) == 1 ==> (Encode(GroupBytes(g)) == g <==> ValueOr0(g[2]) % 4 == 0)
    ensures Padding(g) == 2 ==> (Encode(GroupBytes(g)) == g <==> ValueOr0(g[1]) % 16 == 0)
    ensures Padding(g) == 3 ==> Encode(GroupBytes(g)) != g
  {
    hide Lookup, Value, InAlphabet, Sextets, Octets;
    PadIsOutside();
    var p, q, r, s := ValueOr0(g[0]), ValueOr0(g[1]), ValueOr0(g[2]), ValueOr0(g[3]);
    SextetsOfOctets(p, q, r, s);
    var (a, b, c) := Octets(p, q, r, s);
    CutSextets(p, q, r, s);
    if Padding(g) == 1 {
      var (p', q', r', s') := Sextets(a, b, 0);
      assert Encode(GroupBytes(g)) == [Lookup(p'), Lookup(q'), Lookup(r'), '='];
      LookupInjective(r, r');
    } else if Padding(g) >= 2 {
      var (p', q', r', s') := Sextets(a, 0, 0);
      assert Encode(GroupBytes(g)) == [Lookup(p'), Lookup(q'), '=', '='];
      LookupInjective(q, q');
    }
  }

  lemma LookupInjective(v: Sextet, w: Sextet)
    ensures Lookup(v) == Lookup(w) <==> v == w
  {
    LookupValue(v);
    LookupValue(w);
  }

  /** Zero bytes in place of the missing ones clear the unused bits. */
  lemma CutSextets(p: Sextet, q: Sextet, r: Sextet, s: Sextet)
    ensures var (a, b, c) := Octets(p, q, r, s);
            && Sextets(a, b, 0).0 == p && Sextets(a, b, 0).1 == q && Sextets(a, b, 0).2 == r / 4 * 4
            && Sextets(a, 0, 0).0 == p && Sextets(a, 0, 0).1 == q / 16 * 16
  {
  }

  /** Encoding gives back a decoded text exactly when the text was canonical. */
  lemma {:induction false} EncodeDecode(s: string)
    requires Decode(s).Valid?
    ensures Encode(Decode(s).bytes) == s <==> Canonical(s)
  {
    hide EncodeGroup, Padding, GroupBytes, ValueOr0;
    if s != [] {
      var g := s[..4];
      EncodeOfGroup(g);
      GroupLength(g);
      assert s == g + s[4..];
      if Padding(g) == 0 {
        EncodeDecode(s[4..]);
        var b, rest := GroupBytes(g), Decode(s[4..]).bytes;
        assert (b + rest)[3..] == rest;
        assert Encode(b + rest) == g + Encode(rest);
      }
    }
  }

  lemma GroupLength(g: string)
    requires |g| == 4 && Padding(g) < 4
    ensures |GroupBytes(g)| == if Padding(g) == 0 then 3 else if Padding(g) == 1 then 2 else 1
  {
    hide Padding;
  }

  /** A text that decodes to 32 bytes, the length of a key, is 44 characters long. */
  lemma {:induction false} KeyText(s: string)
    requires Decode(s).Valid?
    ensures |s| % 4 == 0
    ensures |Decode(s).bytes| <= 3 * (|s| / 4) < |Decode(s).bytes| + 3
    ensures |Decode(s).bytes| == 32 ==> |s| == 44
  {
    hide Padding, GroupBytes;
    if s != [] {
      GroupLength(s[..4]);
      if Padding(s[..4]) == 0 {
        KeyText(s[4..]);
      }
    }
  }

  /** A text that decodes consists of letters of the alphabet and padding. */
  lemma {:induction false} DecodedCharacters(s: string)
    requires Decode(s).Valid?
    ensures forall i :: 0 <= i < |s| ==> InAlphabet(s[i]) || s[i] == '='
  {
    hide InAlphabet, GroupBytes;
    if s != [] {
      var g := s[..4];
      assert forall i :: 0 <= i < 4 ==> s[i] == g[i];
      assert g[1..] == "===" ==> g[1] == '=' && g[2] == '=' && g[3] == '=' by {
        assert g[1..][0] == g[1] && g[1..][1] == g[2] && g[1..][2] == g[3];
      }
      assert g[2..] == "==" ==> g[2] == '=' && g[3] == '=' by { assert g[2..][0] == g[2] && g[2..][1] == g[3]; }
      if Padding(g) == 0 {
        DecodedCharacters(s[4..]);
        assert forall i :: 4 <= i < |s| ==> s[i] == s[4..][i - 4];
      }
    }
  }

  // ---- the decoder ----

  /** accum, char_count, byte_count and the output so far */
  datatype State = State(accum: nat, chars: nat, bytes: int, out: Bytes)

  /** How a text was taken: refused at some point, or read so far.  Either way out is what was written. */
  datatype Scanned = Failed(out: Bytes) | Running(state: State)

  function Written(x: Scanned): Bytes {
    match x
    case Failed(out) => out
    case Running(t) => t.out
  }

  /** One turn of the loop of wireguard_base64_decode. */
  function Turn(t: State, c: char, cap: nat): Scanned
    requires t.chars < 4 && 0 <= t.bytes <= 3
  {
    if c == '=' && t.bytes == 0 then Failed(t.out)
    else if c != '=' && (t.bytes != 3 || !InAlphabet(c)) then Failed(t.out)
    else
      var bytes := if c == '=' then t.bytes - 1 else t.bytes;
      var accum := (t.accum * 64 + ValueOr0(c)) % 0x1_0000_0000;
      if t.chars < 3 then Running(State(accum, t.chars + 1, bytes, t.out))
      else if |t.out| + bytes > cap then Failed(t.out)
      else
        var (a, b, d) := (accum / 65536 % 256, accum / 256 % 256, accum % 256);
        Running(State(0, 0, bytes, t.out + (if bytes > 2 then [a, b, d] else if bytes > 1 then [a, b] else [a])))
  }

  predicate Sound(t: State) { t.chars < 4 && 0 <= t.bytes <= 3 }

  function Scan(t: State, s: string, cap: nat): Scanned
    requires Sound(t)
    decreases |s|
  {
    if s == [] then if t.chars == 0 then Running(t) else Failed(t.out)
    else match Turn(t, s[0], cap)
      case Failed(out) => Failed(out)
      case Running(t') => Scan(t', s[1..], cap)
  }

  /** Padding in the wrong place is never made good again. */
  lemma {:induction false} Doomed(t: State, s: string, cap: nat)
    requires Sound(t) && t.chars > 0 && t.bytes < 3 && t.bytes + t.chars <= 3
    ensures Scan(t, s, cap) == Failed(t.out)
    decreases |s|
  {
    hide InAlphabet, ValueOr0;
    if s != [] && s[0] == '=' && t.bytes > 0 {
      Doomed(Turn(t, '=', cap).state, s[1..], cap);
    }
  }

  /** After a padded group the text has to end. */
  lemma NothingAfterPadding(t: State, s: string, cap: nat)
    requires t.chars == 0 && 0 <= t.bytes < 3 && s != []
    ensures Scan(t, s, cap) == Failed(t.out)
  {
    hide InAlphabet, ValueOr0;
    if s[0] == '=' && t.bytes > 0 {
      Doomed(Turn(t, '=', cap).state, s[1..], cap);
    }
  }

  /** A text that ends inside a group is refused. */
  lemma {:induction false} ShortFails(t: State, s: string, cap: nat)
    requires Sound(t) && 0 < t.chars + |s| < 4
    ensures Scan(t, s, cap) == Failed(t.out)
    decreases |s|
  {
    hide InAlphabet, ValueOr0;
    if s != [] && Turn(t, s[0], cap).Running? {
      ShortFails(Turn(t, s[0], cap).state, s[1..], cap);
    }
  }

  function Packed(p: nat, q: nat, r: nat, s: nat): nat { ((p * 64 + q) * 64 + r) * 64 + s }

  lemma PackedOctets(p: Sextet, q: Sextet, r: Sextet, s: Sextet)
    ensures var x := Packed(p, q, r, s);
            x < 0x100_0000 && (x / 65536 % 256, x / 256 % 256, x % 256) == Octets(p, q, r, s)
  {
    var x := Packed(p, q, r, s);
    var (a, b, c) := Octets(p, q, r, s);
    assert x == a * 65536 + b * 256 + c by {
      assert q == q / 16 * 16 + q % 16 && r == r / 4 * 4 + r % 4;
    }
    ThreeBytes(a, b, c);
  }

  lemma ThreeBytes(a: byte, b: byte, c: byte)
    ensures var x := a as int * 65536 + b as int * 256 + c as int;
            x < 0x100_0000 && x / 65536 % 256 == a && x / 256 % 256 == b && x % 256 == c
  {
    var x := a as int * 65536 + b as int * 256 + c as int;
    assert x / 65536 == a && x / 256 == a as int * 256 + b as int;
  }

  lemma PadIsZero()
    ensures ValueOr0('=') == 0
  {
  }

  /** A letter while no padding has been seen. */
  lemma Letter(accum: nat, chars: nat, out: Bytes, s: string, cap: nat)
    requires chars < 3 && s != [] && InAlphabet(s[0]) && accum < 0x40000
    ensures Scan(State(accum, chars, 3, out), s, cap)
         == Scan(State(accum * 64 + ValueOr0(s[0]), chars + 1, 3, out), s[1..], cap)
  {
    hide InAlphabet, ValueOr0;
    PadIsOutside();
    var t := State(accum, chars, 3, out);
    assert Turn(t, s[0], cap) == Running(State(accum * 64 + ValueOr0(s[0]), chars + 1, 3, out));
  }

  /** A padding character before the end of a group. */
  lemma Pad(accum: nat, chars: nat, bytes: int, out: Bytes, s: string, cap: nat)
    requires chars < 3 && 0 < bytes <= 3 && s != [] && s[0] == '=' && accum < 0x40000
    ensures Scan(State(accum, chars, bytes, out), s, cap)
         == Scan(State(accum * 64, chars + 1, bytes - 1, out), s[1..], cap)
  {
    hide InAlphabet, ValueOr0;
    PadIsZero();
    var t := State(accum, chars, bytes, out);
    assert Turn(t, s[0], cap) == Running(State(accum * 64, chars + 1, bytes - 1, out));
  }

  lemma NoLetter(t: State, s: string, cap: nat)
    requires Sound(t) && s != [] && s[0] != '=' && (t.bytes < 3 || !InAlphabet(s[0]))
    ensures Scan(t, s, cap) == Failed(t.out)
  {
  }

  /** The fourth character completes the group. */
  lemma Complete(accum: nat, bytes: int, out: Bytes, s: string, cap: nat)
    requires 0 <= bytes <= 3 && s != [] && accum < 0x40000
    requires if s[0] == '=' then bytes > 0 else bytes == 3 && InAlphabet(s[0])
    ensures var n := if s[0] == '=' then bytes - 1 else bytes;
            var x := accum * 64 + ValueOr0(s[0]);
            Scan(State(accum, 3, bytes, out), s, cap)
            == if |out| + n > cap then Failed(out)
               else Scan(State(0, 0, n, out + TakeOctets(x, n)), s[1..], cap)
  {
    hide InAlphabet, ValueOr0;
    var x := accum * 64 + ValueOr0(s[0]);
    assert x % 0x1_0000_0000 == x;
  }

  /** As many of the three bytes of x as the padding leaves, at least one. */
  function TakeOctets(x: nat, n: int): Bytes {
    if n > 2 then [x / 65536 % 256, x / 256 % 256, x % 256]
    else if n > 1 then [x / 65536 % 256, x / 256 % 256]
    else [x / 65536 % 256]
  }

  lemma GroupIsTaken(g: string)
    requires |g| == 4 && Padding(g) < 4
    ensures GroupBytes(g)
         == TakeOctets(Packed(ValueOr0(g[0]), ValueOr0(g[1]), ValueOr0(g[2]), ValueOr0(g[3])), 3 - Padding(g))
  {
    hide Padding, Octets, ValueOr0;
    PackedOctets(ValueOr0(g[0]), ValueOr0(g[1]), ValueOr0(g[2]), ValueOr0(g[3]));
  }

  /** What is left of the group once its first two characters were letters. */
  lemma SecondHalf(p: Sextet, q: Sextet, out: Bytes, s: string, cap: nat)
    requires |s| >= 2
    ensures var k := if s[..2] == "==" then 2 else if !InAlphabet(s[0]) then 4 else if s[1] == '=' then 1
                     else if InAlphabet(s[1]) then 0 else 4;
            Scan(State(p * 64 + q, 2, 3, out), s, cap)
            == if k == 4 || |out| + 3 - k > cap then Failed(out)
               else
                 var out' := out + TakeOctets(Packed(p, q, ValueOr0(s[0]), ValueOr0(s[1])), 3 - k);
                 Scan(State(0, 0, 3 - k, out'), s[2..], cap)
  {
    hide InAlphabet, ValueOr0, TakeOctets, Scan, Turn;
    PadIsZero();
    PadIsOutside();
    var a := p * 64 + q;
    assert s[1..][1..] == s[2..];
    if InAlphabet(s[0]) {
      Letter(a, 2, out, s, cap);
      if s[1] == '=' || InAlphabet(s[1]) {
        Complete(a * 64 + ValueOr0(s[0]), 3, out, s[1..], cap);
      } else {
        NoLetter(State(a * 64 + ValueOr0(s[0]), 3, 3, out), s[1..], cap);
      }
    } else if s[0] == '=' {
      Pad(a, 2, 3, out, s, cap);
      if s[1] == '=' {
        Complete(a * 64, 2, out, s[1..], cap);
      } else {
        NoLetter(State(a * 64, 3, 2, out), s[1..], cap);
      }
    } else {
      NoLetter(State(a, 2, 3, out), s, cap);
    }
  }

  /** What is left of the group once its first character was a letter and its second is padding. */
  lemma LoneLetter(p: Sextet, out: Bytes, s: string, cap: nat)
    requires |s| >= 3 && s[0] == '='
    ensures Scan(State(p, 1, 3, out), s, cap)
            == if s[..3] != "===" || |out| > cap then Failed(out)
               else Scan(State(0, 0, 0, out + TakeOctets(Packed(p, 0, 0, 0), 0)), s[3..], cap)
  {
    hide InAlphabet, ValueOr0, TakeOctets, Scan, Turn;
    PadIsZero();
    assert s[1..][1..] == s[2..] && s[2..][1..] == s[3..];
    Pad(p, 1, 3, out, s, cap);
    if s[1] == '=' {
      Pad(p * 64, 2, 2, out, s[1..], cap);
      if s[2] == '=' {
        Complete(p * 64 * 64, 1, out, s[2..], cap);
        assert s[..3] == "===";
      } else {
        NoLetter(State(p * 64 * 64, 3, 1, out), s[2..], cap);
      }
    } else {
      NoLetter(State(p * 64, 2, 2, out), s[1..], cap);
    }
  }

  /** A whole group at the start of a text, read from an empty accumulator. */
  lemma FirstGroup(out: Bytes, s: string, cap: nat)
    requires |s| >= 4
    ensures var k, t := Padding(s[..4]), State(0, 0, 3, out);
            Scan(t, s, cap) == if k == 4 || |out| + 3 - k > cap then Failed(out)
                               else Scan(State(0, 0, 3 - k, out + GroupBytes(s[..4])), s[4..], cap)
  {
    hide InAlphabet, ValueOr0, TakeOctets, Scan, Turn, GroupBytes;
    PadIsZero();
    PadIsOutside();
    var g := s[..4];
    assert s[1..][1..] == s[2..] && s[1..][3..] == s[4..] && s[2..][2..] == s[4..];
    assert g[1..] == s[1..][..3] && g[2..] == s[2..][..2];
    if Padding(g) < 4 {
      GroupIsTaken(g);
    }
    if InAlphabet(s[0]) {
      Letter(0, 0, out, s, cap);
      var p := ValueOr0(s[0]);
      if InAlphabet(s[1]) {
        Letter(p, 1, out, s[1..], cap);
        SecondHalf(p, ValueOr0(s[1]), out, s[2..], cap);
      } else if s[1] == '=' {
        LoneLetter(p, out, s[1..], cap);
      } else {
        NoLetter(State(p, 1, 3, out), s[1..], cap);
      }
    } else if s[0] == '=' {
      Pad(0, 0, 3, out, s, cap);
      Doomed(State(0, 1, 2, out), s[1..], cap);
    } else {
      NoLetter(State(0, 0, 3, out), s, cap);
    }
  }

  /** How much room the decoder asks for: a lone last character is written without being counted. */
  function Room(s: string): nat
    requires Decode(s).Valid?
  {
    if LoneEnd(s) then |Decode(s).bytes| - 1 else |Decode(s).bytes|
  }

  /** The last group is one letter and three padding characters. */
  predicate LoneEnd(s: string)
    requires Decode(s).Valid?
  {
    s != [] && (if Padding(s[..4]) == 0 then LoneEnd(s[4..]) else Padding(s[..4]) == 3)
  }

  lemma LastGroup(out: Bytes, s: string, cap: nat)
    requires |s| == 4 && 0 < Padding(s) < 4
    ensures Decode(s) == Valid(GroupBytes(s)) && Room(s) == 3 - Padding(s)
    ensures Scan(State(0, 0, 3, out), s, cap)
         == if |out| + Room(s) > cap then Failed(out) else Running(State(0, 0, 3 - Padding(s), out + GroupBytes(s)))
  {
    hide Turn, Padding, GroupBytes;
    assert s[..4] == s && s[4..] == [];
    GroupLength(s);
    FirstGroup(out, s, cap);
  }

  /** The character loop accepts the texts that are made of groups, and produces their bytes. */
  lemma {:induction false} ScanIsDecode(out: Bytes, s: string, cap: nat)
    requires |out| <= cap
    ensures Scan(State(0, 0, 3, out), s, cap).Running? <==> Decode(s).Valid? && |out| + Room(s) <= cap
    ensures Scan(State(0, 0, 3, out), s, cap).Running? ==>
              Scan(State(0, 0, 3, out), s, cap).state.out == out + Decode(s).bytes
    decreases |s|
  {
    hide Turn, Padding, GroupBytes;
    if 0 < |s| < 4 {
      ShortFails(State(0, 0, 3, out), s, cap);
    } else if s != [] {
      var g, k := s[..4], Padding(s[..4]);
      FirstGroup(out, s, cap);
      if k < 4 {
        GroupLength(g);
        if k == 0 && |out| + 3 <= cap {
          ScanIsDecode(out + GroupBytes(g), s[4..], cap);
          if Decode(s[4..]).Valid? {
            assert out + GroupBytes(g) + Decode(s[4..]).bytes == out + (GroupBytes(g) + Decode(s[4..]).bytes);
          }
        } else if k > 0 && s[4..] != [] {
          NothingAfterPadding(State(0, 0, 3 - k, out + GroupBytes(g)), s[4..], cap);
        } else if k > 0 {
          assert s[4..] == [] && s == g;
          LastGroup(out, s, cap);
        } else if Decode(s).Valid? {
          assert Room(s) == 3 + Room(s[4..]);
        }
      }
    }
  }

  // ---- what is written ----

  /** The first n groups of s are full and the next one is a letter with three padding characters. */
  predicate LoneAfter(s: string, n: nat) {
    |s| >= 4 && if n == 0 then Padding(s[..4]) == 3 else Padding(s[..4]) == 0 && LoneAfter(s[4..], n - 1)
  }

  /** The texts, accepted or refused, that make the decoder write past a buffer of cap bytes: a lone
      letter right where the buffer is full. */
  predicate Overruns(s: string, cap: nat) { cap % 3 == 0 && LoneAfter(s, cap / 3) }

  lemma {:induction false} WrittenExactly(out: Bytes, s: string, cap: nat)
    requires |out| <= cap
    ensures |Written(Scan(State(0, 0, 3, out), s, cap))| > cap
            <==> (cap - |out|) % 3 == 0 && LoneAfter(s, (cap - |out|) / 3)
    ensures |Written(Scan(State(0, 0, 3, out), s, cap))| <= cap + 1
    decreases |s|
  {
    hide Turn, Padding, GroupBytes;
    if 0 < |s| < 4 {
      ShortFails(State(0, 0, 3, out), s, cap);
    } else if s != [] {
      var g, k := s[..4], Padding(s[..4]);
      FirstGroup(out, s, cap);
      if k < 4 {
        GroupLength(g);
        if k == 0 && |out| + 3 <= cap {
          WrittenExactly(out + GroupBytes(g), s[4..], cap);
          assert (cap - |out| - 3) % 3 == (cap - |out|) % 3 && (cap - |out| - 3) / 3 == (cap - |out|) / 3 - 1;
        } else if k > 0 && s[4..] != [] {
          NothingAfterPadding(State(0, 0, 3 - k, out + GroupBytes(g)), s[4..], cap);
        } else if k > 0 {
          assert s[4..] == [] && s == g;
          LastGroup(out, s, cap);
        }
      }
    }
  }

  /** Of every text, accepted or refused, more than cap bytes are written exactly if it overruns, and then
      one too many. */
  lemma OverrunExactly(s: string, cap: nat)
    ensures |Written(Scan(State(0, 0, 3, []), s, cap))| > cap <==> Overruns(s, cap)
    ensures |Written(Scan(State(0, 0, 3, []), s, cap))| <= cap + 1
  {
    WrittenExactly([], s, cap);
  }

  /** One letter and three padding characters are accepted into an empty buffer, and one byte is written. */
  lemma OverrunOfLoneLetter()
    ensures Overruns("A===", 0)
    ensures Scan(State(0, 0, 3, []), "A===", 0) == Running(State(0, 0, 0, [0]))
  {
    hide Padding, GroupBytes, Turn;
    var s := "A===";
    LoneA();
    assert s[..4] == s;
    LastGroup([], s, 0);
  }

  lemma LoneA()
    ensures Padding("A===") == 3 && GroupBytes("A===") == [0]
  {
    var s := "A===";
    assert s[1..] == "===";
    assert ValueOr0('A') == 0 && ValueOr0('=') == 0;
  }

  /** What is written stays written. */
  lemma {:induction false} WrittenGrows(t: State, s: string, cap: nat)
    requires Sound(t)
    ensures t.out <= Written(Scan(t, s, cap))
    decreases |s|
  {
    hide InAlphabet, ValueOr0;
    if s != [] && Turn(t, s[0], cap).Running? {
      WrittenGrows(Turn(t, s[0], cap).state, s[1..], cap);
    }
  }

  /** wireguard_base64_decode; the buffer has outlen bytes, and the one more that an overrunning text takes. */
  method DecodeText(str: string, out: array<byte>, outlen: nat) returns (result: bool, len: nat)
    requires out.Length >= outlen && (Overruns(str, outlen) ==> out.Length > outlen)
    modifies out
    ensures result <==> Decode(str).Valid? && Room(str) <= outlen
    ensures len <= out.Length && out[..len] == Written(Scan(State(0, 0, 3, []), str, outlen))
    ensures out[len..] == old(out[len..])
    ensures result ==> out[..len] == Decode(str).bytes
    ensures len <= outlen + 1 && (len > outlen <==> Overruns(str, outlen))
  {
    hide Decode, Room, Overruns, InAlphabet, ValueOr0, Turn;
    ScanIsDecode([], str, outlen);
    OverrunExactly(str, outlen);
    ghost var all := Scan(State(0, 0, 3, []), str, outlen);
    ghost var before := out[..];
    var accum: nat, charCount: nat, byteCount := 0, 0, 3;
    len, result := 0, true;
    var x := 0;
    while x < |str|
      invariant 0 <= x <= |str| && len <= out.Length && Sound(State(accum, charCount, byteCount, out[..len]))
      invariant Scan(State(accum, charCount, byteCount, out[..len]), str[x..], outlen) == all
      invariant out[len..] == before[len..]
      invariant result
    {
      ghost var t := State(accum, charCount, byteCount, out[..len]);
      assert str[x..][0] == str[x] && str[x..][1..] == str[x + 1..];
      if Turn(t, str[x], outlen).Running? {
        TurnSound(t, str[x], outlen);
        WrittenGrows(Turn(t, str[x], outlen).state, str[x + 1..], outlen);
      }
      result, accum, charCount, byteCount, len := TakeChar(out, len, str[x], accum, charCount, byteCount, outlen);
      if !result {
        break;
      }
      x := x + 1;
    }
    if charCount != 0 {
      result := false;
    }
  }

  lemma TurnSound(t: State, c: char, cap: nat)
    requires Sound(t)
    ensures Turn(t, c, cap).Running? ==> Sound(Turn(t, c, cap).state)
  {
    hide InAlphabet, ValueOr0;
  }

  /** One character: the states of the C variables before and after, and the stores of a full group. */
  method TakeChar(out: array<byte>, at: nat, c: char, accum: nat, charCount: nat, byteCount: int, outlen: nat)
    returns (ok: bool, accum': nat, charCount': nat, byteCount': int, len: nat)
    requires at <= out.Length && Sound(State(accum, charCount, byteCount, out[..at]))
    requires var t := Turn(State(accum, charCount, byteCount, out[..at]), c, outlen);
             t.Running? ==> |t.state.out| <= out.Length
    modifies out
    ensures at <= len <= out.Length && out[len..] == old(out[len..])
    ensures Turn(State(accum, charCount, byteCount, old(out[..at])), c, outlen)
         == if ok then Running(State(accum', charCount', byteCount', out[..len])) else Failed(out[..len])
  {
    hide Turn, InAlphabet, ValueOr0;
    TurnIs(State(accum, charCount, byteCount, out[..at]), c, outlen);
    ok, accum', charCount', byteCount', len := false, accum, charCount, byteCount, at;
    if (c == '=' && byteCount == 0) || (c != '=' && (byteCount != 3 || !InAlphabet(c))) {
      return;
    }
    var bits := if c == '=' then 0 else ValueOr0(c);
    byteCount' := if c == '=' then byteCount - 1 else byteCount;
    accum' := (accum * 64 + bits) % 0x1_0000_0000;
    charCount' := charCount + 1;
    if charCount' == 4 {
      if len + byteCount' > outlen {
        return;
      }
      len := StoreOctets(out, len, accum', byteCount');
      charCount', accum' := 0, 0;
    }
    ok := true;
  }

  /** The turn by its branches. */
  lemma TurnIs(t: State, c: char, cap: nat)
    requires Sound(t)
    ensures var bits := if c == '=' then 0 else ValueOr0(c);
            var bytes := if c == '=' then t.bytes - 1 else t.bytes;
            var accum := (t.accum * 64 + bits) % 0x1_0000_0000;
            Turn(t, c, cap)
            == if (c == '=' && t.bytes == 0) || (c != '=' && (t.bytes != 3 || !InAlphabet(c))) then Failed(t.out)
               else if t.chars < 3 then Running(State(accum, t.chars + 1, bytes, t.out))
               else if |t.out| + bytes > cap then Failed(t.out)
               else Running(State(0, 0, bytes, t.out + TakeOctets(accum, bytes)))
  {
    hide InAlphabet, ValueOr0;
    PadIsZero();
  }

  /** The stores at the end of a group. */
  method StoreOctets(out: array<byte>, at: nat, accum: nat, byteCount: int) returns (len: nat)
    requires byteCount <= 3 && at + |TakeOctets(accum, byteCount)| <= out.Length
    modifies out
    ensures len == at + |TakeOctets(accum, byteCount)| && out[..len] == old(out[..at]) + TakeOctets(accum, byteCount)
    ensures out[len..] == old(out[len..])
  {
    len := at;
    out[len] := accum / 65536 % 256;
    len := len + 1;
    if byteCount > 1 {
      out[len] := accum / 256 % 256;
      len := len + 1;
    }
    if byteCount > 2 {
      out[len] := accum % 256;
      len := len + 1;
    }
  }

  /** wg_decode_key: whatever the text, nothing is written past the 32 bytes of the key. */
  method DecodeKey(b64: string, key: array<byte>) returns (ok: bool)
    requires key.Length == 32
    modifies key
    ensures ok <==> KeyOk(b64)
    ensures ok ==> key[..] == Decode(b64).bytes && |b64| == 44
  {
    hide Decode;
    var result, len := DecodeText(b64, key, 32);
    RoomForKey(b64);
    ok := result && len == 32;
    assert len == 32 ==> key[..] == key[..len];
  }

  /** A text wg_decode_key accepts. */
  predicate KeyOk(s: string) { Decode(s).Valid? && |Decode(s).bytes| == 32 }

  /** A lone end never makes up a key: its length is one more than a multiple of three. */
  lemma {:induction false} LoneEndLength(s: string)
    requires Decode(s).Valid?
    ensures LoneEnd(s) ==> |Decode(s).bytes| % 3 == 1
  {
    hide Padding, GroupBytes;
    if s != [] {
      GroupLength(s[..4]);
      if Padding(s[..4]) == 0 {
        LoneEndLength(s[4..]);
      }
    }
  }

  lemma RoomForKey(s: string)
    ensures Decode(s).Valid? && |Decode(s).bytes| == 32 ==> Room(s) == 32 && |s| == 44
  {
    hide Decode;
    if Decode(s).Valid? {
      LoneEndLength(s);
      KeyText(s);
    }
  }

  /** wireguard_base64_encode into a buffer of outlen characters, the terminating zero included */
  method EncodeText(input: Bytes, outlen: nat) returns (result: bool, out: string)
    ensures result <==> outlen > 4 * ((|input| + 2) / 3)
    ensures result ==> out == Encode(input)
  {
    hide Encode;
    var readOffset, len := 0, 4 * ((|input| + 2) / 3);
    var padding := 3 - |input| % 3;
    if padding > 2 {
      padding := 0;
    }
    result, out := false, [];
    if outlen > len {
      while readOffset < |input|
        invariant 0 <= readOffset <= |input| && (readOffset % 3 == 0 || readOffset == |input|)
        invariant |out| == 4 * ((readOffset + 2) / 3)
        invariant out + Encode(input[readOffset..]) == Encode(input)
      {
        ghost var before, rest := out, Encode(input[readOffset..]);
        var group;
        readOffset, group := NextGroup(input, readOffset, |out|, len - padding);
        out := out + group;
        assert out + Encode(input[readOffset..]) == before + (group + Encode(input[readOffset..])) == before + rest;
      }
      result := true;
      EncodeStep([]);
      assert input[readOffset..] == [];
    }
  }

  /** The number of characters that are no padding: the padding is one or two characters at the end. */
  function Unpadded(n: nat): int { 4 * ((n + 2) / 3) - (if n % 3 == 0 then 0 else 3 - n % 3) }

  lemma PaddingStarts(n: nat, from: nat)
    requires from < n && from % 3 == 0
    ensures 4 * (from / 3) + 2 < Unpadded(n) <==> n - from >= 2
    ensures 4 * (from / 3) + 3 < Unpadded(n) <==> n - from >= 3
  {
    var q, d := from / 3, n - from;
    assert n == 3 * q + d && (n + 2) / 3 == q + (d + 2) / 3 && n % 3 == d % 3;
  }

  /** One turn of that loop: up to three bytes become four characters. */
  method NextGroup(input: Bytes, from: nat, writeOffset: nat, unpadded: int) returns (to: nat, out: string)
    requires from < |input| && from % 3 == 0 && writeOffset == 4 * (from / 3) && unpadded == Unpadded(|input|)
    ensures to == (if from + 3 <= |input| then from + 3 else |input|) && |out| == 4
    ensures out + Encode(input[to..]) == Encode(input[from..])
  {
    hide EncodeGroup, Encode, Lookup, Word24, Unpadded;
    PaddingStarts(|input|, from);
    to := from;
    var byte1: byte, byte2: byte, byte3: byte := input[to], 0, 0;
    to := to + 1;
    if to < |input| {
      byte2, to := input[to], to + 1;
    }
    if to < |input| {
      byte3, to := input[to], to + 1;
    }
    GroupShifts(byte1, byte2, byte3);
    EncodeStep(input[from..]);
    EncodeStep([]);
    var tmp := Word24(byte1, byte2, byte3);
    var c1, c2 := Lookup(tmp / 0x40000 % 64), Lookup(tmp / 0x1000 % 64);
    var c3 := if writeOffset + 2 < unpadded then Lookup(tmp / 64 % 64) else '=';
    var c4 := if writeOffset + 3 < unpadded then Lookup(tmp % 64) else '=';
    out := [c1, c2, c3, c4];
    ghost var g := EncodeGroup(byte1, byte2, byte3);
    assert out == if to - from == 3 then g else if to - from == 2 then g[..3] + "=" else g[..2] + "==";
    assert input[from..][to - from..] == input[to..];
    if to - from < 3 {
      assert input[to..] == [];
    }
  }

  function Word24(a: byte, b: byte, c: byte): nat { a as int * 65536 + b as int * 256 + c as int }

  lemma GroupShifts(a: byte, b: byte, c: byte)
    ensures var x := Word24(a, b, c);
            EncodeGroup(a, b, c)
            == [Lookup(x / 0x40000 % 64), Lookup(x / 0x1000 % 64), Lookup(x / 64 % 64), Lookup(x % 64)]
  {
    hide Lookup;
    var x := Word24(a, b, c);
    var a', b', c': int := a, b, c;
    DivModUnique(x, 0x40000, a' / 4, a' % 4 * 65536 + b' * 256 + c');
    DivModUnique(x, 0x1000, a' * 16 + b' / 16, b' % 16 * 256 + c');
    DivModUnique(x, 64, a' * 1024 + b' * 4 + c' / 64, c' % 64);
    DivModUnique(a' * 16 + b' / 16, 64, a' / 4, a' % 4 * 16 + b' / 16);
    DivModUnique(a' * 1024 + b' * 4 + c' / 64, 64, a' * 16 + b' / 16, b' % 16 * 4 + c' / 64);
  }

  /** The first group of an encoding and the rest. */
  lemma EncodeStep(b: Bytes)
    ensures b == [] ==> Encode(b) == []
    ensures |b| == 1 ==> Encode(b) == EncodeGroup(b[0], 0, 0)[..2] + "=="
    ensures |b| == 2 ==> Encode(b) == EncodeGroup(b[0], b[1], 0)[..3] + "="
    ensures |b| >= 3 ==> Encode(b) == EncodeGroup(b[0], b[1], b[2]) + Encode(b[3..])
  {
  }
}
