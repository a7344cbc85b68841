/** ChaCha20 of RFC 8439 as a stream cipher whose context counts blocks in word 12, and HChaCha20. */
module ChaCha20 {
  import opened Bits
  import opened Bytes
  import opened Words

  // ---- section 2.1 to 2.3: quarter round, rounds and block function ----

  function RotL(x: Word, n: nat): Word
    requires n <= 32
  {
    Pow2Values();
    OrBound(ShlW(x, n), ShrW(x, 32 - n), 32);
    Or(ShlW(x, n), ShrW(x, 32 - n))
  }

  type State = s: seq<Word> | |s| == 16 witness seq(16, i => 0)

  function Quarter(s: State, a: nat, b: nat, c: nat, d: nat): State
    requires a < 16 && b < 16 && c < 16 && d < 16
  {
    var sa := AddW(s[a], s[b]);
    var sd := RotL(XorW(s[d], sa), 16);
    var sc := AddW(s[c], sd);
    var sb := RotL(XorW(s[b], sc), 12);
    var sa' := AddW(sa, sb);
    var sd' := RotL(XorW(sd, sa'), 8);
    var sc' := AddW(sc, sd');
    s[a := sa'][d := sd'][c := sc'][b := RotL(XorW(sb, sc'), 7)]
  }

  /** Four column rounds and four diagonal rounds. */
  function InnerBlock(s: State): State {
    hide Quarter;
    var s1 := Quarter(s, 0, 4, 8, 12);
    var s2 := Quarter(s1, 1, 5, 9, 13);
    var s3 := Quarter(s2, 2, 6, 10, 14);
    var s4 := Quarter(s3, 3, 7, 11, 15);
    var s5 := Quarter(s4, 0, 5, 10, 15);
    var s6 := Quarter(s5, 1, 6, 11, 12);
    var s7 := Quarter(s6, 2, 7, 8, 13);
    Quarter(s7, 3, 4, 9, 14)
  }

  function DoubleRounds(s: State, n: nat): State {
    if n == 0 then s else InnerBlock(DoubleRounds(s, n - 1))
  }

  function AddState(x: State, y: State): State {
    seq(16, i requires 0 <= i < 16 => AddW(x[i], y[i]))
  }

  /** The 64 bytes of key stream that a state stands for. */
  function Block(s: State): (b: Bytes)
    ensures |b| == 64
  {
    hide InnerBlock;
    WordBytes(AddState(DoubleRounds(s, 10), s))
  }

  const SIGMA: seq<Word> := [0x61707865, 0x3320646e, 0x79622d32, 0x6b206574]

  /** constants | key | counter | nonce, the last as twelve bytes */
  function InitialState(key: Bytes, counter: Word, nonce: Bytes): State
    requires |key| == 32 && |nonce| == 12
  {
    SIGMA + BytesWords(key) + [counter] + BytesWords(nonce)
  }

  // ---- section 2.4: encryption ----

  /** The state with its block counter n further on, modulo 2^32. */
  function Ahead(s: State, n: nat): State {
    s[12 := (s[12] + n) % 0x1_0000_0000]
  }

  function XorBytes(m: Bytes, k: Bytes): (r: Bytes)
    requires |k| >= |m|
    ensures |r| == |m|
  {
    seq(|m|, i requires 0 <= i < |m| => XorByte(m[i], k[i]))
  }

  /** m under the key stream that starts at state s. */
  function Crypt(s: State, m: Bytes): (c: Bytes)
    ensures |c| == |m|
    decreases |m|
  {
    hide Block, XorBytes;
    if |m| <= 64 then XorBytes(m, Block(s)) else XorBytes(m[..64], Block(s)) + Crypt(Ahead(s, 1), m[64..])
  }

  /** How many blocks of key stream m bytes take. */
  function Blocks(n: nat): nat { (n + 63) / 64 }

  lemma AheadAdd(s: State, m: nat, n: nat)
    ensures Ahead(Ahead(s, m), n) == Ahead(s, m + n)
  {
  }

  lemma AheadNone(s: State)
    ensures Ahead(s, 0) == s
  {
  }

  /** Byte k of the output is the input byte under byte k mod 64 of block k / 64. */
  lemma {:induction false} CryptAt(s: State, m: Bytes, k: nat)
    requires k < |m|
    ensures Crypt(s, m)[k] == XorByte(m[k], Block(Ahead(s, k / 64))[k % 64])
    decreases |m|
  {
    hide Block, XorByte, Ahead;
    if k < 64 {
      AheadNone(s);
      assert k / 64 == 0 && k % 64 == k;
    } else {
      CryptAt(Ahead(s, 1), m[64..], k - 64);
      AheadAdd(s, 1, (k - 64) / 64);
      assert 1 + (k - 64) / 64 == k / 64 && (k - 64) % 64 == k % 64;
    }
  }

  lemma XorBytesTwice(m: Bytes, k: Bytes)
    requires |k| >= |m|
    ensures XorBytes(XorBytes(m, k), k) == m
  {
    hide Xor;
    forall i | 0 <= i < |m| ensures XorBytes(XorBytes(m, k), k)[i] == m[i] {
      XorCancel(m[i], k[i]);
    }
  }

  /** Applying the cipher twice from the same state gives the message back. */
  lemma {:induction false} CryptTwice(s: State, m: Bytes)
    ensures Crypt(s, Crypt(s, m)) == m
    decreases |m|
  {
    hide Block, XorBytes, Ahead;
    if |m| <= 64 {
      XorBytesTwice(m, Block(s));
    } else {
      XorBytesTwice(m[..64], Block(s));
      CryptTwice(Ahead(s, 1), m[64..]);
      var c := Crypt(s, m);
      assert c[..64] == XorBytes(m[..64], Block(s)) && c[64..] == Crypt(Ahead(s, 1), m[64..]);
    }
  }

  /** Cutting a message at a block boundary does not change its encryption. */
  lemma {:induction false} CryptSplit(s: State, a: Bytes, b: Bytes)
    requires |a| % 64 == 0
    ensures Crypt(s, a + b) == Crypt(s, a) + Crypt(Ahead(s, |a| / 64), b)
    decreases |a|
  {
    hide Block, XorBytes, Ahead;
    if |a| == 0 {
      AheadNone(s);
      assert a + b == b && Crypt(s, a) == [];
    } else {
      var a' := a[64..];
      CryptSplit(Ahead(s, 1), a', b);
      AheadAdd(s, 1, |a'| / 64);
      CryptBlock(s, a[..64], a');
      CryptBlock(s, a[..64], a' + b);
      assert a[..64] + a' == a && a[..64] + (a' + b) == a + b;
    }
  }

  lemma CryptBlock(s: State, x: Bytes, y: Bytes)
    requires |x| == 64
    ensures Crypt(s, x + y) == XorBytes(x, Block(s)) + Crypt(Ahead(s, 1), y)
  {
    hide Block, Ahead;
    if y == [] {
      assert x + y == x;
    } else {
      assert (x + y)[..64] == x && (x + y)[64..] == y;
    }
  }

  /** HChaCha20: the outer words of the state after the rounds, without the final addition. */
  function HChaCha(key: Bytes, nonce: Bytes): (subkey: Bytes)
    requires |key| == 32 && |nonce| == 16
    ensures |subkey| == 32
  {
    hide DoubleRounds;
    var w := DoubleRounds(SIGMA + BytesWords(key) + BytesWords(nonce), 10);
    WordBytes(w[..4] + w[12..])
  }

  // ---- the code ----

  method QuarterRound(v: array<Word>, a: nat, b: nat, c: nat, d: nat)
    requires v.Length == 16 && a < 16 && b < 16 && c < 16 && d < 16
    requires a != b && a != c && a != d && b != c && b != d && c != d
    modifies v
    ensures v[..] == Quarter(old(v[..]), a, b, c, d)
  {
    hide RotL, AddW, XorW;
    v[a] := AddW(v[a], v[b]);
    v[d] := XorW(v[d], v[a]);
    v[d] := RotL(v[d], 16);
    v[c] := AddW(v[c], v[d]);
    v[b] := XorW(v[b], v[c]);
    v[b] := RotL(v[b], 12);
    v[a] := AddW(v[a], v[b]);
    v[d] := XorW(v[d], v[a]);
    v[d] := RotL(v[d], 8);
    v[c] := AddW(v[c], v[d]);
    v[b] := XorW(v[b], v[c]);
    v[b] := RotL(v[b], 7);
  }

  method InnerRounds(v: array<Word>)
    requires v.Length == 16
    modifies v
    ensures v[..] == InnerBlock(old(v[..]))
  {
    hide Quarter;
    QuarterRound(v, 0, 4, 8, 12);
    QuarterRound(v, 1, 5, 9, 13);
    QuarterRound(v, 2, 6, 10, 14);
    QuarterRound(v, 3, 7, 11, 15);
    QuarterRound(v, 0, 5, 10, 15);
    QuarterRound(v, 1, 6, 11, 12);
    QuarterRound(v, 2, 7, 8, 13);
    QuarterRound(v, 3, 4, 9, 14);
  }

  /** TWENTY_ROUNDS: ten inner blocks. */
  method TwentyRounds(v: array<Word>)
    requires v.Length == 16
    modifies v
    ensures v[..] == DoubleRounds(old(v[..]), 10)
  {
    hide InnerBlock;
    for i := 0 to 10
      invariant v[..] == DoubleRounds(old(v[..]), i)
    {
      InnerRounds(v);
    }
  }

  /** U32TO8_LITTLE */
  method Store32(out: array<byte>, i: nat, v: Word)
    requires i + 4 <= out.Length
    modifies out
    ensures out[..] == old(out[..i]) + ToLE(v, 4) + old(out[i + 4..])
  {
    out[i] := v % 256;
    out[i + 1] := v / 256 % 256;
    out[i + 2] := v / 256 / 256 % 256;
    out[i + 3] := v / 256 / 256 / 256 % 256;
    WordLE(v);
    assert out[..] == old(out[..i]) + [out[i], out[i + 1], out[i + 2], out[i + 3]] + old(out[i + 4..]);
  }

  lemma WordLE(v: nat)
    ensures ToLE(v, 4) == [v % 256, v / 256 % 256, v / 256 / 256 % 256, v / 256 / 256 / 256 % 256]
  {
    assert ToLE(v, 4) == [v % 256] + ToLE(v / 256, 3);
    assert ToLE(v / 256, 3) == [v / 256 % 256] + ToLE(v / 256 / 256, 2);
    assert ToLE(v / 256 / 256, 2) == [v / 256 / 256 % 256] + ToLE(v / 256 / 256 / 256, 1);
  }

  /** Words stored one after the other from the start of a buffer. */
  method StoreWords(out: array<byte>, w: seq<Word>)
    requires out.Length == 4 * |w|
    modifies out
    ensures out[..] == WordBytes(w)
  {
    hide WordBytes, ToLE;
    assert w[..0] == [] && WordBytes([]) == [] by { NoWords(); }
    for i := 0 to |w|
      invariant out[..4 * i] == WordBytes(w[..i])
    {
      WordBytesPrefix(w, i);
      ghost var was := out[..4 * i];
      Store32(out, 4 * i, w[i]);
      assert out[..4 * (i + 1)] == was + ToLE(w[i], 4);
    }
    assert w[..|w|] == w && out[..4 * |w|] == out[..];
  }

  lemma NoWords()
    ensures WordBytes([]) == []
  {
  }

  class Context {
    const state: array<Word>

    ghost predicate Valid() { state.Length == 16 }

    ghost function Now(): State
      requires Valid()
      reads state
    {
      state[..]
    }

    /** chacha20_init */
    constructor (key: Bytes, nonce: nat)
      requires |key| == 32 && nonce < 0x1_0000_0000_0000_0000
      ensures Valid() && fresh(state) && Now() == InitialState(key, 0, Zeros(4) + ToLE(nonce, 8))
    {
      hide U8To32, InitialState;
      state := new Word[16];
      new;
      state[0], state[1], state[2], state[3] := 0x61707865, 0x3320646e, 0x79622d32, 0x6b206574;
      state[4], state[5], state[6], state[7] := U8To32(key, 0), U8To32(key, 4), U8To32(key, 8), U8To32(key, 12);
      state[8], state[9], state[10], state[11] := U8To32(key, 16), U8To32(key, 20), U8To32(key, 24), U8To32(key, 28);
      state[12], state[13] := 0, 0;
      state[14], state[15] := nonce % 0x1_0000_0000, nonce / 0x1_0000_0000;
      InitialWords(key, nonce);
    }

    /** chacha20_block */
    method NextBlock(stream: array<byte>)
      requires Valid() && stream.Length == 64
      modifies stream
      ensures stream[..] == Block(Now())
    {
      hide DoubleRounds, WordBytes, AddW;
      var v := new Word[16];
      for i := 0 to 16
        modifies v
        invariant v[..i] == state[..i]
      {
        v[i] := state[i];
      }
      assert v[..] == state[..];
      TwentyRounds(v);
      var w: State := seq(16, i requires 0 <= i < 16 reads v, state => AddW(v[i], state[i]));
      assert w == AddState(v[..], state[..]);
      StoreWords(stream, w);
    }

    /** chacha20: whole blocks are used up, also by a short tail. */
    method Apply(out: array<byte>, o: nat, input: array<byte>, i: nat, len: nat)
      requires Valid() && o + len <= out.Length && i + len <= input.Length
      requires out == input ==> o <= i || i + len <= o
      modifies state, out
      ensures out[..] == old(out[..o]) + Crypt(old(Now()), old(input[i..i + len])) + old(out[o + len..])
      ensures Now() == Ahead(old(Now()), Blocks(len))
    {
      hide Block, Crypt;
      AheadNone(Now());
      if len != 0 {
        ApplyBlocks(out, o, input, i, len);
      } else {
        EmptyCrypt(Now());
        assert out[..] == out[..o] + [] + out[o..];
      }
    }

    /** The loop of chacha20. */
    method ApplyBlocks(out: array<byte>, o: nat, input: array<byte>, i: nat, len: nat)
      requires Valid() && 0 < len && o + len <= out.Length && i + len <= input.Length
      requires out == input ==> o <= i || i + len <= o
      modifies state, out
      ensures Now() == Ahead(old(Now()), Blocks(len))
      ensures forall k :: o <= k < o + len ==> out[k] == Crypt(old(Now()), old(input[i..i + len]))[k - o]
      ensures forall k :: 0 <= k < out.Length && !(o <= k < o + len) ==> out[k] == old(out[k])
    {
      hide Block, Crypt, Ahead, XorByte;
      var stream := new byte[64];
      ghost var m, s := input[i..i + len], Now();
      AheadNone(s);
      var d := 0;
      while true
        modifies state, out, stream
        invariant 0 <= d < len && d % 64 == 0 && Now() == Ahead(s, d / 64)
        invariant forall k :: o <= k < o + d ==> out[k] == Crypt(s, m)[k - o]
        invariant forall k :: 0 <= k < out.Length && !(o <= k < o + d) ==> out[k] == old(out[k])
        invariant forall k :: i + d <= k < i + len ==> input[k] == old(input[k])
        decreases len - d
      {
        var n := if len - d <= 64 then len - d else 64;
        Turn(out, o, input, i, len, d, n, stream, s, m);
        if len - d <= 64 {
          return;
        }
        d := d + 64;
      }
    }

    /** One turn of that loop: n more bytes are encrypted, everything else stays. */
    method Turn(out: array<byte>, o: nat, input: array<byte>, i: nat, len: nat, d: nat, n: nat, stream: array<byte>,
                ghost s: State, ghost m: Bytes)
      requires Valid() && o + len <= out.Length && i + len <= input.Length && |m| == len
      requires out == input ==> o <= i || i + len <= o
      requires d + n <= len && d % 64 == 0 && n <= 64 == stream.Length && stream != out && stream != input
      requires Now() == Ahead(s, d / 64)
      requires forall k :: d <= k < len ==> input[i + k] == m[k]
      modifies state, out, stream
      ensures Now() == Ahead(s, d / 64 + 1)
      ensures forall k :: o + d <= k < o + d + n ==> out[k] == Crypt(s, m)[k - o]
      ensures forall k :: 0 <= k < out.Length && !(o + d <= k < o + d + n) ==> out[k] == old(out[k])
    {
      hide Block, Crypt, Ahead, XorByte;
      CryptOne(out, o + d, input, i + d, n, stream);
      CryptPart(s, m, d, n);
      AheadAdd(s, d / 64, 1);
    }

    /** A block of key stream, the counter step, the exclusive or. */
    method CryptOne(out: array<byte>, o: nat, input: array<byte>, i: nat, n: nat, stream: array<byte>)
      requires Valid() && n <= 64 == stream.Length && o + n <= out.Length && i + n <= input.Length
      requires out == input ==> o <= i || i + n <= o
      requires stream != out && stream != input
      modifies state, out, stream
      ensures Now() == Ahead(old(Now()), 1)
      ensures forall k :: o <= k < o + n ==> out[k] == XorByte(old(input[k - o + i]), Block(old(Now()))[k - o])
      ensures forall k :: 0 <= k < out.Length && !(o <= k < o + n) ==> out[k] == old(out[k])
    {
      hide Block, XorByte;
      NextBlock(stream);
      assert forall k :: 0 <= k < 64 ==> stream[k] == stream[..][k];
      state[12] := AddW(state[12], 1);
      for k := 0 to n
        modifies out
        invariant forall j :: o <= j < o + k ==> out[j] == XorByte(old(input[j - o + i]), stream[j - o])
        invariant forall j :: 0 <= j < out.Length && !(o <= j < o + k) ==> out[j] == old(out[j])
        invariant forall j :: i + k <= j < i + n ==> input[j] == old(input[j])
      {
        out[o + k] := XorByte(input[i + k], stream[k]);
      }
    }
  }

  /** n bytes from a block boundary on. */
  lemma CryptPart(s: State, m: Bytes, d: nat, n: nat)
    requires d % 64 == 0 && d + n <= |m| && n <= 64
    ensures forall k :: 0 <= k < n ==> Crypt(s, m)[d + k] == XorByte(m[d + k], Block(Ahead(s, d / 64))[k])
  {
    hide Block, XorByte, Ahead, Crypt;
    forall k | 0 <= k < n ensures Crypt(s, m)[d + k] == XorByte(m[d + k], Block(Ahead(s, d / 64))[k]) {
      CryptAt(s, m, d + k);
    }
  }

  lemma EmptyCrypt(s: State)
    ensures Crypt(s, []) == []
  {
  }

  lemma KeyWords(key: Bytes)
    requires |key| == 32
    ensures BytesWords(key) == [U8To32(key, 0), U8To32(key, 4), U8To32(key, 8), U8To32(key, 12),
                                U8To32(key, 16), U8To32(key, 20), U8To32(key, 24), U8To32(key, 28)]
  {
    hide U8To32;
  }

  lemma NonceWords(nonce: nat)
    requires nonce < 0x1_0000_0000_0000_0000
    ensures BytesWords(Zeros(4) + ToLE(nonce, 8)) == [0, nonce % 0x1_0000_0000, nonce / 0x1_0000_0000]
  {
    hide ToLE;
    var b := Zeros(4) + ToLE(nonce, 8);
    ToLEHalves(nonce);
    WordLE(nonce);
    WordLE(nonce / 0x1_0000_0000);
    LowWord(nonce);
    LowWord(nonce / 0x1_0000_0000);
    assert b[..4] == Zeros(4) && b[4..8] == ToLE(nonce, 4) && b[8..] == ToLE(nonce / 0x1_0000_0000, 4);
    assert forall k :: 0 <= k < 4 ==> b[4 + k] == b[4..8][k] && b[8 + k] == b[8..][k];
  }

  /** The initial state word by word. */
  lemma InitialWords(key: Bytes, nonce: nat)
    requires |key| == 32 && nonce < 0x1_0000_0000_0000_0000
    ensures InitialState(key, 0, Zeros(4) + ToLE(nonce, 8))
         == [0x61707865, 0x3320646e, 0x79622d32, 0x6b206574,
             U8To32(key, 0), U8To32(key, 4), U8To32(key, 8), U8To32(key, 12),
             U8To32(key, 16), U8To32(key, 20), U8To32(key, 24), U8To32(key, 28),
             0, 0, nonce % 0x1_0000_0000, nonce / 0x1_0000_0000]
  {
    hide U8To32, BytesWords, ToLE, Zeros;
    KeyWords(key);
    NonceWords(nonce);
  }

  lemma ToLEStep(v: nat, n: nat)
    ensures ToLE(v, n + 1) == [v % 256] + ToLE(v / 256, n)
  {
  }

  lemma ToLEHalves(v: nat)
    ensures ToLE(v, 8) == ToLE(v, 4) + ToLE(v / 0x1_0000_0000, 4)
  {
    hide ToLE;
    ToLEStep(v, 7);
    ToLEStep(v / 256, 6);
    ToLEStep(v / 256 / 256, 5);
    ToLEStep(v / 256 / 256 / 256, 4);
    assert v / 256 / 256 / 256 / 256 == v / 0x1_0000_0000;
    WordLE(v);
  }

  lemma LowWord(v: nat)
    ensures v % 256 + 0x100 * (v / 256 % 256) + 0x10000 * (v / 256 / 256 % 256)
            + 0x1000000 * (v / 256 / 256 / 256 % 256) == v % 0x1_0000_0000
  {
    var a, b, c, d := v / 256, v / 256 / 256, v / 256 / 256 / 256, v / 256 / 256 / 256 / 256;
    assert v == 256 * a + v % 256 && a == 256 * b + a % 256 && b == 256 * c + b % 256 && c == 256 * d + c % 256;
  }

  /** hchacha20 */
  method HChaCha20(out: array<byte>, nonce: Bytes, key: Bytes)
    requires |key| == 32 && |nonce| == 16 && out.Length == 32
    modifies out
    ensures out[..] == HChaCha(key, nonce)
  {
    hide DoubleRounds, WordBytes, U8To32;
    var init := SIGMA + BytesWords(key) + BytesWords(nonce);
    var v := new Word[16](i requires 0 <= i < 16 => init[i]);
    assert v[..] == init;
    TwentyRounds(v);
    StoreWords(out, v[..4] + v[12..]);
  }
}
