/** The Poly1305 streaming machine: init, update, finish over a 16-byte leftover buffer. */
module Poly1305 {
  import opened Bits
  import opened Bytes
  import opened Poly1305Spec
  import opened Poly1305Limbs
  import opened Poly1305Final

  /** The accumulator a after the whole blocks of m, each marked by adding hi. */
  function Absorb(a: nat, r: nat, m: Bytes, hi: nat): nat
    decreases |m|
  {
    if |m| < 16 then a else Absorb(ModP((a + LE(m[..16]) + hi) * r), r, m[16..], hi)
  }

  /** Feeding whole blocks continues the accumulator of section 2.5.1 of RFC 8439. */
  lemma {:induction false} AbsorbIsAcc(r: nat, x: Bytes, m: Bytes)
    requires |x| % 16 == 0 && |m| % 16 == 0
    ensures Absorb(Acc(r, x), r, m, 0x1_00000000_00000000_00000000_00000000) == Acc(r, x + m)
    decreases |m|
  {
    hide Acc, ModP, LE, Pow2;
    if |m| == 0 {
      assert x + m == x;
    } else {
      AccBlock(r, x, m[..16]);
      AbsorbIsAcc(r, x + m[..16], m[16..]);
      assert (x + m[..16]) + m[16..] == x + m;
    }
  }

  lemma AccBlock(r: nat, x: Bytes, b: Bytes)
    requires |x| % 16 == 0 && |b| == 16
    ensures Acc(r, x + b) == ModP((Acc(r, x) + LE(b) + 0x1_00000000_00000000_00000000_00000000) * r)
  {
    hide ModP, LE, Pow2;
    assert (|x + b| - 1) / 16 * 16 == |x|;
    assert (x + b)[..|x|] == x && (x + b)[|x|..] == b;
    Pow2Values();
  }

  /** A short last block padded with 1 and zeros, absorbed without the marker, is the short block of
      section 2.5.1. */
  lemma ShortBlock(r: nat, x: Bytes, b: Bytes, padded: Bytes)
    requires |x| % 16 == 0 && 0 < |b| < 16 && padded == b + [1] + Zeros(15 - |b|)
    ensures Absorb(Acc(r, x), r, padded, 0) == Acc(r, x + b)
  {
    hide ModP, LE, Pow2;
    PaddedValue(b, padded);
    assert padded[..16] == padded && padded[16..] == [];
    assert (|x + b| - 1) / 16 * 16 == |x|;
    assert (x + b)[..|x|] == x && (x + b)[|x|..] == b;
  }

  lemma PaddedValue(b: Bytes, padded: Bytes)
    requires |b| < 16 && padded == b + [1] + Zeros(15 - |b|)
    ensures LE(padded) == LE(b) + Pow2(8 * |b|)
  {
    hide *;
    LEZeros(b + [1], 15 - |b|);
    LEConcat(b, [1]);
    LEOne();
  }

  lemma LEOne()
    ensures LE([1]) == 1
  {
    var b: Bytes := [1];
    assert b[1..] == [];
  }

  /** One block through the limbs is one step of the accumulator. */
  lemma BlockStep(h: Limbs, r: Limbs, m: Bytes, i: nat, hibit: nat)
    requires i + 16 <= |m| && LoopBounds(h) && ClampedLimbs(r) && (hibit == 0 || hibit == 0x1000000)
    ensures var h' := MulReduce(AddLimbs(h, BlockLimbs(m, i, hibit)), r);
            && LoopBounds(h')
            && ModP(Val(h'))
               == ModP((ModP(Val(h)) + LE(m[i..i + 16]) + 0x100_0000_0000_0000_0000_0000_0000 * hibit) * Val(r))
  {
    hide *;
    var t := BlockLimbs(m, i, hibit);
    BlockLimbsValue(m, i, hibit);
    AddLimbsExact(h, t);
    MulReduceCorrect(AddLimbs(h, t), r);
    ModPSumTimes(Val(h), Val(t), Val(r));
  }

  lemma ModPSumTimes(x: nat, y: nat, z: nat)
    ensures ModP((ModP(x) + y) * z) == ModP((x + y) * z)
  {
    Arith.ModMulLeft(ModP(x) + y, x + y, z, 0x3_ffffffff_ffffffff_ffffffff_fffffffb);
  }

  lemma LoadPad(key: Bytes)
    requires |key| == 32
    ensures WordsValue(LoadWords(key, 16)) == LE(key[16..])
  {
    hide LE, U8To32;
    LE16(key, 16);
    assert key[16..16 + 16] == key[16..];
  }

  lemma ZeroLimbs(r: nat)
    ensures Acc(r, []) == 0
    ensures LoopBounds(Limbs(0, 0, 0, 0, 0)) && Val(Limbs(0, 0, 0, 0, 0)) == 0 && ModP(0) == 0
  {
  }

  class Context {
    var r: Limbs
    var h: Limbs
    var pad: Words
    var leftover: nat
    const buffer: array<byte>
    var final: bool

    ghost var key: Bytes       // the one-time key of init
    ghost var absorbed: Bytes  // the whole blocks that went through the accumulator

    ghost predicate Keyed()
      reads this
    {
      && buffer.Length == 16 && |key| == 32
      && ClampedLimbs(r) && Val(r) == ClampedR(key)
      && Words32(pad) && WordsValue(pad) == LE(key[16..])
      && LoopBounds(h)
    }

    ghost predicate Ready()
      reads this
    {
      && Keyed() && !final && |absorbed| % 16 == 0
      && ModP(Val(h)) == Acc(ClampedR(key), absorbed)
    }

    ghost predicate Valid()
      reads this
    {
      Ready() && leftover < 16
    }

    /** Everything that update was given since init. */
    ghost function Contents(): Bytes
      requires Valid()
      reads this, buffer
    {
      absorbed + buffer[..leftover]
    }

    /** poly1305_init */
    constructor (key: Bytes)
      requires |key| == 32
      ensures Valid() && fresh(buffer) && this.key == key && Contents() == []
    {
      hide LoadR, LoadWords, LoopBounds, ClampedLimbs, Val, ModP, LE, ClampedR, Words32, WordsValue, Acc;
      r := LoadR(key);
      h := Limbs(0, 0, 0, 0, 0);
      pad := LoadWords(key, 16);
      leftover := 0;
      buffer := new byte[16](i => 0);
      final := false;
      this.key := key;
      absorbed := [];
      new;
      LoadRIsClamped(key);
      LoadPad(key);
      ZeroLimbs(ClampedR(key));
    }

    /** poly1305_blocks */
    method Blocks(m: Bytes)
      requires Keyed()
      modifies this`h
      ensures Keyed()
      ensures ModP(Val(h)) == Absorb(old(ModP(Val(h))), ClampedR(key), m,
                                     if final then 0 else 0x1_00000000_00000000_00000000_00000000)
    {
      hide LoopBounds, ClampedLimbs, Val, ModP, MulReduce, AddLimbs, BlockLimbs, LE, ClampedR, Words32, WordsValue;
      var hibit := if final then 0 else 0x1000000;
      ghost var hi := if final then 0 else 0x1_00000000_00000000_00000000_00000000;
      var h' := h;
      ghost var a := ModP(Val(h));
      var i := 0;
      while |m| - i >= 16
        invariant 0 <= i <= |m| && LoopBounds(h')
        invariant Absorb(ModP(Val(h')), ClampedR(key), m[i..], hi) == Absorb(a, ClampedR(key), m, hi)
      {
        BlockStep(h', r, m, i, hibit);
        assert m[i..][..16] == m[i..i + 16] && m[i..][16..] == m[i + 16..];
        h' := MulReduce(AddLimbs(h', BlockLimbs(m, i, hibit)), r);
        i := i + 16;
      }
      assert Absorb(ModP(Val(h')), ClampedR(key), m[i..], hi) == ModP(Val(h'));
      h := h';
    }

    /** Blocks before the last one, recorded in the ghost message. */
    method WholeBlocks(m: Bytes)
      requires Ready() && |m| % 16 == 0
      modifies this`h, this`absorbed
      ensures Ready() && absorbed == old(absorbed) + m
    {
      hide LoopBounds, ClampedLimbs, Val, ModP, LE, ClampedR, Words32, WordsValue, Acc, Absorb;
      Blocks(m);
      AbsorbIsAcc(ClampedR(key), absorbed, m);
      absorbed := absorbed + m;
    }

    /** "handle leftover": top up a partly filled buffer and absorb it once it is full. */
    method TopUp(m: Bytes) returns (rest: Bytes)
      requires Valid()
      modifies this`h, this`leftover, this`absorbed, buffer
      ensures Valid() && Contents() + rest == old(Contents()) + m
      ensures leftover == 0 || rest == []
    {
      hide LoopBounds, ClampedLimbs, Val, ModP, LE, ClampedR, Words32, WordsValue, Acc;
      rest := m;
      if leftover != 0 {
        var want := if 16 - leftover > |m| then |m| else 16 - leftover;
        Fill(m[..want]);
        rest := m[want..];
        assert m == m[..want] + rest;
        if leftover < 16 {
          return;
        }
        WholeBlocks(buffer[..]);
        leftover := 0;
      }
    }

    /** poly1305_update */
    method Update(m: Bytes)
      requires Valid()
      modifies this`h, this`leftover, this`absorbed, buffer
      ensures Valid() && Contents() == old(Contents()) + m
    {
      hide LoopBounds, ClampedLimbs, Val, ModP, LE, ClampedR, Words32, WordsValue, Acc;
      var rest := TopUp(m);
      if leftover != 0 {
        return;
      }
      if |rest| >= 16 {
        var want := |rest| / 16 * 16;
        assert rest == rest[..want] + rest[want..];
        WholeBlocks(rest[..want]);
        rest := rest[want..];
      }
      if |rest| != 0 {
        Fill(rest);
      }
    }

    /** The copy loops of update: append m to the buffer. */
    method Fill(m: Bytes)
      requires buffer.Length == 16 && leftover + |m| <= 16
      modifies this`leftover, buffer
      ensures leftover == old(leftover) + |m|
      ensures buffer[..leftover] == old(buffer[..leftover]) + m
    {
      for i := 0 to |m|
        modifies buffer
        invariant buffer[..leftover + i] == old(buffer[..leftover]) + m[..i]
      {
        buffer[leftover + i] := m[i];
      }
      assert m[..|m|] == m;
      leftover := leftover + |m|;
    }

    /** poly1305_finish, storing the tag at mac[off..off + 16] and wiping the key material. */
    method Finish(mac: array<byte>, off: nat)
      requires Valid() && off + 16 <= mac.Length && mac != buffer
      modifies this, buffer, mac
      ensures mac[..] == old(mac[..off]) + Tag(old(key), old(Contents())) + old(mac[off + 16..])
      ensures h == Limbs(0, 0, 0, 0, 0) && r == Limbs(0, 0, 0, 0, 0) && pad == Words(0, 0, 0, 0)
    {
      hide LoopBounds, ClampedLimbs, Val, ModP, LE, ClampedR, Words32, WordsValue, Acc, Absorb, Mod128, ToLE;
      hide Poly1305Final.Finish;
      ghost var msg := Contents();
      if leftover != 0 {
        ghost var tail := buffer[..leftover];
        var i := leftover;
        buffer[i] := 1;
        i := i + 1;
        while i < 16
          modifies buffer
          invariant leftover < i <= 16
          invariant buffer[..i] == tail + [1] + Zeros(i - leftover - 1)
        {
          buffer[i] := 0;
          i := i + 1;
        }
        final := true;
        Blocks(buffer[..]);
        assert buffer[..] == tail + [1] + Zeros(15 - leftover);
        ShortBlock(ClampedR(key), absorbed, tail, buffer[..]);
      } else {
        assert msg == absorbed;
      }
      assert ModP(Val(h)) == Acc(ClampedR(key), msg);
      FinishCorrect(h, pad);
      var t := Poly1305Final.Finish(h, pad);
      assert t == Tag(key, msg);
      Store(mac, off, t);
      h, r, pad := Limbs(0, 0, 0, 0, 0), Limbs(0, 0, 0, 0, 0), Words(0, 0, 0, 0);
    }
  }

  /** Byte stores t[0], t[1], ... at mac[off..]. */
  method Store(mac: array<byte>, off: nat, t: Bytes)
    requires off + |t| <= mac.Length
    modifies mac
    ensures mac[..] == old(mac[..off]) + t + old(mac[off + |t|..])
  {
    for i := 0 to |t|
      invariant mac[..off] == old(mac[..off]) && mac[off..off + i] == t[..i]
      invariant mac[off + |t|..] == old(mac[off + |t|..])
    {
      mac[off + i] := t[i];
    }
    assert mac[..] == mac[..off] + mac[off..off + |t|] + mac[off + |t|..];
  }
}
