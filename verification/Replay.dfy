/** wireguard_check_replay: a sliding window over N 64-bit words, shifted in place. */
module Replay {
  import opened Bits

  type U64 = x: int | 0 <= x < 0x1_0000_0000_0000_0000

  // ---- specification ----

  /** What the window remembers, in packet numbers counted from 1: the largest number accepted, and
      the accepted numbers less than size below it. */
  datatype Window = Window(counter: nat, seen: set<nat>)

  /** The 1-based number of a packet counter; the last counter wraps to 0. */
  function Number(ctr: U64): nat { (ctr + 1) % 0x1_0000_0000_0000_0000 }

  predicate Fresh(w: Window, size: nat, ctr: U64) {
    var n := Number(ctr);
    n != 0 && (n > w.counter || (w.counter - n < size && n !in w.seen))
  }

  function Mark(w: Window, size: nat, ctr: U64): Window {
    var n := Number(ctr);
    var c := if n > w.counter then n else w.counter;
    Window(c, Recent(w.seen + {n}, c, size))
  }

  /** The packets a window that reaches up to c still remembers. */
  function Recent(seen: set<nat>, c: nat, size: nat): set<nat> { set m | m in seen && c - m < size }

  /** The window after a sequence of calls, and the counters accepted in it. */
  function After(size: nat, calls: seq<U64>): Window {
    if calls == [] then Window(0, {})
    else
      var w := After(size, calls[..|calls| - 1]);
      var s := calls[|calls| - 1];
      if Fresh(w, size, s) then Mark(w, size, s) else w
  }

  function Accepted(size: nat, calls: seq<U64>): set<U64> {
    if calls == [] then {}
    else
      var s := calls[|calls| - 1];
      Accepted(size, calls[..|calls| - 1])
      + (if Fresh(After(size, calls[..|calls| - 1]), size, s) then {s} else {})
  }

  /** The window is a function of the set of accepted counters. */
  ghost predicate Remembers(w: Window, size: nat, accepted: set<U64>) {
    && (forall a :: a in accepted ==> a + 1 <= w.counter && a + 1 < 0x1_0000_0000_0000_0000)
    && (w.counter > 0 ==> w.counter - 1 in accepted)
    && (forall n :: n in w.seen <==> n > 0 && n - 1 in accepted && w.counter - n < size)
  }

  lemma MarkRemembers(w: Window, size: nat, accepted: set<U64>, s: U64)
    requires size > 0 && Remembers(w, size, accepted) && Fresh(w, size, s)
    ensures Remembers(Mark(w, size, s), size, accepted + {s})
  {
    var w' := Mark(w, size, s);
    forall n ensures n in w'.seen <==> n > 0 && n - 1 in accepted + {s} && w'.counter - n < size {
      if n == s + 1 {
      } else if n in w.seen {
      } else if n > 0 && n - 1 in accepted {
        assert n <= w.counter;
      }
    }
  }

  lemma {:induction false} AfterRemembers(size: nat, calls: seq<U64>)
    requires size > 0
    ensures Remembers(After(size, calls), size, Accepted(size, calls))
  {
    if calls != [] {
      var before, s := calls[..|calls| - 1], calls[|calls| - 1];
      AfterRemembers(size, before);
      if Fresh(After(size, before), size, s) {
        MarkRemembers(After(size, before), size, Accepted(size, before), s);
      }
    }
  }

  /** After any sequence of calls, a counter is accepted exactly if it is not 2^64 - 1, was never
      accepted before, and is within size of the largest accepted one. */
  lemma FreshExactly(size: nat, calls: seq<U64>, s: U64)
    requires size > 0
    ensures Fresh(After(size, calls), size, s) <==>
            && s != 0xffff_ffff_ffff_ffff
            && s !in Accepted(size, calls)
            && (forall a :: a in Accepted(size, calls) ==> s + size > a)
  {
    AfterRemembers(size, calls);
    var w, acc := After(size, calls), Accepted(size, calls);
    assert s != 0xffff_ffff_ffff_ffff ==> Number(s) == s + 1;
    if w.counter > 0 {
      assert w.counter - 1 in acc;
    }
  }

  // ---- the bitmap ----

  function WordBit(words: seq<U64>, j: nat): bool
    requires j < 64 * |words|
  {
    Bit(words[j / 64], j % 64)
  }

  /** v = bitmap[i - word_shift] << bit_shift, with the bits carried over from the word below. */
  function ShiftedWord(words: seq<U64>, ws: nat, bs: nat, i: nat): nat
    requires i < |words| && bs < 64
  {
    if i < ws then 0
    else
      var v := Pow2(bs) * words[i - ws] % 0x1_0000_0000_0000_0000;
      if bs != 0 && i > ws then Or(v, Shr(words[i - ws - 1], 64 - bs)) else v
  }

  lemma ShiftedWordFits(words: seq<U64>, ws: nat, bs: nat, i: nat)
    requires i < |words| && bs < 64
    ensures ShiftedWord(words, ws, bs, i) < 0x1_0000_0000_0000_0000
  {
    hide Pow2, Or, Shr;
    Pow2Values();
    if i >= ws && bs != 0 && i > ws {
      ShrBound(words[i - ws - 1], 64 - bs);
      OrBound(Pow2(bs) * words[i - ws] % 0x1_0000_0000_0000_0000, Shr(words[i - ws - 1], 64 - bs), 64);
    }
  }

  lemma {:induction false} ShrBound(x: nat, k: nat)
    ensures Shr(x, k) <= x
  {
    if k > 0 {
      ShrBound(x / 2, k - 1);
    }
  }

  /** Bits past the word are gone. */
  lemma {:induction false} BitHigh(x: nat, k: nat, j: nat)
    requires x < Pow2(k) && j >= k
    ensures !Bit(x, j)
  {
    if k == 0 {
      BitZero(j);
    } else {
      BitHigh(x / 2, k - 1, j - 1);
    }
  }

  /** Word by word, the shift moves bit j - diff to bit j across word boundaries. */
  lemma ShiftedBit(words: seq<U64>, ws: nat, bs: nat, i: nat, t: nat)
    requires i < |words| && bs < 64 && t < 64
    ensures Bit(ShiftedWord(words, ws, bs, i), t) ==
            (64 * i + t >= 64 * ws + bs && WordBit(words, 64 * i + t - (64 * ws + bs)))
  {
    hide Bit, Pow2, Or, Shr;
    if i < ws {
      BitZero(t);
    } else {
      var x := words[i - ws];
      LowPart(x, bs, t);
      if t >= bs {
        assert (64 * i + t - (64 * ws + bs)) / 64 == i - ws && (64 * i + t - (64 * ws + bs)) % 64 == t - bs;
      } else if i > ws {
        assert (64 * i + t - (64 * ws + bs)) / 64 == i - ws - 1;
        assert (64 * i + t - (64 * ws + bs)) % 64 == 64 + t - bs;
      }
      if bs != 0 && i > ws {
        var y := words[i - ws - 1];
        BitOr(Pow2(bs) * x % 0x1_0000_0000_0000_0000, Shr(y, 64 - bs), t);
        BitShr(y, 64 - bs, t);
        if t >= bs {
          Pow2Values();
          BitHigh(y, 64, t + 64 - bs);
        }
      }
    }
  }

  lemma LowPart(x: U64, bs: nat, t: nat)
    requires t < 64
    ensures Bit(Pow2(bs) * x % 0x1_0000_0000_0000_0000, t) == (t >= bs && Bit(x, t - bs))
  {
    hide Bit, Pow2;
    Pow2Values();
    BitMod(Pow2(bs) * x, 64, t);
    BitShl(x, bs, t);
  }

  /** Bit j of the bitmap stands for packet number counter - j. */
  predicate Marks(words: seq<U64>, counter: nat, n: nat) {
    n <= counter && counter - n < 64 * |words| && WordBit(words, counter - n)
  }

  ghost function Seen(words: seq<U64>, counter: nat): set<nat> {
    set n | 1 <= n <= counter && Marks(words, counter, n)
  }

  /** A bitmap shifted by diff, with bit 0 set. */
  predicate Slid(words: seq<U64>, words': seq<U64>, diff: nat) {
    && |words| == |words'|
    && forall j :: 0 <= j < 64 * |words| ==>
         WordBit(words', j) == (j == 0 || (j >= diff && WordBit(words, j - diff)))
  }

  /** Such a bitmap remembers the same numbers and the new largest one. */
  lemma SlidSeen(words: seq<U64>, words': seq<U64>, c: nat, n: nat)
    requires c < n && Slid(words, words', n - c) && |words| > 0
    ensures Seen(words', n) == Recent(Seen(words, c) + {n}, n, 64 * |words|)
  {
    hide WordBit;
    var target := Recent(Seen(words, c) + {n}, n, 64 * |words|);
    forall m ensures m in Seen(words', n) <==> m in target {
      if 1 <= m <= n && n - m < 64 * |words| {
        assert WordBit(words', n - m) == (n == m || (c >= m && WordBit(words, c - m)));
      }
    }
  }

  lemma MarkedSeen(words: seq<U64>, words': seq<U64>, c: nat, n: nat)
    requires |words| == |words'| && 1 <= n <= c && c - n < 64 * |words|
    requires forall j :: 0 <= j < 64 * |words| ==> WordBit(words', j) == (j == c - n || WordBit(words, j))
    ensures Seen(words', c) == Recent(Seen(words, c) + {n}, c, 64 * |words|)
  {
    hide WordBit;
  }

  class ReplayWindow {
    const bitmap: array<U64>
    var counter: U64

    ghost predicate Valid()
      reads this
    {
      bitmap.Length >= 1
    }

    ghost function Size(): nat { 64 * bitmap.Length }

    ghost function Contents(): Window
      reads this, bitmap
    {
      Window(counter, Seen(bitmap[..], counter))
    }

    constructor (words: nat)
      requires words >= 1
      ensures Valid() && bitmap.Length == words && fresh(bitmap) && Contents() == Window(0, {})
    {
      bitmap := new U64[words](i => 0);
      counter := 0;
    }

    /** The window of a keypair whose counter and bitmap are given. */
    constructor Of(words: seq<U64>, counter: U64)
      requires |words| >= 1
      ensures Valid() && bitmap.Length == |words| && fresh(bitmap)
      ensures Contents() == Window(counter, Seen(words, counter))
    {
      bitmap := new U64[|words|](i requires 0 <= i < |words| => words[i]);
      this.counter := counter;
      new;
      assert bitmap[..] == words;
    }

    /** The in-window shift: every word from the top down takes the words word_shift below it. */
    method Shift(diff: nat)
      requires Valid() && diff < Size()
      modifies bitmap
      ensures forall j :: 0 <= j < Size() ==>
                WordBit(bitmap[..], j) == (j >= diff && WordBit(old(bitmap[..]), j - diff))
    {
      hide ShiftedWord, Bit;
      var ws, bs := diff / 64, diff % 64;
      ghost var words := bitmap[..];
      var i := bitmap.Length - 1;
      while i >= 0
        invariant -1 <= i < bitmap.Length
        invariant bitmap[..i + 1] == words[..i + 1]
        invariant forall k :: i < k < bitmap.Length ==> bitmap[k] == ShiftedWord(words, ws, bs, k)
      {
        ShiftedWordFits(words, ws, bs, i);
        ShiftedPrefix(words, bitmap[..], ws, bs, i);
        bitmap[i] := ShiftedWord(bitmap[..], ws, bs, i);
        i := i - 1;
      }
      forall j | 0 <= j < Size() ensures WordBit(bitmap[..], j) == (j >= diff && WordBit(words, j - diff)) {
        ShiftedBit(words, ws, bs, j / 64, j % 64);
      }
    }

    /** wireguard_check_replay */
    method Check(ctr: U64) returns (result: bool)
      requires Valid()
      modifies this`counter, bitmap
      ensures Valid()
      ensures result == Fresh(old(Contents()), Size(), ctr)
      ensures Contents() == if result then Mark(old(Contents()), Size(), ctr) else old(Contents())
    {
      hide Seen, Mark, Marks;
      result := false;
      var n: U64 := (ctr + 1) % 0x1_0000_0000_0000_0000;
      if n != 0 {
        if n > counter {
          Advance(ctr, n);
          result := true;
        } else {
          result := Within(ctr, n);
        }
      }
    }

    /** A larger counter: the window moves up to it. */
    method Advance(ctr: U64, n: U64)
      requires Valid() && n == ctr + 1 > counter
      modifies this`counter, bitmap
      ensures Valid() && Contents() == Mark(old(Contents()), Size(), ctr)
    {
      hide Slid, Seen, Recent;
      ghost var words := bitmap[..];
      Slide(n - counter);
      SlidSeen(words, bitmap[..], counter, n);
      counter := n;
    }

    /** Shift and set bit 0, or start afresh if the step is wider than the window. */
    method Slide(diff: nat)
      requires Valid() && diff > 0
      modifies bitmap
      ensures Slid(old(bitmap[..]), bitmap[..], diff)
    {
      hide WordBit;
      if diff < 64 * bitmap.Length {
        Shift(diff);
        SetBit(0);
      } else {
        Wipe();
      }
    }

    /** A counter not larger: too old, or its bit is tested and set. */
    method Within(ctr: U64, n: U64) returns (result: bool)
      requires Valid() && n == ctr + 1 <= counter
      modifies bitmap
      ensures result == Fresh(old(Contents()), Size(), ctr)
      ensures Contents() == if result then Mark(old(Contents()), Size(), ctr) else old(Contents())
    {
      hide WordBit, Seen, And, Pow2, Marks, Recent;
      ghost var words := bitmap[..];
      result := false;
      var diff := counter - n;
      if diff < 64 * bitmap.Length {
        TestBit(bitmap[..], diff);
        SeenBit(words, counter, n);
        if And(bitmap[diff / 64], Pow2(diff % 64)) != 0 {
        } else {
          SetBit(diff);
          MarkedSeen(words, bitmap[..], counter, n);
          result := true;
        }
      }
    }

    /** bitmap[word] |= bit */
    method SetBit(j: nat)
      requires Valid() && j < Size()
      modifies bitmap
      ensures forall k :: 0 <= k < Size() ==> WordBit(bitmap[..], k) == (k == j || old(WordBit(bitmap[..], k)))
    {
      hide Bit, Or, Pow2;
      ghost var words := bitmap[..];
      var x := bitmap[j / 64];
      SetInWord(x, j % 64);
      bitmap[j / 64] := Or(x, Pow2(j % 64));
      forall k | 0 <= k < Size() ensures WordBit(bitmap[..], k) == (k == j || WordBit(words, k)) {
        BitOr(x, Pow2(j % 64), k % 64);
        BitPow2(j % 64, k % 64);
      }
    }

    /** memset to zero, then bitmap[0] = 1 */
    method Wipe()
      requires Valid()
      modifies bitmap
      ensures forall k :: 0 <= k < Size() ==> WordBit(bitmap[..], k) == (k == 0)
    {
      hide Bit;
      for i := 0 to bitmap.Length
        invariant forall k :: 0 <= k < i ==> bitmap[k] == 0
      {
        bitmap[i] := 0;
      }
      bitmap[0] := 1;
      forall k | 0 <= k < Size() ensures WordBit(bitmap[..], k) == (k == 0) {
        BitZero(k % 64);
        BitOne(k % 64);
      }
    }
  }

  lemma BitOne(j: nat)
    ensures Bit(1, j) == (j == 0)
  {
    if j > 0 {
      BitZero(j - 1);
    }
  }

  lemma SetInWord(x: U64, t: nat)
    requires t < 64
    ensures Or(x, Pow2(t)) < 0x1_0000_0000_0000_0000
  {
    hide Or, Pow2;
    Pow2Values();
    Pow2Less(t);
    OrBound(x, Pow2(t), 64);
  }

  lemma Pow2Less(t: nat)
    requires t < 64
    ensures Pow2(t) < Pow2(64)
  {
    Pow2Mono(t + 1, 64);
    assert Pow2(t + 1) == 2 * Pow2(t);
  }

  lemma TestBit(words: seq<U64>, j: nat)
    requires j < 64 * |words|
    ensures And(words[j / 64], Pow2(j % 64)) != 0 <==> WordBit(words, j)
  {
    AndPow2(words[j / 64], j % 64);
  }

  lemma SeenBit(words: seq<U64>, c: nat, n: nat)
    requires 1 <= n <= c && c - n < 64 * |words|
    ensures n in Seen(words, c) <==> WordBit(words, c - n)
  {
  }

  /** Only words at or below i enter the shifted word i. */
  lemma ShiftedPrefix(words: seq<U64>, now: seq<U64>, ws: nat, bs: nat, i: nat)
    requires i < |words| == |now| && bs < 64 && now[..i + 1] == words[..i + 1]
    ensures ShiftedWord(now, ws, bs, i) == ShiftedWord(words, ws, bs, i)
  {
    if i >= ws {
      assert now[i - ws] == now[..i + 1][i - ws] == words[i - ws];
      if i > ws {
        assert now[i - ws - 1] == now[..i + 1][i - ws - 1] == words[i - ws - 1];
      }
    }
  }
}
