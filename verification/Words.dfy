/** 32-bit words with wrapping addition, exclusive or and rotation. */
module Words {
  import opened Bits
  import opened Bytes

  function AddW(x: Word, y: Word): Word { (x + y) % 0x1_0000_0000 }

  lemma XorWordFits(x: nat, y: nat)
    requires x < 0x1_0000_0000 && y < 0x1_0000_0000
    ensures Xor(x, y) < 0x1_0000_0000
  {
    hide Xor, Pow2;
    Pow2Values();
    XorBound(x, y, 32);
  }

  function XorW(x: Word, y: Word): Word {
    XorWordFits(x, y);
    Xor(x, y)
  }

  /** x shifted left by n, out of the 32-bit word. */
  function ShlW(x: Word, n: nat): Word {
    Pow2(n) * x % 0x1_0000_0000
  }

  function ShrW(x: Word, n: nat): (r: Word) {
    ShrFits(x, n);
    Shr(x, n)
  }

  lemma {:induction false} ShrFits(x: nat, n: nat)
    ensures Shr(x, n) <= x
  {
    if n > 0 {
      ShrFits(x / 2, n - 1);
    }
  }

  /** The bytes of words, each least significant byte first. */
  function WordBytes(w: seq<Word>): (b: Bytes)
    ensures |b| == 4 * |w|
  {
    if w == [] then [] else WordBytes(w[..|w| - 1]) + ToLE(w[|w| - 1], 4)
  }

  /** Four bytes at a time as words. */
  function BytesWords(b: Bytes): (w: seq<Word>)
    ensures |w| == |b| / 4
  {
    seq(|b| / 4, i requires 0 <= i < |b| / 4 => U8To32(b, 4 * i))
  }

  lemma WordBytesPrefix(w: seq<Word>, i: nat)
    requires i < |w|
    ensures WordBytes(w[..i + 1]) == WordBytes(w[..i]) + ToLE(w[i], 4)
  {
    assert w[..i + 1][..i] == w[..i];
  }
}
