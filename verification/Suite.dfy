/** The handshake's primitives as the reference code builds them.  Only the commuting of the two
    sides of a Diffie-Hellman exchange is left as an assumption. */
module Suite {
  import opened Bytes
  import Aead
  import Blake2s
  import opened Handshake
  import opened Kdf
  import opened Options

  function FromAead(p: Aead.Opened): Maybe<Bytes> {
    match p
    case Rejected => None
    case Plain(m) => Some(m)
  }

  function SealWith(k: Bytes, n: nat, ad: Bytes, m: Bytes): Bytes {
    if |k| == 32 && n < 0x1_0000_0000_0000_0000 then Aead.Seal(k, n, ad, m) else m
  }

  function OpenWith(k: Bytes, n: nat, ad: Bytes, c: Bytes): Maybe<Bytes> {
    if |k| == 32 && n < 0x1_0000_0000_0000_0000 then FromAead(Aead.Open(k, n, ad, c)) else Some(c)
  }

  function XSealWith(k: Bytes, n: Bytes, ad: Bytes, m: Bytes): Bytes {
    if |k| == 32 && |n| == 24 then Aead.XSeal(k, n, ad, m) else m
  }

  function XOpenWith(k: Bytes, n: Bytes, ad: Bytes, c: Bytes): Maybe<Bytes> {
    if |k| == 32 && |n| == 24 then FromAead(Aead.XOpen(k, n, ad, c)) else Some(c)
  }

  /** wireguard_mac; keys are never longer than 32 bytes. */
  function Mac16(k: Bytes, m: Bytes): Bytes {
    if |k| <= 32 then Blake2s.Hash(16, k, m) else []
  }

  function Concrete(publicKey: Bytes -> Bytes, dh: (Bytes, Bytes) -> Bytes): Primitives {
    Primitives(m => Blake2s.Hash(32, [], m), Mac16, publicKey, dh, SealWith, OpenWith, XSealWith, XOpenWith)
  }

  /** The laws the handshake and key derivation proofs use hold of the reference code. */
  lemma ConcreteLaws(publicKey: Bytes -> Bytes, dh: (Bytes, Bytes) -> Bytes)
    requires forall a, b :: dh(a, publicKey(b)) == dh(b, publicKey(a))
    ensures Laws(Concrete(publicKey, dh)) && HashIsBlake(Concrete(publicKey, dh))
  {
    hide Aead.Seal, Aead.Open, Aead.XSeal, Aead.XOpen, Blake2s.Hash;
    forall k, n: nat, ad, m ensures OpenWith(k, n, ad, SealWith(k, n, ad, m)) == Some(m) {
      if |k| == 32 && n < 0x1_0000_0000_0000_0000 {
        Aead.OpenExactlySealed(k, n, ad, m, Aead.Seal(k, n, ad, m));
      }
    }
    forall k, n: Bytes, ad, m ensures XOpenWith(k, n, ad, XSealWith(k, n, ad, m)) == Some(m) {
      if |k| == 32 && |n| == 24 {
        Aead.XOpenExactlySealed(k, n, ad, m, Aead.XSeal(k, n, ad, m));
      }
    }
  }
}
