# A verified model of the NuttX WireGuard port

This project models the WireGuard implementation for NuttX under
`nuttx_port/apps/netutils/wireguard/` and proves what its cryptographic code computes and what its
session code keeps. `dafny verify dfyconfig.toml` checks all of it.

The code has two halves, and so has the model.

**Limb arithmetic and streaming cryptography** (`crypto/refc/`). Each machine-level routine is an
imperative method over arrays, with the C types' truncations written out, and is proved equal to the
standard's definition over the integers.

| file | what it holds |
|---|---|
| `Arith.dfy`, `Bits.dfy`, `Bytes.dfy`, `Words.dfy`, `Options.dfy` | residues, bit operations, little-endian numbers, 32-bit words, optional values |
| `Poly1305Limbs.dfy`, `Poly1305Final.dfy`, `Poly1305.dfy` | section 2.5 of RFC 8439; five 26-bit limbs with lazy carries; the streaming context |
| `Field25519.dfy`, `Limbs25519.dfy`, `X25519.dfy` | the field modulo 2^255 - 19 and the ladder of section 5 of RFC 7748; eight redundant 32-bit limbs; ladder and inversion chain; when the output is that of the standard |
| `Primes.dfy`, `Prime25519.dfy`, `Inverse25519.dfy`, `Twist25519.dfy` | Fermat's little theorem and Pocklington's test; a certificate that 2^255 - 19 is prime; inverses, and projective points that are only rescaled; the curve and its twist, told apart by the quadratic character |
| `Blake2s.dfy` | RFC 7693, lazily compressed block buffer, two-word counter |
| `ChaCha20.dfy`, `Aead.dfy` | RFC 8439 and its XChaCha20 variant, over caller buffers that may coincide |

**Sessions, configuration and the interface** (`wireguard.c`, `nuttx-wireguardif.c`, `nuttx-platform.c`).

| file | what it holds |
|---|---|
| `Replay.dfy` | the replay window as a set of packet numbers, and the bitmap that implements it |
| `Clock.dfy` | the wrapping millisecond clock that never reads 0, and the expiry test |
| `Session.dfy`, `SessionSafety.dfy`, `TrueTime.dfy`, `PeerDevice.dfy` | one peer as a state machine over datagrams, sends, timer passes and interface changes; what every run keeps; how old the sessions used are in true time; the peer as an object whose methods are the code's functions |
| `Indices.dfy` | session indices across the peers of a device: drawing one, and finding a datagram's peer |
| `Handshake.dfy`, `Kdf.dfy`, `Suite.dfy` | the Noise_IKpsk2 handshake over abstract primitives; HMAC and key derivation in place over BLAKE2s; this code's AEADs and hash as those primitives |
| `Shutdown.dfy` | receive task, transmit job and wg_down/wg_initialize interleaved step by step |
| `Load.dfy`, `Tai64n.dfy` | load shedding per second, and timestamps ordered by memcmp |
| `Routing.dfy` | longest-prefix match over allowed-ips, and the netmasks it ranks |
| `Base64.dfy`, `Conf.dfy` | key texts, and staging, writing and reading of wg(8) configuration files |

## Conventions

- A C object whose functions change it is a class; its methods' contracts give the whole new state as a
  function of the old one, and theorems are proved about that function. Arrays the C code works on in place
  are arrays here. Code over several tasks is a step relation.
- Machine words are naturals with the truncation of their C type written where C truncates.
  `& (2^k - 1)` is written as a remainder, `>> k` as a division, and `|` of fields that share no bit as a sum,
  except where a proof is about just that (`Poly1305Final`, `Aead.PaddedLen`, `Routing`, `Replay`).
- `unsigned long` and `limb_t` are 32 bits, `size_t` is bounded where the code's arithmetic needs it. The
  number of replay words, of peers and of allowed-ips is symbolic.
- In `Session.dfy` a session number stands for a pair of keys, whether a message authenticates is an input of
  the step, and the history is bookkeeping that no step reads: the sessions seeded, with role and time, and every
  packet sent or delivered, with how many deliveries came before a packet was sent.

## Where the code and its documentation differ

- `x25519` uses bit 255 of its input, against section 5 of RFC 7748, as its header warns, and runs 256 ladder
  steps instead of 255. `X25519.Core` is proved for that behaviour. `X25519.SameOutputAsRfc` shows that the result
  is that of the standard for every clamped scalar if that bit is clear, and `X25519.RfcExactly` that the two agree
  on all scalars below 2^255 only then; `X25519.TopBitChangesOutput` names points and a clamped scalar for which
  the outputs differ, and `X25519.ClampedExample` one of them.
- `wireguard_generate_unique_index` promises an index that is not in use on the device, but its loop keeps only
  the verdict of the last slot. `Indices.DeviceWideExactlyForOnePeer` shows when that is the same, and
  `Indices.ReachesItsPeer` what a shared index leads to.
- `REJECT_AFTER_TIME - keepalive - REKEY_TIMEOUT` wraps for keepalive intervals above 175 s, and the
  responder's deadline above 180 s. `Clock.RekeyDeadline` and `Clock.ResponderDeadline` give the exact bounds.
- wg_down says that it leaves wg0 up when the receive task does not stop in time. But the loop may be left, or the
  task gone, by the time running is set again, and no new receive task is created. `Shutdown.TimeoutOutcome`
  shows that this happens exactly if the task looked at running while wg_down waited, and
  `Shutdown.TimeoutCanLoseTask` gives a run for every polling limit.
- An interface flag set from outside between ifdown and unregister in wg_down, or between registration and a
  failing task creation in wg_initialize, outlives the socket. `Shutdown.ExactlyTheWindows` shows that these
  are the only such moments, and `Shutdown.EachWindowBreaksSafety` gives a run from the start for each.
- `wireguard_base64_decode` writes one byte for a group of one letter and three padding characters but counts
  none against the capacity. `Base64.OverrunExactly` says for which texts and capacities it writes a byte too
  many, `Base64.OverrunOfLoneLetter` gives one, and `Base64.DecodeKey` shows that key buffers are not affected,
  whatever the text.
- A comment in wg_setconf says that "wg up" refuses to start after a failed file because no peer is staged.
  The code falls back to the peer of the Kconfig options then (`Conf.FailedFileFallsBack`); there is no peer
  exactly if Kconfig names none (`Conf.FailedFileLeavesNoPeers`), and even so wg_initialize does not refuse.
- A peer that inherits its allowed-ips from Kconfig is written with whatever text stands there. A blank text makes
  the whole file fail (`Conf.BlankAddressFails`), but a text with a prefix of its own is read as that address and
  prefix, and its mask is lost (`Conf.InheritedPrefixIsTaken`). `Conf.WrittenIsReadBack` gives the exact condition
  under which a file is taken and what is then staged, `Conf.AddressKept` when it is the text that was written.
- The bound that the load threshold puts on initiations fails when a bucket's count wraps. `Load.SheddingExactly`
  shows that from the start of the device it holds for any n initiations if and only if n < 2^32 + threshold.
- A keypair is meant to be used for 180 s, but the age is a difference of 32-bit readings. `Clock.ExpiredExactly`
  says for which ages the test is right, and `TrueTime.YoungExactly` that a peer can send in an older session only
  when 2^32 - 1 ms have passed.

## Model

| member | source | states |
|---|---|---|
| Poly1305Limbs.ColumnsExact | nuttx_port/apps/netutils/wireguard/crypto/refc/poly1305-donna-32.h:88-112 | With the limb bounds the block loop keeps, none of the five 64-bit column sums wraps, and none of the factors 5 r_i leaves 32 bits. |
| Poly1305Limbs.ColumnsProduct | nuttx_port/apps/netutils/wireguard/crypto/refc/poly1305-donna-32.h:107-112 | The five columns differ from the full product h * r by an exact multiple of 2^130 - 5. |
| Poly1305Limbs.SumsExact | nuttx_port/apps/netutils/wireguard/crypto/refc/poly1305-donna-32.h:114-119 | No carry of the partial reduction is cut off by its 32-bit or 64-bit type. |
| Poly1305Limbs.FoldKeepsResidue | nuttx_port/apps/netutils/wireguard/crypto/refc/poly1305-donna-32.h:114-121 | Folding the top carry back in times 5 keeps the residue modulo 2^130 - 5. |
| Poly1305Limbs.CarryPass | nuttx_port/apps/netutils/wireguard/crypto/refc/poly1305-donna-32.h:114-121 | One carry pass restores h0, h2, h3, h4 < 2^26 and h1 < 2^26 + 2^6 and keeps the residue. |
| Poly1305Limbs.MulReduceCorrect | nuttx_port/apps/netutils/wireguard/crypto/refc/poly1305-donna-32.h:107-121 | Multiply and carry: the new limbs are congruent to h * r and within the loop bounds again. |
| Poly1305Limbs.BlockLimbsValue | nuttx_port/apps/netutils/wireguard/crypto/refc/poly1305-donna-32.h:100-105 | Regrouping four overlapping 32-bit loads into 26-bit limbs gives exactly the 16-byte little-endian value plus the marker bit. |
| Poly1305Limbs.AddLimbsExact | nuttx_port/apps/netutils/wireguard/crypto/refc/poly1305-donna-32.h:100-105 | Adding a message block limb by limb in 32 bits loses nothing. |
| Poly1305Limbs.LoadRIsClamped | nuttx_port/apps/netutils/wireguard/crypto/refc/poly1305-donna-32.h:49-54 | The five masked loads of poly1305_init are the clamped r of section 2.5 of RFC 8439, although the masks are applied limb by limb. |
| Poly1305Final.FullCarryCorrect | nuttx_port/apps/netutils/wireguard/crypto/refc/poly1305-donna-32.h:152-164 | Because the loop leaves only h1 over 26 bits, the single final carry pass leaves every limb below 2^26, with the residue kept. |
| Poly1305Final.MinusPCorrect | nuttx_port/apps/netutils/wireguard/crypto/refc/poly1305-donna-32.h:166-171 | The top bit of g4 is set exactly if h < p, and otherwise the g limbs are h - p. |
| Poly1305Final.ReducePicks | nuttx_port/apps/netutils/wireguard/crypto/refc/poly1305-donna-32.h:173-185 | The mask selection takes h or h - p without a branch. |
| Poly1305Final.ReduceCorrect | nuttx_port/apps/netutils/wireguard/crypto/refc/poly1305-donna-32.h:152-185 | After carry, trial subtraction and selection the limbs hold the least residue modulo 2^130 - 5. |
| Poly1305Final.PackCorrect | nuttx_port/apps/netutils/wireguard/crypto/refc/poly1305-donna-32.h:187-191 | Four 32-bit words assembled with or and shifts are the number modulo 2^128. |
| Poly1305Final.AddPadCorrect | nuttx_port/apps/netutils/wireguard/crypto/refc/poly1305-donna-32.h:193-197 | The four 64-bit additions with carry are addition of the pad modulo 2^128. |
| Poly1305Final.FinishCorrect | nuttx_port/apps/netutils/wireguard/crypto/refc/poly1305-donna-32.h:152-202 | poly1305_finish from limbs to bytes stores (h mod p + s) mod 2^128 little-endian. |
| Poly1305.BlockStep | nuttx_port/apps/netutils/wireguard/crypto/refc/poly1305-donna-32.h:99-125 | One turn of the block loop is one step a := (a + block) * r mod p of section 2.5.1 of RFC 8439 and keeps the limb bounds. |
| Poly1305.AbsorbIsAcc | nuttx_port/apps/netutils/wireguard/crypto/refc/poly1305-donna-32.h:73-132 | Feeding whole blocks continues the accumulator of the standard. |
| Poly1305.ShortBlock | nuttx_port/apps/netutils/wireguard/crypto/refc/poly1305-donna-32.h:142-150 | The final partial block, padded with 1 and zeros and processed without the marker bit, is the standard's last block. |
| Poly1305.Context.constructor | nuttx_port/apps/netutils/wireguard/crypto/refc/poly1305-donna-32.h:45-71 | After init the context is keyed with clamped r and the pad, and has absorbed nothing. |
| Poly1305.Context.Blocks | nuttx_port/apps/netutils/wireguard/crypto/refc/poly1305-donna-32.h:73-132 | The accumulator advances over all whole blocks, limb bounds kept. |
| Poly1305.Context.TopUp | nuttx_port/apps/netutils/wireguard/crypto/refc/poly1305-donna.c:11-25 | The leftover buffer is filled first and absorbed only when full; no byte is lost or reordered. |
| Poly1305.Context.Fill | nuttx_port/apps/netutils/wireguard/crypto/refc/poly1305-donna.c:16-20 | The copy loop appends to the leftover bytes. |
| Poly1305.Context.Update | nuttx_port/apps/netutils/wireguard/crypto/refc/poly1305-donna.c:6-41 | For every split of a message into updates, the bytes absorbed and buffered are the old ones followed by the new ones. |
| Poly1305.Context.Finish | nuttx_port/apps/netutils/wireguard/crypto/refc/poly1305-donna-32.h:134-219 | The 16 bytes stored are the tag of section 2.5.1 of RFC 8439 over everything updated; key material is zeroed and no other byte of the target buffer changes. |
| Limbs25519.UmaalFits | nuttx_port/apps/netutils/wireguard/crypto/refc/x25519.c:55-64 | A 32 by 32 bit product plus two words fits 64 bits. |
| Limbs25519.AdcSum | nuttx_port/apps/netutils/wireguard/crypto/refc/x25519.c:67-71 | The add-with-carry helper is exact for signed carries. |
| Limbs25519.AddWord | nuttx_port/apps/netutils/wireguard/crypto/refc/x25519.c:89-92 | The adc0 loop adds one word to eight limbs, the carry out accounted for. |
| Limbs25519.Propagate | nuttx_port/apps/netutils/wireguard/crypto/refc/x25519.c:84-93 | The result is congruent to x + 2^256 over, below 2^255 + 2^32, and no carry is lost. |
| Limbs25519.Add | nuttx_port/apps/netutils/wireguard/crypto/refc/x25519.c:95-102 | out is congruent to a + b and below 2^255 + 2^32, also when out is a or b. |
| Limbs25519.Sub | nuttx_port/apps/netutils/wireguard/crypto/refc/x25519.c:104-112 | The borrow chain that starts at -38 gives a - b mod 2^255 - 19, below 2^255 + 2^32, also when out aliases an operand. |
| Limbs25519.MulRow | nuttx_port/apps/netutils/wireguard/crypto/refc/x25519.c:138-145 | One schoolbook row adds exactly b[i] * a * 2^(32 i) to the accumulator. |
| Limbs25519.Product | nuttx_port/apps/netutils/wireguard/crypto/refc/x25519.c:132-145 | The sixteen accumulator limbs hold a times the first nb limbs of b. |
| Limbs25519.FoldProduct | nuttx_port/apps/netutils/wireguard/crypto/refc/x25519.c:147-151 | Bringing the high half back in times 38 leaves a carry of at most 38. |
| Limbs25519.MulLimbs | nuttx_port/apps/netutils/wireguard/crypto/refc/x25519.c:132-153 | out is congruent to a * b[..nb] and below 2^255 + 2^32, for every nb and also when out aliases an operand. |
| Limbs25519.Sqr | nuttx_port/apps/netutils/wireguard/crypto/refc/x25519.c:155-155 | Squaring through mul, in place or not. |
| Limbs25519.Mul1 | nuttx_port/apps/netutils/wireguard/crypto/refc/x25519.c:156-156 | In-place multiplication by another element. |
| Limbs25519.LeastResidue | nuttx_port/apps/netutils/wireguard/crypto/refc/x25519.c:174-192 | Adding 19 makes the final fold subtract the modulus exactly when the value reaches it. |
| Limbs25519.SubNineteen | nuttx_port/apps/netutils/wireguard/crypto/refc/x25519.c:194-200 | Taking the 19 off again is exact and collects whether any limb is non-zero. |
| Limbs25519.Canon | nuttx_port/apps/netutils/wireguard/crypto/refc/x25519.c:167-201 | The limbs become the unique least residue, and the result is all ones exactly if that residue is 0. |
| Field25519.DeferredIsRun | nuttx_port/apps/netutils/wireguard/crypto/refc/x25519.c:244-261 | Deferring and merging the conditional swaps, as the loop does, computes the plain ladder. |
| Field25519.StepScales | nuttx_port/apps/netutils/wireguard/crypto/refc/x25519.c:205-229 | A ladder step maps projectively equal points to projectively equal points. |
| Field25519.LeadingZeroStep | nuttx_port/apps/netutils/wireguard/crypto/refc/x25519.c:244-261 | A step on a leading zero bit only multiplies the points through by 4 and 4u. |
| Field25519.ExtraStepRescales | nuttx_port/apps/netutils/wireguard/crypto/refc/x25519.c:244-261 | Running 256 steps instead of the 255 of RFC 7748 only rescales both points, by factors given explicitly. |
| X25519.SwapWordPicks | nuttx_port/apps/netutils/wireguard/crypto/refc/x25519.c:159-165 | The masked exclusive or swaps two words or leaves them. |
| X25519.CondSwap | nuttx_port/apps/netutils/wireguard/crypto/refc/x25519.c:159-165 | All sixteen limbs are swapped or none is. |
| X25519.LadderPart1 | nuttx_port/apps/netutils/wireguard/crypto/refc/x25519.c:205-220 | The first half of the ladder step, in place with aliasing, computes the standard's intermediate values. |
| X25519.LadderPart2 | nuttx_port/apps/netutils/wireguard/crypto/refc/x25519.c:221-229 | The second half, in place. |
| X25519.HalvesMakeStep | nuttx_port/apps/netutils/wireguard/crypto/refc/x25519.c:205-229 | The two halves compose to the step printed in section 5 of RFC 7748, BB being recovered as AA - E. |
| X25519.LadderStep | nuttx_port/apps/netutils/wireguard/crypto/refc/x25519.c:205-229 | One turn of the ladder on the limb arrays is that step on residues. |
| X25519.BitOfLE | nuttx_port/apps/netutils/wireguard/crypto/refc/x25519.c:245-254 | Bit i of the scalar is bit i % 8 of byte i / 8. |
| X25519.ScalarBit | nuttx_port/apps/netutils/wireguard/crypto/refc/x25519.c:245-254 | Clamping byte by byte inside the loop gives the bits of the scalar decoded as in section 5 of RFC 7748. |
| X25519.ClampedTopBit | nuttx_port/apps/netutils/wireguard/crypto/refc/x25519.c:245-254 | A clamped scalar has bit 255 clear, so the extra step sees a zero. |
| X25519.SwapIn | nuttx_port/apps/netutils/wireguard/crypto/refc/x25519.c:114-121 | 32 bytes become eight limbs of the same value. |
| X25519.SwapOut | nuttx_port/apps/netutils/wireguard/crypto/refc/x25519.c:123-130 | Eight limbs become the 32 bytes of the same value. |
| X25519.Core | nuttx_port/apps/netutils/wireguard/crypto/refc/x25519.c:231-262 | For every scalar and every 256-bit u the arrays after the loop hold the x2, z2, x3, z3 of the pure recursion. |
| X25519.ChainEntryOk | nuttx_port/apps/netutils/wireguard/crypto/refc/x25519.c:274-297 | Every row of the 13-row table multiplies and squares arrays that hold the powers it needs. |
| X25519.SquareTimes | nuttx_port/apps/netutils/wireguard/crypto/refc/x25519.c:291-295 | The inner loop raises an element to the power 2^n, moving from the previous array to its own. |
| X25519.InvertChain | nuttx_port/apps/netutils/wireguard/crypto/refc/x25519.c:269-297 | After the table-driven loop xs[3] is z2^(2^255 - 21), the power that inverts. |
| Prime25519.Prime255 | nuttx_port/apps/netutils/wireguard/crypto/refc/x25519.c:267-311 | 2^255 - 19 is prime, which raising to the power p - 2 relies on: by Fermat's little theorem and a chain of certificates down to 991. |
| Inverse25519.InverseOf | nuttx_port/apps/netutils/wireguard/crypto/refc/x25519.c:267-311 | z^(p - 2) is the inverse of every non-zero residue, and 0 for 0. |
| Inverse25519.RescalingKeepsAffine | nuttx_port/apps/netutils/wireguard/crypto/refc/x25519.c:267-311 | Multiplying both coordinates of a projective point by a non-zero residue leaves x2 * z2^(p - 2) as it is. |
| Inverse25519.ZeroLadder | nuttx_port/apps/netutils/wireguard/crypto/refc/x25519.c:231-262 | From u = 0 every step leaves z2 = z3 = 0, so the output is 0 for every scalar. |
| Inverse25519.ExtraStepKeepsAffine | nuttx_port/apps/netutils/wireguard/crypto/refc/x25519.c:244-262 | For every scalar below 2^255 and every u, also u = 0, 256 ladder steps end in the same value as 255. |
| Inverse25519.OneGivesPoint | nuttx_port/apps/netutils/wireguard/crypto/refc/x25519.c:231-262 | The scalar 1 gives the point back, for every u and any number of leading zero steps. |
| X25519.X25519 | nuttx_port/apps/netutils/wireguard/crypto/refc/x25519.c:264-321 | The output is the least residue of x2 * z2^(p - 2), little-endian, and the return value is -1 exactly if clamping was asked for and the output is 0. |
| X25519.SamePointAsRfc | nuttx_port/apps/netutils/wireguard/crypto/refc/x25519.c:244-261 | The 256-step and the 255-step ladder end in the same projective point, for every 256-bit u. |
| X25519.SameOutputAsRfc | nuttx_port/apps/netutils/wireguard/crypto/refc/x25519.h:49-54 | The output is that of section 5 of RFC 7748, with its masking of the point and its 255 steps, for every clamped scalar and every point whose top bit is clear. |
| X25519.SameResidue | nuttx_port/apps/netutils/wireguard/crypto/refc/x25519.h:49-54 | The code and the standard read the same residue from a point if and only if its top bit is clear. |
| X25519.RfcExactly | nuttx_port/apps/netutils/wireguard/crypto/refc/x25519.h:49-54 | They agree on all scalars below 2^255 if and only if the top bit of the point is clear. |
| X25519.TopBitExample | nuttx_port/apps/netutils/wireguard/crypto/refc/x25519.h:49-54 | On the encoding of 2p, whose top bit is set, the code outputs 0 for every scalar, clamped or not; the standard reads p - 19 and returns it for the scalar 1. |
| Twist25519.DoubleOnTwist | nuttx_port/apps/netutils/wireguard/crypto/refc/x25519.c:205-229 | A ladder step on a zero bit keeps a point of the quadratic twist on the twist, and its x there is never a square. |
| Twist25519.DifferentSides | nuttx_port/apps/netutils/wireguard/crypto/refc/x25519.c:231-262 | For the scalar 2^254 a point of the curve and a point of its twist never have the same result. |
| X25519.TopBitChangesOutput | nuttx_port/apps/netutils/wireguard/crypto/refc/x25519.h:49-54 | Where counting the top bit moves a point from the curve to its twist or back, the output for the clamped all-zero scalar is not that of the standard. |
| X25519.ClampedExample | nuttx_port/apps/netutils/wireguard/crypto/refc/x25519.h:49-54 | Such a point: 1 with the top bit set, for which code and standard differ on the clamped all-zero scalar. |
| Replay.MarkRemembers | nuttx_port/apps/netutils/wireguard/wireguard.c:320-385 | Accepting a fresh counter keeps the window a function of the set of accepted counters. |
| Replay.AfterRemembers | nuttx_port/apps/netutils/wireguard/wireguard.c:320-385 | So does any sequence of calls from the zero state. |
| Replay.FreshExactly | nuttx_port/apps/netutils/wireguard/wireguard.c:320-385 | After any sequence of calls a counter is accepted if and only if it is not 2^64 - 1, was not accepted before, and is within the window of the largest accepted one. |
| Replay.ShiftedBit | nuttx_port/apps/netutils/wireguard/wireguard.c:340-353 | The in-place multi-word shift moves bit j - diff to bit j across word boundaries, for any number of words. |
| Replay.SlidSeen | nuttx_port/apps/netutils/wireguard/wireguard.c:338-363 | After the shift the bitmap stands for the same packets seen from the new largest counter. |
| Replay.MarkedSeen | nuttx_port/apps/netutils/wireguard/wireguard.c:365-376 | Setting one bit marks exactly that packet. |
| Replay.ReplayWindow.Shift | nuttx_port/apps/netutils/wireguard/wireguard.c:340-353 | The descending loop computes every word from words not yet overwritten. |
| Replay.ReplayWindow.Wipe | nuttx_port/apps/netutils/wireguard/wireguard.c:356-360 | The way-larger reset leaves only the newest packet marked. |
| Replay.ReplayWindow.Check | nuttx_port/apps/netutils/wireguard/wireguard.c:320-385 | The bitmap code returns what the abstract window returns and ends in the abstract next window. |
| Clock.ExpiredExactly | nuttx_port/apps/netutils/wireguard/wireguard.c:161-164 | For all true times and every limit: the wrapping test agrees with the comparison of the true age and the limit if and only if the age is below 2^32 ms or its remainder is past the limit; a reading of zero moves an age by one millisecond. |
| Clock.ExpiredIsTrueAge | nuttx_port/apps/netutils/wireguard/wireguard.c:161-164 | So for true ages below 2^32 - 1 ms the test is right, and a stamp that passes is no older than the limit. |
| Clock.OldStampLooksNew | nuttx_port/apps/netutils/wireguard/wireguard.c:161-164 | A stamp whose true age is any multiple of 2^32 ms passes for new, whatever the limit. |
| Clock.RekeyDeadline | nuttx_port/apps/netutils/wireguard/nuttx-wireguardif.c:793-794 | The rekey deadline stays within the reject time if and only if keepalive <= 175; above, the unsigned subtraction wraps. |
| Clock.ResponderDeadline | nuttx_port/apps/netutils/wireguard/nuttx-wireguardif.c:1032-1032 | The responder's deadline likewise, if and only if keepalive <= 180. |
| SessionSafety.InitialInv | nuttx_port/apps/netutils/wireguard/wireguard.c:973-1005 | A freshly initialised peer satisfies the session invariant. |
| SessionSafety.KeypairUpdateKeeps | nuttx_port/apps/netutils/wireguard/wireguard.c:473-480 | Promoting next to curr to prev by copy keeps the slots' sessions pairwise distinct. |
| SessionSafety.AddNewKeypairKeeps | nuttx_port/apps/netutils/wireguard/wireguard.c:482-495 | So does installing a new keypair, on either side. |
| SessionSafety.StartSessionKeeps | nuttx_port/apps/netutils/wireguard/wireguard.c:497-536 | A completed handshake seeds a session nobody has used, and is used up. |
| SessionSafety.EncryptAndSendKeeps | nuttx_port/apps/netutils/wireguard/nuttx-wireguardif.c:405-499 | Sending keeps the invariant: the counter of the slot used was never used in its session. |
| SessionSafety.AcceptKeeps | nuttx_port/apps/netutils/wireguard/nuttx-wireguardif.c:772-797 | Accepting a datagram keeps it: the counter was not delivered before, and the window stays in step. |
| SessionSafety.ProcessDataKeeps | nuttx_port/apps/netutils/wireguard/nuttx-wireguardif.c:717-835 | Every path of the data message code keeps it. |
| SessionSafety.ProcessInitiationKeeps | nuttx_port/apps/netutils/wireguard/nuttx-wireguardif.c:860-897 | Every path of an initiation and its response keeps it. |
| SessionSafety.ProcessResponseKeeps | nuttx_port/apps/netutils/wireguard/nuttx-wireguardif.c:899-922 | Every path of a response, its session and its confirming keepalive keeps it. |
| SessionSafety.RunTimersKeeps | nuttx_port/apps/netutils/wireguard/nuttx-wireguardif.c:982-1058 | Every path of the timer pass keeps it. |
| SessionSafety.StepKeeps | nuttx_port/apps/netutils/wireguard/nuttx-wireguardif.c:851-1058 | Every event keeps it. |
| SessionSafety.RunKeeps | nuttx_port/apps/netutils/wireguard/nuttx-wireguardif.c:851-1058 | Every run of events keeps it. |
| SessionSafety.NoNonceReuse | nuttx_port/apps/netutils/wireguard/wireguard.c:1026-1029 | In any run no (session, counter) pair is encrypted under twice. |
| SessionSafety.AtMostOnceDelivery | nuttx_port/apps/netutils/wireguard/nuttx-wireguardif.c:771-783 | In any run each (session, counter) is delivered at most once, whichever slot its keypair has moved to. |
| SessionSafety.OneSessionPerHandshake | nuttx_port/apps/netutils/wireguard/wireguard.c:497-536 | In any run a handshake seeds at most one session. |
| SessionSafety.SentWithinLimits | nuttx_port/apps/netutils/wireguard/nuttx-wireguardif.c:419-462 | In any run every packet is sent in a session seeded less than 180 s before, on the clock as read at both events, and with a counter below the reject limit, whatever slots its keypair has moved through. |
| TrueTime.StepAdds | nuttx_port/apps/netutils/wireguard/nuttx-wireguardif.c:851-1058 | An event sends at most one packet and begins at most one session, each dated by the one reading of the clock that the code compares or stores for it. |
| TrueTime.RunDates | nuttx_port/apps/netutils/wireguard/nuttx-wireguardif.c:405-1058 | In any run whose readings are taken at nondecreasing true times, the log shows the readings of the true times at which packets were sent and sessions began, and no packet precedes its session. |
| TrueTime.SentAtTrueAge | nuttx_port/apps/netutils/wireguard/nuttx-wireguardif.c:433-437 | In any such run every packet is sent while the true age of its session is less than 180 s past a multiple of 2^32 ms. |
| TrueTime.YoungExactly | nuttx_port/apps/netutils/wireguard/nuttx-wireguardif.c:433-437 | Of all runs that span at most n ms: every packet is sent within 180 s of true time after its session began if and only if n < 2^32 - 1. |
| SessionSafety.ResponderHearsFirst | nuttx_port/apps/netutils/wireguard/nuttx-wireguardif.c:419-437 | In any run a responder sends in a session only after a packet of that very session was delivered to it. |
| SessionSafety.FallbackNeverFires | nuttx_port/apps/netutils/wireguard/nuttx-wireguardif.c:419-431 | In any reachable state a valid current keypair is an initiator's or has been received on, so the fallback to the previous one never fires; a keypair in waiting is a responder's that nothing was received on. |
| SessionSafety.ForgedOrReplayedChangesNothing | nuttx_port/apps/netutils/wireguard/nuttx-wireguardif.c:717-783 | In any reachable state a datagram that does not authenticate, or whose counter was already delivered in the session it is for, leaves the whole peer as it was; at most a keypair past its limits is erased. |
| SessionSafety.AcceptedAreSpaced | nuttx_port/apps/netutils/wireguard/wireguard.c:630-651 | In any run, of the clock readings at which initiations are accepted each is at least 500 ms after the one before, and the last is the one remembered. |
| SessionSafety.StampsMoveOnlyOnInitiations | nuttx_port/apps/netutils/wireguard/wireguard.c:630-651 | No other event touches the greatest timestamp or the time of the last initiation. |
| SessionSafety.StampsIncrease | nuttx_port/apps/netutils/wireguard/wireguard.c:630-651 | In any run the accepted timestamps strictly increase. |
| PeerDevice.WireguardPeer.constructor | nuttx_port/apps/netutils/wireguard/wireguard.c:973-1005 | The peer starts in an initial state of the session machine. |
| PeerDevice.WireguardPeer.KeypairDestroy | nuttx_port/apps/netutils/wireguard/wireguard.c:468-471 | One slot is erased, the rest stays. |
| PeerDevice.WireguardPeer.KeypairUpdate | nuttx_port/apps/netutils/wireguard/wireguard.c:473-480 | A packet received in the waiting slot moves it to current and current to previous, by copy, and erases it; one received in another slot changes nothing. |
| PeerDevice.WireguardPeer.AddNewKeypair | nuttx_port/apps/netutils/wireguard/wireguard.c:482-495 | An initiator's keypair becomes current, and the waiting one, if valid, or else the current one becomes previous; a responder's goes into waiting and previous is erased. |
| PeerDevice.WireguardPeer.StartSession | nuttx_port/apps/netutils/wireguard/wireguard.c:497-536 | A keypair with counter 0, an empty window, the present time and the handshake's indices enters the slots by that rule; the handshake is no longer valid and its indices are zero. |
| PeerDevice.WireguardPeer.EncryptAndSend | nuttx_port/apps/netutils/wireguard/nuttx-wireguardif.c:405-499 | Nothing happens without a valid, confirmed keypair; one past 180 s or the message limit is erased; an oversized packet changes nothing; otherwise the counter is used up, success or not of the send, and the log has the packet. |
| PeerDevice.WireguardPeer.EncryptPacket | nuttx_port/apps/netutils/wireguard/wireguard.c:1026-1029 | The counter is used and then counted up, in the slot named and nowhere else. |
| PeerDevice.WireguardPeer.AfterEncrypt | nuttx_port/apps/netutils/wireguard/nuttx-wireguardif.c:469-498 | A send that succeeds stamps slot and peer with one reading; a handshake is asked for past 2^60 packets or, by an initiator, past 120 s, also if the send failed. |
| PeerDevice.WireguardPeer.Redraw | nuttx_port/apps/netutils/wireguard/wireguard.c:785-872 | Creating a message overwrites the ephemeral key in use first: the handshake gets key material never used before and is otherwise as it was. |
| PeerDevice.WireguardPeer.StartHandshake | nuttx_port/apps/netutils/wireguard/nuttx-wireguardif.c:515-538 | The ephemeral key is replaced in any case; only a creation that succeeds marks the handshake as ours, stamps the time, clears the request and keeps a mac1 for a cookie. |
| PeerDevice.WireguardPeer.SendResponse | nuttx_port/apps/netutils/wireguard/nuttx-wireguardif.c:540-560 | Without an initiation being answered nothing happens; otherwise the ephemeral key is replaced, and only a creation that succeeds starts a session as responder. |
| PeerDevice.WireguardPeer.GetKeypairForIndex | nuttx_port/apps/netutils/wireguard/wireguard.c:387-396 | Current, next, previous, in that order, or none. |
| PeerDevice.WireguardPeer.CheckReplay | nuttx_port/apps/netutils/wireguard/wireguard.c:320-385 | Running the bitmap code on the bitmap and counter of a slot answers as the abstract window of the session machine does, and ends in bits that stand for its next window; no other slot moves. |
| PeerDevice.WireguardPeer.ProcessData | nuttx_port/apps/netutils/wireguard/nuttx-wireguardif.c:717-835 | An unknown index changes nothing; a keypair past its limits is erased; a wrong length, a datagram that does not authenticate or a stale counter changes nothing more; otherwise the window, the slots and the endpoint move and the answer is sent. |
| PeerDevice.WireguardPeer.Receive | nuttx_port/apps/netutils/wireguard/nuttx-wireguardif.c:777-797 | Slot and peer are stamped with one reading, the endpoint follows the sender, the slots rotate, and after the rotation the keypair found in the same slot decides whether to ask for a handshake. |
| PeerDevice.WireguardPeer.ProcessInitiation | nuttx_port/apps/netutils/wireguard/nuttx-wireguardif.c:860-897 | Accepted exactly with a greater timestamp, 500 ms after the last one: timestamp, time, endpoint and sender's index are taken over and a response is sent; otherwise nothing changes. |
| PeerDevice.WireguardPeer.ProcessResponse | nuttx_port/apps/netutils/wireguard/nuttx-wireguardif.c:899-922 | Accepted exactly if it answers our open handshake and decrypts: the session starts as initiator and a keepalive is sent in it; otherwise nothing changes. |
| PeerDevice.WireguardPeer.ProcessCookie | nuttx_port/apps/netutils/wireguard/nuttx-wireguardif.c:924-947 | A cookie that opens with the mac1 we sent uses it up and starts a new handshake; any other changes nothing. |
| PeerDevice.WireguardPeer.ExpireSlots | nuttx_port/apps/netutils/wireguard/nuttx-wireguardif.c:1001-1019 | A current keypair past 540 s takes all three slots with it and the endpoint goes back to the configured one; one past 180 s or the message limit goes alone. |
| PeerDevice.WireguardPeer.RunTimers | nuttx_port/apps/netutils/wireguard/nuttx-wireguardif.c:982-1058 | Slots expire first, then a keepalive that is due is sent, then a handshake starts if 5 s have passed since the last and one is asked for, due or missing. |
| PeerDevice.WireguardPeer.IfUp | nuttx_port/apps/netutils/wireguard/nuttx-wireguardif.c:1259-1286 | A peer with a configured endpoint becomes active, goes back to that endpoint and asks for a handshake; another stays as it is. |
| PeerDevice.WireguardPeer.IfDown | nuttx_port/apps/netutils/wireguard/nuttx-wireguardif.c:1288-1325 | All slots, the handshake, the kept mac1 and the request for a handshake are erased, the peer is no longer active, and the endpoint is the configured one. |
| PeerDevice.WireguardPeer.Handle | nuttx_port/apps/netutils/wireguard/nuttx-wireguardif.c:851-1325 | Every event takes the peer object to the next state of the session machine, so the run theorems hold of it. |
| Indices.LooksTaken | nuttx_port/apps/netutils/wireguard/wireguard.c:411-420 | The loop's verdict is that of the last slot alone. |
| Indices.DeviceWideExactlyForOnePeer | nuttx_port/apps/netutils/wireguard/wireguard.c:398-423 | The check finds every index in use on the device if and only if the device has at most one peer. |
| Indices.LookupByReceiver | nuttx_port/apps/netutils/wireguard/wireguard.c:126-143 | The first valid peer with a session under the index, or none. |
| Indices.ReachesItsPeer | nuttx_port/apps/netutils/wireguard/wireguard.c:126-143 | A datagram for a session of a peer finds that peer if and only if no earlier slot has a session under the same index. |
| Handshake.Endpoint.CreateInitiation | nuttx_port/apps/netutils/wireguard/wireguard.c:785-872 | Every field of the initiation and the new chaining key and hash are those of section 5.4.2 of the WireGuard whitepaper; it fails exactly on a zero key or a zero shared secret. |
| Handshake.Endpoint.StartHandshake | nuttx_port/apps/netutils/wireguard/nuttx-wireguardif.c:515-538 | The mac1 of a sent initiation is remembered for a cookie reply, and only then. |
| Handshake.Endpoint.ProcessInitiation | nuttx_port/apps/netutils/wireguard/wireguard.c:571-675 | Accepted exactly if static key and timestamp decrypt, name the peer and are admitted; the state is then that of the transcript, and a refused message changes nothing. |
| Handshake.Endpoint.CreateResponse | nuttx_port/apps/netutils/wireguard/wireguard.c:874-961 | Every field of the response and the new keys are those of section 5.4.3; the failing inputs are exact. |
| Handshake.Endpoint.ProcessResponse | nuttx_port/apps/netutils/wireguard/wireguard.c:677-762 | Accepted exactly if a handshake of ours is open and the empty payload decrypts under the derived key; the state is then that of the transcript, and a refused message changes nothing. |
| Handshake.Endpoint.StartSession | nuttx_port/apps/netutils/wireguard/wireguard.c:497-536 | Sending and receiving key are the two outputs of section 5.4.5, crosswise for the two roles; indices are taken over and the handshake is wiped. |
| Handshake.Endpoint.ProcessCookie | nuttx_port/apps/netutils/wireguard/wireguard.c:764-783 | A cookie is stored exactly if it decrypts with the mac1 we sent, which it uses up. |
| Handshake.Mac1Accepted | nuttx_port/apps/netutils/wireguard/wireguard.c:444-452 | A mac1 made for a peer passes that peer's check. |
| Handshake.HonestRun | nuttx_port/apps/netutils/wireguard/wireguard.c:497-961 | With matching static keys and preshared key an honest run ends with equal keys crosswise and mirrored indices, and a packet encrypted by either end decrypts at the other; the inputs on which it fails are exact. |
| Handshake.RetryUnderLoad | nuttx_port/apps/netutils/wireguard/wireguard.c:454-466 | An initiator that was sent a cookie has its next initiation pass the mac2 check of the same responder. |
| Suite.ConcreteLaws | nuttx_port/apps/netutils/wireguard/crypto/refc/chacha20poly1305.c:66-193 | The AEADs and the hash of the reference code satisfy the laws the handshake proofs use; only Diffie-Hellman commutation stays an assumption. |
| Kdf.HashTwo | nuttx_port/apps/netutils/wireguard/wireguard.c:202-208 | Two updates and a final on a fresh context hash the concatenation, also into a buffer one of them came from. |
| Kdf.Pads | nuttx_port/apps/netutils/wireguard/wireguard.c:234-243 | The copy and exclusive-or loops build both pads of the key. |
| Kdf.HmacInto | nuttx_port/apps/netutils/wireguard/wireguard.c:210-255 | The result is HMAC of RFC 2104 over BLAKE2s, for keys of any length and also when the digest goes into the buffer the text is in. |
| Kdf.Kdf1 | nuttx_port/apps/netutils/wireguard/wireguard.c:257-271 | tau1 is the first output of the Kdf of section 5.4 of the WireGuard whitepaper, also when it replaces the chaining key in place. |
| Kdf.Kdf2 | nuttx_port/apps/netutils/wireguard/wireguard.c:273-292 | tau1 and tau2 are its first two outputs, although one 33-byte buffer is hashed into itself. |
| Kdf.Kdf3 | nuttx_port/apps/netutils/wireguard/wireguard.c:294-318 | tau1, tau2 and tau3 are its three outputs. |
| Kdf.MixInto | nuttx_port/apps/netutils/wireguard/wireguard.c:202-208 | The running hash is replaced in place by the hash of itself and the new data. |
| Blake2s.MixInPlace | nuttx_port/apps/netutils/wireguard/crypto/refc/blake2s.c:13-21 | The in-place macro is the mixing function of section 3.1 of RFC 7693. |
| Blake2s.MixRound | nuttx_port/apps/netutils/wireguard/crypto/refc/blake2s.c:60-69 | One pass of the loop is one round on the whole work vector. |
| Blake2s.Context.Compress | nuttx_port/apps/netutils/wireguard/crypto/refc/blake2s.c:31-73 | The in-place code computes the compression function of section 3.2, with the counter as two words. |
| Blake2s.CarryCounts | nuttx_port/apps/netutils/wireguard/crypto/refc/blake2s.c:113-115 | The comparison after the addition detects exactly the carry out of the low counter word. |
| Blake2s.Context.Count | nuttx_port/apps/netutils/wireguard/crypto/refc/blake2s.c:113-115 | t[1]:t[0] stays the exact byte count. |
| Blake2s.Context.Flush | nuttx_port/apps/netutils/wireguard/crypto/refc/blake2s.c:112-118 | A full buffer is compressed as a block that is not the last, with the count including it. |
| Blake2s.Context.Update | nuttx_port/apps/netutils/wireguard/crypto/refc/blake2s.c:106-121 | Everything hashed so far is the old input followed by the new; a full buffer is compressed only when one more byte arrives. |
| Blake2s.Context.KeyBlock | nuttx_port/apps/netutils/wireguard/crypto/refc/blake2s.c:95-100 | A key becomes a zero-filled first block that is not yet compressed. |
| Blake2s.Context.constructor | nuttx_port/apps/netutils/wireguard/crypto/refc/blake2s.c:78-103 | The context starts with the parameter block of section 2.5 and, for a keyed hash, the key block as its input. |
| Blake2s.LastBlock | nuttx_port/apps/netutils/wireguard/crypto/refc/blake2s.c:125-135 | Compressing what is buffered as the last block gives the digest of the whole input: no block was compressed too early. |
| Blake2s.Context.Final | nuttx_port/apps/netutils/wireguard/crypto/refc/blake2s.c:125-142 | The bytes stored are the first outlen of the digest of everything hashed, and no other byte of the target changes. |
| Blake2s.Blake2s | nuttx_port/apps/netutils/wireguard/crypto/refc/blake2s.c:145-156 | The one-shot function refuses exactly the illegal lengths and otherwise returns the hash of section 3.3. |
| Blake2s.Chunked | nuttx_port/apps/netutils/wireguard/crypto/refc/blake2s.c:106-142 | Any way of cutting the message into updates gives the same digest. |
| ChaCha20.QuarterRound | nuttx_port/apps/netutils/wireguard/crypto/refc/chacha20.c:62-66 | The in-place macro is the quarter round of section 2.1 of RFC 8439. |
| ChaCha20.TwentyRounds | nuttx_port/apps/netutils/wireguard/crypto/refc/chacha20.c:68-90 | Ten inner blocks of column and diagonal rounds. |
| ChaCha20.Context.constructor | nuttx_port/apps/netutils/wireguard/crypto/refc/chacha20.c:149-166 | The state is that of section 2.3 for block counter 0 and nonce 0^32 || LE64(nonce). |
| ChaCha20.Context.NextBlock | nuttx_port/apps/netutils/wireguard/crypto/refc/chacha20.c:102-115 | The 64 bytes are the key stream block of the state. |
| ChaCha20.Context.Apply | nuttx_port/apps/netutils/wireguard/crypto/refc/chacha20.c:117-140 | The output range is the input under the key stream and the block counter advances by the blocks begun, also when the ranges coincide or the output lies before the input in one buffer; nothing else changes. |
| ChaCha20.CryptAt | nuttx_port/apps/netutils/wireguard/crypto/refc/chacha20.c:117-140 | Byte k of the output is the input byte under byte k mod 64 of block counter + k / 64. |
| ChaCha20.CryptTwice | nuttx_port/apps/netutils/wireguard/crypto/refc/chacha20.c:117-140 | Applying the cipher twice from the same state gives the message back. |
| ChaCha20.CryptSplit | nuttx_port/apps/netutils/wireguard/crypto/refc/chacha20.c:117-140 | Cutting a message at a block boundary into two calls does not change its encryption. |
| ChaCha20.HChaCha20 | nuttx_port/apps/netutils/wireguard/crypto/refc/chacha20.c:172-202 | The subkey is the outer words of the state after the rounds, without the final addition. |
| Aead.PaddedLenRounds | nuttx_port/apps/netutils/wireguard/crypto/refc/chacha20poly1305.c:83-84 | The mask computation rounds up to a multiple of 16 for every length whose sum does not wrap 32 bits. |
| Aead.CryptoEqual | nuttx_port/apps/netutils/wireguard/crypto.c:14-23 | The accumulating comparison is true exactly for equal strings. |
| Aead.Prepare | nuttx_port/apps/netutils/wireguard/crypto/refc/chacha20poly1305.c:49-64 | The one-time key is the first half of block 0, and the cipher is left at block 1. |
| Aead.MacInput | nuttx_port/apps/netutils/wireguard/crypto/refc/chacha20poly1305.c:80-95 | The updates feed exactly AD, padding, ciphertext, padding and the two lengths of section 2.8 of RFC 8439. |
| Aead.MacDataInjective | nuttx_port/apps/netutils/wireguard/crypto/refc/chacha20poly1305.c:80-95 | That string determines associated data and ciphertext. |
| Aead.Encrypt | nuttx_port/apps/netutils/wireguard/crypto/refc/chacha20poly1305.c:67-105 | Ciphertext and tag of section 2.8 stand at the destination, also in place, and nothing else in the buffer changes. |
| Aead.CheckTag | nuttx_port/apps/netutils/wireguard/crypto/refc/chacha20poly1305.c:126-154 | The tag is judged over the received ciphertext before anything is decrypted. |
| Aead.Decrypt | nuttx_port/apps/netutils/wireguard/crypto/refc/chacha20poly1305.c:108-162 | True exactly for an authentic message, which is then written; a rejected one, too short or wrongly tagged, leaves the buffer as it was. |
| Aead.OpenExactlySealed | nuttx_port/apps/netutils/wireguard/crypto/refc/chacha20poly1305.c:66-162 | Decryption yields m from c if and only if c is the encryption of m. |
| Aead.SealInjective | nuttx_port/apps/netutils/wireguard/crypto/refc/chacha20poly1305.c:67-105 | Different messages have different ciphertexts under one key, nonce and associated data. |
| Aead.RoundTrip | nuttx_port/apps/netutils/wireguard/crypto/refc/chacha20poly1305.c:66-162 | Encrypting and then decrypting in place succeeds and restores the buffer. |
| Aead.XEncrypt | nuttx_port/apps/netutils/wireguard/crypto/refc/chacha20poly1305.c:169-179 | The XChaCha20 variant: subkey from the first 16 nonce bytes, the last 8 as nonce. |
| Aead.XDecrypt | nuttx_port/apps/netutils/wireguard/crypto/refc/chacha20poly1305.c:181-193 | Its inverse, with the same guarantee about rejected messages. |
| Aead.XOpenExactlySealed | nuttx_port/apps/netutils/wireguard/crypto/refc/chacha20poly1305.c:169-193 | Its decryption yields m from c if and only if c is its encryption of m. |
| Shutdown.InvIsSafe | nuttx_port/apps/netutils/wireguard/nuttx-wireguardif.c:1126-1192 | The invariant implies safety: the socket is used only while open, and closed or its keys wiped only with no receive task, no transmit in progress and the interface down. |
| Shutdown.RxKeeps | nuttx_port/apps/netutils/wireguard/nuttx-wireguardif.c:1126-1192 | Every action of the receive task keeps the invariant. |
| Shutdown.WorkKeeps | nuttx_port/apps/netutils/wireguard/nuttx-wireguardif.c:1230-1241 | Every action of the transmit job keeps it. |
| Shutdown.UpKeeps | nuttx_port/apps/netutils/wireguard/nuttx-wireguardif.c:1492-1619 | Every action of wg_initialize keeps it, on its failure paths too. |
| Shutdown.DownKeeps | nuttx_port/apps/netutils/wireguard/nuttx-wireguardif.c:1625-1683 | Every action of wg_down keeps it, on its timeout path too. |
| Shutdown.EveryRunIsSafe | nuttx_port/apps/netutils/wireguard/nuttx-wireguardif.c:1126-1683 | Every interleaving of ups, downs, timeouts, retries, receive task, transmit job and outside interface flags, other than an outside up in two windows, is safe. |
| Shutdown.ExactlyTheWindows | nuttx_port/apps/netutils/wireguard/nuttx-wireguardif.c:1592-1683 | An interface brought up from outside is harmless in exactly the states outside those windows; inside, a run that sends on the closed socket follows. |
| Shutdown.WindowsAreReached | nuttx_port/apps/netutils/wireguard/nuttx-wireguardif.c:1592-1683 | Each window is entered by a run of the program from its start, for every polling limit. |
| Shutdown.EachWindowBreaksSafety | nuttx_port/apps/netutils/wireguard/nuttx-wireguardif.c:1592-1683 | For each window and every polling limit there is a run from the start in which one outside flag, set there, leads to a send on the closed socket. |
| Shutdown.DownLeavesNothing | nuttx_port/apps/netutils/wireguard/nuttx-wireguardif.c:1665-1682 | wg_down returns success only with socket closed, interface down, device unregistered and no receive task. |
| Shutdown.LateJobDoesNothing | nuttx_port/apps/netutils/wireguard/nuttx-wireguardif.c:1230-1241 | A transmit job still queued after that does not touch the socket. |
| Shutdown.LostIfItLooks | nuttx_port/apps/netutils/wireguard/nuttx-wireguardif.c:1646-1661 | While wg_down waits, whatever the tasks do, the receive task comes to leave or end exactly if it looks at running in that time. |
| Shutdown.TimeoutOutcome | nuttx_port/apps/netutils/wireguard/nuttx-wireguardif.c:1646-1661 | Over the whole run from a wait that times out until the next wg_down: the interface is left up, and it is served if and only if the receive task did not look at running while wg_down waited. |
| Shutdown.ServingIsSettled | nuttx_port/apps/netutils/wireguard/nuttx-wireguardif.c:1656-1661 | Until the next wg_down that does not change: a task that was leaving is not replaced. |
| Shutdown.TimeoutCanLoseTask | nuttx_port/apps/netutils/wireguard/nuttx-wireguardif.c:1656-1661 | For every polling limit there is a run in which the receive task ends between the last look at rxtask_done and the store, and the interface is left up without it. |
| Shutdown.WaitEnds | nuttx_port/apps/netutils/wireguard/nuttx-wireguardif.c:1646-1654 | Whatever the other tasks do, wg_down reaches its decision once it has had one turn more than it has looks left. |
| Load.Gate.UnderLoad | nuttx_port/apps/netutils/wireguard/nuttx-wireguardif.c:597-609 | The bucket counts this initiation and the verdict compares the count with the threshold. |
| Load.Gate.Initiation | nuttx_port/apps/netutils/wireguard/nuttx-wireguardif.c:860-897 | mac1 first, then load, then mac2: the verdict and the new bucket. |
| Load.CloseReadings | nuttx_port/apps/netutils/wireguard/nuttx-platform.c:68-84 | Two readings less than 999 ms of true time apart never start a new bucket, also across the wrap and the skipped zero. |
| Load.SheddingBound | nuttx_port/apps/netutils/wireguard/nuttx-wireguardif.c:597-609 | In every interval of 1000 ms of true time at most twice the threshold of initiations without a valid mac2 reach the Diffie-Hellman work, from any bucket, if no bucket counts to 2^32. |
| Load.Overflowing | nuttx_port/apps/netutils/wireguard/nuttx-wireguardif.c:597-609 | If a bucket does count to 2^32, at least 2^32 - 1 less its count or the threshold, whichever is larger, of the initiations were not admitted. |
| Load.SheddingFromStart | nuttx_port/apps/netutils/wireguard/nuttx-wireguardif.c:597-609 | From the start of the device the bound holds for fewer than 2^32 + threshold initiations, also if a count wraps, for every threshold. |
| Load.FloodBreaksBound | nuttx_port/apps/netutils/wireguard/nuttx-wireguardif.c:597-609 | A flood of exactly 2^32 + threshold initiations exceeds the bound by one, for every threshold the configuration allows. |
| Load.SheddingExactly | nuttx_port/apps/netutils/wireguard/nuttx-wireguardif.c:597-609 | The bound holds of every sequence of at most n initiations from the start if and only if n < 2^32 + threshold. |
| Load.BoundIsReached | nuttx_port/apps/netutils/wireguard/nuttx-wireguardif.c:597-609 | The bound is reached, for every threshold the configuration allows. |
| Tai64n.Now | nuttx_port/apps/netutils/wireguard/nuttx-platform.c:153-174 | The twelve bytes written are the TAI64N stamp of the clock reading. |
| Tai64n.MemcmpIsOrder | nuttx_port/apps/netutils/wireguard/wireguard.c:633-633 | memcmp of equally long strings is the order of their big-endian values. |
| Tai64n.StampOrder | nuttx_port/apps/netutils/wireguard/nuttx-platform.c:153-174 | Stamps compare like (seconds, nanoseconds) exactly when both readings lie on one side of the TAI64 epoch, for all 64-bit times. |
| Routing.MaskIsShift | nuttx_port/apps/netutils/wireguard/nuttx-wireguardif.c:1836-1837 | The shift written for a prefix is the contiguous mask of that prefix. |
| Routing.SwapAnd | nuttx_port/apps/netutils/wireguard/nuttx-wireguardif.c:374-376 | Masking in network order is masking in host order. |
| Routing.CoversIsPrefix | nuttx_port/apps/netutils/wireguard/nuttx-wireguardif.c:374-376 | With the mask of a prefix, an entry covers a destination if and only if their leading bits agree. |
| Routing.PrefixOfMask | nuttx_port/apps/netutils/wireguard/nuttx-wireguardif.c:1978-1996 | Counting the leading ones of the mask of a prefix gives the prefix, and nothing else. |
| Routing.LargerMaskIsLonger | nuttx_port/apps/netutils/wireguard/nuttx-wireguardif.c:381-386 | A numerically larger mask never has fewer leading ones, contiguous or not. |
| Routing.MaskToPrefix | nuttx_port/apps/netutils/wireguard/nuttx-wireguardif.c:1978-1996 | The shifting loop returns the number of leading one bits, the prefix that the written file shows. |
| Routing.PeerForDest | nuttx_port/apps/netutils/wireguard/nuttx-wireguardif.c:345-391 | A peer is found if and only if some valid entry of a valid peer covers the destination, and then one with an entry of maximal mask. |
| Routing.RoutedIsLongest | nuttx_port/apps/netutils/wireguard/nuttx-wireguardif.c:353-357 | No covering entry has a longer prefix than the one routed by. |
| Routing.SlotsOnlyBreakTies | nuttx_port/apps/netutils/wireguard/nuttx-wireguardif.c:353-357 | Peers and entries in any other slots give the same peer, unless two peers tie. |
| Routing.SourceAllowed | nuttx_port/apps/netutils/wireguard/nuttx-wireguardif.c:806-825 | True exactly if some valid allowed-ips entry of the peer covers the source address. |
| Routing.ReplyGoesBack | nuttx_port/apps/netutils/wireguard/nuttx-wireguardif.c:345-391 | A packet let in from a peer is answered to that peer, or to one that lists the source at least as narrowly; only to that peer if no other does. |
| Base64.EncodeText | nuttx_port/apps/netutils/wireguard/wireguard.c:1108-1142 | Succeeds exactly if there is room for the text and its terminator, and then produces the padded encoding. |
| Base64.ScanIsDecode | nuttx_port/apps/netutils/wireguard/wireguard.c:1053-1099 | The character loop accepts exactly the texts that are groups of four with padding only at the end, and produces their bytes. |
| Base64.DecodeText | nuttx_port/apps/netutils/wireguard/wireguard.c:1035-1106 | The exact texts and capacities that are accepted and the bytes produced; what is stored for a refused text; and for both, that more than the capacity is written exactly if the text overruns it, and then one byte more. |
| Base64.OverrunExactly | nuttx_port/apps/netutils/wireguard/wireguard.c:1053-1099 | Of every text, accepted or refused, more bytes than the capacity are written if and only if the capacity is a multiple of three, that many groups are full, and the next is a letter with three padding characters. |
| Base64.OverrunOfLoneLetter | nuttx_port/apps/netutils/wireguard/wireguard.c:1073-1090 | The text A=== is accepted into an empty buffer, and one byte is written. |
| Base64.DecodeEncode | nuttx_port/apps/netutils/wireguard/wireguard.c:1035-1142 | Decoding an encoding gives the bytes back. |
| Base64.EncodeDecode | nuttx_port/apps/netutils/wireguard/wireguard.c:1035-1142 | Encoding a decoded text gives the text back if and only if its unused bits are zero and it has no lone letter. |
| Base64.KeyText | nuttx_port/apps/netutils/wireguard/nuttx-wireguardif.c:279-291 | A text that decodes to 32 bytes has exactly 44 characters. |
| Base64.DecodeKey | nuttx_port/apps/netutils/wireguard/nuttx-wireguardif.c:279-291 | A key is accepted exactly if it decodes to 32 bytes; of any text, accepted or refused, nothing is written past the 32 bytes of the key. |
| Conf.AtoiDecimal | nuttx_port/apps/netutils/wireguard/nuttx-wireguardif.c:2012-2019 | A printed number is read back. |
| Conf.SetPeerAllOrNothing | nuttx_port/apps/netutils/wireguard/nuttx-wireguardif.c:1721-1860 | A failing wg_set_peer changes nothing; a successful one touches no other peer. |
| Conf.SetPeerBuilds | nuttx_port/apps/netutils/wireguard/nuttx-wireguardif.c:1721-1860 | Every wg_set_peer keeps the staged state fit for writing. |
| Conf.SetPrivateKeyBuilds | nuttx_port/apps/netutils/wireguard/nuttx-wireguardif.c:1698-1715 | So does every wg_set_private_key. |
| Conf.FailedFileLeavesNoPeers | nuttx_port/apps/netutils/wireguard/nuttx-wireguardif.c:2300-2317 | A file that fails part-way leaves no staged peer, so the next wg_initialize has no peer if and only if Kconfig names none. |
| Conf.FailedFileFallsBack | nuttx_port/apps/netutils/wireguard/nuttx-wireguardif.c:2300-2317 | A failing file on a board with a Kconfig peer: that peer is what the next wg_initialize configures. |
| Conf.ReadPeer | nuttx_port/apps/netutils/wireguard/nuttx-wireguardif.c:2240-2296 | The lines of one written peer flush the section before and fill its own, with blanks before an inherited address lost. |
| Conf.FlushPeer | nuttx_port/apps/netutils/wireguard/nuttx-wireguardif.c:2193-2208 | A section read back is refused exactly if its allowed-ips or endpoint do not read: up to the first slash of the text no address stands, the number after it is no prefix, or the endpoint is none; otherwise just what was read is staged. |
| Conf.ReadPeers | nuttx_port/apps/netutils/wireguard/nuttx-wireguardif.c:2240-2317 | All peers of a file, in order. |
| Conf.WrittenIsReadBack | nuttx_port/apps/netutils/wireguard/nuttx-wireguardif.c:2035-2317 | For any Kconfig texts of one line, parsing what wg_writeconf wrote gives the same key and the same peers in the same order as read; the whole file is refused if and only if some peer's allowed-ips or endpoint does not read. |
| Conf.AddressKept | nuttx_port/apps/netutils/wireguard/nuttx-wireguardif.c:2005-2008 | An inherited allowed-ips text comes back as it was if and only if it is an address. |
| Conf.InheritedPrefixIsTaken | nuttx_port/apps/netutils/wireguard/nuttx-wireguardif.c:2005-2008 | The inherited text 10.0.0.0/24 is no address, and yet its section is taken: as 10.0.0.0 with prefix 24, whatever the mask was. |
| Conf.BlankAddressFails | nuttx_port/apps/netutils/wireguard/nuttx-wireguardif.c:2005-2008 | An inherited text that is empty or blank makes the file fail. |
| Conf.StandardMaskKept | nuttx_port/apps/netutils/wireguard/nuttx-wireguardif.c:1978-1996 | A mask text survives the way through its prefix if and only if it is the text of a contiguous mask, as wg_set_peer writes it. |
| Conf.ReloadKeepsPeers | nuttx_port/apps/netutils/wireguard/nuttx-wireguardif.c:2035-2317 | For every state built by the commands, saving and loading changes only keepalives left to the defaults if and only if every peer has an address and a contiguous mask; usable defaults make sure of that. |
| Conf.Staging.SetKey | nuttx_port/apps/netutils/wireguard/nuttx-wireguardif.c:1698-1715 | The new state and result of wg_set_private_key. |
| Conf.Staging.Set | nuttx_port/apps/netutils/wireguard/nuttx-wireguardif.c:1721-1860 | The new state and result of wg_set_peer, on every path. |
| Conf.Staging.Remove | nuttx_port/apps/netutils/wireguard/nuttx-wireguardif.c:1866-1889 | Exactly the named peer goes, the others keep their order. |
| Conf.Staging.TakeLine | nuttx_port/apps/netutils/wireguard/nuttx-wireguardif.c:2240-2296 | One line of a file. |
| Conf.Staging.Load | nuttx_port/apps/netutils/wireguard/nuttx-wireguardif.c:2210-2318 | The new state and result of wg_setconf, for every file content. |

## Left out

- X25519.RfcExactly: that the outputs differ on every point with the top bit set is shown at the scalar 1, which clamping would change; for a clamped scalar `X25519.TopBitChangesOutput` shows it where the two readings of the point lie on different sides.
- X25519.SwapIn: the conversion between bytes and limbs follows a little-endian machine; `x1i`, which the code fills and does not use, is not part of the model.
- X25519.CondSwap: the loop over sixteen adjacent limbs runs as two loops over eight, because the two field elements are separate arrays here.
- Handshake.HonestRun: Diffie-Hellman commutation is assumed, not derived from the curve; secrecy and unforgeability are not claims of this model.
- PeerDevice.WireguardPeer.ProcessData: whether a datagram authenticates and what the network stack answers are inputs; the check of its inner source address is `Routing.SourceAllowed`.
- SessionSafety.SentWithinLimits: the age is the difference of the wrapping clock as read at the two events; `TrueTime.SentAtTrueAge` says what that means in true time.
- Base64.DecodeText: asks for a buffer with room for the extra byte where a text overruns, because the model has no memory behind the buffer.
- PeerDevice.WireguardPeer.CheckReplay: the bitmap of a slot is a sequence in the slot's record, which the bitmap code gets as an array of its own and which is stored back.
- Shutdown.EveryRunIsSafe: one control task runs wg_initialize and wg_down in turn; the links of the work queue itself and unlocked reads of single flags are not modelled beyond their values.
- Conf.WrittenIsReadBack: the file is a text value, and inet_pton and inet_ntop are parameters: pton takes back what ntop prints, and accepts only digits and dots, at least one and at most 15. atoi does not overflow. Keys in use decode, ports fit 16 bits, and a Kconfig text is one line.
- Aead.Encrypt: associated data is a value, so a caller whose associated data lies in the output buffer is not covered.
- More than one peer in the session machine: peers share only their indices, which `Indices.dfy` treats; distinct indices across peers are not claimed.
- Randomness and the retry loop of wireguard_generate_unique_index; the draws are inputs.
- The cookie secret's rotation and the x25519 signing and verification code, which is compiled out.
- Sockets, polling, buffers, devices, task creation and work queues of NuttX beyond the steps in `Shutdown.dfy`.
- wg_show, wg_main.c, genkey and pubkey: printing and argument dispatch.
- The counters of transferred bytes and the carrier flag.
- The in-kernel driver and the demo applications.
