/**
 Values that the chip stores and the firmware computes with.  Cryptography is
 idealised: every HMAC use is a free constructor, so two results are equal only
 when the key and the message are equal.
 */
module Values {

  newtype byte = x: int | 0 <= x < 256

  /** What the platform derives from a PIN; equality is all that matters. */
  type Material = seq<byte>

  datatype Option<+T> = None | Some(value: T)

  const U32_MAX: nat := 0xFFFF_FFFF

  /** 32-byte secrets, slot contents and MACs. */
  datatype Term =
    | Random(n: nat)                        // n-th output of the chip's TRNG
    | Factory(slot: int)                    // what an M&D slot holds when the chip is new
    | Kdf(key: Term, use: nat)              // HMAC(key, one-byte label)
    | PinV(mat: Material)                   // HMAC(0^32, material)
    | SlotKey(w: Term, pin: Material)       // HMAC(w, material)
    | F1(input: Term, at: nat)              // the M&D slot update
    | F2(before: Term, after: Term, on: nat) // the M&D answer
    | Masked(pad: Term, msg: Term)          // msg XOR pad

  const TAG_USE: nat := 0
  const U_USE: nat := 1
  const K_USE: nat := 2
  const KEK_USE: nat := 3

  /** XOR: a pad removes itself and nothing else. */
  function Xor(a: Term, pad: Term): Term {
    if a.Masked? && a.pad == pad then a.msg else Masked(pad, a)
  }

  /** The X25519 decryption key as O3 keeps it: sealed under `kek`. */
  datatype Wrap = Wrap(kek: Term, priv: nat)

  /** Payload of O2, O4, O5 and O6 (one PIN each). */
  datatype Binding = Binding(range: nat, retirePending: nat, next: nat, pinLen: nat, tag: Term, ci: seq<Term>)

  /** Payload of O3. `lifecycle` and `rcSet` are bytes on the chip and are range-checked on load. */
  datatype CardState = CardState(lifecycle: nat, rcSet: nat, sigCount: nat, dec: Option<Wrap>, decFpr: nat,
                                 decTime: nat)

  datatype Payload =
    | Pin(binding: Binding)
    | Global(bitmap: set<nat>, forceUv: nat, pinBound: nat)   // O1
    | Card(state: CardState)

  /** A FIDO credential's metadata slot. */
  datatype Meta = Meta(alg: nat, resident: bool, rp: nat, user: nat, nonce: nat, created: nat)

  /** Content of one R-mem slot.  `Record` has a checksum that matches; `Garbage` has none that does. */
  datatype Blob =
    | Record(obj: nat, schema: nat, gen: nat, payload: Payload)
    | Credential(meta: Meta)
    | Garbage
}
