/** Keys of the Double Ratchet and the primitives they are derived with
    (libsignal/rust/protocol/src/ratchet/keys.rs, libsignal/rust/protocol/src/ratchet.rs:18-39). */
module RatchetKeys {
  import opened Wrappers
  import opened Bytes
  import opened KdfChain

  type PublicKey = Bytes
  type PrivateKey = Bytes

  /** The primitives of the pairwise protocol. `ratchetKdf` is HKDF with the root key as salt,
      `textKdf` the HKDF of the handshake secrets, `messageKdf` the HKDF of a message seed with the
      post-quantum key as optional salt; `encode` is the serialization a message's MAC covers.
      The post-quantum ratchet is opaque: `pqSend` yields the new state, the bytes to send and
      the key, `pqReceive` the new state and the key. */
  datatype Suite = Suite(
    hmac: Hmac,
    ratchetKdf: (Bytes, Bytes) -> (Bytes, Bytes),
    textKdf: Bytes -> (Bytes, Bytes, Bytes),
    messageKdf: (Bytes, Option<Bytes>) -> MessageKeys,
    agree: (PrivateKey, PublicKey) -> Bytes,
    publicKey: PrivateKey -> PublicKey,
    isCanonical: PublicKey -> bool,
    verify: (PublicKey, Bytes, Bytes) -> bool,
    encapsulate: (Bytes, Bytes) -> (Bytes, Bytes),
    decapsulate: (Bytes, Bytes) -> Bytes,
    kemPublicKey: Bytes -> Bytes,
    encrypt: (Bytes, Bytes, Bytes) -> Bytes,
    decrypt: (Bytes, Bytes, Bytes) -> Option<Bytes>,
    encode: (byte, PublicKey, u32, u32, Bytes, Bytes) -> Bytes,
    mac: (Bytes, PublicKey, PublicKey, Bytes) -> Bytes,
    pqInitial: (Bytes, bool, bool) -> Bytes,
    pqSend: (Bytes, Bytes) -> Option<(Bytes, Bytes, Option<Bytes>)>,
    pqReceive: (Bytes, Bytes) -> Option<(Bytes, Option<Bytes>)>)

  datatype MessageKeys = MessageKeys(cipherKey: Bytes, macKey: Bytes, iv: Bytes)

  /** A message key not yet expanded: `MessageKeyGenerator::Seed`. */
  datatype MessageKey = MessageKey(index: u32, seed: Bytes)

  datatype ChainKey = ChainKey(key: Bytes, index: u32) {
    /** The index is a plain 32-bit addition and wraps. */
    function Next(hmac: Hmac): ChainKey {
      ChainKey(hmac(key, CHAIN_KEY_SEED), if index == U32_MAX then 0 else index + 1)
    }

    function MessageKeyOf(hmac: Hmac): MessageKey {
      MessageKey(index, hmac(key, MESSAGE_KEY_SEED))
    }
  }

  /** `RootKey::create_chain`: a Diffie-Hellman step of the root chain. */
  function CreateChain(suite: Suite, root: Bytes, theirs: PublicKey, ours: PrivateKey): (Bytes, ChainKey) {
    var (next, chain) := suite.ratchetKdf(root, suite.agree(ours, theirs));
    (next, ChainKey(chain, 0))
  }
}
