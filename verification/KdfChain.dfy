/** The symmetric-key ratchet both ratchets share: one HMAC step yields the next chain key,
    another the message key (libsignal/rust/protocol/src/sender_keys.rs:81-121,
    libsignal/rust/protocol/src/ratchet/keys.rs:136-171), and the limits on how far it runs
    (libsignal/rust/protocol/src/consts.rs). */
module KdfChain {
  import opened Bytes

  const MAX_FORWARD_JUMPS := 25_000
  const MAX_MESSAGE_KEYS := 2000
  const MAX_RECEIVER_CHAINS := 5
  const ARCHIVED_STATES_MAX_LENGTH := 40
  const MAX_SENDER_KEY_STATES := 5
  /** Thirty days, in seconds. */
  const MAX_UNACKNOWLEDGED_SESSION_AGE := 60 * 60 * 24 * 30

  /** HMAC-SHA256(key, input). Any function will do unless a lemma says otherwise. */
  type Hmac = (Bytes, Bytes) -> Bytes

  const MESSAGE_KEY_SEED: Bytes := [0x01]
  const CHAIN_KEY_SEED: Bytes := [0x02]

  /** The chain key `steps` steps after a seed: HMAC of the one before over the byte 2. */
  function ChainSeed(hmac: Hmac, seed: Bytes, steps: nat): Bytes {
    if steps == 0 then seed else hmac(ChainSeed(hmac, seed, steps - 1), [0x02])
  }

  /** Seeds compose: continuing from the middle of a chain is continuing the chain. */
  lemma {:induction false} ChainSeedComposes(hmac: Hmac, seed: Bytes, a: nat, b: nat)
    ensures ChainSeed(hmac, ChainSeed(hmac, seed, a), b) == ChainSeed(hmac, seed, a + b)
  {
    if b > 0 {
      ChainSeedComposes(hmac, seed, a, b - 1);
    }
  }

  /** A sequence without its `k`-th element. */
  function Without<T>(s: seq<T>, k: nat): seq<T>
    requires k < |s|
  {
    s[..k] + s[k + 1..]
  }
}
