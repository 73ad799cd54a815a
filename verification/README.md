# Verification of the libsignal core

A Dafny model of five parts of the vendored `libsignal` crates, with proofs of what they promise.

- **The Double Ratchet with PQXDH set-up.** Two parties exchange messages under keys that change with
  every message and every turn. A session keeps one sender chain, up to five receiver chains with their
  skipped keys, and a root key; a record keeps the current session and up to forty archived ones; the
  stores keep records, identities and pre-keys.
- **Group messages over sender keys.** A sender announces a hash chain and a signing key; receivers
  follow the chain forward, cache the keys they skip, and keep at most five chains for each sender.
- **Sealed Sender v2.** One ciphertext for many recipients: an encoder that groups destinations and fans
  the key agreements out over threads, a parser for the server, and decryption of one recipient's part.
- **The incremental and the validating MAC.** MACs of every chunk-aligned prefix of a stream, and a
  validator that checks a stream against such a list.
- **Streaming AES-256-GCM.** A cipher and an authenticator fed in pieces of any length.

A small extra is the field-range test of curve points.

## How it is built

Values of the program are datatypes. Objects the program updates in place are classes with the same fields:
`SenderKeyState`, `SenderKeyRecord`, `SessionState`, `SessionRecord`, the stores, `Incremental`, `Validating`,
`Aes256Ctr32`, `GcmGhash` and the two GCM objects, and the parser's cursor. Every method carries out its
operation step by step, loops included, and is proved equal to a function on values, in its result and in all
it leaves behind; the theorems about runs, round trips and agreement are lemmas about those functions.
A mutable borrow of an element of a list is an object made from the element and written back.

| files | what is in them |
|---|---|
| Wrappers, Bytes, Arithmetic, KdfChain | results and errors, machine integers, exclusive or, rounding division, the hash chain |
| SenderKeys, SenderKeyChain, GroupCipher | sender-key states and records, the window of skipped keys, the four group operations |
| GroupRuns, GroupDelivery | whole runs of a record: its discipline, delivery in any order, at-most-once, key freshness |
| RatchetKeys, RatchetInit, SessionStates, SessionCipher | keys, handshake, session state and record, encryption and decryption |
| MessageKeyWindow, RatchetAgreement, TwoParty | the window of skipped keys, one party in step with its peer, runs of two parties |
| SessionRuns | runs of one session against arbitrary messages: when message keys repeat, what messages carry, when it falls silent |
| PairwiseStore, PairwiseProperties | pre-keys and stores, what one operation and its failure do |
| StoreRuns, StoreFreshness | runs of store operations: histories of all chains, at most once, no key reused |
| StoreAuthenticity, TrustRuns | runs of store operations: what is accepted is authentic; trust on first use, where sessions come from |
| FirstContact, TwoStores | first contact end to end, and whole runs of two stores that talk to each other |
| SealedSenderFormat, SealedSenderKem, SealedSenderEncoder | parser, key encapsulation, encoder |
| SealedSenderBytes, SealedSenderRoundTrip | every byte the parser reads and the encoder writes; end to end |
| IncrementalMac, AesGcm, Curve | the other three parts |

The primitives (HMAC, HKDF, AES, X25519, the KEM, signatures, GHASH multiplication) are function parameters
gathered in a `Suite`. A `Lawful` predicate names the laws a theorem needs: agreement commutes, decryption undoes
encryption, signatures verify. Randomness and the clock are parameters too.

No theorem assumes that a primitive is free of collisions, which none with outputs of fixed length is. What else
is needed is said of the values at hand, or is a case of the conclusion:

- Two parties stay in step under `Lawful` alone, except for a delivery where a message of a receiver chain
  already dropped verifies under the chain made up in its place (`Coincidence`). `MadeUpNeedsCoincidence` traces
  such a delivery to two different inputs of one primitive with the same output.
- That a readable message decrypts is claimed where the post-quantum ratchet of the receiving session yields the key
  it was sent under (`PqAgrees`), and for a handshake whose decapsulation succeeds. What decrypts at all comes out
  as it was sent, or its MAC verifies under another key than it was made with (`OtherKeyVerifies`).
- The theorems on key reuse, on trust, on authenticity, on what runs of store operations keep and on at-most-once
  acceptance there assume no law at all and hold against arbitrary messages.
- What the handshake secrets commit to is said for agreements of 32 bytes, and that GHASH is a polynomial for a
  multiplication that distributes over exclusive or.
- The validator's theorem assumes that the MAC does not collide on prefixes of the two data; in Sealed Sender a
  collision of tags is a case of the statement.

## Where the code and what is expected of it differ

- A failed pre-key message can leave something behind. The identity is saved before the base key is found to be
  reused, so a message that deciphers, reuses a base key, and comes from an address without an identity fails
  and saves that identity. `FailedPreKeyChangesNothingIff` says this is the only case;
  `FailureCanSaveIdentity` shows how real histories get there.
- The message index of the pairwise ratchet is a plain 32-bit addition, which wraps in a release build, while the
  group chain checks for overflow. `CounterRepeats` shows a session returning two messages with one ratchet key and
  counter, and `CounterRepeatsIff` says exactly when that happens. On the receiving side the theorems count
  positions without bound, so they hold across the wrap; `WrapStartsOver` says what a chain does right after it.
- The list of MACs can exceed the target size, since the final MAC comes on top of one for each chunk. `ListFitsIff`
  gives the exact condition: it fails for every multiple of the target count from that count times 64 KiB on, and
  for all data from that count times 2 MiB on.

## Model

| member | source | states |
|---|---|---|
| GroupDelivery.DeliveredInAnyOrder | libsignal/rust/protocol/src/group_cipher.rs:16-194 | A receiver handles any sequence of messages (lost, reordered, repeated, forged) and of distribution messages, those for the sender's chain id being ones the sender made, at whatever iteration. Every message of the sender not accepted yet, not before the point where the receiver joined, at most 2,000 behind and 25,000 ahead, whose state is still held, decrypts to the sender's plaintext |
| GroupDelivery.AtMostOnce | libsignal/rust/protocol/src/group_cipher.rs:85-97 | While a state stays in the record, no iteration of its chain is decrypted twice, whatever happens in between, processing the distribution message again included; the same message again is refused as a duplicate, and the refusal stores nothing |
| GroupDelivery.RunKeepsWindow | libsignal/rust/protocol/src/sender_keys.rs:215-236 | At every point of every run each held state has its window: cached keys sorted, at most 2,000, all below the chain, each the derivative of the start seed at its iteration, none used; and every unused iteration of the last 2,000 is cached, front eviction notwithstanding |
| GroupDelivery.SentIterationsGrow | libsignal/rust/protocol/src/group_cipher.rs:37-72 | Of two messages sent on one state over any run, the later has the larger iteration, so no message key is used for two messages |
| GroupDelivery.ExhaustionIsRefused | libsignal/rust/protocol/src/sender_keys.rs:100-112 | The last 32-bit iteration is never sent and never accepted; a sender whose chain stands there gets InvalidState and stores nothing |
| GroupDelivery.SenderIsHonest | libsignal/rust/protocol/src/group_cipher.rs:37-72 | In every run of a sender, each message is its plaintext under the key of its iteration of the one chain first drawn, its signature by the key drawn with it covers all its fields under its distribution id, and each distribution message hands out that chain at its current iteration |
| GroupDelivery.SenderRecord | libsignal/rust/protocol/src/group_cipher.rs:228-287 | A sender's record is always the one state first drawn with its chain moved on: making a distribution message again neither redraws nor rewinds it |
| GroupDelivery.ReceiverStart | libsignal/rust/protocol/src/group_cipher.rs:196-226 | Every state a receiver holds started from a distribution message it processed, at that message's iteration |
| GroupDelivery.HonestIsDelivered | libsignal/rust/protocol/src/group_cipher.rs:124-194 | A receiver that only processed honest distribution messages for a chain decrypts any readable honest message of it to its plaintext |
| GroupDelivery.AcceptedMatches | libsignal/rust/protocol/src/group_cipher.rs:147-172 | A message decrypted in any run carried the version of the state that decrypted it, where version 0 stands for 3, and its signature verified under that state's signing key |
| GroupDelivery.StepOnHeld | libsignal/rust/protocol/src/sender_keys.rs:294-331 | Whatever one operation does, a state held before and after it is changed only by taking its own key or by sending on it |
| GroupDelivery.StepOnNew | libsignal/rust/protocol/src/sender_keys.rs:294-331 | A state that appears in a record is exactly the one the distribution message names, or the one freshly drawn |
| GroupDelivery.HistoryGrows | libsignal/rust/protocol/src/sender_keys.rs:303-327 | While a state is held its start never changes and the iterations it used only grow |
| GroupDelivery.SameKey | libsignal/rust/protocol/src/sender_keys.rs:114-121 | A receiver that joins a chain in the middle derives the same message keys as one that follows it from the start |
| GroupRuns.RecordIsMostRecent | libsignal/rust/protocol/src/sender_keys.rs:294-331 | In every reachable record the chain ids are the 5 most recently added distinct ones of the run, most recent first; encrypting and decrypting never change that order |
| GroupRuns.RunDisciplined | libsignal/rust/protocol/src/sender_keys.rs:294-348 | Every reachable record has at most 5 states, with pairwise distinct chain ids |
| GroupRuns.ReAddMovesToFront | libsignal/rust/protocol/src/sender_keys.rs:303-327 | Adding a held (chain id, signing key) again moves its state to the front as it stands, chain not rewound and cached keys kept, and leaves the others in order |
| GroupRuns.AddStateShape | libsignal/rust/protocol/src/sender_keys.rs:294-331 | An addition leaves the state itself, or the one held for its key, in front, then at most 4 of the states of other chains in their order |
| GroupRuns.NewestExcept | libsignal/rust/protocol/src/sender_keys.rs:319-324 | Forgetting all but the newest before removing an entry loses nothing of what is kept: bounded and unbounded histories list the same newest chains |
| SenderKeyChain.PushKeepsWindow | libsignal/rust/protocol/src/sender_keys.rs:215-222 | Caching the current key and stepping past it keeps the window: eviction drops only keys more than 2,000 behind |
| SenderKeyChain.SkipKeepsWindow | libsignal/rust/protocol/src/group_cipher.rs:115-118 | Walking the chain forward to any iteration keeps the window and ends on the chain key of that iteration |
| SenderKeyChain.RemovalKeepsWindow | libsignal/rust/protocol/src/sender_keys.rs:224-236 | Taking a cached key out keeps the window with that iteration used, and it was not used before |
| SenderKeyChain.TakeKeyKeepsWindow | libsignal/rust/protocol/src/group_cipher.rs:75-122 | A key handed out is the one of that iteration of the chain, was never handed out before, and leaves the window with it used |
| SenderKeyChain.TakeKeyIff | libsignal/rust/protocol/src/group_cipher.rs:85-111 | A key is handed out exactly when it is cached, or lies ahead by at most 25,000 and is not the last 32-bit iteration |
| SenderKeyChain.UnreadIsAvailable | libsignal/rust/protocol/src/group_cipher.rs:75-122 | An unused iteration at most 2,000 behind and 25,000 ahead is handed out; a used one is refused as a duplicate |
| KdfChain.ChainSeedComposes | libsignal/rust/protocol/src/sender_keys.rs:100-121 | Continuing a chain from its middle is continuing the chain |
| GroupCipher.GroupEncrypt | libsignal/rust/protocol/src/group_cipher.rs:16-73 | Returns the signed message of the first state's current iteration and stores the record with that chain one step on; every failure stores nothing |
| GroupCipher.GroupDecrypt | libsignal/rust/protocol/src/group_cipher.rs:124-194 | On success returns the plaintext and stores the record with only the state used replaced; on every failure, however many keys were skipped in memory, the store is exactly as before |
| GroupCipher.ProcessDistributionMessage | libsignal/rust/protocol/src/group_cipher.rs:196-226 | Stores the record with the state added, and touches no other sender or distribution id |
| GroupCipher.CreateDistributionMessage | libsignal/rust/protocol/src/group_cipher.rs:228-287 | Draws and stores a state only when there is no record; announces the first state's chain where it stands |
| SenderKeys.SenderKeyState.GetSenderKey | libsignal/rust/protocol/src/group_cipher.rs:75-122 | The loop over the chain key meets the recursive specification of taking a key, in value and in the state left behind |
| SenderKeys.SenderKeyState.AddSenderMessageKey | libsignal/rust/protocol/src/sender_keys.rs:215-222 | Appends, then drops from the front down to 2,000 |
| SenderKeys.SenderKeyState.RemoveSenderMessageKey | libsignal/rust/protocol/src/sender_keys.rs:224-236 | Removes the first key of an iteration and returns it, or changes nothing |
| SenderKeys.SenderKeyState.SetSenderChainKey | libsignal/rust/protocol/src/sender_keys.rs:189-191 | Replaces the chain key only |
| SenderKeys.SenderKeyRecord.StateForChainId | libsignal/rust/protocol/src/sender_keys.rs:278-288 | The search loop finds the first state of a chain id |
| SenderKeys.SenderKeyRecord.RemoveState | libsignal/rust/protocol/src/sender_keys.rs:333-342 | Removes the first state with that chain id and signing key, and only it |
| SenderKeys.SenderKeyRecord.RemoveStatesWithChainId | libsignal/rust/protocol/src/sender_keys.rs:344-348 | Keeps exactly the states of other chain ids, in order, and counts the removed |
| SenderKeys.SenderKeyRecord.AddSenderKeyState | libsignal/rust/protocol/src/sender_keys.rs:294-331 | Remove, retain, pop and push together meet the specification of an addition |
| TwoParty.RunKeepsInv | libsignal/rust/protocol/src/session_cipher.rs:696-783 | Two-party agreement: over every interleaving of sends and deliveries, with loss, repetition and reordering, every receiver chain a party holds for a ratchet key is the same KDF chain as the peer's sender chain for that key, root keys included, with its skipped-key window intact; the one other case is a delivery at which a message of a dropped chain verifies under the chain made up in its place |
| TwoParty.DeliversWhatWasSent | libsignal/rust/protocol/src/session_cipher.rs:599-694 | From a handshake on matching pre-keys, in every run without such a coincidence: a readable message decrypts to what was sent, where the post-quantum ratchets agree; what decrypts at all was readable and had not been accepted before, or the delivery is itself the coincidence, and it comes out as it was sent, or the post-quantum keys differ and its MAC verifies all the same, two MAC keys giving one MAC or two inputs of the key derivation one MAC key |
| TwoParty.DeliversInStep | libsignal/rust/protocol/src/session_cipher.rs:599-694 | The same for a delivery between any two parties in step |
| TwoParty.WithinLimitsIsReadable | libsignal/rust/protocol/src/session_cipher.rs:740-770 | A message not accepted yet is readable if its chain is new and it is at most 25,000 in, or if its chain is one of the last five and it is at most 2,000 behind and 25,000 ahead |
| SessionRuns.NeverRepeats | libsignal/rust/protocol/src/session_cipher.rs:35-158 | Over any run of one session, given arbitrary messages to receive, two messages it returned differ in ratchet key, or the later has the larger counter, as long as the ratchet keys drawn are fresh and no message carries counter 2^32 - 1 |
| StoreFreshness.NeverReuses | libsignal/rust/protocol/src/session_cipher.rs:19-331 | Over any run of store operations, with sessions started, archived, promoted and dropped, no two messages returned for one peer share ratchet key and counter, under the same two conditions |
| StoreFreshness.PerformedAccounted | libsignal/rust/protocol/src/session_cipher.rs:19-331 | One operation keeps the sender keys of all sessions with the peer apart and their counters past all that was sent, and what it sends is new |
| StoreFreshness.FirstAccounted | libsignal/rust/protocol/src/session_cipher.rs:197-278 | A session started by a pre-key message never sends under the signed pre-key: once the message decrypted it has a key of its own |
| SessionRuns.StepOnSender | libsignal/rust/protocol/src/session_cipher.rs:19-159 | A message returned carries key and index of the sender chain and moves it one step; a ratchet replaces the chain; nothing else touches it |
| SessionRuns.SilentWhenStale | libsignal/rust/protocol/src/session_cipher.rs:68-118 | Over any run of a session started from a bundle: what it could send is sent exactly if the peer's answer was accepted before or it is at most thirty days old, and with the pre-key header exactly if there was no answer |
| SessionRuns.SendsIff | libsignal/rust/protocol/src/session_cipher.rs:27-131 | Exactly when a session sends: it has a chain, a peer, a version that fits and post-quantum data, and, while its pre-key message is unacknowledged, is at most 2,592,000 seconds old |
| SessionRuns.PreviousCounterIs | libsignal/rust/protocol/src/session_cipher.rs:720-726 | A message's previous counter is the counter of the last message on the chain before, over any run; after the last 32-bit counter it is 0 |
| SessionRuns.PreviousCounterIsZero | libsignal/rust/protocol/src/session_cipher.rs:720-726 | After a chain nothing was sent on it is 0 |
| SessionRuns.PqAdvances | libsignal/rust/protocol/src/session_cipher.rs:37-43 | Over any run the post-quantum state is the initial one fed with the messages that went out and those accepted, each once and in order, and nothing refused |
| SessionRuns.ReturnedIsWhole | libsignal/rust/protocol/src/session_cipher.rs:92-131 | Every message returned over any run is of the session's version, and what its MAC covers is the serialization of its own fields |
| TwoParty.SentOnce | libsignal/rust/protocol/src/session_cipher.rs:35-158 | Of all messages of a run of two parties in step, whoever sent them, no two share ratchet key and counter |
| SessionRuns.CounterRepeatsIff | libsignal/rust/protocol/src/ratchet/keys.rs:154-159 | Exactly when counters repeat: two messages returned in a run of one session carry the same ratchet key and counter if and only if no ratchet lies between them and the number of messages from the first on is a multiple of 2^32, since the index is a plain 32-bit addition |
| SessionRuns.CounterRepeats | libsignal/rust/protocol/src/ratchet/keys.rs:154-159 | And they do: a session that can send and only sends returns every message again, 2^32 messages later, under the same ratchet key with the same counter |
| TwoParty.StartInv | libsignal/rust/protocol/src/ratchet.rs:54-221 | On matching parameters the two initialisers put the parties in step |
| TwoParty.SendIsHonest | libsignal/rust/protocol/src/session_cipher.rs:19-159 | A send is its plaintext under the key of its position of the sender's chain, authenticated for both identities, and moves only that chain on |
| TwoParty.SendKeepsInv | libsignal/rust/protocol/src/session_cipher.rs:19-159 | A send keeps both parties in step |
| TwoParty.DeliverKeepsInv | libsignal/rust/protocol/src/session_cipher.rs:599-694 | A delivery, accepted or refused, keeps both parties in step, or meets the coincidence |
| TwoParty.LawsAreConsistent | libsignal/rust/protocol/src/session_cipher.rs:599-694 | The laws assumed of the primitives can be met together: toy primitives meet them |
| RatchetAgreement.DeliverReadable | libsignal/rust/protocol/src/session_cipher.rs:599-694 | A readable message of the peer, on a new or a retained chain, had not been accepted before, decrypts to what was sent where the post-quantum ratchets agree, and leaves the party in step; where they do not agree it is refused or its MAC verifies under another key. Only the laws of agreement and decryption are assumed |
| RatchetAgreement.UnreadableIsRefused | libsignal/rust/protocol/src/session_cipher.rs:599-694 | A message that is not readable is refused, or it is of a dropped chain and verifies under the chain made up |
| RatchetAgreement.DeliverHonest | libsignal/rust/protocol/src/session_cipher.rs:599-694 | An honest message of the peer on any chain, new, retained or dropped: what decrypts was readable and not accepted before, leaves the party in step, and comes out as it was sent unless its MAC verifies under another key; where the post-quantum ratchets agree it decrypts exactly when readable; the one other case is the coincidence |
| RatchetAgreement.DeliverOnRetained | libsignal/rust/protocol/src/session_cipher.rs:732-783 | On a retained chain: refusal with the error of taking the key, or a position not accepted before, the plaintext where the post-quantum ratchets agree, a MAC that verifies under another key where they do not, and a party in step whenever it is accepted |
| RatchetAgreement.RatchetOnNewKey | libsignal/rust/protocol/src/session_cipher.rs:696-730 | On the peer's next ratchet key the party derives the peer's root key and chain and moves to its own next key |
| RatchetAgreement.RatchetMeets | libsignal/rust/protocol/src/ratchet/keys.rs:187-206 | Both ends of a ratchet step derive the same root key and the same chain key |
| RatchetAgreement.FindsRetained | libsignal/rust/protocol/src/state/session.rs:296-312 | A receiver chain is found for a ratchet key of the peer exactly when it is among the last five |
| RatchetAgreement.ChainsAdded | libsignal/rust/protocol/src/state/session.rs:332-356 | Adding a sixth receiver chain drops the oldest and keeps the others in step |
| RatchetAgreement.StaleIsRefused | libsignal/rust/protocol/src/session_cipher.rs:599-694 | A message of a chain no longer retained is refused, though a receiver chain is made up for it in memory, unless its MAC verifies under that chain |
| RatchetAgreement.MadeUpNeedsCoincidence | libsignal/rust/protocol/src/session_cipher.rs:657-718 | A made-up chain verifies an honest message only by a coincidence on the values at hand: equal MACs under different keys, one derivation or chain step with one output for different inputs, one public key agreeing alike with two keys, or the handshake's chain key |
| RatchetAgreement.AcceptedIsDuplicate | libsignal/rust/protocol/src/session_cipher.rs:742-750 | An accepted message of a retained chain is refused as a duplicate |
| RatchetAgreement.UnacceptedIsReadable | libsignal/rust/protocol/src/session_cipher.rs:740-770 | Inside the limits an unaccepted message is readable |
| RatchetAgreement.HonestOpens | libsignal/rust/protocol/src/session_cipher.rs:657-693 | Under its own key an honest message verifies and decrypts to its plaintext |
| RatchetAgreement.OpensOnlyOnAgreement | libsignal/rust/protocol/src/session_cipher.rs:635-694 | An honest message that opens although the post-quantum ratchet yields another key has its MAC verify under two derivations |
| MessageKeyWindow.TakeKeyKeepsPositions | libsignal/rust/protocol/src/session_cipher.rs:732-783 | A key handed out is the one of a position of the chain, counted without bound, that carries the counter as its 32-bit index and was not handed out before; it leaves the window with that position used, whether or not the index wraps |
| MessageKeyWindow.TakeKeyKeepsWindow | libsignal/rust/protocol/src/session_cipher.rs:732-783 | Until the index wraps, position and index are the same: a key handed out is the one of that index and was not handed out before, and it leaves the window with it used, or, for the last 32-bit index, the wrapped chain |
| MessageKeyWindow.WrapStartsOver | libsignal/rust/protocol/src/session_cipher.rs:772-781 | A wrapped chain starts over: it hands out an index exactly when it is at most 25,000, or any in a session with oneself, and then the key 2^32 positions further on; nothing cached before is handed out |
| MessageKeyWindow.TakeKeyIff | libsignal/rust/protocol/src/session_cipher.rs:740-770 | A key is handed out exactly when it is cached, or lies ahead by at most 25,000, or anywhere ahead in a session with oneself; one behind and not cached is a duplicate |
| MessageKeyWindow.InsertKeepsWindow | libsignal/rust/protocol/src/state/session.rs:457-475 | Caching in front and dropping the last beyond 2,000 loses only what left the window |
| MessageKeyWindow.SkipKeepsWindow | libsignal/rust/protocol/src/session_cipher.rs:774-778 | Walking forward keeps the window and ends on the chain key of that position |
| MessageKeyWindow.RemovalKeepsWindow | libsignal/rust/protocol/src/state/session.rs:431-455 | Taking a cached key out keeps the window with its position used, and it was not used before |
| RatchetInit.HandshakeAgrees | libsignal/rust/protocol/src/ratchet.rs:54-221 | On matching keys both sides hash the same secrets in the same order, one-time pre-key and KEM secret included |
| RatchetInit.AliceCommits | libsignal/rust/protocol/src/ratchet.rs:60-92 | The KDF input of Alice's handshake commits to every shared secret: two parameter sets with one input agree on each of the three agreements, on the presence of a one-time pre-key and its agreement, and on the KEM secret |
| RatchetInit.BobCommits | libsignal/rust/protocol/src/ratchet.rs:149-189 | So does the input on Bob's side |
| RatchetInit.LayoutCommits | libsignal/rust/protocol/src/ratchet.rs:60-90 | Bytes laid out as section 3.3 of the PQXDH specification says, 32 times 0xFF, the agreements in order and the KEM secret, determine every piece |
| RatchetInit.AliceSessionIsDerived | libsignal/rust/protocol/src/ratchet.rs:54-134 | Alice's session rests on bytes laid out so: their derivation gives the root her ratchet key is mixed into, the chain she receives on first, and the post-quantum key |
| RatchetInit.BobSessionIsDerived | libsignal/rust/protocol/src/ratchet.rs:136-221 | Bob's session likewise; it is made exactly for a canonical base key |
| RatchetInit.InitializeAliceSession | libsignal/rust/protocol/src/ratchet.rs:54-134 | The secrets buffer grown step by step and the fields set one by one make the specified session |
| RatchetInit.InitializeBobSession | libsignal/rust/protocol/src/ratchet.rs:136-221 | The same for Bob, whose check that Alice's base key is canonical comes first |
| SessionStates.SessionState.GetOrCreateChainKey | libsignal/rust/protocol/src/session_cipher.rs:696-730 | Finds the chain, or makes the ratchet step of the specification field by field |
| SessionStates.SessionState.GetOrCreateMessageKey | libsignal/rust/protocol/src/session_cipher.rs:732-783 | The loop over the chain key, caching as it goes, meets the recursive specification of taking a key |
| SessionStates.SessionState.GetReceiverChain | libsignal/rust/protocol/src/state/session.rs:296-312 | The search loop finds the first chain of a ratchet key |
| SessionStates.SessionState.AddReceiverChain | libsignal/rust/protocol/src/state/session.rs:332-356 | Appends, and removes the first beyond five |
| SessionStates.SessionState.GetMessageKeys | libsignal/rust/protocol/src/state/session.rs:431-455 | Takes a cached key out of its chain, or changes nothing |
| SessionStates.SessionState.SetMessageKeys | libsignal/rust/protocol/src/state/session.rs:457-475 | Puts a key in front of its chain's cache, dropping the last beyond 2,000; no other chain changes |
| SessionStates.SessionState.SetReceiverChainKey | libsignal/rust/protocol/src/state/session.rs:477-494 | Replaces the chain key of the chain of that ratchet key only |
| SessionStates.SessionState.SetSenderChainKey | libsignal/rust/protocol/src/state/session.rs:407-429 | Replaces the sender chain key only; without a sender chain it makes one with empty keys |
| SessionStates.SessionState.ClearUnacknowledgedPreKeyMessage | libsignal/rust/protocol/src/state/session.rs:553-576 | Drops both pending pre-key parts |
| SessionStates.AddedIsFound | libsignal/rust/protocol/src/state/session.rs:332-356 | A receiver chain just added is found under its ratchet key, whether or not one was dropped |
| SessionStates.SessionRecord.PromoteState | libsignal/rust/protocol/src/state/session.rs:744-764 | The session becomes current; the replaced one goes to the front of the archive, acknowledged; the oldest makes room at 40 |
| SessionStates.SessionRecord.PromoteOldSession | libsignal/rust/protocol/src/state/session.rs:735-742 | An archived session is taken out and promoted |
| SessionCipher.DecryptMessageWithState | libsignal/rust/protocol/src/session_cipher.rs:599-694 | The step-by-step decryption meets its specification in result and session state |
| SessionCipher.DecryptMessageWithRecord | libsignal/rust/protocol/src/session_cipher.rs:424-582 | The search over current and archived sessions meets its specification; on failure the record is as before |
| PairwiseStore.MessageEncrypt | libsignal/rust/protocol/src/session_cipher.rs:19-159 | The stores change only on success, and then hold the advanced session and the identity |
| PairwiseStore.ProcessPreKey | libsignal/rust/protocol/src/session.rs:46-170 | Checks and lookups in the source's order; the record gets the matching or the new session, no store is written |
| PairwiseStore.ProcessPreKeyBundle | libsignal/rust/protocol/src/session.rs:172-260 | Both signatures and trust are checked before the first write; on any failure the stores are as before |
| PairwiseStore.MessageDecryptSignal | libsignal/rust/protocol/src/session_cipher.rs:280-331 | On any failure, deciphering or trust, whichever archived sessions were tried, the stores are exactly as before |
| PairwiseStore.MessageDecryptPreKey | libsignal/rust/protocol/src/session_cipher.rs:197-278 | All stores after a pre-key message, in every case, by the order of the writes |
| PairwiseStore.ProtocolStore.MarkKyberPreKeyUsed | libsignal/rust/protocol/src/storage/inmem.rs:247-265 | Records a base key once for each pair of pre-keys, and refuses it the second time |
| StoreRuns.RunsKeepWindows | libsignal/rust/protocol/src/session_cipher.rs:19-331 | Following the sessions with a peer through any run of store operations, with any peers and any messages, accepted or refused: every receiver chain of every session, current or archived, is the KDF chain of its seed, has the window invariant for the positions it really handed out, and handed out none twice; the followed record is the stored one |
| StoreRuns.AtMostOnce | libsignal/rust/protocol/src/session_cipher.rs:742-750 | Over any run of store operations, while a session stays held, current or archived, and keeps the chain, two messages it accepts under one ratchet key get keys of different positions; if they carry the same counter, the chain has handed out its last 32-bit index |
| StoreRuns.SameIndexWraps | libsignal/rust/protocol/src/ratchet/keys.rs:154-159 | Two positions of one index were handed out only if the last index of the chain was |
| StoreRuns.ReplayIsDuplicate | libsignal/rust/protocol/src/session_cipher.rs:280-331 | At any later time, delivered to a record where that session is current and keeps the chain, and the chain has not handed out its last 32-bit index, an accepted message is refused as a duplicate and changes nothing |
| StoreRuns.HistoryStep | libsignal/rust/protocol/src/session_cipher.rs:599-694 | One operation accepts, on a chain held before and after it, a position never handed out before, whose index is the counter, and records it, or leaves the chain's history alone |
| StoreRuns.HistoryGrows | libsignal/rust/protocol/src/session_cipher.rs:599-694 | While a session holds a chain its seed stays and the list of positions handed out only grows at its end |
| StoreRuns.OperationIsFollowed | libsignal/rust/protocol/src/session_cipher.rs:19-331 | What any operation does to the sessions of a peer: they are moved about, one may be started, and one of them may decrypt a message |
| StoreRuns.DecryptIsFollowed | libsignal/rust/protocol/src/session_cipher.rs:599-694 | A session that decrypts hands out a position new to the history of its chain, and records it; a new chain starts from the seed of its ratchet step |
| StoreAuthenticity.RunsAcceptAuthentic | libsignal/rust/protocol/src/session_cipher.rs:599-694 | Over any run of store operations on any messages: what decrypts has the session's version, its MAC is right between the session's two identities, and its plaintext is decrypted, under the key of the position its chain handed out for it |
| StoreAuthenticity.DecryptVerifies | libsignal/rust/protocol/src/session_cipher.rs:599-694 | A session decrypts only what verifies under the key of the position it hands out |
| StoreRuns.NothingYet | libsignal/rust/protocol/src/storage/inmem.rs:309-325 | A peer without a record can be followed from the start, so all of this holds of every run from stores that do not know the peer |
| PairwiseProperties.RunsKeepSound | libsignal/rust/protocol/src/session_cipher.rs:19-331 | Over any run of store operations with any peers and messages, none accepted with the last 32-bit counter, all stored sessions stay bounded and in order: at most 40 archived sessions, 5 receiver chains each, 2,000 cached keys each, of one KDF chain, newest first and before its index; RunsKeepWindows says what is kept without that condition |
| PairwiseProperties.PerformedKeepsSound | libsignal/rust/protocol/src/session_cipher.rs:19-331 | One store operation, succeeding or failing, keeps all stored sessions bounded and in order, unless it accepts a message with the last 32-bit counter |
| PairwiseProperties.SignalReplayIsRefused | libsignal/rust/protocol/src/session_cipher.rs:280-331 | A message that decrypted, delivered again at once, is refused as a duplicate and changes nothing; with the last 32-bit counter it is refused unless the session is with oneself or an archived one decrypts it; for any later time see ReplayIsDuplicate |
| PairwiseProperties.PreKeyReplayIsRefused | libsignal/rust/protocol/src/session_cipher.rs:197-278 | A pre-key message that decrypted, delivered again at once, is refused and changes nothing, no pre-key used and no session made: as a duplicate, or as invalid if it carries the last 32-bit counter and the session is not with oneself; for any later time see SpentHandshakeFails |
| PairwiseProperties.RecordDecryptsOnce | libsignal/rust/protocol/src/session_cipher.rs:424-582 | A record that decrypted a message has the session used current and refuses the message there when it is next delivered, as a duplicate, with the record bounded and in order, if it does not carry the last 32-bit counter |
| PairwiseProperties.DecryptsOnce | libsignal/rust/protocol/src/session_cipher.rs:599-694 | A session that decrypted a message refuses it from then on as a duplicate exactly when it does not carry the last 32-bit counter, and then stays bounded and in order; with the last counter it is refused as too far ahead, except in a session with oneself |
| PairwiseProperties.SearchFindsFirst | libsignal/rust/protocol/src/session_cipher.rs:513-549 | The search yields an archived session exactly when that one decrypts and every one before fails other than as a duplicate |
| PairwiseProperties.ArchivedUseLosesNothing | libsignal/rust/protocol/src/state/session.rs:735-764 | Using an archived session drops no other: the one replaced goes in front of the rest, in order |
| PairwiseProperties.UnwrapsAreSafe | libsignal/rust/protocol/src/session_cipher.rs:300-306 | After decryption the record has a current session with a known peer, so those unwraps cannot panic |
| PairwiseProperties.PreKeyFailsIff | libsignal/rust/protocol/src/session_cipher.rs:197-278 | A pre-key message fails exactly when it does not decipher or reuses a base key |
| PairwiseProperties.StartsOnce | libsignal/rust/protocol/src/session_cipher.rs:250-271 | A handshake is heard once: over any run of store operations, two pre-key messages that start a session, from whatever addresses, differ in base key or in the pre-keys used with it, and no one-time pre-key starts two |
| PairwiseProperties.SpentHandshakeFails | libsignal/rust/protocol/src/session_cipher.rs:250-271 | A base key and pre-keys that started a session never start another: at any later time, to any address without that session, such a message fails, changes no session and uses no pre-key |
| PairwiseProperties.PreKeysOnlyGo | libsignal/rust/protocol/src/storage/inmem.rs:142-266 | Over any run, base keys seen are never forgotten and one-time pre-keys never come back |
| TrustRuns.IdentityNeverChanges | libsignal/rust/protocol/src/storage/inmem.rs:60-90 | Trust on first use: over any run of store operations, succeeding or failing, an identity once saved for an address never changes |
| TrustRuns.OneIdentity | libsignal/rust/protocol/src/session_cipher.rs:19-331 | All operations of a run that succeed with one address, sends, receptions and session starts alike, are vouched for by one identity key, which is the one saved |
| TrustRuns.SuccessIsTrusted | libsignal/rust/protocol/src/session_cipher.rs:135-148 | An operation succeeds only if the identity that vouches for it is the one saved for the address or the first, and then it is saved |
| TrustRuns.SendsIff | libsignal/rust/protocol/src/session_cipher.rs:133-158 | A message the session can send leaves the store exactly when the session's identity is the one saved or none is; otherwise UntrustedIdentity, and nothing changes |
| TrustRuns.BundleAcceptedIff | libsignal/rust/protocol/src/session.rs:172-204 | A bundle is accepted exactly when its identity is trusted and both signatures, each over its own pre-key, verify under that identity; otherwise UntrustedIdentity or SignatureValidationFailed, and nothing changes |
| TrustRuns.EverySessionIsMade | libsignal/rust/protocol/src/session.rs:46-260 | Over any run from stores without a record of an address, every session held for it was made by an accepted operation with that address and keeps the identity, base key and registration ids of its bundle, whose pre-keys that identity signed, or of its pre-key message |
| TrustRuns.OperationMakes | libsignal/rust/protocol/src/session_cipher.rs:19-331 | Each session held after an operation goes back to one held before, or this operation made it |
| TrustRuns.StartsIff | libsignal/rust/protocol/src/session.rs:46-170 | Exactly when a pre-key message starts a session: trusted identity, not of the version before Kyber, the pre-keys it names there, base key canonical and not used with them, and its message deciphers |
| TrustRuns.MatchesIff | libsignal/rust/protocol/src/state/session.rs:679-711 | A pre-key message finds its session exactly when one held, current or archived, has its version and base key; that one is then current |
| TrustRuns.BundleStarts | libsignal/rust/protocol/src/session_cipher.rs:68-118 | After a bundle was processed a message to the peer carries the ids, base key and ciphertext of that handshake, until thirty days later none is sent |
| PairwiseProperties.FailedPreKeyChangesNothingIff | libsignal/rust/protocol/src/session_cipher.rs:250-278 | Failure leaves the stores exactly as they were if and only if it is not this case: a message that deciphers, reuses a base key, and comes from an address without an identity. Then the identity, and nothing else, is saved |
| PairwiseProperties.FailureCanSaveIdentity | libsignal/rust/protocol/src/session_cipher.rs:250-264 | For any primitives and from any history: a pre-key message without one-time pre-key that started a session from one address, delivered again under an address not heard from, fails with InvalidMessage and saves the identity there |
| PairwiseProperties.FailureAfterFirstContact | libsignal/rust/protocol/src/session_cipher.rs:250-264 | A concrete history of that kind, from stores that hold nothing but pre-keys |
| FirstContact.FirstMessageArrives | libsignal/rust/protocol/src/session.rs:46-260 | End to end: Alice processes a bundle Bob published and encrypts; Bob decrypts exactly her plaintext, his one-time pre-key is gone, and the stored sessions are two parties in step. Assumed of the values at hand: decapsulation succeeds, and the post-quantum ratchets agree on the first message |
| FirstContact.FirstHeardOpens | libsignal/rust/protocol/src/session_cipher.rs:197-278 | Whichever of Alice's messages, up to 25,000 in, reaches Bob first, it starts his session, decrypts to what was sent, and leaves both in step |
| FirstContact.DeliveryFollows | libsignal/rust/protocol/src/session_cipher.rs:280-331 | From then on: a message the peer sent without a header, readable when it arrives, decrypts from the store to what was sent where the post-quantum ratchets agree; the stored session is again the party's, both are in step, and no archived session is touched |
| FirstContact.PreKeyDeliveryFollows | libsignal/rust/protocol/src/session_cipher.rs:197-278 | So does a later message with the header of the session, as all of Alice's until Bob answers: it finds the session it started, uses no pre-key, decrypts to what was sent, and stores the party's session |
| FirstContact.SendFollows | libsignal/rust/protocol/src/session_cipher.rs:19-159 | Sending from a store that follows a party of a run is that party's send, message and stored session alike |
| FirstContact.MetInStep | libsignal/rust/protocol/src/session.rs:85-260 | The sessions the two stores make from a published bundle are in step |
| FirstContact.ParametersMatch | libsignal/rust/protocol/src/session.rs:113-153 | The parameters Bob takes from his stores for Alice's header match those she took from the bundle |
| FirstContact.FirstHeader | libsignal/rust/protocol/src/session_cipher.rs:104-118 | Alice's first message carries the ids, base key, identity and KEM ciphertext of her handshake |
| FirstContact.FirstSend | libsignal/rust/protocol/src/session_cipher.rs:19-159 | What Alice's store sends first, and stores, is the first send of a two-party run |
| FirstContact.FirstProcessed | libsignal/rust/protocol/src/session.rs:85-170 | Bob's processing of a header for the first time makes his side of the run current |
| FirstContact.OneTimeIsGone | libsignal/rust/protocol/src/session_cipher.rs:257-271 | A one-time pre-key is used at most once: it was there, and exactly it is removed |
| TwoStores.StoresDeliverWhatWasSent | libsignal/rust/protocol/src/session_cipher.rs:19-331 | End to end over whole runs: two stores in step exchange any messages over a network that loses, repeats and reorders them, with headers or without; a posted message delivered to the other store comes out as it was put in, where it is readable and the post-quantum ratchets agree, and nothing else comes out but for the coincidences of two parties |
| TwoStores.StaysLinked | libsignal/rust/protocol/src/session_cipher.rs:19-331 | Two stores that hold two parties hold them through any run: each store operation does to its stored session what the party does, headers and trust checks included, and posts the party's message; no law is assumed |
| TwoStores.FirstContactLinks | libsignal/rust/protocol/src/session.rs:46-260 | After first contact between stores without a record of each other, they hold two parties in step, so the theorem on runs of two stores applies from there |
| TwoStores.SendsAlike | libsignal/rust/protocol/src/session_cipher.rs:19-159 | Sending from a store that holds a session is the session's sending, and the header it carries names the peer's session |
| TwoStores.ReceivesAlike | libsignal/rust/protocol/src/session_cipher.rs:197-331 | Receiving at a store that holds a session is the session's receiving, for both kinds of message: same plaintext, and stores unchanged on failure |
| SealedSenderRoundTrip.ParseUndoesEncode | libsignal/rust/protocol/src/sealed_sender.rs:1626-1741 | For any destinations the parser accepts the encoder's output exactly when the entry count fits 32 bits and the excluded ids are distinct and none of them a destination; it then lists every destination id in order of first appearance with exactly its devices and registration ids in order, then the excluded ids with none |
| SealedSenderRoundTrip.RecipientsDecrypt | libsignal/rust/protocol/src/sealed_sender.rs:1903-1953 | The message extracted for any destination id, decrypted with the private key of the identity known for the first destination of that id, gives the original content when the certificate carries the sender's identity key and, short of a tag collision, only then |
| SealedSenderRoundTrip.EncodesIff | libsignal/rust/protocol/src/sealed_sender.rs:1383-1516 | Encoding succeeds exactly when there is a session for each destination, the first destination of every run of one name has a known identity, every name is a service id and every session names a 14-bit registration id |
| SealedSenderRoundTrip.EncodedIsRead | libsignal/rust/protocol/src/sealed_sender.rs:1626-1741 | The parser reads the encoder's output as the merged entries, each key slice holding that recipient's key material, followed by the shared bytes |
| SealedSenderRoundTrip.EntriesAreRead | libsignal/rust/protocol/src/sealed_sender.rs:1667-1732 | On the bytes of well-formed entries the parser does what merging the entries does, first error included |
| SealedSenderRoundTrip.RecipientIsRead | libsignal/rust/protocol/src/sealed_sender.rs:1668-1710 | One entry is read back: id, devices, key slice, and where it ends |
| SealedSenderRoundTrip.DevicesAreRead | libsignal/rust/protocol/src/sealed_sender.rs:1681-1702 | A device list is read back exactly to its end, by its has-more bits |
| SealedSenderRoundTrip.GroupMerges | libsignal/rust/protocol/src/sealed_sender.rs:1712-1731 | Merging one more group adds its devices to its id, at the end if it is new, and keeps the first key material |
| SealedSenderRoundTrip.GroupsMerge | libsignal/rust/protocol/src/sealed_sender.rs:1667-1732 | Merging all groups makes one right entry for each id, in order of first appearance |
| SealedSenderRoundTrip.ExcludedMerge | libsignal/rust/protocol/src/sealed_sender.rs:1712-1718 | Excluded recipients are accepted exactly when they are distinct and none is already there |
| SealedSenderRoundTrip.GroupDevicesAre | libsignal/rust/protocol/src/sealed_sender.rs:1474-1503 | A group's devices are its destinations', exactly when all its sessions are valid |
| SealedSenderRoundTrip.VarintIsRead | libsignal/rust/protocol/src/sealed_sender.rs:1648-1655 | Decoding an encoded number gives that number or nothing, and that number when it takes at most nine bytes |
| SealedSenderRoundTrip.CountIsRead | libsignal/rust/protocol/src/sealed_sender.rs:1648-1660 | The count is read back exactly when it fits 32 bits, and parsing goes on right after it |
| SealedSenderRoundTrip.FirstAppearancesAre | libsignal/rust/protocol/src/sealed_sender.rs:1612-1617 | The ids in order of first appearance are exactly the ids, once each |
| SealedSenderFormat.ParseIsSafe | libsignal/rust/protocol/src/sealed_sender.rs:1626-1825 | On any bytes: accepted recipients are distinct, one with devices owns exactly 48 bytes ending before the shared bytes, in order and disjoint, one without owns none, the shared bytes hold a public key, and the ranges joined after the version byte are the received message |
| SealedSenderFormat.RecipientsAreSafe | libsignal/rust/protocol/src/sealed_sender.rs:1667-1732 | That safety holds after every entry, from any map and position |
| SealedSenderFormat.CanonicalIsShort | libsignal/rust/protocol/src/sealed_sender.rs:1651 | Skipping the canonical length of a decoded varint never passes the end of the data |
| SealedSenderBytes.EntryParsesIff | libsignal/rust/protocol/src/sealed_sender.rs:1666-1710 | The parser accepts a recipient entry at an offset exactly when one stands there, byte by byte: kind byte 0 or 1 and identifier, three bytes for each device, or a zero byte, then 48 bytes of keys; otherwise InvalidProtobufEncoding |
| SealedSenderBytes.DevicesParseIff | libsignal/rust/protocol/src/sealed_sender.rs:1681-1703 | A device list is accepted exactly as its bytes say: an id from 1 to 127, the registration id high byte first with its two top bits masked off, and the list goes on exactly while the top bit is set |
| SealedSenderBytes.ServiceIdParsesIff | libsignal/rust/protocol/src/sealed_sender.rs:1666-1680 | A service id is 16 bytes of an ACI in the older version, and in the newer a kind byte, 0 for an ACI and 1 for a PNI, before 16 bytes |
| SealedSenderBytes.GroupWritten | libsignal/rust/protocol/src/sealed_sender.rs:1455-1523 | What the encoder appends for a group, wherever it stands: such an entry with one device for each destination in order, and the keys made for the group's identity key |
| SealedSenderBytes.EncodedIsFramed | libsignal/rust/protocol/src/sealed_sender.rs:1539-1593 | The sent message starts with the byte 0x23 and the number of entries, and ends with the shared bytes |
| SealedSenderBytes.VarintAt | libsignal/rust/protocol/src/sealed_sender.rs:1648-1656 | A varint has its low seven bits first, and the top bit of each byte but the last set |
| SealedSenderFormat.ParseMessage | libsignal/rust/protocol/src/sealed_sender.rs:1626-1741 | The loops over recipients and devices, advancing through the data and merging into the map, meet the recursive parser |
| SealedSenderFormat.Cursor.Advance | libsignal/rust/protocol/src/sealed_sender.rs:1641-1647 | Takes the next bytes, or fails and stays |
| SealedSenderFormat.Cursor.NextDevices | libsignal/rust/protocol/src/sealed_sender.rs:1681-1702 | The device loop meets the recursive device parser |
| SealedSenderFormat.Cursor.NextRecipient | libsignal/rust/protocol/src/sealed_sender.rs:1668-1710 | One entry: id, devices, and the key slice if there are devices |
| SealedSenderKem.AgreementXorInverts | libsignal/rust/protocol/src/sealed_sender.rs:1061-1093 | What one end encrypts in the sending direction the other decrypts in the receiving direction with the roles swapped |
| SealedSenderKem.TagNamesSender | libsignal/rust/protocol/src/sealed_sender.rs:1095-1133 | Both ends derive the tag from the same input exactly when the recipient takes the message to be from the sender's own key |
| SealedSenderKem.ReceivedDecrypts | libsignal/rust/protocol/src/sealed_sender.rs:1903-1953 | A recipient's key material before the shared bytes decrypts to the content exactly when the certificate carries the sender's key, or tags collide |
| SealedSenderKem.AcceptedIsMadeForUs | libsignal/rust/protocol/src/sealed_sender.rs:1900-1950 | What is accepted was made for this recipient: the message key recovered determines the ephemeral key and masks to the bytes received, and the tag is the one for the claimed sender and this recipient |
| SealedSenderKem.DeserializesIff | libsignal/rust/protocol/src/sealed_sender.rs:636-685 | A received message is read exactly as its fields follow each other: masked message key, tag, ephemeral key, ciphertext |
| SealedSenderKem.AgreementCommits | libsignal/rust/protocol/src/sealed_sender.rs:1067-1095 | The mask of the message key commits to the agreement and to both public keys |
| SealedSenderKem.TagCommits | libsignal/rust/protocol/src/sealed_sender.rs:1107-1133 | The tag commits to the agreement, the ephemeral key, the masked message key and both identities |
| SealedSenderKem.EndsAre | libsignal/rust/protocol/src/sealed_sender.rs:1067-1095 | The sender's public key comes before the recipient's, each after its type byte, on both sides |
| SealedSenderKem.AgreementXor | libsignal/rust/protocol/src/sealed_sender.rs:1067-1093 | The loop over the derived bytes meets its specification |
| SealedSenderEncoder.FanOut | libsignal/rust/protocol/src/sealed_sender.rs:1548-1582 | For every degree of parallelism, and whatever order the spawned jobs run in, the result is that of one in-order pass: the same bytes or the same first error |
| SealedSenderEncoder.PassSplits | libsignal/rust/protocol/src/sealed_sender.rs:1526-1540 | A pass over two stretches of groups is a pass over the first, then over the second |
| SealedSenderEncoder.GroupsPartition | libsignal/rust/protocol/src/sealed_sender.rs:1415-1446 | The groups are non-empty contiguous ranges that partition the destinations, of one name each and as long as they can be |
| SealedSenderEncoder.GroupDestinations | libsignal/rust/protocol/src/sealed_sender.rs:1419-1446 | The grouping loop makes those groups, or fails at the first without an identity |
| SealedSenderEncoder.SerializeGroup | libsignal/rust/protocol/src/sealed_sender.rs:1453-1524 | The loop over a group's devices appends its bytes, has-more on all but the last, or returns the first error |
| SealedSenderEncoder.ProcessChunk | libsignal/rust/protocol/src/sealed_sender.rs:1526-1540 | The loop over a chunk meets the in-order pass |
| SealedSenderEncoder.Spawn | libsignal/rust/protocol/src/sealed_sender.rs:1559-1577 | Every output slot ends up with the result of its own chunk |
| SealedSenderEncoder.ExcludedRecipients | libsignal/rust/protocol/src/sealed_sender.rs:1584-1587 | Appends every excluded id with the no-devices marker |
| SealedSenderEncoder.MultiRecipientEncrypt | libsignal/rust/protocol/src/sealed_sender.rs:1383-1593 | The whole encoder meets its specification for every degree of parallelism |
| Bytes.XorBytesCancels | libsignal/rust/protocol/src/sealed_sender.rs:1091-1095 | Exclusive or with the same bytes twice restores the input |
| Bytes.XorIsBitwise | libsignal/rust/protocol/src/sealed_sender.rs:1089-1094 | Each bit of an exclusive or is set exactly when it is set in one of the two alone |
| IncrementalMac.ValidatorIsExact | libsignal/rust/protocol/src/incremental_mac.rs:109-138 | With the MAC list made from some data, any data in any division passes all updates and finalize if and only if it is that data, and the counts then sum to its length |
| IncrementalMac.ReportedIsPrefix | libsignal/rust/protocol/src/incremental_mac.rs:110-128 | While no update has failed, the bytes reported valid are a prefix of the original data |
| IncrementalMac.SplitDoesNotMatter | libsignal/rust/protocol/src/incremental_mac.rs:78-102 | For any division of the input, empty updates included, the MACs emitted are exactly those of the prefixes at each multiple of the chunk size, in order |
| IncrementalMac.UpdatesSucceedIff | libsignal/rust/protocol/src/incremental_mac.rs:110-128 | All updates succeed exactly when the chunk MACs of the data fed begin the list; what is left on the stack and what was reported follow |
| IncrementalMac.ComparedIff | libsignal/rust/protocol/src/incremental_mac.rs:113-125 | Comparing with the reversed stack succeeds exactly when the MACs are the beginning of the list |
| IncrementalMac.ChunkSizeIsBounded | libsignal/rust/protocol/src/incremental_mac.rs:25-46 | For every digest size dividing 8,192 the chunk size is between 64 KiB and 2 MiB and does not shrink as the data grows |
| IncrementalMac.ChunkDigestsFit | libsignal/rust/protocol/src/incremental_mac.rs:25-46 | One digest for each chunk fits 8,192 bytes exactly for data up to the target count times 2 MiB |
| IncrementalMac.ListFitsIff | libsignal/rust/protocol/src/incremental_mac.rs:25-46 | The list with the final MAC fits 8,192 bytes exactly when the data is shorter than the target count times 64 KiB, or shorter than the count times 2 MiB and no multiple of the count |
| Arithmetic.DivCeilReaches | libsignal/rust/protocol/src/incremental_mac.rs:42 | Division rounding up is the least multiplier that reaches, so ceil(n / ceil(n / c)) <= c |
| IncrementalMac.Incremental.Update | libsignal/rust/protocol/src/incremental_mac.rs:78-85 | First piece, then whole chunks: absorbs the bytes and emits the MACs of the chunk-aligned prefixes reached |
| IncrementalMac.Incremental.UpdateChunk | libsignal/rust/protocol/src/incremental_mac.rs:91-102 | Emits exactly when the piece completes the chunk; what the source asserts on entry is required, and every call meets it |
| IncrementalMac.Incremental.Finalize | libsignal/rust/protocol/src/incremental_mac.rs:87-89 | The MAC of all bytes |
| IncrementalMac.EmittedStep | libsignal/rust/protocol/src/incremental_mac.rs:91-102 | One more piece emits one MAC if it completes the chunk under way, else none |
| IncrementalMac.Validating.Update | libsignal/rust/protocol/src/incremental_mac.rs:110-128 | Compares every emitted MAC, popping matches; the error is returned at the end |
| IncrementalMac.Validating.Finalize | libsignal/rust/protocol/src/incremental_mac.rs:130-138 | Succeeds exactly when one expected MAC is left and it is that of all bytes |
| AesGcm.StreamIsStandard | libsignal/rust/crypto/src/aes_gcm.rs:111-155 | For any division of the plaintext, output and tag are those of the one-shot authenticated encryption of section 7.1 of NIST SP 800-38D |
| AesGcm.RoundTrip | libsignal/rust/crypto/src/aes_gcm.rs:138-190 | Encrypting in one division and decrypting the result in any other restores the plaintext, and a tag verifies exactly when it is the one computed |
| AesGcm.UpdatedStandsFor | libsignal/rust/crypto/src/aes_gcm.rs:44-88 | After an update, however it falls on the blocks, absorbed blocks and buffered tail are the padded associated data and all message bytes |
| AesGcm.FinalizedIsOneShot | libsignal/rust/crypto/src/aes_gcm.rs:90-109 | Finalize is the tag over A, C, their padding and both bit lengths |
| AesGcm.AbsorbIsGhash | libsignal/rust/crypto/src/aes_gcm.rs:29-108 | Absorbing from zero is GHASH of section 6.4 of NIST SP 800-38D over the list of blocks |
| AesGcm.GhashIsPolynomial | libsignal/rust/crypto/src/aes_gcm.rs:29-108 | Where the multiplication distributes over exclusive or, GHASH is the sum of each block times its own power of H |
| AesGcm.EncryptedAllIs | libsignal/rust/crypto/src/aes_gcm.rs:147-150 | A plaintext in pieces is enciphered with one continuing keystream and its ciphertext hashed |
| AesGcm.DecryptedAllIs | libsignal/rust/crypto/src/aes_gcm.rs:171-174 | A ciphertext in pieces is hashed and deciphered with one continuing keystream |
| AesGcm.ProcessedIsGctr | libsignal/rust/crypto/src/aes_ctr.rs:18-45 | The keystream from a block boundary is GCTR of section 6.5, counters incremented by inc_32 |
| AesGcm.ProcessedSplits | libsignal/rust/crypto/src/aes_ctr.rs:43-45 | Processing two pieces is processing them joined |
| AesGcm.ProcessedInverts | libsignal/rust/crypto/src/aes_ctr.rs:43-45 | Processing again from the same position restores the data |
| AesGcm.NextCounter | libsignal/rust/crypto/src/aes_ctr.rs:22-29 | The next counter block is inc_32 of section 6.2, wrap included |
| AesGcm.CountersDiffer | libsignal/rust/crypto/src/aes_ctr.rs:18-45 | Within 2^36 - 32 bytes, the standard's limit on a plaintext, no two blocks of the data share a counter block, nor does one share that of the pad |
| AesGcm.LengthsAreExact | libsignal/rust/crypto/src/aes_gcm.rs:96-98 | The length block holds both bit lengths as long as they are below 2^61 bytes; beyond, the multiplication of machine words drops bits |
| AesGcm.BigEndianAt | libsignal/rust/crypto/src/aes_gcm.rs:96-98 | Numbers in counter and length blocks have their high byte first |
| AesGcm.AbsorbSplits | libsignal/rust/crypto/src/aes_gcm.rs:67-80 | Absorbing blocks in one call or several is the same |
| AesGcm.GcmGhash.Update | libsignal/rust/crypto/src/aes_gcm.rs:44-88 | The recursive update on the partial-block array meets its specification |
| AesGcm.GcmGhash.Finalize | libsignal/rust/crypto/src/aes_gcm.rs:90-109 | The same for finalize |
| AesGcm.Aes256Ctr32.Process | libsignal/rust/crypto/src/aes_ctr.rs:43-45 | Rewrites the buffer in place and moves the position on |
| AesGcm.SetupGcm | libsignal/rust/crypto/src/aes_gcm.rs:111-131 | Nonce length is checked before key length; the pad is the first keystream block |
| AesGcm.SetupIff | libsignal/rust/crypto/src/aes_gcm.rs:111-131 | The set-up succeeds exactly for a 96-bit nonce and a 256-bit key |
| AesGcm.Aes256GcmEncryption.EncryptBuffer | libsignal/rust/crypto/src/aes_gcm.rs:147-150 | Rewrites the caller's buffer and hashes the output |
| AesGcm.Aes256GcmDecryption.DecryptBuffer | libsignal/rust/crypto/src/aes_gcm.rs:171-174 | Hashes the input, then rewrites the caller's buffer |
| AesGcm.Aes256GcmDecryption.VerifyTag | libsignal/rust/crypto/src/aes_gcm.rs:176-190 | Accepts exactly the computed tag, of 16 bytes |
| Curve.InRangeIff | libsignal/rust/core/src/curve.rs:174-184 | The byte test holds exactly when the 32 bytes, little-endian as in section 5 of RFC 7748, are a number below 2^255 - 19 |
| Curve.LittleEndianBelow | libsignal/rust/core/src/curve.rs:174-184 | A little-endian number is the greatest of its width exactly when all bytes are 255 |

## Left out

- RunKeepsInv: a chain is stopped before message 2^32 - 1 (`Allowed`), because the index wraps there; `CounterRepeatsIff` covers what happens then. Ratchet keys drawn are assumed distinct.
- RunsKeepSound: leaves out runs in which a message is accepted with counter 2^32 - 1, after which cached keys are no longer in the order of their indices; what is kept then is in `RunsKeepWindows`, which has no such condition.
- ReplayIsDuplicate: leaves out a chain that handed out its last 32-bit index; there a key of an earlier round may be tried under the same counter.
- OneIdentity: an application that saves another identity on its own, as when the user accepts a changed one, is not one of the operations.
- StartsOnce: saving pre-keys is not one of the operations; an application that saves another pre-key under a used id starts over with it.
- StoresDeliverWhatWasSent: is about stores that hold one session with each other and nothing archived; `DeliveryFollows` and `PreKeyDeliveryFollows` allow archived ones.
- NeverReuses: takes every value of the function that supplies ratchet keys as possibly drawn, more than an operation draws.
- FirstMessageArrives: is about the in-memory stores, where a reused base key is refused; other stores may decide otherwise.
- ReportedIsPrefix: is about the in-order consumption of the lazy iterator that `update` returns; a caller that drops it unread feeds nothing.
- The post-quantum ratchet inside a session: its state, messages and keys are opaque, and that both sides get the same key for a message is a hypothesis where plaintext is claimed. All its receive errors are InvalidMessage here.
- Protobuf encodings and decoding errors of stored structures; messages are records, with their signed or authenticated bytes as an opaque function of the fields. A chain or root key of the wrong length is modelled as absent.
- Stored message keys of the format before seeds, and errors of block ciphers on keys of wrong length, which the derivations exclude.
- Failures of a store's own reads and writes, logging, and asynchronous scheduling: stores are the in-memory ones and operations do not interleave.
- Address arithmetic in the Sealed Sender parser: slices of the message are offsets and lengths.
- Reading service ids from strings, certificates and their validation, and the payload of Sealed Sender v1: a name is read, and a sender's key found in a content, by a parameter.
- Re-encoding a parsed Sealed Sender message: parsing undoes encoding, and not the other way round, since the parser masks off the unused bit 0x4000 of a registration id, skips a varint by its canonical length and merges repeated recipients.
- The varint library: encoding and decoding are modelled as protobuf defines them, at most ten bytes and 64 bits.
- The keystream limit of the counter-mode library: its position is unbounded here and the 32-bit counter wraps; within the standard's limit it does not (`CountersDiffer`).
- The thread scheduler: jobs run in an arbitrary order, each to its end.
- Archiving a session on request, session age queries, and fingerprints, key framing and address conversions.
- Memory clearing and constant-time behaviour, and the quality of randomness.
- The web client and its bindings.
