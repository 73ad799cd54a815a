/** Encrypting and decrypting with a session (libsignal/rust/protocol/src/session_cipher.rs),
    on session states and records; the store operations are in PairwiseStore. */
module SessionCipher {
  import opened Wrappers
  import opened Bytes
  import opened KdfChain
  import opened RatchetKeys
  import opened SessionStates

  /** `content` is the serialization the MAC covers. */
  datatype SignalMessage = SignalMessage(
    version: byte, ratchetKey: PublicKey, counter: u32, previousCounter: u32, body: Bytes, pq: Bytes,
    content: Bytes, mac: Bytes)

  datatype KyberPayload = KyberPayload(preKeyId: u32, ciphertext: Bytes)

  datatype PreKeySignalMessage = PreKeySignalMessage(
    version: byte, registrationId: u32, preKeyId: Option<u32>, signedPreKeyId: u32,
    kyber: Option<KyberPayload>, baseKey: PublicKey, identityKey: PublicKey, message: SignalMessage)

  datatype CiphertextMessage = Whisper(whisper: SignalMessage) | PreKey(preKey: PreKeySignalMessage)

  function Signal(message: CiphertextMessage): SignalMessage {
    match message
    case Whisper(m) => m
    case PreKey(m) => m.message
  }

  function NewSignalMessage(suite: Suite, version: byte, macKey: Bytes, ratchetKey: PublicKey, counter: u32,
                            previousCounter: u32, body: Bytes, sender: PublicKey, receiver: PublicKey,
                                pq: Bytes): SignalMessage
  {
    var content := suite.encode(version, ratchetKey, counter, previousCounter, body, pq);
    SignalMessage(version, ratchetKey, counter, previousCounter, body, pq, content,
                  suite.mac(macKey, sender, receiver, content))
  }

  // ------------------------------------------------------------- encrypting

  /** The message a session sends and the session afterwards; `now` is in seconds. */
  function Encrypted(suite: Suite, st: SessionStructure, plaintext: Bytes, now: nat, pqRandom: Bytes)
    : Result<(SessionStructure, CiphertextMessage)>
  {
    if st.senderChain.None? then Err(InvalidSessionStructure)
    else
      var sender := st.senderChain.value;
      match suite.pqSend(st.pqState, pqRandom)
      case None => Err(InvalidState)
      case Some(pq) =>
        var keys := suite.messageKdf(sender.chainKey.MessageKeyOf(suite.hmac).seed, pq.2);
        if st.SessionVersion() > 0xFF then Err(InvalidSessionStructure)
        else if st.remoteIdentity.None? then Err(InvalidState)
        else
          var message := NewSignalMessage(suite, st.SessionVersion(), keys.macKey, sender.ratchetKey,
                                          sender.chainKey.index, st.previousCounter,
                                          suite.encrypt(plaintext, keys.cipherKey, keys.iv),
                                          st.localIdentity, st.remoteIdentity.value, pq.1);
          var next := st.(pqState := pq.0,
                          senderChain := Some(sender.(chainKey := sender.chainKey.Next(suite.hmac))));
          match st.pendingPreKey
          case None => Ok((next, Whisper(message)))
          case Some(items) =>
            if items.timestamp + MAX_UNACKNOWLEDGED_SESSION_AGE < now then Err(SessionNotFound)
            else
              var kyber := match st.pendingKyber
                           case None => None
                           case Some(k) => Some(KyberPayload(k.preKeyId, k.ciphertext));
              Ok((next, PreKey(PreKeySignalMessage(st.SessionVersion(), st.localRegistrationId, items.preKeyId,
                                                   items.signedPreKeyId, kyber, items.baseKey, st.localIdentity,
                                                       message))))
  }

  // ------------------------------------------------------------- decrypting

  /** `decrypt_message_with_state`. */
  function DecryptedWithState(suite: Suite, st: SessionStructure, m: SignalMessage, ephemeral: PrivateKey)
    : Result<(SessionStructure, Bytes)>
  {
    if st.rootKey.None? then Err(InvalidMessage)
    else if m.version != st.SessionVersion() then Err(UnrecognizedMessageVersion)
    else
      var ratcheted :- if FindReceiver(st.receiverChains, m.ratchetKey).Some? then Ok(st)
                       else RatchetStep(suite, st, m.ratchetKey, ephemeral);
      match FindReceiver(ratcheted.receiverChains, m.ratchetKey)
      case None => Err(InvalidSessionStructure)
      case Some(i) =>
        var (chain, key) :- TakeKey(suite.hmac, ratcheted.receiverChains[i], m.counter, ratcheted.WithSelf());
        Opened(suite, ratcheted.(receiverChains := ratcheted.receiverChains[i := chain]), key, m)
  }

  /** Verify and decrypt a message under a message key taken from the session. */
  function Opened(suite: Suite, st: SessionStructure, key: MessageKey, m: SignalMessage): Result<(SessionStructure,
                  Bytes)> {
    match suite.pqReceive(st.pqState, m.pq)
    case None => Err(InvalidMessage)
    case Some(pq) =>
      var keys := suite.messageKdf(key.seed, pq.1);
      if st.remoteIdentity.None? then Err(InvalidSessionStructure)
      else if suite.mac(keys.macKey, st.remoteIdentity.value, st.localIdentity, m.content) != m.mac then
        Err(InvalidMessage)
      else
        match suite.decrypt(m.body, keys.cipherKey, keys.iv)
        case None => Err(InvalidMessage)
        case Some(plaintext) => Ok((st.(pqState := pq.0).Acknowledged(), plaintext))
  }

  method DecryptMessageWithState(suite: Suite, state: SessionState, m: SignalMessage, ephemeral: PrivateKey)
    returns (r: Result<Bytes>)
    modifies state
    ensures match DecryptedWithState(suite, old(state.session), m, ephemeral)
      case Ok(p) => r == Ok(p.1) && state.session == p.0
      case Err(e) => r == Err(e)
  {
    if state.session.rootKey.None? {
      return Err(InvalidMessage);
    }
    if m.version != state.session.SessionVersion() {
      return Err(UnrecognizedMessageVersion);
    }
    var chainKey := state.GetOrCreateChainKey(suite, m.ratchetKey, ephemeral);
    if chainKey.Err? {
      return Err(chainKey.error);
    }
    var key := state.GetOrCreateMessageKey(suite, m.ratchetKey, chainKey.value, m.counter);
    if key.Err? {
      return Err(key.error);
    }
    var received := suite.pqReceive(state.session.pqState, m.pq);
    if received.None? {
      return Err(InvalidMessage);
    }
    var keys := suite.messageKdf(key.value.seed, received.value.1);
    if state.session.remoteIdentity.None? {
      return Err(InvalidSessionStructure);
    }
    if suite.mac(keys.macKey, state.session.remoteIdentity.value, state.session.localIdentity, m.content) != m.mac {
      return Err(InvalidMessage);
    }
    var plaintext := suite.decrypt(m.body, keys.cipherKey, keys.iv);
    if plaintext.None? {
      return Err(InvalidMessage);
    }
    state.session := state.session.(pqState := received.value.0);
    state.ClearUnacknowledgedPreKeyMessage();
    return Ok(plaintext.value);
  }

  /** The first archived session, from `i` on, whose attempt ends the search: it decrypts, or it
      knows the message as a duplicate. */
  function TryPrevious(suite: Suite, previous: seq<SessionStructure>, m: SignalMessage, ephemeral: nat -> PrivateKey,
                       i: nat)
    : (r: Result<(nat, SessionStructure, Bytes)>)
    requires i <= |previous|
    ensures r.Ok? ==> i <= r.value.0 < |previous|
    decreases |previous| - i
  {
    if i == |previous| then Err(InvalidMessage)
    else match DecryptedWithState(suite, previous[i], m, ephemeral(i + 1))
      case Ok(p) => Ok((i, p.0, p.1))
      case Err(DuplicatedMessage) => Err(DuplicatedMessage)
      case Err(_) => TryPrevious(suite, previous, m, ephemeral, i + 1)
  }

  /** `decrypt_message_with_record`; `ephemeral(0)` is the key drawn for the current session and
      `ephemeral(i + 1)` the one for archived session `i`. A pre-key message is only tried on the
      current session. */
  function DecryptedWithRecord(suite: Suite, record: RecordStructure, m: SignalMessage, isPreKey: bool,
                               ephemeral: nat -> PrivateKey)
    : Result<(RecordStructure, Bytes)>
  {
    var first := if record.current.None? then Err(InvalidMessage)
                 else DecryptedWithState(suite, record.current.value, m, ephemeral(0));
    if first.Ok? then Ok((record.(current := Some(first.value.0)), first.value.1))
    else if record.current.Some? && first.error.DuplicatedMessage? then Err(DuplicatedMessage)
    else if record.current.Some? && isPreKey then Err(InvalidMessage)
    else
      var (i, session, plaintext) :- TryPrevious(suite, record.previous, m, ephemeral, 0);
      Ok((Promoted(record.(previous := Without(record.previous, i)), session), plaintext))
  }

  method DecryptMessageWithRecord(suite: Suite, record: SessionRecord, m: SignalMessage, isPreKey: bool,
                                  ephemeral: nat -> PrivateKey)
    returns (r: Result<Bytes>)
    modifies record
    ensures match DecryptedWithRecord(suite, old(record.record), m, isPreKey, ephemeral)
      case Ok(p) => r == Ok(p.1) && record.record == p.0
      case Err(e) => r == Err(e) && record.record == old(record.record)
  {
    if record.record.current.Some? {
      var current := new SessionState(record.record.current.value);
      var result := DecryptMessageWithState(suite, current, m, ephemeral(0));
      if result.Ok? {
        record.SetSessionState(current.session);
        return result;
      }
      if result.error.DuplicatedMessage? {
        return result;
      }
      if isPreKey {
        return Err(InvalidMessage);
      }
    }
    var previous := record.record.previous;
    for idx := 0 to |previous|
      invariant record.record == old(record.record)
      invariant TryPrevious(suite, previous, m, ephemeral, idx) == TryPrevious(suite, previous, m, ephemeral, 0)
    {
      var state := new SessionState(previous[idx]);
      var result := DecryptMessageWithState(suite, state, m, ephemeral(idx + 1));
      if result.Ok? {
        record.PromoteOldSession(idx, state.session);
        return result;
      }
      if result.error.DuplicatedMessage? {
        return result;
      }
    }
    return Err(InvalidMessage);
  }
}
