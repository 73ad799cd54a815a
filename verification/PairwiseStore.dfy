/** The pairwise protocol over its stores: processing pre-keys
    (libsignal/rust/protocol/src/session.rs) and the store side of encrypting and decrypting
    (libsignal/rust/protocol/src/session_cipher.rs:19-331), with the in-memory stores
    (libsignal/rust/protocol/src/storage/inmem.rs).

    `Stores` is the value of all stores together. The functions say what one operation makes of
    it; the methods carry the operation out in the source's order. */
module PairwiseStore {
  import opened Wrappers
  import opened Bytes
  import opened KdfChain
  import opened RatchetKeys
  import opened RatchetInit
  import opened SessionStates
  import opened SessionCipher

  const CIPHERTEXT_MESSAGE_PRE_KYBER_VERSION: byte := 3

  datatype Stores = Stores(
    sessions: map<ProtocolAddress, RecordStructure>,
    identities: map<ProtocolAddress, PublicKey>,
    preKeys: map<u32, PrivateKey>,
    signedPreKeys: map<u32, PrivateKey>,
    kyberPreKeys: map<u32, Bytes>,
    baseKeysSeen: map<(u32, u32), seq<PublicKey>>,
    identityPrivate: PrivateKey,
    registrationId: u32)

  datatype PreKeysUsed = PreKeysUsed(oneTime: Option<u32>, signedPreKey: u32, kyberPreKey: Option<u32>)

  datatype PreKeyBundle = PreKeyBundle(
    registrationId: u32, identityKey: PublicKey, preKeyId: Option<u32>, preKeyPublic: Option<PublicKey>,
    signedPreKeyId: u32, signedPreKeyPublic: PublicKey, signedPreKeySignature: Bytes,
    kyberPreKeyId: u32, kyberPreKeyPublic: Bytes, kyberPreKeySignature: Bytes)

  /** Random values drawn when a session is started from a bundle. */
  datatype BundleRandom = BundleRandom(baseKey: PrivateKey, kem: Bytes, ratchetKey: PrivateKey)

  /** Trust on first use, in both directions. */
  predicate Trusted(s: Stores, address: ProtocolAddress, identity: PublicKey) {
    address in s.identities ==> s.identities[address] == identity
  }

  function SeenWith(s: Stores, kyberId: u32, signedId: u32): seq<PublicKey> {
    if (kyberId, signedId) in s.baseKeysSeen then s.baseKeysSeen[(kyberId, signedId)] else []
  }

  function Loaded(s: Stores, address: ProtocolAddress): Option<RecordStructure> {
    if address in s.sessions then Some(s.sessions[address]) else None
  }

  /** The stored record, or a fresh one. */
  function RecordFor(s: Stores, address: ProtocolAddress): RecordStructure {
    if Loaded(s, address).Some? then s.sessions[address] else RecordStructure(None, [])
  }

  // ------------------------------------------------------- sending

  function MessageEncrypted(suite: Suite, s: Stores, address: ProtocolAddress, plaintext: Bytes, now: nat,
                            pqRandom: Bytes)
    : Result<(Stores, CiphertextMessage)>
  {
    if Loaded(s, address).None? || s.sessions[address].current.None? then Err(SessionNotFound)
    else
      var record := s.sessions[address];
      var (session, message) :- Encrypted(suite, record.current.value, plaintext, now, pqRandom);
      var theirs := record.current.value.remoteIdentity.value;
      if !Trusted(s, address, theirs) then Err(UntrustedIdentity)
      else Ok((s.(identities := s.identities[address := theirs],
                  sessions := s.sessions[address := record.(current := Some(session))]), message))
  }

  // ------------------------------------------------------- processing pre-keys

  predicate SameSession(session: SessionStructure, version: u32, baseKey: PublicKey) {
    session.SessionVersion() == version && session.aliceBaseKey == baseKey
  }

  function FindArchived(previous: seq<SessionStructure>, version: u32, baseKey: PublicKey): (r: Option<nat>)
    ensures r.None? <==> forall k :: 0 <= k < |previous| ==> !SameSession(previous[k], version, baseKey)
    ensures r.Some? ==> r.value < |previous| && SameSession(previous[r.value], version, baseKey)
                        && forall k :: 0 <= k < r.value ==> !SameSession(previous[k], version, baseKey)
  {
    if previous == [] then None
    else if SameSession(previous[0], version, baseKey) then Some(0)
    else match FindArchived(previous[1..], version, baseKey)
      case None => None
      case Some(k) =>
        assert previous[k + 1] == previous[1..][k];
        Some(k + 1)
  }

  /** The record with the session a pre-key message already started made current, if there is one. */
  function PromotedMatching(record: RecordStructure, version: u32, baseKey: PublicKey): Option<RecordStructure> {
    if record.current.Some? && SameSession(record.current.value, version, baseKey) then Some(record)
    else match FindArchived(record.previous, version, baseKey)
      case None => None
      case Some(i) => Some(Promoted(record.(previous := Without(record.previous, i)), record.previous[i]))
  }

  function BobParametersFor(s: Stores, m: PreKeySignalMessage): Result<BobParameters> {
    if m.signedPreKeyId !in s.signedPreKeys then Err(InvalidSignedPreKeyId)
    else if m.kyber.None? then Err(InvalidMessage)
    else if m.kyber.value.preKeyId !in s.kyberPreKeys then Err(InvalidKyberPreKeyId)
    else if m.preKeyId.Some? && m.preKeyId.value !in s.preKeys then Err(InvalidPreKeyId)
    else
      var signed := s.signedPreKeys[m.signedPreKeyId];
      Ok(BobParameters(s.identityPrivate, signed,
                       if m.preKeyId.Some? then Some(s.preKeys[m.preKeyId.value]) else None,
                       signed, s.kyberPreKeys[m.kyber.value.preKeyId], m.identityKey, m.baseKey,
                       m.kyber.value.ciphertext))
  }

  /** `process_prekey`: the record with the message's session current, and the pre-keys a new session
      used; it writes no store. */
  function PreKeyProcessed(suite: Suite, s: Stores, address: ProtocolAddress, record: RecordStructure,
                           m: PreKeySignalMessage)
    : Result<(RecordStructure, Option<PreKeysUsed>)>
  {
    if !Trusted(s, address, m.identityKey) then Err(UntrustedIdentity)
    else match PromotedMatching(record, m.version, m.baseKey)
      case Some(promoted) => Ok((promoted, None))
      case None =>
        if m.version == CIPHERTEXT_MESSAGE_PRE_KYBER_VERSION then Err(InvalidMessage)
        else
          var parameters :- BobParametersFor(s, m);
          var session :- BobSession(suite, parameters);
          Ok((Promoted(record, session.(localRegistrationId := s.registrationId,
                                        remoteRegistrationId := m.registrationId)),
              Some(PreKeysUsed(m.preKeyId, m.signedPreKeyId, Some(m.kyber.value.preKeyId)))))
  }

  /** `process_prekey_bundle`: all checks come before the first write. */
  function BundleProcessed(suite: Suite, s: Stores, address: ProtocolAddress, bundle: PreKeyBundle, now: nat,
                           random: BundleRandom)
    : Result<Stores>
  {
    if !Trusted(s, address, bundle.identityKey) then Err(UntrustedIdentity)
    else if !suite.verify(bundle.identityKey, bundle.signedPreKeyPublic, bundle.signedPreKeySignature) then
      Err(SignatureValidationFailed)
    else if !suite.verify(bundle.identityKey, bundle.kyberPreKeyPublic, bundle.kyberPreKeySignature) then
      Err(SignatureValidationFailed)
    else
      var record := RecordFor(s, address);
      Ok(s.(identities := s.identities[address := bundle.identityKey],
            sessions := s.sessions[address := Promoted(record, BundleSession(suite, s, bundle, now, random))]))
  }

  function AliceParametersFor(suite: Suite, s: Stores, bundle: PreKeyBundle, random: BundleRandom): AliceParameters {
    AliceParameters(s.identityPrivate, random.baseKey, bundle.identityKey, bundle.signedPreKeyPublic,
                    bundle.preKeyPublic, bundle.signedPreKeyPublic, bundle.kyberPreKeyPublic)
  }

  function BundleSession(suite: Suite, s: Stores, bundle: PreKeyBundle, now: nat,
                         random: BundleRandom): SessionStructure {
    var session := AliceSession(suite, AliceParametersFor(suite, s, bundle, random), random.kem, random.ratchetKey);
    session.(pendingPreKey := Some(PendingPreKey(bundle.preKeyId, bundle.signedPreKeyId,
                                                 suite.publicKey(random.baseKey), now)),
             pendingKyber := Some(session.pendingKyber.value.(preKeyId := bundle.kyberPreKeyId)),
             localRegistrationId := s.registrationId, remoteRegistrationId := bundle.registrationId)
  }

  // ------------------------------------------------------- receiving

  function SignalDecrypted(suite: Suite, s: Stores, address: ProtocolAddress, m: SignalMessage,
                           ephemeral: nat -> PrivateKey)
    : Result<(Stores, Bytes)>
  {
    if Loaded(s, address).None? then Err(SessionNotFound)
    else
      var (record, plaintext) :- DecryptedWithRecord(suite, s.sessions[address], m, false, ephemeral);
      if record.current.None? || record.current.value.remoteIdentity.None? then Err(InvalidSessionStructure)
      else
        var theirs := record.current.value.remoteIdentity.value;
        if !Trusted(s, address, theirs) then Err(UntrustedIdentity)
        else Ok((s.(identities := s.identities[address := theirs], sessions := s.sessions[address := record]),
                 plaintext))
  }

  /** The stores after a pre-key message, and what it returns. Deciphering comes first; then the
      identity is saved, then the Kyber pre-key is marked, which fails on a base key seen before
      with the same pre-keys, then the one-time pre-key goes, then the session is stored. */
  function PreKeyDecrypted(suite: Suite, s: Stores, address: ProtocolAddress, m: PreKeySignalMessage,
                           ephemeral: nat -> PrivateKey)
    : (Stores, Result<Bytes>)
  {
    var record := RecordFor(s, address);
    match PreKeyProcessed(suite, s, address, record, m)
    case Err(e) => (s, Err(e))
    case Ok(processed) =>
      match DecryptedWithRecord(suite, processed.0, m.message, true, ephemeral)
      case Err(e) => (s, Err(e))
      case Ok(result) =>
        var saved := s.(identities := s.identities[address := m.identityKey]);
        var stored := saved.(sessions := s.sessions[address := result.0]);
        if processed.1.None? then (stored, Ok(result.1))
        else
          var used := processed.1.value;
          var seen := SeenWith(s, used.kyberPreKey.value, used.signedPreKey);
          if m.baseKey in seen then (saved, Err(InvalidMessage))
          else (stored.(baseKeysSeen :=
                          s.baseKeysSeen[(used.kyberPreKey.value, used.signedPreKey) := seen + [m.baseKey]],
                        preKeys := if used.oneTime.Some? then s.preKeys - {used.oneTime.value} else s.preKeys),
                Ok(result.1))
  }

  // ------------------------------------------------------- the methods

  class ProtocolStore {
    var sessions: map<ProtocolAddress, RecordStructure>
    var identities: map<ProtocolAddress, PublicKey>
    var preKeys: map<u32, PrivateKey>
    var signedPreKeys: map<u32, PrivateKey>
    var kyberPreKeys: map<u32, Bytes>
    var baseKeysSeen: map<(u32, u32), seq<PublicKey>>
    var identityPrivate: PrivateKey
    var registrationId: u32

    constructor (identityPrivate: PrivateKey, registrationId: u32)
      ensures View() == Stores(map[], map[], map[], map[], map[], map[], identityPrivate, registrationId)
    {
      sessions, identities, baseKeysSeen := map[], map[], map[];
      preKeys, signedPreKeys, kyberPreKeys := map[], map[], map[];
      this.identityPrivate, this.registrationId := identityPrivate, registrationId;
    }

    function View(): Stores
      reads this
    {
      Stores(sessions, identities, preKeys, signedPreKeys, kyberPreKeys, baseKeysSeen, identityPrivate, registrationId)
    }

    predicate IsTrustedIdentity(address: ProtocolAddress, identity: PublicKey)
      reads this
    {
      if address in identities then identities[address] == identity else true
    }

    method SaveIdentity(address: ProtocolAddress, identity: PublicKey)
      modifies this
      ensures View() == old(View()).(identities := old(identities)[address := identity])
    {
      identities := identities[address := identity];
    }

    method StoreSession(address: ProtocolAddress, record: SessionRecord)
      modifies this
      ensures View() == old(View()).(sessions := old(sessions)[address := record.record])
    {
      sessions := sessions[address := record.record];
    }

    method RemovePreKey(id: u32)
      modifies this
      ensures View() == old(View()).(preKeys := old(preKeys) - {id})
    {
      preKeys := preKeys - {id};
    }

    method MarkKyberPreKeyUsed(kyberId: u32, signedId: u32, baseKey: PublicKey) returns (ok: bool)
      modifies this
      ensures var seen := SeenWith(old(View()), kyberId, signedId);
        ok == (baseKey !in seen)
        && View() == (if ok
                      then old(View()).(baseKeysSeen := old(baseKeysSeen)[(kyberId, signedId) := seen + [baseKey]])
                      else old(View()))
    {
      var seen := if (kyberId, signedId) in baseKeysSeen then baseKeysSeen[(kyberId, signedId)] else [];
      if baseKey in seen {
        return false;
      }
      baseKeysSeen := baseKeysSeen[(kyberId, signedId) := seen + [baseKey]];
      return true;
    }
  }

  /** `message_encrypt`: the trust check comes last, but before anything is stored. */
  method MessageEncrypt(suite: Suite, store: ProtocolStore, address: ProtocolAddress, plaintext: Bytes, now: nat,
                        pqRandom: Bytes)
    returns (r: Result<CiphertextMessage>)
    modifies store
    ensures match MessageEncrypted(suite, old(store.View()), address, plaintext, now, pqRandom)
      case Ok(p) => r == Ok(p.1) && store.View() == p.0
      case Err(e) => r == Err(e) && store.View() == old(store.View())
  {
    hide NewSignalMessage;
    if address !in store.sessions {
      return Err(SessionNotFound);
    }
    var record := new SessionRecord(store.sessions[address]);
    if record.record.current.None? {
      return Err(SessionNotFound);
    }
    var st := record.record.current.value;
    if st.senderChain.None? {
      return Err(InvalidSessionStructure);
    }
    var state := new SessionState(st);
    var chainKey := st.senderChain.value.chainKey;
    var pq := suite.pqSend(st.pqState, pqRandom);
    if pq.None? {
      return Err(InvalidState);
    }
    state.session := state.session.(pqState := pq.value.0);
    var keys := suite.messageKdf(chainKey.MessageKeyOf(suite.hmac).seed, pq.value.2);
    if st.SessionVersion() > 0xFF {
      return Err(InvalidSessionStructure);
    }
    if st.remoteIdentity.None? {
      return Err(InvalidState);
    }
    var theirs := st.remoteIdentity.value;
    var ctext := suite.encrypt(plaintext, keys.cipherKey, keys.iv);
    var signal := NewSignalMessage(suite, st.SessionVersion(), keys.macKey, st.senderChain.value.ratchetKey,
                                   chainKey.index, st.previousCounter, ctext, st.localIdentity, theirs, pq.value.1);
    var message;
    match st.pendingPreKey {
      case Some(items) =>
        if items.timestamp + MAX_UNACKNOWLEDGED_SESSION_AGE < now {
          return Err(SessionNotFound);
        }
        var kyber := if st.pendingKyber.Some?
                     then Some(KyberPayload(st.pendingKyber.value.preKeyId, st.pendingKyber.value.ciphertext))
                     else None;
        message := PreKey(PreKeySignalMessage(st.SessionVersion(), st.localRegistrationId, items.preKeyId,
                                              items.signedPreKeyId, kyber, items.baseKey, st.localIdentity, signal));
      case None =>
        message := Whisper(signal);
    }
    state.SetSenderChainKey(chainKey.Next(suite.hmac));
    if !store.IsTrustedIdentity(address, theirs) {
      return Err(UntrustedIdentity);
    }
    store.SaveIdentity(address, theirs);
    record.SetSessionState(state.session);
    store.StoreSession(address, record);
    return Ok(message);
  }

  /** `process_prekey` with `process_prekey_impl` and `promote_matching_session`. */
  method ProcessPreKey(suite: Suite, store: ProtocolStore, address: ProtocolAddress, record: SessionRecord,
                       m: PreKeySignalMessage)
    returns (r: Result<Option<PreKeysUsed>>)
    modifies record
    ensures match PreKeyProcessed(suite, store.View(), address, old(record.record), m)
      case Ok(p) => r == Ok(p.1) && record.record == p.0
      case Err(e) => r == Err(e)
  {
    if !store.IsTrustedIdentity(address, m.identityKey) {
      return Err(UntrustedIdentity);
    }
    var current := record.record.current;
    if current.Some? && SameSession(current.value, m.version, m.baseKey) {
      return Ok(None);
    }
    var previous := record.record.previous;
    for i := 0 to |previous|
      invariant record.record == old(record.record)
      invariant forall k :: 0 <= k < i ==> !SameSession(previous[k], m.version, m.baseKey)
    {
      if SameSession(previous[i], m.version, m.baseKey) {
        record.PromoteOldSession(i, previous[i]);
        return Ok(None);
      }
    }
    if m.version == CIPHERTEXT_MESSAGE_PRE_KYBER_VERSION {
      return Err(InvalidMessage);
    }
    if m.signedPreKeyId !in store.signedPreKeys {
      return Err(InvalidSignedPreKeyId);
    }
    var signed := store.signedPreKeys[m.signedPreKeyId];
    if m.kyber.None? {
      return Err(InvalidMessage);
    }
    if m.kyber.value.preKeyId !in store.kyberPreKeys {
      return Err(InvalidKyberPreKeyId);
    }
    var oneTime := None;
    if m.preKeyId.Some? {
      if m.preKeyId.value !in store.preKeys {
        return Err(InvalidPreKeyId);
      }
      oneTime := Some(store.preKeys[m.preKeyId.value]);
    }
    var parameters := BobParameters(store.identityPrivate, signed, oneTime, signed,
                                    store.kyberPreKeys[m.kyber.value.preKeyId], m.identityKey, m.baseKey,
                                    m.kyber.value.ciphertext);
    var session := InitializeBobSession(suite, parameters);
    if session.Err? {
      return Err(session.error);
    }
    record.PromoteState(session.value.(localRegistrationId := store.registrationId,
                                       remoteRegistrationId := m.registrationId));
    return Ok(Some(PreKeysUsed(m.preKeyId, m.signedPreKeyId, Some(m.kyber.value.preKeyId))));
  }

  method ProcessPreKeyBundle(suite: Suite, store: ProtocolStore, address: ProtocolAddress, bundle: PreKeyBundle,
                             now: nat, random: BundleRandom) returns (r: Result<()>)
    modifies store
    ensures match BundleProcessed(suite, old(store.View()), address, bundle, now, random)
      case Ok(s) => r == Ok(()) && store.View() == s
      case Err(e) => r == Err(e) && store.View() == old(store.View())
  {
    if !store.IsTrustedIdentity(address, bundle.identityKey) {
      return Err(UntrustedIdentity);
    }
    if !suite.verify(bundle.identityKey, bundle.signedPreKeyPublic, bundle.signedPreKeySignature) {
      return Err(SignatureValidationFailed);
    }
    if !suite.verify(bundle.identityKey, bundle.kyberPreKeyPublic, bundle.kyberPreKeySignature) {
      return Err(SignatureValidationFailed);
    }
    var record := new SessionRecord(if address in store.sessions then store.sessions[address]
                                    else RecordStructure(None, []));
    var parameters := AliceParameters(store.identityPrivate, random.baseKey, bundle.identityKey,
                                      bundle.signedPreKeyPublic,
                                      bundle.preKeyPublic, bundle.signedPreKeyPublic, bundle.kyberPreKeyPublic);
    var session := InitializeAliceSession(suite, parameters, random.kem, random.ratchetKey);
    session := session.(pendingPreKey := Some(PendingPreKey(bundle.preKeyId, bundle.signedPreKeyId,
                                                            suite.publicKey(random.baseKey), now)));
    session := session.(pendingKyber := Some(session.pendingKyber.value.(preKeyId := bundle.kyberPreKeyId)));
    session := session.(localRegistrationId := store.registrationId, remoteRegistrationId := bundle.registrationId);
    store.SaveIdentity(address, bundle.identityKey);
    record.PromoteState(session);
    store.StoreSession(address, record);
    return Ok(());
  }

  method MessageDecryptSignal(suite: Suite, store: ProtocolStore, address: ProtocolAddress, m: SignalMessage,
                              ephemeral: nat -> PrivateKey) returns (r: Result<Bytes>)
    modifies store
    ensures match SignalDecrypted(suite, old(store.View()), address, m, ephemeral)
      case Ok(p) => r == Ok(p.1) && store.View() == p.0
      case Err(e) => r == Err(e) && store.View() == old(store.View())
  {
    if address !in store.sessions {
      return Err(SessionNotFound);
    }
    var record := new SessionRecord(store.sessions[address]);
    var plaintext := DecryptMessageWithRecord(suite, record, m, false, ephemeral);
    if plaintext.Err? {
      return plaintext;
    }
    if record.record.current.None? || record.record.current.value.remoteIdentity.None? {
      return Err(InvalidSessionStructure);
    }
    var theirs := record.record.current.value.remoteIdentity.value;
    if !store.IsTrustedIdentity(address, theirs) {
      return Err(UntrustedIdentity);
    }
    store.SaveIdentity(address, theirs);
    store.StoreSession(address, record);
    return plaintext;
  }

  method MessageDecryptPreKey(suite: Suite, store: ProtocolStore, address: ProtocolAddress, m: PreKeySignalMessage,
                              ephemeral: nat -> PrivateKey) returns (r: Result<Bytes>)
    modifies store
    ensures (store.View(), r) == PreKeyDecrypted(suite, old(store.View()), address, m, ephemeral)
  {
    hide DecryptedWithRecord, PromotedMatching, BobSession;
    var record := new SessionRecord(if address in store.sessions then store.sessions[address]
                                    else RecordStructure(None, []));
    var used := ProcessPreKey(suite, store, address, record, m);
    if used.Err? {
      return Err(used.error);
    }
    var plaintext := DecryptMessageWithRecord(suite, record, m.message, true, ephemeral);
    if plaintext.Err? {
      return plaintext;
    }
    store.SaveIdentity(address, m.identityKey);
    if used.value.Some? {
      var keys := used.value.value;
      if keys.kyberPreKey.Some? {
        var ok := store.MarkKyberPreKeyUsed(keys.kyberPreKey.value, keys.signedPreKey, m.baseKey);
        if !ok {
          return Err(InvalidMessage);
        }
      }
      if keys.oneTime.Some? {
        store.RemovePreKey(keys.oneTime.value);
      }
    }
    store.StoreSession(address, record);
    return plaintext;
  }
}
