/** Group messages over sender keys (libsignal/rust/protocol/src/group_cipher.rs).

    The functions `Encrypted`, `Decrypted`, `Processed` and `Created` say what one operation
    does to the record stored for one (sender, distribution id); the methods carry the
    operations out on the store, step by step, and are proved equal to them. */
module GroupCipher {
  import opened Wrappers
  import opened Bytes
  import opened KdfChain
  import opened SenderKeys

  const SENDERKEY_MESSAGE_CURRENT_VERSION: byte := 3

  type Uuid = Bytes

  /** The primitives. `content` is the signed serialization of a message's fields;
      `messageKey` is the HKDF that turns a seed into (iv, cipher key). */
  datatype Suite = Suite(
    hmac: Hmac,
    messageKey: Bytes -> (Bytes, Bytes),
    encrypt: (Bytes, (Bytes, Bytes)) -> Bytes,
    decrypt: (Bytes, (Bytes, Bytes)) -> Option<Bytes>,
    content: (byte, Uuid, u32, u32, Bytes) -> Bytes,
    sign: (Bytes, Bytes, Bytes) -> Bytes,
    verify: (Bytes, Bytes, Bytes) -> bool,
    publicKey: Bytes -> Bytes)

  /** The laws delivery rests on: AES-CBC decrypts what it encrypted, and a signature made with
      a private key verifies under its public key. */
  ghost predicate Lawful(suite: Suite) {
    && (forall p, k :: suite.decrypt(suite.encrypt(p, k), k) == Some(p))
    && (forall private, c, random ::
          suite.verify(suite.publicKey(private), c, suite.sign(private, c, random)))
  }

  /** `content` and `signature` are the two parts of the serialized message. */
  datatype SenderKeyMessage = SenderKeyMessage(
    version: byte, distributionId: Uuid, chainId: u32, iteration: u32, ciphertext: Bytes,
    content: Bytes, signature: Bytes)

  datatype DistributionMessage = DistributionMessage(
    version: byte, distributionId: Uuid, chainId: u32, iteration: u32, chainKey: Bytes,
    signingKey: Bytes)

  /** Random values drawn when a distribution is first created; the chain id has 31 bits. */
  datatype Fresh = Fresh(chainId: u32, chainKey: Bytes, privateKey: Bytes)

  type Stored = Option<RecordStructure>

  function Encrypted(suite: Suite, distributionId: Uuid, stored: Stored, plaintext: Bytes, random: Bytes)
    : Result<(RecordStructure, SenderKeyMessage)>
  {
    if stored.None? then Err(NoSenderKeyState)
    else if stored.value == [] then Err(InvalidSenderKeySession)
    else
      var st := stored.value[0];
      if st.MessageVersion() > 0xFF || st.senderChainKey.None? then Err(InvalidSenderKeySession)
      else
        var chain := st.senderChainKey.value;
        if st.signingPrivate.None? then Err(InvalidSenderKeySession)
        else
          var ciphertext := suite.encrypt(plaintext, suite.messageKey(chain.MessageKey(suite.hmac).seed));
          var content := suite.content(st.MessageVersion(), distributionId, st.chainId, chain.iteration, ciphertext);
          var message := SenderKeyMessage(SENDERKEY_MESSAGE_CURRENT_VERSION, distributionId, st.chainId,
                                          chain.iteration, ciphertext, content,
                                          suite.sign(st.signingPrivate.value, content, random));
          var next :- chain.Next(suite.hmac);
          Ok((stored.value[0 := st.(senderChainKey := Some(next))], message))
  }

  /** Deciphering and bookkeeping for a message whose bytes parsed. */
  function Decrypted(suite: Suite, stored: Stored, message: SenderKeyMessage): Result<(RecordStructure, Bytes)> {
    if stored.None? then Err(NoSenderKeyState)
    else match FindChain(stored.value, message.chainId)
      case None => Err(NoSenderKeyState)
      case Some(i) =>
        var st := stored.value[i];
        if message.version != st.MessageVersion() then Err(UnrecognizedMessageVersion)
        else if st.signingPublic.None? then Err(InvalidSenderKeySession)
        else if !suite.verify(st.signingPublic.value, message.content, message.signature) then
          Err(SignatureValidationFailed)
        else
          var (next, key) :- TakeKey(suite.hmac, st, message.iteration);
          match suite.decrypt(message.ciphertext, suite.messageKey(key.seed))
          case None => Err(InvalidMessage)
          case Some(plaintext) => Ok((stored.value[i := next], plaintext))
  }

  function Processed(stored: Stored, d: DistributionMessage): RecordStructure {
    AddState(if stored.Some? then stored.value else [],
             NewState(d.version, d.chainId, d.iteration, d.chainKey, d.signingKey, None))
  }

  function CreatedRecord(suite: Suite, stored: Stored, random: Fresh): RecordStructure {
    if stored.Some? then stored.value
    else AddState([], NewState(SENDERKEY_MESSAGE_CURRENT_VERSION, random.chainId, 0, random.chainKey,
                               suite.publicKey(random.privateKey), Some(random.privateKey)))
  }

  function Announced(distributionId: Uuid, record: RecordStructure): Result<DistributionMessage> {
    if record == [] then Err(InvalidSenderKeySession)
    else
      var st := record[0];
      if st.senderChainKey.None? || st.MessageVersion() > 0xFF || st.signingPublic.None? then
        Err(InvalidSenderKeySession)
      else
        var chain := st.senderChainKey.value;
        Ok(DistributionMessage(st.MessageVersion(), distributionId, st.chainId, chain.iteration,
                               chain.chainKey, st.signingPublic.value))
  }

  // ---------------------------------------------------------------- the store

  class SenderKeyStore {
    var keys: map<(ProtocolAddress, Uuid), RecordStructure>

    constructor ()
      ensures keys == map[]
    {
      keys := map[];
    }

    function Load(sender: ProtocolAddress, distributionId: Uuid): Stored
      reads this
    {
      if (sender, distributionId) in keys then Some(keys[(sender, distributionId)]) else None
    }

    method Store(sender: ProtocolAddress, distributionId: Uuid, record: SenderKeyRecord)
      modifies this
      ensures keys == old(keys)[(sender, distributionId) := record.states]
    {
      keys := keys[(sender, distributionId) := record.states];
    }
  }

  method GroupEncrypt(suite: Suite, store: SenderKeyStore, sender: ProtocolAddress, distributionId: Uuid,
                      plaintext: Bytes, random: Bytes) returns (r: Result<SenderKeyMessage>)
    modifies store
    ensures match Encrypted(suite, distributionId, old(store.Load(sender, distributionId)), plaintext, random)
      case Ok(p) => r == Ok(p.1) && store.keys == old(store.keys)[(sender, distributionId) := p.0]
      case Err(e) => r == Err(e) && store.keys == old(store.keys)
  {
    var stored := store.Load(sender, distributionId);
    if stored.None? {
      return Err(NoSenderKeyState);
    }
    var record := new SenderKeyRecord(stored.value);
    if |record.states| == 0 {
      return Err(InvalidSenderKeySession);
    }
    var state := new SenderKeyState(record.states[0]);
    var version := state.state.MessageVersion();
    if version > 0xFF {
      return Err(InvalidSenderKeySession);
    }
    if state.state.senderChainKey.None? {
      return Err(InvalidSenderKeySession);
    }
    var chain := state.state.senderChainKey.value;
    var messageKeys := chain.MessageKey(suite.hmac);
    var ciphertext := suite.encrypt(plaintext, suite.messageKey(messageKeys.seed));
    if state.state.signingPrivate.None? {
      return Err(InvalidSenderKeySession);
    }
    var content := suite.content(version, distributionId, state.state.chainId, messageKeys.iteration, ciphertext);
    var message := SenderKeyMessage(SENDERKEY_MESSAGE_CURRENT_VERSION, distributionId, state.state.chainId,
                                    messageKeys.iteration, ciphertext, content,
                                    suite.sign(state.state.signingPrivate.value, content, random));
    var next := chain.Next(suite.hmac);
    if next.Err? {
      return Err(next.error);
    }
    state.SetSenderChainKey(next.value);
    record.Replace(0, state.state);
    store.Store(sender, distributionId, record);
    return Ok(message);
  }

  method GroupDecrypt(suite: Suite, store: SenderKeyStore, sender: ProtocolAddress,
                      parsed: Result<SenderKeyMessage>) returns (r: Result<Bytes>)
    modifies store
    ensures parsed.Err? ==> r == Err(parsed.error) && store.keys == old(store.keys)
    ensures parsed.Ok? ==>
      match Decrypted(suite, old(store.Load(sender, parsed.value.distributionId)), parsed.value)
      case Ok(p) => r == Ok(p.1) && store.keys == old(store.keys)[(sender, parsed.value.distributionId) := p.0]
      case Err(e) => r == Err(e) && store.keys == old(store.keys)
  {
    if parsed.Err? {
      return Err(parsed.error);
    }
    var message := parsed.value;
    var stored := store.Load(sender, message.distributionId);
    if stored.None? {
      return Err(NoSenderKeyState);
    }
    var record := new SenderKeyRecord(stored.value);
    var found := record.StateForChainId(message.chainId);
    if found.None? {
      return Err(NoSenderKeyState);
    }
    var state := new SenderKeyState(record.states[found.value]);
    if message.version != state.state.MessageVersion() {
      return Err(UnrecognizedMessageVersion);
    }
    if state.state.signingPublic.None? {
      return Err(InvalidSenderKeySession);
    }
    if !suite.verify(state.state.signingPublic.value, message.content, message.signature) {
      return Err(SignatureValidationFailed);
    }
    var key := state.GetSenderKey(suite.hmac, message.iteration);
    if key.Err? {
      return Err(key.error);
    }
    var plaintext := suite.decrypt(message.ciphertext, suite.messageKey(key.value.seed));
    if plaintext.None? {
      return Err(InvalidMessage);
    }
    record.Replace(found.value, state.state);
    store.Store(sender, message.distributionId, record);
    return Ok(plaintext.value);
  }

  method ProcessDistributionMessage(store: SenderKeyStore, sender: ProtocolAddress, d: DistributionMessage)
    modifies store
    ensures store.keys == old(store.keys)[(sender, d.distributionId) :=
                            Processed(old(store.Load(sender, d.distributionId)), d)]
  {
    var stored := store.Load(sender, d.distributionId);
    var record := new SenderKeyRecord(if stored.Some? then stored.value else []);
    record.AddSenderKeyState(d.version, d.chainId, d.iteration, d.chainKey, d.signingKey, None);
    store.Store(sender, d.distributionId, record);
  }

  method CreateDistributionMessage(suite: Suite, store: SenderKeyStore, sender: ProtocolAddress,
                                   distributionId: Uuid, random: Fresh) returns (r: Result<DistributionMessage>)
    modifies store
    ensures var record := CreatedRecord(suite, old(store.Load(sender, distributionId)), random);
      r == Announced(distributionId, record)
      && store.keys == (if old(store.Load(sender, distributionId)).Some? then old(store.keys)
                        else old(store.keys)[(sender, distributionId) := record])
  {
    var stored := store.Load(sender, distributionId);
    var record;
    match stored {
      case Some(states) =>
        record := new SenderKeyRecord(states);
      case None =>
        record := new SenderKeyRecord([]);
        record.AddSenderKeyState(SENDERKEY_MESSAGE_CURRENT_VERSION, random.chainId, 0, random.chainKey,
                                 suite.publicKey(random.privateKey), Some(random.privateKey));
        store.Store(sender, distributionId, record);
    }
    if |record.states| == 0 {
      return Err(InvalidSenderKeySession);
    }
    var st := record.states[0];
    if st.senderChainKey.None? {
      return Err(InvalidSenderKeySession);
    }
    if st.MessageVersion() > 0xFF {
      return Err(InvalidSenderKeySession);
    }
    if st.signingPublic.None? {
      return Err(InvalidSenderKeySession);
    }
    var chain := st.senderChainKey.value;
    return Ok(DistributionMessage(st.MessageVersion(), distributionId, st.chainId, chain.iteration,
                                  chain.chainKey, st.signingPublic.value));
  }
}
