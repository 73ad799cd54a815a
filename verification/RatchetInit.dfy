/** The PQXDH handshake: how both sides build a session
    (libsignal/rust/protocol/src/ratchet.rs:54-221). */
module RatchetInit {
  import opened Wrappers
  import opened Bytes
  import opened RatchetKeys
  import opened SessionStates

  const CIPHERTEXT_MESSAGE_CURRENT_VERSION: byte := 4

  const DISCONTINUITY_BYTES: Bytes := seq(32, _ => 0xFF)

  datatype AliceParameters = AliceParameters(
    ourIdentity: PrivateKey, ourBase: PrivateKey, theirIdentity: PublicKey, theirSignedPreKey: PublicKey,
    theirOneTimePreKey: Option<PublicKey>, theirRatchetKey: PublicKey, theirKyberPreKey: Bytes)

  datatype BobParameters = BobParameters(
    ourIdentity: PrivateKey, ourSignedPreKey: PrivateKey, ourOneTimePreKey: Option<PrivateKey>,
    ourRatchetKey: PrivateKey, ourKyberPreKey: Bytes, theirIdentity: PublicKey, theirBase: PublicKey,
    theirKyberCiphertext: Bytes)

  /** The laws of the primitives: agreement commutes and decryption undoes encryption. */
  ghost predicate Lawful(suite: Suite) {
    && (forall a, b :: suite.agree(a, suite.publicKey(b)) == suite.agree(b, suite.publicKey(a)))
    && (forall p, k, iv :: suite.decrypt(suite.encrypt(p, k, iv), k, iv) == Some(p))
  }

  /** Decapsulation succeeds for this key and these random bytes. */
  predicate Decapsulates(suite: Suite, secret: Bytes, random: Bytes) {
    suite.decapsulate(secret, suite.encapsulate(suite.kemPublicKey(secret), random).1)
    == suite.encapsulate(suite.kemPublicKey(secret), random).0
  }

  function AliceSecrets(suite: Suite, p: AliceParameters, kemSecret: Bytes): Bytes {
    DISCONTINUITY_BYTES
    + suite.agree(p.ourIdentity, p.theirSignedPreKey)
    + suite.agree(p.ourBase, p.theirIdentity)
    + suite.agree(p.ourBase, p.theirSignedPreKey)
    + (if p.theirOneTimePreKey.Some? then suite.agree(p.ourBase, p.theirOneTimePreKey.value) else [])
    + kemSecret
  }

  function BobSecrets(suite: Suite, p: BobParameters): Bytes {
    DISCONTINUITY_BYTES
    + suite.agree(p.ourSignedPreKey, p.theirIdentity)
    + suite.agree(p.ourIdentity, p.theirBase)
    + suite.agree(p.ourSignedPreKey, p.theirBase)
    + (if p.ourOneTimePreKey.Some? then suite.agree(p.ourOneTimePreKey.value, p.theirBase) else [])
    + suite.decapsulate(p.ourKyberPreKey, p.theirKyberCiphertext)
  }

  function NewSession(localIdentity: PublicKey, remoteIdentity: PublicKey, root: Bytes,
                      aliceBaseKey: PublicKey, pqState: Bytes): SessionStructure
  {
    SessionStructure(CIPHERTEXT_MESSAGE_CURRENT_VERSION, localIdentity, Some(remoteIdentity), Some(root), 0, None, [],
                     None, None, 0, 0, aliceBaseKey, pqState)
  }

  function AliceSession(suite: Suite, p: AliceParameters, kemRandom: Bytes, ratchetKey: PrivateKey): SessionStructure {
    var (kemSecret, ciphertext) := suite.encapsulate(p.theirKyberPreKey, kemRandom);
    var (root, chain, pqKey) := suite.textKdf(AliceSecrets(suite, p, kemSecret));
    var (sendingRoot, sendingChain) := CreateChain(suite, root, p.theirRatchetKey, ratchetKey);
    var local := suite.publicKey(p.ourIdentity);
    NewSession(local, p.theirIdentity, sendingRoot, suite.publicKey(p.ourBase),
               suite.pqInitial(pqKey, true, local == p.theirIdentity))
      .(receiverChains := [ReceiverChain(p.theirRatchetKey, ChainKey(chain, 0), [])],
        senderChain := Some(SenderChain(suite.publicKey(ratchetKey), ratchetKey, sendingChain)),
        pendingKyber := Some(PendingKyberPreKey(U32_MAX, ciphertext)))
  }

  function BobSession(suite: Suite, p: BobParameters): Result<SessionStructure> {
    if !suite.isCanonical(p.theirBase) then Err(InvalidMessage)
    else
      var (root, chain, pqKey) := suite.textKdf(BobSecrets(suite, p));
      var local := suite.publicKey(p.ourIdentity);
      Ok(NewSession(local, p.theirIdentity, root, p.theirBase,
                    suite.pqInitial(pqKey, false, local == p.theirIdentity))
           .(senderChain := Some(SenderChain(suite.publicKey(p.ourRatchetKey), p.ourRatchetKey, ChainKey(chain, 0)))))
  }

  method InitializeAliceSession(suite: Suite, p: AliceParameters, kemRandom: Bytes, ratchetKey: PrivateKey)
    returns (session: SessionStructure)
    ensures session == AliceSession(suite, p, kemRandom, ratchetKey)
  {
    var secrets := DISCONTINUITY_BYTES;
    secrets := secrets + suite.agree(p.ourIdentity, p.theirSignedPreKey);
    secrets := secrets + suite.agree(p.ourBase, p.theirIdentity);
    secrets := secrets + suite.agree(p.ourBase, p.theirSignedPreKey);
    if p.theirOneTimePreKey.Some? {
      secrets := secrets + suite.agree(p.ourBase, p.theirOneTimePreKey.value);
    }
    var (kemSecret, ciphertext) := suite.encapsulate(p.theirKyberPreKey, kemRandom);
    secrets := secrets + kemSecret;
    assert secrets == AliceSecrets(suite, p, kemSecret);
    var (root, chain, pqKey) := suite.textKdf(secrets);
    var (sendingRoot, sendingChain) := CreateChain(suite, root, p.theirRatchetKey, ratchetKey);
    var local := suite.publicKey(p.ourIdentity);
    var state := new SessionState(NewSession(local, p.theirIdentity, sendingRoot, suite.publicKey(p.ourBase),
                                             suite.pqInitial(pqKey, true, local == p.theirIdentity)));
    state.AddReceiverChain(p.theirRatchetKey, ChainKey(chain, 0));
    state.SetSenderChain(ratchetKey, suite.publicKey(ratchetKey), sendingChain);
    session := state.session.(pendingKyber := Some(PendingKyberPreKey(U32_MAX, ciphertext)));
  }

  method InitializeBobSession(suite: Suite, p: BobParameters) returns (r: Result<SessionStructure>)
    ensures r == BobSession(suite, p)
  {
    if !suite.isCanonical(p.theirBase) {
      return Err(InvalidMessage);
    }
    var secrets := DISCONTINUITY_BYTES;
    secrets := secrets + suite.agree(p.ourSignedPreKey, p.theirIdentity);
    secrets := secrets + suite.agree(p.ourIdentity, p.theirBase);
    secrets := secrets + suite.agree(p.ourSignedPreKey, p.theirBase);
    if p.ourOneTimePreKey.Some? {
      secrets := secrets + suite.agree(p.ourOneTimePreKey.value, p.theirBase);
    }
    secrets := secrets + suite.decapsulate(p.ourKyberPreKey, p.theirKyberCiphertext);
    assert secrets == BobSecrets(suite, p);
    var (root, chain, pqKey) := suite.textKdf(secrets);
    var local := suite.publicKey(p.ourIdentity);
    var state := new SessionState(NewSession(local, p.theirIdentity, root, p.theirBase,
                                             suite.pqInitial(pqKey, false, local == p.theirIdentity)));
    state.SetSenderChain(p.ourRatchetKey, suite.publicKey(p.ourRatchetKey), ChainKey(chain, 0));
    return Ok(state.session);
  }

  /** Bob's private keys are those whose public halves Alice used, Bob got Alice's base key and the
      ciphertext she made, and it decapsulates. */
  ghost predicate Matching(suite: Suite, a: AliceParameters, b: BobParameters, kemRandom: Bytes) {
    && a.theirIdentity == suite.publicKey(b.ourIdentity) && b.theirIdentity == suite.publicKey(a.ourIdentity)
    && a.theirSignedPreKey == suite.publicKey(b.ourSignedPreKey) && b.theirBase == suite.publicKey(a.ourBase)
    && a.theirRatchetKey == suite.publicKey(b.ourRatchetKey)
    && (match b.ourOneTimePreKey
        case None => a.theirOneTimePreKey == None
        case Some(k) => a.theirOneTimePreKey == Some(suite.publicKey(k)))
    && a.theirKyberPreKey == suite.kemPublicKey(b.ourKyberPreKey)
    && b.theirKyberCiphertext == suite.encapsulate(a.theirKyberPreKey, kemRandom).1
    && Decapsulates(suite, b.ourKyberPreKey, kemRandom)
  }

  /** The handshake agrees: on matching keys both sides hash the same secrets. */
  lemma HandshakeAgrees(suite: Suite, a: AliceParameters, b: BobParameters, kemRandom: Bytes)
    requires Lawful(suite) && Matching(suite, a, b, kemRandom)
    ensures AliceSecrets(suite, a, suite.encapsulate(a.theirKyberPreKey, kemRandom).0) == BobSecrets(suite, b)
  {
  }

  // ------------------------------------------------------- what the secrets commit to

  /** Every agreement has 32 bytes, as one on Curve25519 does. */
  ghost predicate AgreesOn32(suite: Suite) {
    forall a, b :: |suite.agree(a, b)| == 32
  }

  /** The bytes are 32 times 0xFF, three agreements, the one with the one-time pre-key if there is one,
      and the KEM secret, in this order (section 3.3 of the PQXDH specification). */
  predicate LaidOut(secrets: Bytes, first: Bytes, second: Bytes, third: Bytes, oneTime: Option<Bytes>,
                    kemSecret: Bytes) {
    var start := if oneTime.Some? then 160 else 128;
    && |secrets| == start + |kemSecret|
    && (forall i :: 0 <= i < 32 ==> secrets[i] == 0xFF)
    && secrets[32..64] == first && secrets[64..96] == second && secrets[96..128] == third
    && (oneTime.Some? ==> secrets[128..160] == oneTime.value)
    && secrets[start..] == kemSecret
  }

  lemma AliceLayout(suite: Suite, p: AliceParameters, kemSecret: Bytes)
    requires AgreesOn32(suite)
    ensures LaidOut(AliceSecrets(suite, p, kemSecret), suite.agree(p.ourIdentity, p.theirSignedPreKey),
                    suite.agree(p.ourBase, p.theirIdentity), suite.agree(p.ourBase, p.theirSignedPreKey),
                    (match p.theirOneTimePreKey case None => None case Some(k) => Some(suite.agree(p.ourBase, k))),
                    kemSecret)
  {
  }

  lemma BobLayout(suite: Suite, p: BobParameters)
    requires AgreesOn32(suite)
    ensures LaidOut(BobSecrets(suite, p), suite.agree(p.ourSignedPreKey, p.theirIdentity),
                    suite.agree(p.ourIdentity, p.theirBase), suite.agree(p.ourSignedPreKey, p.theirBase),
                    (match p.ourOneTimePreKey case None => None case Some(k) => Some(suite.agree(k, p.theirBase))),
                    suite.decapsulate(p.ourKyberPreKey, p.theirKyberCiphertext))
  {
  }

  /** What is laid out alike is alike piece by piece, the presence of a one-time pre-key included when the
      KEM secrets have one length. */
  lemma LayoutCommits(secrets: Bytes, first: Bytes, second: Bytes, third: Bytes, oneTime: Option<Bytes>,
                      kemSecret: Bytes,
                      first': Bytes, second': Bytes, third': Bytes, oneTime': Option<Bytes>, kemSecret': Bytes)
    requires LaidOut(secrets, first, second, third, oneTime, kemSecret)
    requires LaidOut(secrets, first', second', third', oneTime', kemSecret')
    requires |kemSecret| == |kemSecret'| || oneTime.Some? == oneTime'.Some?
    ensures (first, second, third, oneTime, kemSecret) == (first', second', third', oneTime', kemSecret')
  {
  }

  /** The handshake commits to every shared secret: two parameter sets of Alice's with one KDF input agree on
      each of the three agreements, on the one with the one-time pre-key and its presence, and on
      the KEM secret. */
  lemma AliceCommits(suite: Suite, a: AliceParameters, kemSecret: Bytes, b: AliceParameters, kemSecret': Bytes)
    requires AgreesOn32(suite) && AliceSecrets(suite, a, kemSecret) == AliceSecrets(suite, b, kemSecret')
    requires |kemSecret| == |kemSecret'| || a.theirOneTimePreKey.Some? == b.theirOneTimePreKey.Some?
    ensures suite.agree(a.ourIdentity, a.theirSignedPreKey) == suite.agree(b.ourIdentity, b.theirSignedPreKey)
    ensures suite.agree(a.ourBase, a.theirIdentity) == suite.agree(b.ourBase, b.theirIdentity)
    ensures suite.agree(a.ourBase, a.theirSignedPreKey) == suite.agree(b.ourBase, b.theirSignedPreKey)
    ensures a.theirOneTimePreKey.Some? == b.theirOneTimePreKey.Some? && kemSecret == kemSecret'
    ensures a.theirOneTimePreKey.Some? ==>
      suite.agree(a.ourBase, a.theirOneTimePreKey.value) == suite.agree(b.ourBase, b.theirOneTimePreKey.value)
  {
    hide AliceSecrets, LaidOut;
    AliceLayout(suite, a, kemSecret);
    AliceLayout(suite, b, kemSecret');
    LayoutCommits(AliceSecrets(suite, a, kemSecret),
                  suite.agree(a.ourIdentity, a.theirSignedPreKey), suite.agree(a.ourBase, a.theirIdentity),
                  suite.agree(a.ourBase, a.theirSignedPreKey),
                  match a.theirOneTimePreKey case None => None case Some(k) => Some(suite.agree(a.ourBase, k)),
                  kemSecret,
                  suite.agree(b.ourIdentity, b.theirSignedPreKey), suite.agree(b.ourBase, b.theirIdentity),
                  suite.agree(b.ourBase, b.theirSignedPreKey),
                  match b.theirOneTimePreKey case None => None case Some(k) => Some(suite.agree(b.ourBase, k)),
                  kemSecret');
  }

  /** And so does Bob's side. */
  lemma BobCommits(suite: Suite, a: BobParameters, b: BobParameters)
    requires AgreesOn32(suite) && BobSecrets(suite, a) == BobSecrets(suite, b)
    requires |suite.decapsulate(a.ourKyberPreKey, a.theirKyberCiphertext)|
             == |suite.decapsulate(b.ourKyberPreKey, b.theirKyberCiphertext)|
             || a.ourOneTimePreKey.Some? == b.ourOneTimePreKey.Some?
    ensures suite.agree(a.ourSignedPreKey, a.theirIdentity) == suite.agree(b.ourSignedPreKey, b.theirIdentity)
    ensures suite.agree(a.ourIdentity, a.theirBase) == suite.agree(b.ourIdentity, b.theirBase)
    ensures suite.agree(a.ourSignedPreKey, a.theirBase) == suite.agree(b.ourSignedPreKey, b.theirBase)
    ensures a.ourOneTimePreKey.Some? == b.ourOneTimePreKey.Some?
    ensures a.ourOneTimePreKey.Some? ==>
      suite.agree(a.ourOneTimePreKey.value, a.theirBase) == suite.agree(b.ourOneTimePreKey.value, b.theirBase)
    ensures suite.decapsulate(a.ourKyberPreKey, a.theirKyberCiphertext)
            == suite.decapsulate(b.ourKyberPreKey, b.theirKyberCiphertext)
  {
    hide BobSecrets, LaidOut;
    BobLayout(suite, a);
    BobLayout(suite, b);
    LayoutCommits(BobSecrets(suite, a),
                  suite.agree(a.ourSignedPreKey, a.theirIdentity), suite.agree(a.ourIdentity, a.theirBase),
                  suite.agree(a.ourSignedPreKey, a.theirBase),
                  match a.ourOneTimePreKey case None => None case Some(k) => Some(suite.agree(k, a.theirBase)),
                  suite.decapsulate(a.ourKyberPreKey, a.theirKyberCiphertext),
                  suite.agree(b.ourSignedPreKey, b.theirIdentity), suite.agree(b.ourIdentity, b.theirBase),
                  suite.agree(b.ourSignedPreKey, b.theirBase),
                  match b.ourOneTimePreKey case None => None case Some(k) => Some(suite.agree(k, b.theirBase)),
                  suite.decapsulate(b.ourKyberPreKey, b.theirKyberCiphertext));
  }

  /** Alice's session rests on such bytes and on nothing else: their derivation gives the root that her ratchet
      key is mixed into, the chain she receives on first, and the post-quantum key. */
  lemma AliceSessionIsDerived(suite: Suite, p: AliceParameters, kemRandom: Bytes, ratchetKey: PrivateKey)
      returns (secrets: Bytes)
    requires AgreesOn32(suite)
    ensures LaidOut(secrets, suite.agree(p.ourIdentity, p.theirSignedPreKey), suite.agree(p.ourBase, p.theirIdentity),
                    suite.agree(p.ourBase, p.theirSignedPreKey),
                    (match p.theirOneTimePreKey case None => None case Some(k) => Some(suite.agree(p.ourBase, k))),
                    suite.encapsulate(p.theirKyberPreKey, kemRandom).0)
    ensures var (st, derived) := (AliceSession(suite, p, kemRandom, ratchetKey), suite.textKdf(secrets));
      var ratcheted := suite.ratchetKdf(derived.0, suite.agree(ratchetKey, p.theirRatchetKey));
      st.rootKey == Some(ratcheted.0)
      && st.senderChain == Some(SenderChain(suite.publicKey(ratchetKey), ratchetKey, ChainKey(ratcheted.1, 0)))
      && st.receiverChains == [ReceiverChain(p.theirRatchetKey, ChainKey(derived.1, 0), [])]
      && st.localIdentity == suite.publicKey(p.ourIdentity) && st.remoteIdentity == Some(p.theirIdentity)
      && st.aliceBaseKey == suite.publicKey(p.ourBase)
      && st.pqState == suite.pqInitial(derived.2, true, suite.publicKey(p.ourIdentity) == p.theirIdentity)
  {
    hide AliceSecrets;
    secrets := AliceSecrets(suite, p, suite.encapsulate(p.theirKyberPreKey, kemRandom).0);
    AliceLayout(suite, p, suite.encapsulate(p.theirKyberPreKey, kemRandom).0);
  }

  /** So does Bob's, which he makes exactly for a canonical base key. */
  lemma BobSessionIsDerived(suite: Suite, p: BobParameters) returns (secrets: Bytes)
    requires AgreesOn32(suite)
    ensures LaidOut(secrets, suite.agree(p.ourSignedPreKey, p.theirIdentity), suite.agree(p.ourIdentity, p.theirBase),
                    suite.agree(p.ourSignedPreKey, p.theirBase),
                    (match p.ourOneTimePreKey case None => None case Some(k) => Some(suite.agree(k, p.theirBase))),
                    suite.decapsulate(p.ourKyberPreKey, p.theirKyberCiphertext))
    ensures var (r, derived) := (BobSession(suite, p), suite.textKdf(secrets));
      if !suite.isCanonical(p.theirBase) then r == Err(InvalidMessage)
      else
        r.Ok? && r.value.rootKey == Some(derived.0) && r.value.receiverChains == []
        && r.value.senderChain
           == Some(SenderChain(suite.publicKey(p.ourRatchetKey), p.ourRatchetKey, ChainKey(derived.1, 0)))
        && r.value.localIdentity == suite.publicKey(p.ourIdentity) && r.value.remoteIdentity == Some(p.theirIdentity)
        && r.value.aliceBaseKey == p.theirBase
        && r.value.pqState == suite.pqInitial(derived.2, false, suite.publicKey(p.ourIdentity) == p.theirIdentity)
  {
    hide BobSecrets;
    secrets := BobSecrets(suite, p);
    BobLayout(suite, p);
  }
}
