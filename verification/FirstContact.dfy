/** First contact, end to end: Alice processes Bob's published pre-keys and encrypts; whichever of
    her messages reaches Bob first starts his session from it, and from then on the two stores
    hold two parties in step. */
module FirstContact {
  import opened Wrappers
  import opened Bytes
  import opened KdfChain
  import opened RatchetKeys
  import opened RatchetInit
  import opened SessionStates
  import opened SessionCipher
  import opened RatchetAgreement
  import opened TwoParty
  import opened PairwiseStore
  import opened PairwiseProperties

  /** The bundle holds the public halves of pre-keys in Bob's stores. */
  ghost predicate Publishes(suite: Suite, bob: Stores, bundle: PreKeyBundle) {
    && bundle.identityKey == suite.publicKey(bob.identityPrivate)
    && bundle.signedPreKeyId in bob.signedPreKeys
    && bundle.signedPreKeyPublic == suite.publicKey(bob.signedPreKeys[bundle.signedPreKeyId])
    && bundle.kyberPreKeyId in bob.kyberPreKeys
    && bundle.kyberPreKeyPublic == suite.kemPublicKey(bob.kyberPreKeys[bundle.kyberPreKeyId])
    && (bundle.preKeyId.Some? <==> bundle.preKeyPublic.Some?)
    && (bundle.preKeyId.Some? ==>
          bundle.preKeyId.value in bob.preKeys
          && bundle.preKeyPublic.value == suite.publicKey(bob.preKeys[bundle.preKeyId.value]))
  }

  /** The header Alice's session puts on every message until Bob answers. */
  ghost predicate Introduces(suite: Suite, alice: Stores, bundle: PreKeyBundle, random: BundleRandom,
                             m: PreKeySignalMessage) {
    && m.version == CIPHERTEXT_MESSAGE_CURRENT_VERSION && m.registrationId == alice.registrationId
    && m.preKeyId == bundle.preKeyId && m.signedPreKeyId == bundle.signedPreKeyId
    && m.kyber == Some(KyberPayload(bundle.kyberPreKeyId, suite.encapsulate(bundle.kyberPreKeyPublic, random.kem).1))
    && m.baseKey == suite.publicKey(random.baseKey) && m.identityKey == suite.publicKey(alice.identityPrivate)
  }

  /** The parameters Bob takes from his stores match those Alice took from the bundle. */
  lemma ParametersMatch(suite: Suite, alice: Stores, bob: Stores, bundle: PreKeyBundle, random: BundleRandom,
                        m: PreKeySignalMessage)
    requires Publishes(suite, bob, bundle) && Introduces(suite, alice, bundle, random, m)
    ensures BobParametersFor(bob, m).Ok?
    ensures bundle.kyberPreKeyId in bob.kyberPreKeys
            && BobParametersFor(bob, m).value.ourKyberPreKey == bob.kyberPreKeys[bundle.kyberPreKeyId]
    ensures Decapsulates(suite, bob.kyberPreKeys[bundle.kyberPreKeyId], random.kem) ==>
              Matching(suite, AliceParametersFor(suite, alice, bundle, random), BobParametersFor(bob, m).value,
                       random.kem)
    ensures BobParametersFor(bob, m).value.ourRatchetKey == bob.signedPreKeys[bundle.signedPreKeyId]
    ensures BobParametersFor(bob, m).value.theirBase == m.baseKey
    ensures bundle.signedPreKeyPublic == suite.publicKey(bob.signedPreKeys[bundle.signedPreKeyId])
  {
  }

  /** Both sessions as the stores make them: the handshake's, with registration ids and what is
      pending. */
  function Met(suite: Suite, alice: Stores, bob: Stores, bundle: PreKeyBundle, now: nat, random: BundleRandom,
               m: PreKeySignalMessage): World
    requires BobParametersFor(bob, m).Ok? && BobSession(suite, BobParametersFor(bob, m).value).Ok?
  {
    var b := BobParametersFor(bob, m).value;
    Start(suite, AliceParametersFor(suite, alice, bundle, random), b, random.kem, random.ratchetKey)
      .(alice := BundleSession(suite, alice, bundle, now, random),
        bob := BobSession(suite, b).value.(localRegistrationId := bob.registrationId,
                                           remoteRegistrationId := m.registrationId))
  }

  /** Registration ids and what is pending play no part in being in step. */
  lemma SidedataIsIrrelevant(setup: Setup, w: World, alice: SessionStructure, bob: SessionStructure)
    requires WorldInv(setup, w)
    requires alice == w.alice.(pendingPreKey := alice.pendingPreKey, pendingKyber := alice.pendingKyber,
                               localRegistrationId := alice.localRegistrationId,
                               remoteRegistrationId := alice.remoteRegistrationId)
    requires bob == w.bob.(localRegistrationId := bob.localRegistrationId,
                           remoteRegistrationId := bob.remoteRegistrationId)
    ensures WorldInv(setup, w.(alice := alice, bob := bob))
  {
    hide ChainsInv, Honest, DistinctPublic;
  }

  lemma MetInStep(suite: Suite, alice: Stores, bob: Stores, bundle: PreKeyBundle, now: nat, random: BundleRandom,
                  m: PreKeySignalMessage)
    requires Lawful(suite) && Publishes(suite, bob, bundle) && Introduces(suite, alice, bundle, random, m)
    requires bundle.kyberPreKeyId in bob.kyberPreKeys
             && Decapsulates(suite, bob.kyberPreKeys[bundle.kyberPreKeyId], random.kem)
    requires BobParametersFor(bob, m).Ok? && BobSession(suite, BobParametersFor(bob, m).value).Ok?
    requires suite.publicKey(random.ratchetKey) != bundle.signedPreKeyPublic
    ensures WorldInv(SetupOf(suite, AliceParametersFor(suite, alice, bundle, random), BobParametersFor(bob, m).value),
                     Met(suite, alice, bob, bundle, now, random, m))
  {
    hide WorldInv, Matching, Decapsulates;
    var (a, b) := (AliceParametersFor(suite, alice, bundle, random), BobParametersFor(bob, m).value);
    ParametersMatch(suite, alice, bob, bundle, random, m);
    StartInv(suite, a, b, random.kem, random.ratchetKey);
    var w := Met(suite, alice, bob, bundle, now, random, m);
    SidedataIsIrrelevant(SetupOf(suite, a, b), Start(suite, a, b, random.kem, random.ratchetKey), w.alice, w.bob);
  }

  /** Bob has heard nothing yet. Whichever of Alice's messages comes first, if it is at most 25,000 in:
      when processing its pre-keys makes Bob's side of the world, it decrypts to what was sent, the
      stored session is Bob's side after the delivery, and both are in step again. */
  lemma FirstHeardOpens(setup: Setup, w: World, index: nat, bob: Stores, toAlice: ProtocolAddress,
                        m: PreKeySignalMessage,
                        ephemeral: nat -> PrivateKey)
    requires Lawful(setup.suite) && WorldInv(setup, w)
    requires w.bobTop == 0 && index < |w.sent| && SentBy(w.sent[index], true)
             && w.sent[index].position <= 25_000
    requires PqAgrees(setup.suite, w.bob, w.sent[index])
    requires m.message == w.sent[index].message && DistinctPublic(setup.suite, w.keys + [ephemeral(0)])
    requires var processed := PreKeyProcessed(setup.suite, bob, toAlice, RecordFor(bob, toAlice), m);
      processed.Ok? && processed.value.0.current == Some(w.bob)
    requires !ReusesBaseKey(bob, toAlice, m)
    ensures var r := PreKeyDecrypted(setup.suite, bob, toAlice, m, ephemeral);
      var later := Step(setup.suite, w, Deliver(false, index, ephemeral(0)));
      r.1 == Ok(w.sent[index].plaintext) && toAlice in r.0.sessions && r.0.sessions[toAlice].current == Some(later.bob)
      && WorldInv(setup, later) && later.bobTop == 2 && (1, w.sent[index].position as int) in later.accepted
  {
    hide PartyInv, Honest, Lawful, DecryptedWithState, DistinctPublic, WorldInv, ChainCount, PreKeyProcessed,
         PromotedMatching,
         PqAgrees, MadeUpVerifies;
    var (s, e) := (w.sent[index], Deliver(false, index, ephemeral(0)));
    SentFacts(setup, w, index);
    Sides(setup, w);
    PartyCount(setup, w.keys, w.bob, 0, w.accepted);
    assert Readable(w.bob, 0, s);
    DeliverReadable(setup, w.keys, w.bob, 0, w.accepted, s, ephemeral(0));
    ReadableIsNoCoincidence(setup, w, e);
    DeliverKeepsInv(setup, w, e);
    DecryptsCurrent(setup.suite, PreKeyProcessed(setup.suite, bob, toAlice, RecordFor(bob, toAlice), m).value.0,
                    m.message, true, ephemeral);
    PreKeyFailsIff(setup.suite, bob, toAlice, m, ephemeral);
  }

  lemma ReadableIsNoCoincidence(setup: Setup, w: World, e: Event)
    requires e.Deliver? && e.index < |w.sent| && |w.Session(e.toAlice).receiverChains| == ChainCount(w.Top(e.toAlice))
    requires Readable(w.Session(e.toAlice), w.Top(e.toAlice), w.sent[e.index])
    ensures !Coincidence(setup, w, e)
  {
  }

  lemma Sides(setup: Setup, w: World)
    requires WorldInv(setup, w)
    ensures PartyInv(setup, w.keys, w.bob, w.bobTop, w.accepted)
    ensures w.bobTop == 0 ==> w.aliceTop == 1 && |w.keys| == 2
  {
    hide PartyInv;
  }

  lemma DecryptsCurrent(suite: Suite, record: RecordStructure, m: SignalMessage, isPreKey: bool,
                        ephemeral: nat -> PrivateKey)
    requires record.current.Some? && DecryptedWithState(suite, record.current.value, m, ephemeral(0)).Ok?
    ensures var p := DecryptedWithState(suite, record.current.value, m, ephemeral(0)).value;
      DecryptedWithRecord(suite, record, m, isPreKey, ephemeral) == Ok((record.(current := Some(p.0)), p.1))
  {
  }

  /** Alice's first message carries the header. */
  lemma FirstHeader(suite: Suite, alice: Stores, bundle: PreKeyBundle, started: nat, random: BundleRandom,
                    toBob: ProtocolAddress,
                    plaintext: Bytes, now: nat, pqRandom: Bytes)
    requires BundleProcessed(suite, alice, toBob, bundle, started, random).Ok?
    requires MessageEncrypted(suite, BundleProcessed(suite, alice, toBob, bundle, started, random).value, toBob,
                              plaintext, now, pqRandom).Ok?
    ensures var r := MessageEncrypted(suite, BundleProcessed(suite, alice, toBob, bundle, started, random).value,
                                      toBob, plaintext, now, pqRandom).value;
      r.1.PreKey? && Introduces(suite, alice, bundle, random, r.1.preKey)
  {
    hide AliceSecrets;
  }

  /** What Alice's store sends first is the message of the world's first send. */
  lemma FirstSend(suite: Suite, alice: Stores, bundle: PreKeyBundle, started: nat, random: BundleRandom,
                  toBob: ProtocolAddress,
                  w: World, plaintext: Bytes, now: nat, pqRandom: Bytes)
    requires BundleProcessed(suite, alice, toBob, bundle, started, random).Ok?
    requires w.alice == BundleSession(suite, alice, bundle, started, random) && w.sent == []
    requires MessageEncrypted(suite, BundleProcessed(suite, alice, toBob, bundle, started, random).value, toBob,
                              plaintext, now, pqRandom).Ok?
    ensures var r := MessageEncrypted(suite, BundleProcessed(suite, alice, toBob, bundle, started, random).value,
                                      toBob, plaintext, now, pqRandom).value;
      var after := Step(suite, w, Send(true, plaintext, now, pqRandom));
      r.1.PreKey? && toBob in r.0.sessions && r.0.sessions[toBob].current == Some(after.alice)
      && |after.sent| == 1 && after.sent[0].message == r.1.preKey.message && after.sent[0].plaintext == plaintext
      && after.sent[0].chain == w.aliceTop && after.sent[0].position == 0
      && after.bob == w.bob && after.bobTop == w.bobTop && after.keys == w.keys && after.aliceTop == w.aliceTop
    ensures var pq := suite.pqSend(w.alice.pqState, pqRandom);
      var sent := Step(suite, w, Send(true, plaintext, now, pqRandom)).sent;
      pq.Some? && |sent| == 1 && sent[0].message.pq == pq.value.1 && sent[0].pqKey == pq.value.2
  {
    hide AliceSecrets;
  }

  /** Bob processes a header of Alice's for the first time: his new session is his side. */
  lemma FirstProcessed(suite: Suite, alice: Stores, bob: Stores, toAlice: ProtocolAddress, bundle: PreKeyBundle,
                       started: nat,
                       random: BundleRandom, m: PreKeySignalMessage)
    requires Publishes(suite, bob, bundle) && Introduces(suite, alice, bundle, random, m)
    requires Trusted(bob, toAlice, m.identityKey) && suite.isCanonical(m.baseKey)
    requires PromotedMatching(RecordFor(bob, toAlice), m.version, m.baseKey).None?
    ensures BobParametersFor(bob, m).Ok? && BobSession(suite, BobParametersFor(bob, m).value).Ok?
    ensures var processed := PreKeyProcessed(suite, bob, toAlice, RecordFor(bob, toAlice), m);
      processed.Ok? && processed.value.0.current == Some(Met(suite, alice, bob, bundle, started, random, m).bob)
  {
    hide PromotedMatching, BobSecrets, Matching;
    ParametersMatch(suite, alice, bob, bundle, random, m);
  }

  /** The post-quantum key of the handshake. */
  function FirstPqKey(suite: Suite, alice: Stores, bundle: PreKeyBundle, random: BundleRandom): Bytes {
    suite.textKdf(AliceSecrets(suite, AliceParametersFor(suite, alice, bundle, random),
                               suite.encapsulate(bundle.kyberPreKeyPublic, random.kem).0)).2
  }

  /** From one initial key the post-quantum ratchets agree on the first message. */
  predicate PqMeets(suite: Suite, pqKey: Bytes, withSelf: bool, pqRandom: Bytes) {
    var sent := suite.pqSend(suite.pqInitial(pqKey, true, withSelf), pqRandom);
    sent.Some? ==>
      var received := suite.pqReceive(suite.pqInitial(pqKey, false, withSelf), sent.value.1);
      received.Some? && received.value.1 == sent.value.2
  }

  /** The world after the first message was sent and delivered. */
  function FirstWorld(suite: Suite, alice: Stores, bob: Stores, bundle: PreKeyBundle, started: nat,
                      random: BundleRandom,
                      m: PreKeySignalMessage, plaintext: Bytes, now: nat, pqRandom: Bytes, ephemeral: PrivateKey): World
    requires BobParametersFor(bob, m).Ok? && BobSession(suite, BobParametersFor(bob, m).value).Ok?
  {
    Step(suite, Step(suite, Met(suite, alice, bob, bundle, started, random, m), Send(true, plaintext, now, pqRandom)),
         Deliver(false, 0, ephemeral))
  }

  /** The first message between two strangers: Alice processes the bundle Bob published and encrypts;
      Bob, who trusts her on first use, has no session with her base key and has not seen it,
      decrypts exactly her plaintext, his one-time pre-key is gone, and the stored sessions are
      two parties in step, from which every run keeps agreement. */
  lemma FirstMessageArrives(suite: Suite, alice: Stores, bob: Stores, toBob: ProtocolAddress, toAlice: ProtocolAddress,
                            bundle: PreKeyBundle, started: nat, random: BundleRandom, plaintext: Bytes, now: nat,
                                pqRandom: Bytes,
                            ephemeral: nat -> PrivateKey) returns (setup: Setup, w: World)
    requires Lawful(suite) && Publishes(suite, bob, bundle)
    requires bundle.kyberPreKeyId in bob.kyberPreKeys
             && Decapsulates(suite, bob.kyberPreKeys[bundle.kyberPreKeyId], random.kem)
    requires PqMeets(suite, FirstPqKey(suite, alice, bundle, random),
                     suite.publicKey(alice.identityPrivate) == bundle.identityKey, pqRandom)
    requires BundleProcessed(suite, alice, toBob, bundle, started, random).Ok?
    requires var ready := BundleProcessed(suite, alice, toBob, bundle, started, random).value;
      MessageEncrypted(suite, ready, toBob, plaintext, now, pqRandom).Ok?
    requires Trusted(bob, toAlice, suite.publicKey(alice.identityPrivate))
             && suite.isCanonical(suite.publicKey(random.baseKey))
    requires PromotedMatching(RecordFor(bob, toAlice), CIPHERTEXT_MESSAGE_CURRENT_VERSION,
                              suite.publicKey(random.baseKey)).None?
    requires suite.publicKey(random.baseKey) !in SeenWith(bob, bundle.kyberPreKeyId, bundle.signedPreKeyId)
    requires bundle.signedPreKeyId in bob.signedPreKeys
    requires DistinctPublic(suite, [bob.signedPreKeys[bundle.signedPreKeyId], random.ratchetKey, ephemeral(0)])
    ensures var ready := BundleProcessed(suite, alice, toBob, bundle, started, random).value;
      var sent := MessageEncrypted(suite, ready, toBob, plaintext, now, pqRandom).value;
      sent.1.PreKey?
      && var received := PreKeyDecrypted(suite, bob, toAlice, sent.1.preKey, ephemeral);
         received.1 == Ok(plaintext)
         && (bundle.preKeyId.Some? ==> bundle.preKeyId.value !in received.0.preKeys)
         && toBob in sent.0.sessions && toAlice in received.0.sessions
         && setup.suite == suite && WorldInv(setup, w)
         && sent.0.sessions[toBob].current == Some(w.alice) && received.0.sessions[toAlice].current == Some(w.bob)
         && BobParametersFor(bob, sent.1.preKey).Ok?
         && BobSession(suite, BobParametersFor(bob, sent.1.preKey).value).Ok?
         && w == FirstWorld(suite, alice, bob, bundle, started, random, sent.1.preKey, plaintext, now, pqRandom,
                            ephemeral(0))
  {
    hide Lawful, WorldInv, Publishes, Decapsulates, PqMeets, PqAgrees, FirstPqKey, DistinctPublic, BundleProcessed,
         MessageEncrypted, PreKeyProcessed, Introduces,
         PromotedMatching, BobParametersFor, AliceParametersFor, AliceSecrets, BobSecrets, Matching, Step, BobSession,
         Met, SetupOf;
    FirstHeader(suite, alice, bundle, started, random, toBob, plaintext, now, pqRandom);
    var ready := BundleProcessed(suite, alice, toBob, bundle, started, random).value;
    var m := MessageEncrypted(suite, ready, toBob, plaintext, now, pqRandom).value.1.preKey;
    HeaderFields(suite, alice, bundle, random, m);
    FirstProcessed(suite, alice, bob, toAlice, bundle, started, random, m);
    setup := SetupOf(suite, AliceParametersFor(suite, alice, bundle, random), BobParametersFor(bob, m).value);
    ParametersMatch(suite, alice, bob, bundle, random, m);
    SetupSuite(suite, AliceParametersFor(suite, alice, bundle, random), BobParametersFor(bob, m).value);
    var met := Met(suite, alice, bob, bundle, started, random, m);
    MetIs(suite, alice, bob, bundle, started, random, m);
    DistinctTwo(suite, bob.signedPreKeys[bundle.signedPreKeyId], random.ratchetKey, ephemeral(0));
    MetInStep(suite, alice, bob, bundle, started, random, m);
    FirstSend(suite, alice, bundle, started, random, toBob, met, plaintext, now, pqRandom);
    var sent := Step(suite, met, Send(true, plaintext, now, pqRandom));
    AllowedFirst(suite, met, plaintext, now, pqRandom);
    SendKeepsInv(setup, met, Send(true, plaintext, now, pqRandom));
    w := Step(suite, sent, Deliver(false, 0, ephemeral(0)));
    MetPq(suite, alice, bob, bundle, started, random, m);
    FirstPqAgrees(suite, sent.bob, sent.sent[0], FirstPqKey(suite, alice, bundle, random),
                  suite.publicKey(alice.identityPrivate) == bundle.identityKey, pqRandom);
    FirstHeardOpens(setup, sent, 0, bob, toAlice, m, ephemeral);
    if bundle.preKeyId.Some? {
      OneTimeIsGone(suite, bob, toAlice, m, ephemeral);
    }
    AliceUnmoved(suite, sent, ephemeral(0));
  }

  lemma HeaderFields(suite: Suite, alice: Stores, bundle: PreKeyBundle, random: BundleRandom, m: PreKeySignalMessage)
    requires Introduces(suite, alice, bundle, random, m)
    ensures m.version == CIPHERTEXT_MESSAGE_CURRENT_VERSION && m.preKeyId == bundle.preKeyId
            && m.signedPreKeyId == bundle.signedPreKeyId
    ensures m.kyber.Some? && m.kyber.value.preKeyId == bundle.kyberPreKeyId
    ensures m.baseKey == suite.publicKey(random.baseKey) && m.identityKey == suite.publicKey(alice.identityPrivate)
  {
  }

  lemma SetupSuite(suite: Suite, a: AliceParameters, b: BobParameters)
    ensures SetupOf(suite, a, b).suite == suite
  {
  }

  /** Both sessions start the post-quantum ratchet from one key. */
  lemma MetPq(suite: Suite, alice: Stores, bob: Stores, bundle: PreKeyBundle, now: nat, random: BundleRandom,
              m: PreKeySignalMessage)
    requires Lawful(suite) && BobParametersFor(bob, m).Ok? && BobSession(suite, BobParametersFor(bob, m).value).Ok?
    requires Matching(suite, AliceParametersFor(suite, alice, bundle, random), BobParametersFor(bob, m).value,
                      random.kem)
    ensures var (w, key, withSelf) := (Met(suite, alice, bob, bundle, now, random, m),
                                       FirstPqKey(suite, alice, bundle, random),
                                       suite.publicKey(alice.identityPrivate) == bundle.identityKey);
      w.alice.pqState == suite.pqInitial(key, true, withSelf) && w.bob.pqState == suite.pqInitial(key, false, withSelf)
  {
    hide AliceSecrets, BobSecrets, Lawful, BobParametersFor;
    HandshakeAgrees(suite, AliceParametersFor(suite, alice, bundle, random), BobParametersFor(bob, m).value,
                    random.kem);
  }

  lemma FirstPqAgrees(suite: Suite, st: SessionStructure, s: Sent, pqKey: Bytes, withSelf: bool, pqRandom: Bytes)
    requires PqMeets(suite, pqKey, withSelf, pqRandom) && st.pqState == suite.pqInitial(pqKey, false, withSelf)
    requires var sent := suite.pqSend(suite.pqInitial(pqKey, true, withSelf), pqRandom);
      sent.Some? && s.message.pq == sent.value.1 && s.pqKey == sent.value.2
    ensures PqAgrees(suite, st, s)
  {
  }

  lemma MetIs(suite: Suite, alice: Stores, bob: Stores, bundle: PreKeyBundle, now: nat, random: BundleRandom,
              m: PreKeySignalMessage)
    requires BobParametersFor(bob, m).Ok? && BobSession(suite, BobParametersFor(bob, m).value).Ok?
    ensures var w := Met(suite, alice, bob, bundle, now, random, m);
      w.alice == BundleSession(suite, alice, bundle, now, random) && w.sent == [] && w.aliceTop == 1 && w.bobTop == 0
      && w.keys == [BobParametersFor(bob, m).value.ourRatchetKey, random.ratchetKey]
      && w.alice.senderChain.Some? && w.alice.senderChain.value.chainKey.index == 0
  {
    hide AliceSecrets, BobSecrets, BobParametersFor;
  }

  lemma DistinctTwo(suite: Suite, a: PrivateKey, b: PrivateKey, c: PrivateKey)
    requires DistinctPublic(suite, [a, b, c])
    ensures suite.publicKey(a) != suite.publicKey(b) && DistinctPublic(suite, [a, b] + [c])
  {
    assert [a, b] + [c] == [a, b, c];
    assert [a, b, c][0] == a && [a, b, c][1] == b;
  }

  lemma AllowedFirst(suite: Suite, w: World, plaintext: Bytes, now: nat, pqRandom: Bytes)
    requires w.alice.senderChain.Some? && w.alice.senderChain.value.chainKey.index == 0
    ensures Allowed(suite, w, Send(true, plaintext, now, pqRandom))
  {
  }

  lemma AliceUnmoved(suite: Suite, w: World, ephemeral: PrivateKey)
    ensures Step(suite, w, Deliver(false, 0, ephemeral)).alice == w.alice
  {
    hide DecryptedWithState;
  }

  /** A one-time pre-key is used at most once: after a message that used it decrypted, it is gone. */
  lemma OneTimeIsGone(suite: Suite, s: Stores, address: ProtocolAddress, m: PreKeySignalMessage,
                      ephemeral: nat -> PrivateKey)
    requires PreKeyDecrypted(suite, s, address, m, ephemeral).1.Ok? && m.preKeyId.Some?
    requires PromotedMatching(RecordFor(s, address), m.version, m.baseKey).None?
    ensures m.preKeyId.value in s.preKeys
    ensures PreKeyDecrypted(suite, s, address, m, ephemeral).0.preKeys == s.preKeys - {m.preKeyId.value}
  {
    hide DecryptedWithRecord, PromotedMatching, BobSession;
  }

  // ------------------------------------------------------- from then on

  /** A store follows a party: the session stored for the peer is the party's, and the peer's identity
      is trusted. */
  predicate Follows(s: Stores, peer: ProtocolAddress, st: SessionStructure) {
    && peer in s.sessions && s.sessions[peer].current == Some(st)
    && (st.remoteIdentity.Some? ==> Trusted(s, peer, st.remoteIdentity.value))
  }

  /** Sending from a store that follows a party is the party's send. */
  lemma SendFollows(setup: Setup, w: World, s: Stores, peer: ProtocolAddress, byAlice: bool, plaintext: Bytes,
                    now: nat, pqRandom: Bytes)
    requires WorldInv(setup, w) && Follows(s, peer, w.Session(byAlice))
    ensures var r := MessageEncrypted(setup.suite, s, peer, plaintext, now, pqRandom);
      var after := Step(setup.suite, w, Send(byAlice, plaintext, now, pqRandom));
      if r.Ok? then Follows(r.value.0, peer, after.Session(byAlice)) && |after.sent| == |w.sent| + 1
                    && after.sent[|w.sent|].message == Signal(r.value.1) && after.sent[|w.sent|].plaintext == plaintext
      else after == w
  {
    hide PartyInv, Honest, DistinctPublic, NewSignalMessage;
    Sides(setup, w);
    KnowsPeer(setup, w, byAlice);
  }

  lemma KnowsPeer(setup: Setup, w: World, isAlice: bool)
    requires WorldInv(setup, w)
    ensures w.Session(isAlice).remoteIdentity.Some?
  {
    hide ChainsInv, Honest, DistinctPublic;
  }

  /** And receiving is its delivery: a message the peer sent, readable when it arrives, decrypts from the
      store to what was sent, and the store follows the party on; no archived session is touched. */
  lemma DeliveryFollows(setup: Setup, w: World, s: Stores, peer: ProtocolAddress, toAlice: bool, index: nat,
                        ephemeral: nat -> PrivateKey)
    requires Lawful(setup.suite) && WorldInv(setup, w)
    requires Follows(s, peer, w.Session(toAlice)) && index < |w.sent| && SentBy(w.sent[index], !toAlice)
    requires DistinctPublic(setup.suite, w.keys + [ephemeral(0)])
    requires |w.Session(toAlice).receiverChains| == ChainCount(w.Top(toAlice))
             && Readable(w.Session(toAlice), w.Top(toAlice), w.sent[index])
    requires PqAgrees(setup.suite, w.Session(toAlice), w.sent[index])
    ensures var r := SignalDecrypted(setup.suite, s, peer, w.sent[index].message, ephemeral);
      var later := Step(setup.suite, w, Deliver(toAlice, index, ephemeral(0)));
      r.Ok? && r.value.1 == w.sent[index].plaintext && Follows(r.value.0, peer, later.Session(toAlice))
      && r.value.0.sessions[peer].previous == s.sessions[peer].previous && WorldInv(setup, later)
  {
    hide PartyInv, Honest, Lawful, DecryptedWithState, DistinctPublic, WorldInv, ChainCount, Readable, PqAgrees,
         Coincidence;
    var (sent, e, st) := (w.sent[index], Deliver(toAlice, index, ephemeral(0)), w.Session(toAlice));
    SentFacts(setup, w, index);
    BothSides(setup, w, toAlice);
    DeliverReadable(setup, w.keys, st, w.Top(toAlice), w.accepted, sent, ephemeral(0));
    ReadableIsNoCoincidence(setup, w, e);
    DeliverKeepsInv(setup, w, e);
    KnowsPeer(setup, w, toAlice);
    SamePeer(setup.suite, st, sent.message, ephemeral(0));
    DecryptsCurrent(setup.suite, s.sessions[peer], sent.message, false, ephemeral);
  }

  /** So is receiving a later message with the header: until Bob answers, all of Alice's carry it. It finds the
      session it once started, uses no pre-key, and decrypts to what was sent. */
  lemma PreKeyDeliveryFollows(setup: Setup, w: World, s: Stores, peer: ProtocolAddress, toAlice: bool, index: nat,
                              m: PreKeySignalMessage, ephemeral: nat -> PrivateKey)
    requires Lawful(setup.suite) && WorldInv(setup, w)
    requires Follows(s, peer, w.Session(toAlice)) && index < |w.sent| && SentBy(w.sent[index], !toAlice)
    requires m.message == w.sent[index].message && SameSession(w.Session(toAlice), m.version, m.baseKey)
             && Trusted(s, peer, m.identityKey)
    requires DistinctPublic(setup.suite, w.keys + [ephemeral(0)])
    requires |w.Session(toAlice).receiverChains| == ChainCount(w.Top(toAlice))
             && Readable(w.Session(toAlice), w.Top(toAlice), w.sent[index])
    requires PqAgrees(setup.suite, w.Session(toAlice), w.sent[index])
    ensures var (after, r) := PreKeyDecrypted(setup.suite, s, peer, m, ephemeral);
      var later := Step(setup.suite, w, Deliver(toAlice, index, ephemeral(0)));
      r == Ok(w.sent[index].plaintext) && peer in after.sessions
      && after.sessions[peer] == s.sessions[peer].(current := Some(later.Session(toAlice)))
      && after.preKeys == s.preKeys && after.baseKeysSeen == s.baseKeysSeen
      && (w.Session(toAlice).remoteIdentity == Some(m.identityKey) ==> Follows(after, peer, later.Session(toAlice)))
      && WorldInv(setup, later)
  {
    hide PartyInv, Honest, Lawful, DecryptedWithState, DistinctPublic, WorldInv, ChainCount, Readable, PqAgrees,
         Coincidence, SameSession;
    var (sent, e, st) := (w.sent[index], Deliver(toAlice, index, ephemeral(0)), w.Session(toAlice));
    SentFacts(setup, w, index);
    BothSides(setup, w, toAlice);
    DeliverReadable(setup, w.keys, st, w.Top(toAlice), w.accepted, sent, ephemeral(0));
    ReadableIsNoCoincidence(setup, w, e);
    DeliverKeepsInv(setup, w, e);
    SamePeer(setup.suite, st, sent.message, ephemeral(0));
    DecryptsCurrent(setup.suite, s.sessions[peer], sent.message, true, ephemeral);
  }

  lemma BothSides(setup: Setup, w: World, isAlice: bool)
    requires WorldInv(setup, w)
    ensures PartyInv(setup, w.keys, w.Session(isAlice), w.Top(isAlice), w.accepted)
    ensures forall i :: 0 <= i < |w.sent| && SentBy(w.sent[i], !isAlice) ==>
              w.sent[i].chain % 2 != w.Top(isAlice) % 2 && w.sent[i].chain <= w.Top(isAlice) + 1
              && (w.sent[i].chain == w.Top(isAlice) + 1 ==> |w.keys| == w.Top(isAlice) + 2)
  {
    hide PartyInv, Honest, DistinctPublic;
  }

  lemma SamePeer(suite: Suite, st: SessionStructure, m: SignalMessage, ephemeral: PrivateKey)
    requires DecryptedWithState(suite, st, m, ephemeral).Ok?
    ensures DecryptedWithState(suite, st, m, ephemeral).value.0.remoteIdentity == st.remoteIdentity
  {
  }
}
