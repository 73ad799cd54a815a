/** What the pairwise store operations keep over whole runs: every stored chain stays sound, a
    message that decrypted is refused the second time, and what a failed decryption leaves
    behind. */
module PairwiseProperties {
  import opened Wrappers
  import opened Bytes
  import opened KdfChain
  import opened RatchetKeys
  import opened RatchetInit
  import opened SessionStates
  import opened SessionCipher
  import opened MessageKeyWindow
  import opened PairwiseStore
  import TwoParty

  // ------------------------------------------------------- soundness of what is stored

  /** The chain is the KDF chain of a seed and has not wrapped, with at most 2,000 of its keys cached,
      newest first and all before its index. Which keys are cached, and what a chain that wraps
      keeps, StoreRuns says. */
  ghost predicate Derived(hmac: Hmac, seed: Bytes, chain: ReceiverChain) {
    && chain.chainKey == ChainKeyAt(hmac, seed, chain.chainKey.index)
    && |chain.messageKeys| <= 2_000 && Descending(Indices(chain.messageKeys))
    && forall i :: 0 <= i < |chain.messageKeys| ==>
         chain.messageKeys[i].index < chain.chainKey.index
         && chain.messageKeys[i] == MessageKeyAt(hmac, seed, chain.messageKeys[i].index)
  }

  ghost predicate ChainSound(hmac: Hmac, chain: ReceiverChain) {
    exists seed: Bytes :: Derived(hmac, seed, chain)
  }

  lemma WindowIsDerived(hmac: Hmac, seed: Bytes, chain: ReceiverChain, used: set<int>)
    requires ChainWindow(hmac, seed, chain, used)
    ensures ChainSound(hmac, chain)
  {
    hide MessageKeyAt, ChainKeyAt;
    var cached := Indices(chain.messageKeys);
    assert forall i :: 0 <= i < |cached| ==> chain.messageKeys[i].index == cached[i];
    assert Derived(hmac, seed, chain);
  }

  /** Every index not cached counts as handed out. */
  lemma DerivedIsWindow(hmac: Hmac, seed: Bytes, chain: ReceiverChain) returns (used: set<int>)
    requires Derived(hmac, seed, chain)
    ensures ChainWindow(hmac, seed, chain, used)
  {
    hide MessageKeyAt, ChainKeyAt;
    used := set n: int | 0 <= n < chain.chainKey.index && n !in Indices(chain.messageKeys);
  }

  ghost predicate SessionSound(hmac: Hmac, st: SessionStructure) {
    && |st.receiverChains| <= 5
    && forall i :: 0 <= i < |st.receiverChains| ==> ChainSound(hmac, st.receiverChains[i])
  }

  ghost predicate RecordSound(hmac: Hmac, record: RecordStructure) {
    && (record.current.Some? ==> SessionSound(hmac, record.current.value))
    && |record.previous| <= 40
    && forall i :: 0 <= i < |record.previous| ==> SessionSound(hmac, record.previous[i])
  }

  ghost predicate StoresSound(hmac: Hmac, s: Stores) {
    forall address :: address in s.sessions ==> RecordSound(hmac, s.sessions[address])
  }

  lemma NewChainIsSound(hmac: Hmac, theirs: PublicKey, seed: Bytes)
    ensures ChainSound(hmac, ReceiverChain(theirs, ChainKey(seed, 0), []))
  {
    assert Derived(hmac, seed, ReceiverChain(theirs, ChainKey(seed, 0), []));
  }

  /** A key taken leaves the chain sound and is a duplicate from then on; the key of the last 32-bit index
      leaves the chain at index 0. */
  lemma TakeKeyOnce(hmac: Hmac, chain: ReceiverChain, n: u32, withSelf: bool)
    requires ChainSound(hmac, chain) && TakeKey(hmac, chain, n, withSelf).Ok?
    ensures var after := TakeKey(hmac, chain, n, withSelf).value.0;
      after.ratchetKey == chain.ratchetKey
      && if n < U32_MAX then ChainSound(hmac, after) && TakeKey(hmac, after, n, withSelf) == Err(DuplicatedMessage)
         else after.chainKey.index == 0
  {
    hide TakeKey, Has;
    var seed :| Derived(hmac, seed, chain);
    hide Window, Derived, ChainSound;
    var used := DerivedIsWindow(hmac, seed, chain);
    var after := TakeKey(hmac, chain, n, withSelf).value.0;
    TakeKeyKeepsWindow(hmac, seed, chain, n, withSelf, used);
    if n < U32_MAX {
      WindowIsDerived(hmac, seed, after, used + {n});
      UsedIsGone(hmac, seed, after, used + {n}, n);
      TakeKeyIff(hmac, after, n, withSelf);
    }
  }

  /** Back at index 0 the last index lies ahead, and too far unless in a session with oneself. */
  lemma LastIsAhead(hmac: Hmac, chain: ReceiverChain, withSelf: bool)
    requires chain.chainKey.index == 0
    ensures !withSelf ==> TakeKey(hmac, chain, U32_MAX, withSelf) == Err(InvalidMessage)
    ensures TakeKey(hmac, chain, U32_MAX, withSelf) != Err(DuplicatedMessage)
  {
    hide SkipTo;
  }

  lemma UsedIsGone(hmac: Hmac, seed: Bytes, chain: ReceiverChain, used: set<int>, n: int)
    requires ChainWindow(hmac, seed, chain, used) && n in used
    ensures n < chain.chainKey.index && !Has(chain.messageKeys, n)
  {
    var cached := Indices(chain.messageKeys);
    assert forall k :: 0 <= k < |cached| ==> cached[k] in cached;
  }

  lemma RatchetKeepsSound(suite: Suite, st: SessionStructure, theirs: PublicKey, ours: PrivateKey)
    requires SessionSound(suite.hmac, st) && RatchetStep(suite, st, theirs, ours).Ok?
    ensures SessionSound(suite.hmac, RatchetStep(suite, st, theirs, ours).value)
  {
    hide ChainSound;
    var (root, receiver) := CreateChain(suite, st.rootKey.value, theirs, st.senderChain.value.ratchetPrivate);
    NewChainIsSound(suite.hmac, theirs, receiver.key);
  }

  /** What a message that decrypted meets when it comes again. */
  function Repeated(counter: u32): Error {
    if counter < U32_MAX then DuplicatedMessage else InvalidMessage
  }

  /** Decrypting keeps a session sound, and the same message is then refused: as a duplicate exactly when
      its counter is not the last one, which wraps the chain. Only in a session with oneself may a message
      with the last counter be tried again. */
  lemma DecryptsOnce(suite: Suite, st: SessionStructure, m: SignalMessage, ephemeral: PrivateKey, again: PrivateKey)
    requires SessionSound(suite.hmac, st)
    requires DecryptedWithState(suite, st, m, ephemeral).Ok?
    ensures var after := DecryptedWithState(suite, st, m, ephemeral).value.0;
      var replay := DecryptedWithState(suite, after, m, again);
      after.remoteIdentity.Some? && after.WithSelf() == st.WithSelf()
      && (m.counter < U32_MAX ==> SessionSound(suite.hmac, after))
      && (replay == Err(DuplicatedMessage) <==> m.counter < U32_MAX)
      && (m.counter < U32_MAX || !st.WithSelf() ==> replay == Err(Repeated(m.counter)))
  {
    hide ChainSound, DecryptedWithState, RatchetStep, FindReceiver, Repeated;
    DecryptsMeans(suite, st, m, ephemeral);
    var ratcheted := if FindReceiver(st.receiverChains, m.ratchetKey).Some? then st
                     else RatchetStep(suite, st, m.ratchetKey, ephemeral).value;
    if FindReceiver(st.receiverChains, m.ratchetKey).None? {
      RatchetKeepsSound(suite, st, m.ratchetKey, ephemeral);
      RatchetKeeps(suite, st, m.ratchetKey, ephemeral);
    }
    DecryptsAsRatcheted(suite, st, m, ephemeral, ratcheted);
    FoundDecryptsOnce(suite, ratcheted, m, ephemeral, again);
  }

  lemma DecryptsMeans(suite: Suite, st: SessionStructure, m: SignalMessage, ephemeral: PrivateKey)
    requires DecryptedWithState(suite, st, m, ephemeral).Ok?
    ensures FindReceiver(st.receiverChains, m.ratchetKey).None? ==> RatchetStep(suite, st, m.ratchetKey, ephemeral).Ok?
  {
    hide TakeKey, RatchetStep, FindReceiver;
  }

  /** A ratchet step done beforehand is not done again. */
  lemma DecryptsAsRatcheted(suite: Suite, st: SessionStructure, m: SignalMessage, ephemeral: PrivateKey,
                            ratcheted: SessionStructure)
    requires DecryptedWithState(suite, st, m, ephemeral).Ok?
    requires if FindReceiver(st.receiverChains, m.ratchetKey).Some? then ratcheted == st
             else RatchetStep(suite, st, m.ratchetKey, ephemeral) == Ok(ratcheted)
                  && ratcheted.SessionVersion() == st.SessionVersion() && ratcheted.rootKey.Some?
    ensures FindReceiver(ratcheted.receiverChains, m.ratchetKey).Some?
    ensures DecryptedWithState(suite, ratcheted, m, ephemeral) == DecryptedWithState(suite, st, m, ephemeral)
  {
    hide TakeKey, RatchetStep, FindReceiver;
  }

  lemma FoundDecryptsOnce(suite: Suite, st: SessionStructure, m: SignalMessage, ephemeral: PrivateKey,
                          again: PrivateKey)
    requires SessionSound(suite.hmac, st) && FindReceiver(st.receiverChains, m.ratchetKey).Some?
    requires DecryptedWithState(suite, st, m, ephemeral).Ok?
    ensures var after := DecryptedWithState(suite, st, m, ephemeral).value.0;
      var replay := DecryptedWithState(suite, after, m, again);
      after.remoteIdentity.Some? && after.WithSelf() == st.WithSelf()
      && (m.counter < U32_MAX ==> SessionSound(suite.hmac, after))
      && (replay == Err(DuplicatedMessage) <==> m.counter < U32_MAX)
      && (m.counter < U32_MAX || !st.WithSelf() ==> replay == Err(Repeated(m.counter)))
  {
    hide ChainSound, TakeKey, RatchetStep, FindReceiver;
    var i := FindReceiver(st.receiverChains, m.ratchetKey).value;
    TakeKeyOnce(suite.hmac, st.receiverChains[i], m.counter, st.WithSelf());
    var chain := TakeKey(suite.hmac, st.receiverChains[i], m.counter, st.WithSelf()).value.0;
    UpdateKeepsFound(st.receiverChains, i, chain, m.ratchetKey);
    if m.counter == U32_MAX {
      LastIsAhead(suite.hmac, chain, st.WithSelf());
    }
  }

  lemma RatchetKeeps(suite: Suite, st: SessionStructure, theirs: PublicKey, ours: PrivateKey)
    requires RatchetStep(suite, st, theirs, ours).Ok?
    ensures var after := RatchetStep(suite, st, theirs, ours).value;
      after.SessionVersion() == st.SessionVersion() && after.rootKey.Some?
      && after.remoteIdentity == st.remoteIdentity && after.localIdentity == st.localIdentity
  {
  }

  lemma PromotedIsSound(hmac: Hmac, record: RecordStructure, session: SessionStructure)
    requires RecordSound(hmac, record) && SessionSound(hmac, session)
    ensures RecordSound(hmac, Promoted(record, session))
  {
    hide ChainSound;
  }

  lemma WithoutIsSound(hmac: Hmac, record: RecordStructure, i: nat)
    requires RecordSound(hmac, record) && i < |record.previous|
    ensures RecordSound(hmac, record.(previous := Without(record.previous, i)))
    ensures SessionSound(hmac, record.previous[i])
  {
    hide SessionSound;
  }

  // ------------------------------------------------------- the search over a record

  /** Exactly when the search over archived sessions from `i` on finds one: some session decrypts the
      message and every one before it fails other than as a duplicate; that session it is. */
  lemma {:induction false} SearchFindsFirst(suite: Suite, previous: seq<SessionStructure>, m: SignalMessage,
                                            ephemeral: nat -> PrivateKey, i: nat, k: nat)
    requires i <= k < |previous|
    ensures TryPrevious(suite, previous, m, ephemeral, i).Ok?
            && TryPrevious(suite, previous, m, ephemeral, i).value.0 == k
      <==> DecryptedWithState(suite, previous[k], m, ephemeral(k + 1)).Ok?
           && forall j :: i <= j < k ==>
                var r := DecryptedWithState(suite, previous[j], m, ephemeral(j + 1));
                r.Err? && r.error != DuplicatedMessage
    decreases |previous| - i
  {
    hide DecryptedWithState;
    if i < k {
      SearchFindsFirst(suite, previous, m, ephemeral, i + 1, k);
    }
  }

  lemma {:induction false} SearchYields(suite: Suite, previous: seq<SessionStructure>, m: SignalMessage,
                                        ephemeral: nat -> PrivateKey, i: nat)
    requires i <= |previous| && TryPrevious(suite, previous, m, ephemeral, i).Ok?
    ensures var (k, session, plaintext) := TryPrevious(suite, previous, m, ephemeral, i).value;
      DecryptedWithState(suite, previous[k], m, ephemeral(k + 1)) == Ok((session, plaintext))
    decreases |previous| - i
  {
    hide DecryptedWithState;
    if i < |previous| && TryPrevious(suite, previous, m, ephemeral, i).value.0 != i {
      SearchYields(suite, previous, m, ephemeral, i + 1);
    }
  }

  /** Decrypting with a record keeps it sound, leaves the session used current with a known peer, and has
      the same message refused by that session from then on. With the last counter a signal message may
      still be tried on the archived ones. */
  lemma RecordDecryptsOnce(suite: Suite, record: RecordStructure, m: SignalMessage, isPreKey: bool,
                           ephemeral: nat -> PrivateKey,
                           againPreKey: bool, again: nat -> PrivateKey)
    requires RecordSound(suite.hmac, record)
    requires DecryptedWithRecord(suite, record, m, isPreKey, ephemeral).Ok?
    ensures var after := DecryptedWithRecord(suite, record, m, isPreKey, ephemeral).value.0;
      var replay := DecryptedWithRecord(suite, after, m, againPreKey, again);
      after.current.Some? && after.current.value.remoteIdentity.Some?
      && if m.counter < U32_MAX then RecordSound(suite.hmac, after) && replay == Err(DuplicatedMessage)
         else !after.current.value.WithSelf() ==>
                (againPreKey ==> replay == Err(InvalidMessage))
                && (replay.Ok? ==> TryPrevious(suite, after.previous, m, again, 0).Ok?)
  {
    hide DecryptedWithState, SessionSound, TryPrevious;
    if record.current.Some? && DecryptedWithState(suite, record.current.value, m, ephemeral(0)).Ok? {
      DecryptsOnce(suite, record.current.value, m, ephemeral(0), again(0));
    } else {
      var (i, session, plaintext) := TryPrevious(suite, record.previous, m, ephemeral, 0).value;
      SearchYields(suite, record.previous, m, ephemeral, 0);
      WithoutIsSound(suite.hmac, record, i);
      DecryptsOnce(suite, record.previous[i], m, ephemeral(i + 1), again(0));
      if m.counter < U32_MAX {
        PromotedIsSound(suite.hmac, record.(previous := Without(record.previous, i)), session);
      }
    }
  }

  /** Using an archived session loses no other: the one that was current is archived in front of the
      rest, which keep their order. */
  lemma ArchivedUseLosesNothing(suite: Suite, record: RecordStructure, m: SignalMessage, ephemeral: nat -> PrivateKey)
    requires |record.previous| <= ARCHIVED_STATES_MAX_LENGTH
    requires record.current.Some? ==> DecryptedWithState(suite, record.current.value, m, ephemeral(0)).Err?
    requires DecryptedWithRecord(suite, record, m, false, ephemeral).Ok?
    ensures var i := TryPrevious(suite, record.previous, m, ephemeral, 0).value.0;
      DecryptedWithRecord(suite, record, m, false, ephemeral).value.0.previous
      == (if record.current.Some? then [record.current.value.Acknowledged()] else [])
         + record.previous[..i] + record.previous[i + 1..]
  {
    hide DecryptedWithState, TryPrevious;
  }

  // ------------------------------------------------------- runs of store operations

  datatype Operation =
    | EncryptMessage(address: ProtocolAddress, plaintext: Bytes, now: nat, pqRandom: Bytes)
    | ProcessBundle(address: ProtocolAddress, bundle: PreKeyBundle, now: nat, random: BundleRandom)
    | DecryptSignal(address: ProtocolAddress, message: SignalMessage, ephemeral: nat -> PrivateKey)
    | DecryptPreKey(address: ProtocolAddress, preKeyMessage: PreKeySignalMessage, ephemeral: nat -> PrivateKey)

  function Performed(suite: Suite, s: Stores, op: Operation): Stores {
    match op
    case EncryptMessage(address, plaintext, now, pqRandom) =>
      var r := MessageEncrypted(suite, s, address, plaintext, now, pqRandom);
      if r.Ok? then r.value.0 else s
    case ProcessBundle(address, bundle, now, random) =>
      var r := BundleProcessed(suite, s, address, bundle, now, random);
      if r.Ok? then r.value else s
    case DecryptSignal(address, m, ephemeral) =>
      var r := SignalDecrypted(suite, s, address, m, ephemeral);
      if r.Ok? then r.value.0 else s
    case DecryptPreKey(address, m, ephemeral) => PreKeyDecrypted(suite, s, address, m, ephemeral).0
  }

  function PerformedAll(suite: Suite, s: Stores, run: seq<Operation>): Stores {
    if run == [] then s else Performed(suite, PerformedAll(suite, s, run[..|run| - 1]), run[|run| - 1])
  }

  /** An operation with one peer leaves the record of every other as it was. */
  lemma OthersUntouched(suite: Suite, s: Stores, op: Operation, peer: ProtocolAddress)
    requires op.address != peer
    ensures RecordFor(Performed(suite, s, op), peer) == RecordFor(s, peer)
  {
    hide Encrypted, DecryptedWithRecord, PreKeyProcessed, BundleSession, PreKeyDecrypted;
    if op.DecryptPreKey? {
      PreKeyOnSessions(suite, s, op.address, op.preKeyMessage, op.ephemeral, peer);
    }
  }

  lemma PreKeyOnSessions(suite: Suite, s: Stores, address: ProtocolAddress, m: PreKeySignalMessage,
                         ephemeral: nat -> PrivateKey,
                         peer: ProtocolAddress)
    requires address != peer
    ensures RecordFor(PreKeyDecrypted(suite, s, address, m, ephemeral).0, peer) == RecordFor(s, peer)
  {
    hide DecryptedWithRecord, PreKeyProcessed;
  }

  /** The operation accepts a message with the last 32-bit counter, which wraps a receiver chain. */
  predicate AcceptsLast(suite: Suite, s: Stores, op: Operation) {
    match op
    case DecryptSignal(address, m, ephemeral) =>
      m.counter == U32_MAX && SignalDecrypted(suite, s, address, m, ephemeral).Ok?
    case DecryptPreKey(address, m, ephemeral) =>
      m.message.counter == U32_MAX && PreKeyDecrypted(suite, s, address, m, ephemeral).1.Ok?
    case _ => false
  }

  /** The session a pre-key message starts. */
  function NewBobSession(suite: Suite, s: Stores, m: PreKeySignalMessage): SessionStructure
    requires BobParametersFor(s, m).Ok? && BobSession(suite, BobParametersFor(s, m).value).Ok?
  {
    BobSession(suite, BobParametersFor(s, m).value).value
      .(localRegistrationId := s.registrationId, remoteRegistrationId := m.registrationId)
  }

  lemma StoredIsSound(hmac: Hmac, s: Stores, after: Stores, address: ProtocolAddress, record: RecordStructure)
    requires StoresSound(hmac, s) && RecordSound(hmac, record) && after.sessions == s.sessions[address := record]
    ensures StoresSound(hmac, after)
  {
    hide RecordSound;
  }

  lemma LoadedIsSound(hmac: Hmac, s: Stores, address: ProtocolAddress)
    requires StoresSound(hmac, s)
    ensures RecordSound(hmac, RecordFor(s, address))
  {
    hide SessionSound;
  }

  lemma PreKeyProcessedIsSound(suite: Suite, s: Stores, address: ProtocolAddress, record: RecordStructure,
                               m: PreKeySignalMessage)
    requires RecordSound(suite.hmac, record) && PreKeyProcessed(suite, s, address, record, m).Ok?
    ensures RecordSound(suite.hmac, PreKeyProcessed(suite, s, address, record, m).value.0)
  {
    hide SessionSound, BobParametersFor;
    if PromotedMatching(record, m.version, m.baseKey).Some? {
      if !(record.current.Some? && SameSession(record.current.value, m.version, m.baseKey)) {
        var i := FindArchived(record.previous, m.version, m.baseKey).value;
        WithoutIsSound(suite.hmac, record, i);
        PromotedIsSound(suite.hmac, record.(previous := Without(record.previous, i)), record.previous[i]);
      }
    } else {
      var session := BobSession(suite, BobParametersFor(s, m).value).value
                       .(localRegistrationId := s.registrationId, remoteRegistrationId := m.registrationId);
      EmptySessionIsSound(suite.hmac, session);
      PromotedIsSound(suite.hmac, record, session);
    }
  }

  lemma EmptySessionIsSound(hmac: Hmac, st: SessionStructure)
    requires st.receiverChains == []
    ensures SessionSound(hmac, st)
  {
  }

  lemma BundleSessionIsSound(suite: Suite, s: Stores, bundle: PreKeyBundle, now: nat, random: BundleRandom)
    ensures SessionSound(suite.hmac, BundleSession(suite, s, bundle, now, random))
  {
    hide ChainSound;
    var st := BundleSession(suite, s, bundle, now, random);
    NewChainIsSound(suite.hmac, st.receiverChains[0].ratchetKey, st.receiverChains[0].chainKey.key);
  }

  lemma SentFromIsSound(suite: Suite, record: RecordStructure, plaintext: Bytes, now: nat, pqRandom: Bytes)
    requires RecordSound(suite.hmac, record) && record.current.Some?
    requires Encrypted(suite, record.current.value, plaintext, now, pqRandom).Ok?
    ensures RecordSound(suite.hmac,
                        record.(current := Some(Encrypted(suite, record.current.value, plaintext, now,
                                                          pqRandom).value.0)))
  {
    hide ChainSound;
  }

  /** One store operation, whether it succeeds or fails, keeps everything stored sound. */
  lemma PerformedKeepsSound(suite: Suite, s: Stores, op: Operation)
    requires StoresSound(suite.hmac, s) && !AcceptsLast(suite, s, op)
    ensures StoresSound(suite.hmac, Performed(suite, s, op))
  {
    hide StoresSound, RecordSound, DecryptedWithRecord, PreKeyProcessed, Encrypted, BundleSession;
    var after := Performed(suite, s, op);
    LoadedIsSound(suite.hmac, s, op.address);
    var record := RecordFor(s, op.address);
    if after.sessions != s.sessions {
      match op {
        case EncryptMessage(address, plaintext, now, pqRandom) =>
          SentFromIsSound(suite, record, plaintext, now, pqRandom);
        case ProcessBundle(address, bundle, now, random) =>
          BundleSessionIsSound(suite, s, bundle, now, random);
          PromotedIsSound(suite.hmac, record, BundleSession(suite, s, bundle, now, random));
        case DecryptSignal(address, m, ephemeral) =>
          RecordDecryptsOnce(suite, record, m, false, ephemeral, false, ephemeral);
        case DecryptPreKey(address, m, ephemeral) =>
          PreKeyProcessedIsSound(suite, s, address, record, m);
          RecordDecryptsOnce(suite, PreKeyProcessed(suite, s, address, record, m).value.0, m.message, true, ephemeral,
                             true, ephemeral);
      }
      StoredIsSound(suite.hmac, s, after, op.address, after.sessions[op.address]);
    } else {
      SameSessions(suite.hmac, s, after);
    }
  }

  lemma SameSessions(hmac: Hmac, s: Stores, after: Stores)
    requires StoresSound(hmac, s) && after.sessions == s.sessions
    ensures StoresSound(hmac, after)
  {
    hide RecordSound;
  }

  /** Over any run of store operations, with any peers and any messages, none of which is accepted with the
      last 32-bit counter, every stored session stays bounded and in order: at most 40 archived sessions,
      at most 5 receiver chains each, at most 2,000 cached keys each, all of one KDF chain, newest
      first and before its index. */
  lemma {:induction false} RunsKeepSound(suite: Suite, s: Stores, run: seq<Operation>)
    requires StoresSound(suite.hmac, s)
    requires forall i :: 0 <= i < |run| ==> !AcceptsLast(suite, PerformedAll(suite, s, run[..i]), run[i])
    ensures StoresSound(suite.hmac, PerformedAll(suite, s, run))
  {
    hide StoresSound, Performed, AcceptsLast;
    if run != [] {
      var before := run[..|run| - 1];
      assert forall i :: 0 <= i < |before| ==> before[..i] == run[..i] && before[i] == run[i];
      RunsKeepSound(suite, s, before);
      PerformedKeepsSound(suite, PerformedAll(suite, s, before), run[|run| - 1]);
    }
  }

  /** After decryption the record the source unwraps has a current session with a known peer, so
      those unwraps cannot panic. */
  lemma {:induction false} UnwrapsAreSafe(suite: Suite, record: RecordStructure, m: SignalMessage, isPreKey: bool,
                                          ephemeral: nat -> PrivateKey)
    requires DecryptedWithRecord(suite, record, m, isPreKey, ephemeral).Ok?
    ensures var after := DecryptedWithRecord(suite, record, m, isPreKey, ephemeral).value.0;
      after.current.Some? && after.current.value.remoteIdentity.Some?
  {
    hide DecryptedWithState, TryPrevious;
    if record.current.Some? && DecryptedWithState(suite, record.current.value, m, ephemeral(0)).Ok? {
      OpensOnlyWithPeer(suite, record.current.value, m, ephemeral(0));
    } else {
      var i := TryPrevious(suite, record.previous, m, ephemeral, 0).value.0;
      SearchYields(suite, record.previous, m, ephemeral, 0);
      OpensOnlyWithPeer(suite, record.previous[i], m, ephemeral(i + 1));
    }
  }

  lemma OpensOnlyWithPeer(suite: Suite, st: SessionStructure, m: SignalMessage, ephemeral: PrivateKey)
    requires DecryptedWithState(suite, st, m, ephemeral).Ok?
    ensures DecryptedWithState(suite, st, m, ephemeral).value.0.remoteIdentity.Some?
  {
  }

  // ------------------------------------------------------- repeated messages

  /** A message that decrypted, delivered again, is refused as a duplicate and changes nothing. With the last
      counter it is refused unless an archived session decrypts it or the session is with oneself. */
  lemma SignalReplayIsRefused(suite: Suite, s: Stores, address: ProtocolAddress, m: SignalMessage,
                              ephemeral: nat -> PrivateKey, again: nat -> PrivateKey)
    requires StoresSound(suite.hmac, s)
    requires SignalDecrypted(suite, s, address, m, ephemeral).Ok?
    ensures var after := SignalDecrypted(suite, s, address, m, ephemeral).value.0;
      var replay := SignalDecrypted(suite, after, address, m, again);
      address in after.sessions && after.sessions[address].current.Some?
      && if m.counter < U32_MAX then replay == Err(DuplicatedMessage)
         else replay.Ok? ==> after.sessions[address].current.value.WithSelf()
                             || TryPrevious(suite, after.sessions[address].previous, m, again, 0).Ok?
  {
    hide RecordSound, DecryptedWithRecord, TryPrevious;
    RecordDecryptsOnce(suite, s.sessions[address], m, false, ephemeral, false, again);
  }

  /** The versions a pre-key message can have: others do not deserialize
      (libsignal/rust/protocol/src/protocol.rs). */
  predicate KnownVersion(m: PreKeySignalMessage) {
    CIPHERTEXT_MESSAGE_PRE_KYBER_VERSION <= m.version <= CIPHERTEXT_MESSAGE_CURRENT_VERSION
  }

  /** The session a pre-key message belongs to is current after it was processed. */
  lemma ProcessedMatches(suite: Suite, s: Stores, address: ProtocolAddress, record: RecordStructure,
                         m: PreKeySignalMessage)
    requires PreKeyProcessed(suite, s, address, record, m).Ok? && KnownVersion(m)
    ensures var current := PreKeyProcessed(suite, s, address, record, m).value.0.current;
      current.Some? && SameSession(current.value, m.version, m.baseKey)
  {
  }

  lemma DecryptsOnSame(suite: Suite, record: RecordStructure, m: SignalMessage, ephemeral: nat -> PrivateKey,
                       version: u32, baseKey: PublicKey)
    requires record.current.Some? && SameSession(record.current.value, version, baseKey)
    requires DecryptedWithRecord(suite, record, m, true, ephemeral).Ok?
    ensures var after := DecryptedWithRecord(suite, record, m, true, ephemeral).value.0;
      after.current.Some? && SameSession(after.current.value, version, baseKey)
      && after.current.value == DecryptedWithState(suite, record.current.value, m, ephemeral(0)).value.0
  {
  }

  /** A pre-key message that decrypted, delivered again, is refused and changes nothing: no pre-key is used,
      no session made, no identity saved. It is a duplicate, or invalid if it carries the last counter;
      only then, and in a session with oneself, may it be tried again. */
  lemma PreKeyReplayIsRefused(suite: Suite, s: Stores, address: ProtocolAddress, m: PreKeySignalMessage,
                              ephemeral: nat -> PrivateKey, again: nat -> PrivateKey)
    requires StoresSound(suite.hmac, s) && KnownVersion(m)
    requires PreKeyDecrypted(suite, s, address, m, ephemeral).1.Ok?
    ensures var after := PreKeyDecrypted(suite, s, address, m, ephemeral).0;
      address in after.sessions && after.sessions[address].current.Some?
      && (m.message.counter < U32_MAX || !after.sessions[address].current.value.WithSelf() ==>
            PreKeyDecrypted(suite, after, address, m, again) == (after, Err(Repeated(m.message.counter))))
  {
    hide RecordSound, DecryptedWithRecord, StoresSound, BobParametersFor, BobSession, SameSession, TryPrevious;
    LoadedIsSound(suite.hmac, s, address);
    var record := RecordFor(s, address);
    var processed := PreKeyProcessed(suite, s, address, record, m).value.0;
    PreKeyProcessedIsSound(suite, s, address, record, m);
    ProcessedMatches(suite, s, address, record, m);
    DecryptsOnSame(suite, processed, m.message, ephemeral, m.version, m.baseKey);
    RecordDecryptsOnce(suite, processed, m.message, true, ephemeral, true, again);
  }

  // ------------------------------------------------------- failed decryption

  /** The message would start a new session with pre-keys for which its base key was seen. */
  predicate ReusesBaseKey(s: Stores, address: ProtocolAddress, m: PreKeySignalMessage) {
    && PromotedMatching(RecordFor(s, address), m.version, m.baseKey).None?
    && m.kyber.Some? && m.baseKey in SeenWith(s, m.kyber.value.preKeyId, m.signedPreKeyId)
  }

  /** What is done before anything is written: process the pre-keys, then decipher. */
  predicate Deciphers(suite: Suite, s: Stores, address: ProtocolAddress, m: PreKeySignalMessage,
                      ephemeral: nat -> PrivateKey) {
    var record := RecordFor(s, address);
    var processed := PreKeyProcessed(suite, s, address, record, m);
    processed.Ok? && DecryptedWithRecord(suite, processed.value.0, m.message, true, ephemeral).Ok?
  }

  /** A pre-key message fails exactly when it does not decipher or reuses a base key. */
  lemma PreKeyFailsIff(suite: Suite, s: Stores, address: ProtocolAddress, m: PreKeySignalMessage,
                       ephemeral: nat -> PrivateKey)
    ensures PreKeyDecrypted(suite, s, address, m, ephemeral).1.Err?
      <==> !Deciphers(suite, s, address, m, ephemeral) || ReusesBaseKey(s, address, m)
  {
    hide DecryptedWithRecord, PromotedMatching, BobSession;
  }

  /** A pre-key message that fails changes no session and no pre-key. It leaves the stores exactly as
      they were, unless a message that deciphers reuses a base key and comes from an address
      without an identity: then that identity is saved. */
  lemma FailedPreKeyChangesNothingIff(suite: Suite, s: Stores, address: ProtocolAddress, m: PreKeySignalMessage,
                                      ephemeral: nat -> PrivateKey)
    requires PreKeyDecrypted(suite, s, address, m, ephemeral).1.Err?
    ensures var after := PreKeyDecrypted(suite, s, address, m, ephemeral).0;
      (after == s <==> !(Deciphers(suite, s, address, m, ephemeral) && ReusesBaseKey(s, address, m)
                         && address !in s.identities))
      && after == s.(identities := after.identities)
      && (after != s ==> after.identities == s.identities[address := m.identityKey])
  {
    hide DecryptedWithRecord, PromotedMatching, BobSession;
    PreKeyFailsIff(suite, s, address, m, ephemeral);
    var after := PreKeyDecrypted(suite, s, address, m, ephemeral).0;
    if after.identities != s.identities {
      assert address in after.identities;
    } else if Deciphers(suite, s, address, m, ephemeral) && ReusesBaseKey(s, address, m) {
      assert s.identities[address := m.identityKey] == s.identities;
      assert address in s.identities;
    }
  }

  // ------------------------------------------------------- pre-keys over a run

  /** The operation starts a session from a pre-key message. */
  predicate Starts(suite: Suite, s: Stores, op: Operation) {
    && op.DecryptPreKey? && PreKeyDecrypted(suite, s, op.address, op.preKeyMessage, op.ephemeral).1.Ok?
    && PromotedMatching(RecordFor(s, op.address), op.preKeyMessage.version, op.preKeyMessage.baseKey).None?
  }

  predicate StartsAt(suite: Suite, s: Stores, run: seq<Operation>, i: nat)
    requires i < |run|
  {
    Starts(suite, PerformedAll(suite, s, run[..i]), run[i])
  }

  /** Base keys seen are never forgotten, and one-time pre-keys never come back. */
  lemma StepOnPreKeys(suite: Suite, s: Stores, op: Operation, kyberId: u32, signedId: u32)
    ensures SeenWith(s, kyberId, signedId) <= SeenWith(Performed(suite, s, op), kyberId, signedId)
    ensures Performed(suite, s, op).preKeys.Keys <= s.preKeys.Keys
  {
    hide MessageEncrypted, BundleProcessed, SignalDecrypted, PreKeyDecrypted;
    match op {
      case EncryptMessage(address, plaintext, now, pqRandom) =>
        EncryptKeepsPreKeys(suite, s, address, plaintext, now, pqRandom);
      case ProcessBundle(address, bundle, now, random) => BundleKeepsPreKeys(suite, s, address, bundle, now, random);
      case DecryptSignal(address, m, ephemeral) => SignalKeepsPreKeys(suite, s, address, m, ephemeral);
      case DecryptPreKey(address, m, ephemeral) => PreKeyOnPreKeys(suite, s, address, m, ephemeral, kyberId, signedId);
    }
  }

  lemma EncryptKeepsPreKeys(suite: Suite, s: Stores, address: ProtocolAddress, plaintext: Bytes, now: nat,
                            pqRandom: Bytes)
    ensures var r := MessageEncrypted(suite, s, address, plaintext, now, pqRandom);
      r.Ok? ==> r.value.0.baseKeysSeen == s.baseKeysSeen && r.value.0.preKeys == s.preKeys
  {
    hide Encrypted;
  }

  lemma BundleKeepsPreKeys(suite: Suite, s: Stores, address: ProtocolAddress, bundle: PreKeyBundle, now: nat,
                           random: BundleRandom)
    ensures var r := BundleProcessed(suite, s, address, bundle, now, random);
      r.Ok? ==> r.value.baseKeysSeen == s.baseKeysSeen && r.value.preKeys == s.preKeys
  {
    hide BundleSession;
  }

  lemma SignalKeepsPreKeys(suite: Suite, s: Stores, address: ProtocolAddress, m: SignalMessage,
                           ephemeral: nat -> PrivateKey)
    ensures var r := SignalDecrypted(suite, s, address, m, ephemeral);
      r.Ok? ==> r.value.0.baseKeysSeen == s.baseKeysSeen && r.value.0.preKeys == s.preKeys
  {
    hide DecryptedWithRecord;
  }

  lemma PreKeyOnPreKeys(suite: Suite, s: Stores, address: ProtocolAddress, m: PreKeySignalMessage,
                        ephemeral: nat -> PrivateKey,
                        kyberId: u32, signedId: u32)
    ensures var after := PreKeyDecrypted(suite, s, address, m, ephemeral).0;
      SeenWith(s, kyberId, signedId) <= SeenWith(after, kyberId, signedId) && after.preKeys.Keys <= s.preKeys.Keys
  {
    hide DecryptedWithRecord, PreKeyProcessed;
  }

  /** Starting a session takes a base key not seen with these pre-keys and a one-time pre-key still there,
      and ends both. */
  lemma StartOnPreKeys(suite: Suite, s: Stores, op: Operation)
    requires Starts(suite, s, op)
    ensures var (m, after) := (op.preKeyMessage, Performed(suite, s, op));
      m.kyber.Some? && m.baseKey !in SeenWith(s, m.kyber.value.preKeyId, m.signedPreKeyId)
      && m.baseKey in SeenWith(after, m.kyber.value.preKeyId, m.signedPreKeyId)
      && (m.preKeyId.Some? ==> m.preKeyId.value in s.preKeys && m.preKeyId.value !in after.preKeys)
  {
    hide DecryptedWithRecord, PromotedMatching, BobSession;
  }

  lemma {:induction false} PreKeysOnlyGo(suite: Suite, s: Stores, run: seq<Operation>, i: nat, j: nat, kyberId: u32,
                                         signedId: u32)
    requires i <= j <= |run|
    ensures var (before, after) := (PerformedAll(suite, s, run[..i]), PerformedAll(suite, s, run[..j]));
      SeenWith(before, kyberId, signedId) <= SeenWith(after, kyberId, signedId)
      && after.preKeys.Keys <= before.preKeys.Keys
    decreases j
  {
    hide Performed, SeenWith;
    if i < j {
      PreKeysOnlyGo(suite, s, run, i, j - 1, kyberId, signedId);
      assert run[..j][..j - 1] == run[..j - 1];
      StepOnPreKeys(suite, PerformedAll(suite, s, run[..j - 1]), run[j - 1], kyberId, signedId);
    }
  }

  /** A handshake is heard once: over any run of store operations, two pre-key messages that start a
      session, from whatever addresses, differ in base key or in the pre-keys used with it, and no
      one-time pre-key starts two. */
  lemma StartsOnce(suite: Suite, s: Stores, run: seq<Operation>, i: nat, j: nat)
    requires i < j < |run| && StartsAt(suite, s, run, i) && StartsAt(suite, s, run, j)
    ensures var (a, b) := (run[i].preKeyMessage, run[j].preKeyMessage);
      a.kyber.Some? && b.kyber.Some?
      && (a.baseKey, a.kyber.value.preKeyId, a.signedPreKeyId) != (b.baseKey, b.kyber.value.preKeyId, b.signedPreKeyId)
      && (a.preKeyId.Some? ==> a.preKeyId != b.preKeyId)
  {
    hide Performed, SeenWith, PreKeyDecrypted, PromotedMatching;
    var (a, b) := (run[i].preKeyMessage, run[j].preKeyMessage);
    StartOnPreKeys(suite, PerformedAll(suite, s, run[..i]), run[i]);
    StartOnPreKeys(suite, PerformedAll(suite, s, run[..j]), run[j]);
    assert run[..i + 1][..i] == run[..i];
    PreKeysOnlyGo(suite, s, run, i + 1, j, a.kyber.value.preKeyId, a.signedPreKeyId);
  }

  /** So a pre-key message that started a session, delivered again after any run to any address without
      that session, fails, changes no session and uses no pre-key. */
  lemma SpentHandshakeFails(suite: Suite, s: Stores, run: seq<Operation>, i: nat, address: ProtocolAddress,
                            m: PreKeySignalMessage,
                            again: nat -> PrivateKey)
    requires i < |run| && StartsAt(suite, s, run, i)
    requires m.baseKey == run[i].preKeyMessage.baseKey && m.signedPreKeyId == run[i].preKeyMessage.signedPreKeyId
    requires m.kyber.Some? && run[i].preKeyMessage.kyber.Some?
             && m.kyber.value.preKeyId == run[i].preKeyMessage.kyber.value.preKeyId
    requires PromotedMatching(RecordFor(PerformedAll(suite, s, run), address), m.version, m.baseKey).None?
    ensures var now := PerformedAll(suite, s, run);
      var (after, r) := PreKeyDecrypted(suite, now, address, m, again);
      r.Err? && after == now.(identities := after.identities)
  {
    hide Performed, SeenWith, PromotedMatching, Deciphers, PreKeyDecrypted;
    var now := PerformedAll(suite, s, run);
    StartOnPreKeys(suite, PerformedAll(suite, s, run[..i]), run[i]);
    assert run[..i + 1][..i] == run[..i] && run[..|run|] == run;
    PreKeysOnlyGo(suite, s, run, i + 1, |run|, m.kyber.value.preKeyId, m.signedPreKeyId);
    PreKeyFailsIff(suite, now, address, m, again);
    FailedPreKeyChangesNothingIff(suite, now, address, m, again);
  }

  // ------------------------------------------------------- what a failure can leave behind

  /** Whether a message decrypts does not depend on the key drawn for a ratchet. */
  lemma DrawnDoesNotMatter(suite: Suite, st: SessionStructure, m: SignalMessage, ephemeral: PrivateKey,
                           other: PrivateKey)
    ensures DecryptedWithState(suite, st, m, ephemeral).Ok? ==> DecryptedWithState(suite, st, m, other).Ok?
  {
    hide TakeKey;
  }

  /** Such a failure happens, for any primitives and from any real history: a pre-key message without a
      one-time pre-key, which started a session from one address, delivered again under an address
      not heard from before, fails and leaves the identity saved there. */
  lemma FailureCanSaveIdentity(suite: Suite, s: Stores, address: ProtocolAddress, m: PreKeySignalMessage,
                               ephemeral: nat -> PrivateKey,
                               other: ProtocolAddress, again: nat -> PrivateKey)
    requires PreKeyDecrypted(suite, s, address, m, ephemeral).1.Ok? && m.preKeyId.None?
    requires PromotedMatching(RecordFor(s, address), m.version, m.baseKey).None?
    requires other != address && other !in s.identities && other !in s.sessions
    ensures var after := PreKeyDecrypted(suite, s, address, m, ephemeral).0;
      PreKeyDecrypted(suite, after, other, m, again)
      == (after.(identities := after.identities[other := m.identityKey]), Err(InvalidMessage))
      && other !in after.identities
  {
    hide DecryptedWithState, BobSession, TryPrevious;
    var session := BobSession(suite, BobParametersFor(s, m).value).value
                     .(localRegistrationId := s.registrationId, remoteRegistrationId := m.registrationId);
    DrawnDoesNotMatter(suite, session, m.message, ephemeral(0), again(0));
  }

  /** A concrete history of that kind, under toy primitives: the stores only hold pre-keys at first. */
  lemma FailureAfterFirstContact(address: ProtocolAddress, other: ProtocolAddress)
      returns (s: Stores, m: PreKeySignalMessage, ephemeral: nat -> PrivateKey)
    requires other != address
    ensures s.sessions == map[] && s.identities == map[] && s.baseKeysSeen == map[]
    ensures var first := PreKeyDecrypted(TwoParty.ToySuite(), s, address, m, ephemeral);
      var second := PreKeyDecrypted(TwoParty.ToySuite(), first.0, other, m, ephemeral);
      first.1.Ok? && second.1 == Err(InvalidMessage) && second.0 != first.0
  {
    hide DecryptedWithState, DecryptedWithRecord;
    var suite := TwoParty.ToySuite();
    s := Stores(map[], map[], map[], map[1 := []], map[1 := []], map[], [], 7);
    var signal := SignalMessage(4, [], 0, 0, [], [], [], [1, 1]);
    m := PreKeySignalMessage(4, 8, None, 1, Some(KyberPayload(1, [])), [], [], signal);
    ephemeral := _ => [];
    var processed := PreKeyProcessed(suite, s, address, RecordFor(s, address), m).value;
    ToyDeciphers(processed.0.current.value, signal);
    CurrentDeciphers(suite, processed.0, signal, ephemeral);
    FailureCanSaveIdentity(suite, s, address, m, ephemeral, other, ephemeral);
  }

  lemma CurrentDeciphers(suite: Suite, record: RecordStructure, m: SignalMessage, ephemeral: nat -> PrivateKey)
    requires record.current.Some? && DecryptedWithState(suite, record.current.value, m, ephemeral(0)).Ok?
    ensures DecryptedWithRecord(suite, record, m, true, ephemeral).Ok?
  {
  }

  lemma ToyDeciphers(st: SessionStructure, m: SignalMessage)
    requires st.receiverChains == [] && st.rootKey.Some? && st.remoteIdentity.Some? && st.SessionVersion() == m.version
    requires st.senderChain.Some? && st.senderChain.value.ratchetPrivate == []
    requires m.ratchetKey == [] && m.counter == 0 && m.mac == [1, 1]
    ensures DecryptedWithState(TwoParty.ToySuite(), st, m, []).Ok?
  {
    var suite := TwoParty.ToySuite();
    var (root, chain) := CreateChain(suite, st.rootKey.value, [], []);
    assert suite.agree([], []) == [];
    assert chain == ChainKey([1], 0);
    var ratcheted := RatchetStep(suite, st, [], []).value;
    assert ratcheted.receiverChains == [ReceiverChain([], chain, [])];
    assert chain.MessageKeyOf(suite.hmac).seed == [1, 1];
    assert TakeKey(suite.hmac, ratcheted.receiverChains[0], 0, ratcheted.WithSelf()).Ok?;
  }
}
