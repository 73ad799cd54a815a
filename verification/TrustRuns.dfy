/** Identities over runs of store operations: trust on first use, which bundles are accepted, and where every
    stored session comes from. No law of a primitive is assumed here. */
module TrustRuns {
  import opened Wrappers
  import opened Bytes
  import opened KdfChain
  import opened RatchetKeys
  import opened RatchetInit
  import opened SessionStates
  import opened SessionCipher
  import opened PairwiseStore
  import opened PairwiseProperties

  // ------------------------------------------------------- trust on first use

  /** The operation succeeds. */
  predicate Succeeds(suite: Suite, s: Stores, op: Operation) {
    match op
    case EncryptMessage(address, plaintext, now, pqRandom) =>
      MessageEncrypted(suite, s, address, plaintext, now, pqRandom).Ok?
    case ProcessBundle(address, bundle, now, random) => BundleProcessed(suite, s, address, bundle, now, random).Ok?
    case DecryptSignal(address, m, ephemeral) => SignalDecrypted(suite, s, address, m, ephemeral).Ok?
    case DecryptPreKey(address, m, ephemeral) => PreKeyDecrypted(suite, s, address, m, ephemeral).1.Ok?
  }

  /** The identity key that vouches for a successful operation: that of the bundle or the pre-key message, or
      else that of the session that is current afterwards. */
  function Vouching(suite: Suite, s: Stores, op: Operation): Option<PublicKey> {
    match op
    case ProcessBundle(_, bundle, _, _) => Some(bundle.identityKey)
    case DecryptPreKey(_, m, _) => Some(m.identityKey)
    case _ =>
      var record := RecordFor(Performed(suite, s, op), op.address);
      if record.current.Some? then record.current.value.remoteIdentity else None
  }

  function SavedFor(s: Stores, address: ProtocolAddress): Option<PublicKey> {
    if address in s.identities then Some(s.identities[address]) else None
  }

  /** An operation succeeds only if the identity that vouches for it is the one saved for the address, or none
      is saved yet; then it is saved. */
  lemma SuccessIsTrusted(suite: Suite, s: Stores, op: Operation)
    requires Succeeds(suite, s, op)
    ensures var v := Vouching(suite, s, op);
      v.Some? && (SavedFor(s, op.address).None? || SavedFor(s, op.address) == v)
      && SavedFor(Performed(suite, s, op), op.address) == v
  {
    hide DecryptedWithRecord, PreKeyProcessed, BundleSession, PreKeyDecrypted, SignalDecrypted, MessageEncrypted;
    match op {
      case EncryptMessage(address, plaintext, now, pqRandom) =>
        SendIsTrusted(suite, s, address, plaintext, now, pqRandom);
      case ProcessBundle(_, _, _, _) =>
      case DecryptSignal(address, m, ephemeral) => SignalIsTrusted(suite, s, address, m, ephemeral);
      case DecryptPreKey(address, m, ephemeral) => PreKeyIsTrusted(suite, s, address, m, ephemeral);
    }
  }

  lemma SendIsTrusted(suite: Suite, s: Stores, address: ProtocolAddress, plaintext: Bytes, now: nat, pqRandom: Bytes)
    requires MessageEncrypted(suite, s, address, plaintext, now, pqRandom).Ok?
    ensures var after := MessageEncrypted(suite, s, address, plaintext, now, pqRandom).value.0;
      var current := RecordFor(after, address).current;
      current.Some? && current.value.remoteIdentity.Some? && Trusted(s, address, current.value.remoteIdentity.value)
      && SavedFor(after, address) == current.value.remoteIdentity
  {
  }

  lemma SignalIsTrusted(suite: Suite, s: Stores, address: ProtocolAddress, m: SignalMessage,
                        ephemeral: nat -> PrivateKey)
    requires SignalDecrypted(suite, s, address, m, ephemeral).Ok?
    ensures var after := SignalDecrypted(suite, s, address, m, ephemeral).value.0;
      var current := RecordFor(after, address).current;
      current.Some? && current.value.remoteIdentity.Some? && Trusted(s, address, current.value.remoteIdentity.value)
      && SavedFor(after, address) == current.value.remoteIdentity
  {
    hide DecryptedWithRecord;
  }

  lemma ProcessedIsTrusted(suite: Suite, s: Stores, address: ProtocolAddress, record: RecordStructure,
                           m: PreKeySignalMessage)
    requires PreKeyProcessed(suite, s, address, record, m).Ok?
    ensures Trusted(s, address, m.identityKey)
  {
    hide PromotedMatching, BobParametersFor, BobSession;
  }

  lemma PreKeyIsTrusted(suite: Suite, s: Stores, address: ProtocolAddress, m: PreKeySignalMessage,
                        ephemeral: nat -> PrivateKey)
    requires PreKeyDecrypted(suite, s, address, m, ephemeral).1.Ok?
    ensures Trusted(s, address, m.identityKey)
    ensures SavedFor(PreKeyDecrypted(suite, s, address, m, ephemeral).0, address) == Some(m.identityKey)
  {
    hide DecryptedWithRecord, PreKeyProcessed, Trusted;
    ProcessedIsTrusted(suite, s, address, RecordFor(s, address), m);
  }

  lemma PreKeyKeepsIdentities(suite: Suite, s: Stores, address: ProtocolAddress, m: PreKeySignalMessage,
                              ephemeral: nat -> PrivateKey, other: ProtocolAddress)
    ensures var after := PreKeyDecrypted(suite, s, address, m, ephemeral).0;
      SavedFor(s, other).Some? ==> SavedFor(after, other) == SavedFor(s, other)
  {
    hide DecryptedWithRecord, PreKeyProcessed;
    if PreKeyProcessed(suite, s, address, RecordFor(s, address), m).Ok? {
      ProcessedIsTrusted(suite, s, address, RecordFor(s, address), m);
    }
  }

  /** An identity saved for an address is changed by no operation, of whatever outcome. */
  lemma IdentityStays(suite: Suite, s: Stores, op: Operation, address: ProtocolAddress)
    requires SavedFor(s, address).Some?
    ensures SavedFor(Performed(suite, s, op), address) == SavedFor(s, address)
  {
    hide DecryptedWithRecord, PreKeyProcessed, BundleSession, PreKeyDecrypted, Encrypted;
    if op.DecryptPreKey? {
      PreKeyKeepsIdentities(suite, s, op.address, op.preKeyMessage, op.ephemeral, address);
    }
  }

  /** Trust on first use: over any run of store operations, an identity once saved for an address never
      changes. */
  lemma {:induction false} IdentityNeverChanges(suite: Suite, s: Stores, run: seq<Operation>, i: nat, j: nat,
                                                address: ProtocolAddress)
    requires i <= j <= |run| && SavedFor(PerformedAll(suite, s, run[..i]), address).Some?
    ensures SavedFor(PerformedAll(suite, s, run[..j]), address) == SavedFor(PerformedAll(suite, s, run[..i]), address)
    decreases j
  {
    hide Performed, SavedFor;
    if i < j {
      IdentityNeverChanges(suite, s, run, i, j - 1, address);
      assert run[..j][..j - 1] == run[..j - 1];
      IdentityStays(suite, PerformedAll(suite, s, run[..j - 1]), run[j - 1], address);
    }
  }

  /** So all operations of a run that succeed with one address, whatever they are, are vouched for by one
      identity key: nothing is sent to, received from or started with another. */
  lemma OneIdentity(suite: Suite, s: Stores, run: seq<Operation>, i: nat, j: nat)
    requires i < j < |run| && run[i].address == run[j].address
    requires Succeeds(suite, PerformedAll(suite, s, run[..i]), run[i])
    requires Succeeds(suite, PerformedAll(suite, s, run[..j]), run[j])
    ensures var (first, second) := (Vouching(suite, PerformedAll(suite, s, run[..i]), run[i]),
                                    Vouching(suite, PerformedAll(suite, s, run[..j]), run[j]));
      first.Some? && first == second && SavedFor(PerformedAll(suite, s, run), run[i].address) == first
  {
    hide Performed, SavedFor, Succeeds, Vouching;
    var address := run[i].address;
    SuccessIsTrusted(suite, PerformedAll(suite, s, run[..i]), run[i]);
    SuccessIsTrusted(suite, PerformedAll(suite, s, run[..j]), run[j]);
    assert run[..i + 1][..i] == run[..i] && run[..|run|] == run;
    IdentityNeverChanges(suite, s, run, i + 1, j, address);
    IdentityNeverChanges(suite, s, run, i + 1, |run|, address);
  }

  /** Exactly when a message that the session can send leaves the store: the identity of the session is the one
      saved, or none is. A refusal changes nothing. */
  lemma SendsIff(suite: Suite, s: Stores, address: ProtocolAddress, plaintext: Bytes, now: nat, pqRandom: Bytes)
    ensures var r := MessageEncrypted(suite, s, address, plaintext, now, pqRandom);
      var current := RecordFor(s, address).current;
      if current.None? then r == Err(SessionNotFound)
      else
        match Encrypted(suite, current.value, plaintext, now, pqRandom)
        case Err(e) => r == Err(e)
        case Ok(sent) =>
          current.value.remoteIdentity.Some?
          && (r.Ok? <==> SavedFor(s, address).None? || SavedFor(s, address) == current.value.remoteIdentity)
          && (r.Ok? ==> r.value.1 == sent.1) && (r.Err? ==> r.error == UntrustedIdentity)
    ensures MessageEncrypted(suite, s, address, plaintext, now, pqRandom).Err? ==>
      Performed(suite, s, EncryptMessage(address, plaintext, now, pqRandom)) == s
  {
  }

  // ------------------------------------------------------- which bundles are accepted

  /** Exactly when a bundle is accepted: the identity it names is trusted, and both of its pre-keys are signed
      under that identity, each over its own public key. Otherwise nothing changes. */
  lemma BundleAcceptedIff(suite: Suite, s: Stores, address: ProtocolAddress, bundle: PreKeyBundle, now: nat,
                          random: BundleRandom)
    ensures var r := BundleProcessed(suite, s, address, bundle, now, random);
      var trusted := SavedFor(s, address).None? || SavedFor(s, address) == Some(bundle.identityKey);
      (r.Ok? <==>
         trusted
         && suite.verify(bundle.identityKey, bundle.signedPreKeyPublic, bundle.signedPreKeySignature)
         && suite.verify(bundle.identityKey, bundle.kyberPreKeyPublic, bundle.kyberPreKeySignature))
      && (r.Err? ==> r.error == (if trusted then SignatureValidationFailed else UntrustedIdentity)
                     && Performed(suite, s, ProcessBundle(address, bundle, now, random)) == s)
  {
    hide BundleSession;
  }

  /** Exactly when a pre-key message whose session is not held yet starts one: its identity is trusted, it is of
      the current kind, the pre-keys it names are there, its base key is canonical, and the session
      they make deciphers it, if the base key was not used with them before. */
  lemma StartsIff(suite: Suite, s: Stores, op: Operation)
    requires op.DecryptPreKey?
    requires PromotedMatching(RecordFor(s, op.address), op.preKeyMessage.version, op.preKeyMessage.baseKey).None?
    ensures var m := op.preKeyMessage;
      Succeeds(suite, s, op) <==>
        && (SavedFor(s, op.address).None? || SavedFor(s, op.address) == Some(m.identityKey)) && m.version != 3
        && m.signedPreKeyId in s.signedPreKeys && m.kyber.Some? && m.kyber.value.preKeyId in s.kyberPreKeys
        && (m.preKeyId.Some? ==> m.preKeyId.value in s.preKeys) && suite.isCanonical(m.baseKey)
        && DecryptedWithState(suite, NewBobSession(suite, s, m), m.message, op.ephemeral(0)).Ok?
        && m.baseKey !in SeenWith(s, m.kyber.value.preKeyId, m.signedPreKeyId)
  {
    hide DecryptedWithState, BobSecrets, SeenWith;
  }

  // ------------------------------------------------------- where sessions come from

  function Held(record: RecordStructure): seq<SessionStructure> {
    (if record.current.Some? then [record.current.value] else []) + record.previous
  }

  /** What a session is made with and keeps. */
  predicate SameOrigin(a: SessionStructure, b: SessionStructure) {
    && a.storedVersion == b.storedVersion && a.localIdentity == b.localIdentity && a.remoteIdentity == b.remoteIdentity
    && a.aliceBaseKey == b.aliceBaseKey && a.localRegistrationId == b.localRegistrationId
    && a.remoteRegistrationId == b.remoteRegistrationId
  }

  /** The session goes back to one held before. */
  ghost predicate GoesBack(held: seq<SessionStructure>, t: SessionStructure) {
    exists b :: b in held && SameOrigin(b, t)
  }

  ghost predicate AllGoBack(before: RecordStructure, after: RecordStructure) {
    forall t :: t in Held(after) ==> GoesBack(Held(before), t)
  }

  /** The operation makes the session: from a bundle both of whose pre-keys are signed by the identity that the
      session names as its peer, or from a pre-key message that names it. */
  ghost predicate Makes(suite: Suite, s: Stores, op: Operation, t: SessionStructure) {
    && Succeeds(suite, s, op) && t.localIdentity == suite.publicKey(s.identityPrivate)
    && t.localRegistrationId == s.registrationId && t.storedVersion == 4
    && match op
       case ProcessBundle(_, bundle, _, random) =>
         t.remoteIdentity == Some(bundle.identityKey) && t.aliceBaseKey == suite.publicKey(random.baseKey)
         && t.remoteRegistrationId == bundle.registrationId
         && suite.verify(bundle.identityKey, bundle.signedPreKeyPublic, bundle.signedPreKeySignature)
         && suite.verify(bundle.identityKey, bundle.kyberPreKeyPublic, bundle.kyberPreKeySignature)
       case DecryptPreKey(_, m, _) =>
         t.remoteIdentity == Some(m.identityKey) && t.aliceBaseKey == m.baseKey
         && t.remoteRegistrationId == m.registrationId
       case _ => false
  }

  lemma SameHeld(record: RecordStructure)
    ensures AllGoBack(record, record)
  {
    forall t | t in Held(record)
      ensures GoesBack(Held(record), t)
    {
      assert SameOrigin(t, t);
    }
  }

  /** Making a session current keeps every other it holds. */
  lemma PromotedHolds(record: RecordStructure, session: SessionStructure)
    ensures forall t :: t in Held(Promoted(record, session)) ==> t == session || GoesBack(Held(record), t)
  {
    forall t | t in Held(Promoted(record, session)) && t != session
      ensures GoesBack(Held(record), t)
    {
      if record.current.Some? && t == record.current.value.Acknowledged() {
        assert record.current.value in Held(record) && SameOrigin(record.current.value, t);
      } else {
        assert t in record.previous && SameOrigin(t, t);
      }
    }
  }

  lemma DecryptKeepsOrigin(suite: Suite, st: SessionStructure, m: SignalMessage, ephemeral: PrivateKey)
    requires DecryptedWithState(suite, st, m, ephemeral).Ok?
    ensures SameOrigin(st, DecryptedWithState(suite, st, m, ephemeral).value.0)
  {
    hide TakeKey, CreateChain;
  }

  lemma WithoutHolds(record: RecordStructure, i: nat)
    requires i < |record.previous|
    ensures forall t :: t in Held(record.(previous := Without(record.previous, i))) ==> t in Held(record)
  {
    assert forall t :: t in Without(record.previous, i) ==> t in record.previous;
  }

  /** Decrypting with a record makes no session. */
  lemma RecordGoesBack(suite: Suite, record: RecordStructure, m: SignalMessage, isPreKey: bool,
                       ephemeral: nat -> PrivateKey)
    requires DecryptedWithRecord(suite, record, m, isPreKey, ephemeral).Ok?
    ensures AllGoBack(record, DecryptedWithRecord(suite, record, m, isPreKey, ephemeral).value.0)
  {
    hide DecryptedWithState, TryPrevious, SameOrigin, GoesBack;
    var after := DecryptedWithRecord(suite, record, m, isPreKey, ephemeral).value.0;
    if record.current.Some? && DecryptedWithState(suite, record.current.value, m, ephemeral(0)).Ok? {
      DecryptKeepsOrigin(suite, record.current.value, m, ephemeral(0));
      BackTo(Held(record), record.current.value, after.current.value);
      OthersGoBack(record, after);
    } else {
      var (i, session, plaintext) := TryPrevious(suite, record.previous, m, ephemeral, 0).value;
      SearchYields(suite, record.previous, m, ephemeral, 0);
      DecryptKeepsOrigin(suite, record.previous[i], m, ephemeral(i + 1));
      BackTo(Held(record), record.previous[i], session);
      var rest := record.(previous := Without(record.previous, i));
      WithoutHolds(record, i);
      PromotedHolds(rest, session);
      forall t | t in Held(after)
        ensures GoesBack(Held(record), t)
      {
        if t != session {
          BackFrom(Held(rest), Held(record), t);
        }
      }
    }
  }

  lemma BackTo(held: seq<SessionStructure>, b: SessionStructure, t: SessionStructure)
    requires b in held && SameOrigin(b, t)
    ensures GoesBack(held, t)
  {
  }

  lemma BackFrom(some: seq<SessionStructure>, all: seq<SessionStructure>, t: SessionStructure)
    requires GoesBack(some, t) && forall b :: b in some ==> b in all
    ensures GoesBack(all, t)
  {
  }

  lemma OthersGoBack(record: RecordStructure, after: RecordStructure)
    requires record.current.Some? && after.current.Some? && after == record.(current := after.current)
    requires GoesBack(Held(record), after.current.value)
    ensures AllGoBack(record, after)
  {
    forall t | t in Held(after) && t != after.current.value
      ensures GoesBack(Held(record), t)
    {
      assert t in record.previous;
      BackTo(Held(record), t, t);
    }
  }

  lemma SendGoesBack(suite: Suite, s: Stores, op: Operation)
    requires op.EncryptMessage?
    ensures AllGoBack(RecordFor(s, op.address), RecordFor(Performed(suite, s, op), op.address))
  {
    hide GoesBack, NewSignalMessage;
    var before := RecordFor(s, op.address);
    if MessageEncrypted(suite, s, op.address, op.plaintext, op.now, op.pqRandom).Ok? {
      var after := RecordFor(Performed(suite, s, op), op.address);
      BackTo(Held(before), before.current.value, after.current.value);
      hide MessageEncrypted, Encrypted, Performed;
      OthersGoBack(before, after);
    } else {
      SameHeld(before);
    }
  }

  lemma BundleMakes(suite: Suite, s: Stores, op: Operation)
    requires op.ProcessBundle? && Succeeds(suite, s, op)
    ensures Makes(suite, s, op, BundleSession(suite, s, op.bundle, op.now, op.random))
  {
    hide AliceSecrets;
  }

  lemma PreKeyMakes(suite: Suite, s: Stores, op: Operation)
    requires op.DecryptPreKey? && Succeeds(suite, s, op)
    requires PromotedMatching(RecordFor(s, op.address), op.preKeyMessage.version, op.preKeyMessage.baseKey).None?
    ensures BobParametersFor(s, op.preKeyMessage).Ok?
    ensures BobSession(suite, BobParametersFor(s, op.preKeyMessage).value).Ok?
    ensures Makes(suite, s, op, NewBobSession(suite, s, op.preKeyMessage))
  {
    hide DecryptedWithState, BobSecrets, PromotedMatching, DecryptedWithRecord;
  }

  /** Processing the pre-keys of a message moves sessions about and may add the one it makes. */
  lemma ProcessedHolds(suite: Suite, s: Stores, op: Operation)
    requires op.DecryptPreKey? && Succeeds(suite, s, op)
    ensures var (record, m) := (RecordFor(s, op.address), op.preKeyMessage);
      PreKeyProcessed(suite, s, op.address, record, m).Ok?
      && forall t :: t in Held(PreKeyProcessed(suite, s, op.address, record, m).value.0) ==>
           GoesBack(Held(record), t) || Makes(suite, s, op, t)
  {
    hide BobParametersFor, BobSession, GoesBack, Makes, DecryptedWithRecord, Promoted;
    var (record, m) := (RecordFor(s, op.address), op.preKeyMessage);
    var processed := PreKeyProcessed(suite, s, op.address, record, m).value.0;
    if PromotedMatching(record, m.version, m.baseKey).None? {
      PreKeyMakes(suite, s, op);
      PromotedHolds(record, NewBobSession(suite, s, m));
    } else if record.current.Some? && SameSession(record.current.value, m.version, m.baseKey) {
      SameHeld(record);
    } else {
      var i := FindArchived(record.previous, m.version, m.baseKey).value;
      var rest := record.(previous := Without(record.previous, i));
      WithoutHolds(record, i);
      PromotedHolds(rest, record.previous[i]);
      forall t | t in Held(processed)
        ensures GoesBack(Held(record), t)
      {
        if t == record.previous[i] {
          BackTo(Held(record), t, t);
        } else {
          BackFrom(Held(rest), Held(record), t);
        }
      }
    }
  }

  lemma MakesAlike(suite: Suite, s: Stores, op: Operation, t: SessionStructure, u: SessionStructure)
    requires Makes(suite, s, op, t) && SameOrigin(t, u)
    ensures Makes(suite, s, op, u)
  {
  }

  lemma BackTwice(held: seq<SessionStructure>, b: SessionStructure, t: SessionStructure)
    requires GoesBack(held, b) && SameOrigin(b, t)
    ensures GoesBack(held, t)
  {
    var a :| a in held && SameOrigin(a, b);
    assert SameOrigin(a, t);
  }

  lemma PreKeyHolds(suite: Suite, s: Stores, op: Operation, t: SessionStructure)
    requires op.DecryptPreKey? && Succeeds(suite, s, op) && t in Held(RecordFor(Performed(suite, s, op), op.address))
    ensures GoesBack(Held(RecordFor(s, op.address)), t) || Makes(suite, s, op, t)
  {
    hide PreKeyProcessed, DecryptedWithRecord, Makes, SameOrigin, Held;
    var (record, m) := (RecordFor(s, op.address), op.preKeyMessage);
    ProcessedHolds(suite, s, op);
    var processed := PreKeyProcessed(suite, s, op.address, record, m).value.0;
    RecordGoesBack(suite, processed, m.message, true, op.ephemeral);
    var b :| b in Held(processed) && SameOrigin(b, t);
    if GoesBack(Held(record), b) {
      BackTwice(Held(record), b, t);
    } else {
      MakesAlike(suite, s, op, b, t);
    }
  }

  /** Each session held after an operation goes back to one held before, or the operation made it. */
  lemma OperationMakes(suite: Suite, s: Stores, op: Operation, address: ProtocolAddress, t: SessionStructure)
    requires t in Held(RecordFor(Performed(suite, s, op), address))
    ensures GoesBack(Held(RecordFor(s, address)), t) || (op.address == address && Makes(suite, s, op, t))
  {
    hide MessageEncrypted, BundleProcessed, SignalDecrypted, PreKeyDecrypted, GoesBack, Makes;
    SameHeld(RecordFor(s, address));
    if op.address != address {
      OthersUntouched(suite, s, op, address);
    } else {
      match op {
        case EncryptMessage(_, _, _, _) => SendGoesBack(suite, s, op);
        case ProcessBundle(_, bundle, now, random) => BundleHolds(suite, s, op, t);
        case DecryptSignal(_, m, ephemeral) => SignalHolds(suite, s, op, t);
        case DecryptPreKey(_, m, ephemeral) =>
          if Succeeds(suite, s, op) {
            PreKeyHolds(suite, s, op, t);
          } else {
            FailedKeepsRecord(suite, s, op);
          }
      }
    }
  }

  lemma FailedKeepsRecord(suite: Suite, s: Stores, op: Operation)
    requires op.DecryptPreKey? && !Succeeds(suite, s, op)
    ensures RecordFor(Performed(suite, s, op), op.address) == RecordFor(s, op.address)
  {
    hide PreKeyProcessed, DecryptedWithRecord;
  }

  lemma BundleHolds(suite: Suite, s: Stores, op: Operation, t: SessionStructure)
    requires op.ProcessBundle? && t in Held(RecordFor(Performed(suite, s, op), op.address))
    ensures GoesBack(Held(RecordFor(s, op.address)), t) || Makes(suite, s, op, t)
  {
    hide BundleSession, GoesBack, Makes, Held, Promoted;
    if Succeeds(suite, s, op) {
      BundleMakes(suite, s, op);
      PromotedHolds(RecordFor(s, op.address), BundleSession(suite, s, op.bundle, op.now, op.random));
    } else {
      SameHeld(RecordFor(s, op.address));
    }
  }

  lemma SignalHolds(suite: Suite, s: Stores, op: Operation, t: SessionStructure)
    requires op.DecryptSignal? && t in Held(RecordFor(Performed(suite, s, op), op.address))
    ensures GoesBack(Held(RecordFor(s, op.address)), t)
  {
    hide DecryptedWithRecord, GoesBack, Held;
    if Succeeds(suite, s, op) {
      RecordGoesBack(suite, RecordFor(s, op.address), op.message, false, op.ephemeral);
    } else {
      SameHeld(RecordFor(s, op.address));
    }
  }

  /** Every session is vouched for: over any run from stores without a record of the address, each session held
      for it, current or archived, was made by an operation of the run with that address that
      succeeded, and names the identity, base key and registration id of its bundle, whose pre-keys that
      identity signed, or of its pre-key message. */
  lemma {:induction false} EverySessionIsMade(suite: Suite, s: Stores, run: seq<Operation>, address: ProtocolAddress,
                                              t: SessionStructure) returns (i: nat)
    requires RecordFor(s, address) == RecordStructure(None, [])
             && t in Held(RecordFor(PerformedAll(suite, s, run), address))
    ensures i < |run| && run[i].address == address && Makes(suite, PerformedAll(suite, s, run[..i]), run[i], t)
  {
    hide Performed, Makes, SameOrigin;
    var before, op := run[..|run| - 1], run[|run| - 1];
    var stores := PerformedAll(suite, s, before);
    OperationMakes(suite, stores, op, address, t);
    if op.address == address && Makes(suite, stores, op, t) {
      i := |run| - 1;
    } else {
      var b :| b in Held(RecordFor(stores, address)) && SameOrigin(b, t);
      i := EverySessionIsMade(suite, s, before, address, b);
      assert before[..i] == run[..i];
      MakesAlike(suite, PerformedAll(suite, s, run[..i]), run[i], b, t);
    }
  }

  // ------------------------------------------------------- finding a session, and starting one

  /** A pre-key message finds its session exactly when one held has its version and base key; that session is
      then current, and nothing else is lost but beyond the forty archived. */
  lemma MatchesIff(record: RecordStructure, version: u32, baseKey: PublicKey)
    ensures PromotedMatching(record, version, baseKey).Some?
      <==> exists t :: t in Held(record) && t.aliceBaseKey == baseKey
                       && (if t.storedVersion == 0 then 2 else t.storedVersion) == version
    ensures var matching := PromotedMatching(record, version, baseKey);
      matching.Some? ==>
        matching.value.current.Some? && matching.value.current.value in Held(record)
        && matching.value.current.value.aliceBaseKey == baseKey
        && matching.value.current.value.SessionVersion() == version
  {
    var found := FindArchived(record.previous, version, baseKey);
    if found.Some? {
      assert record.previous[found.value] in Held(record);
    }
    if record.current.Some? {
      assert record.current.value in Held(record);
    }
  }

  /** After a bundle was processed, its session is current, and a message sent to the peer, at any later time as
      far as the session can send, carries the ids, the base key and the ciphertext of the bundle's
      handshake; from thirty days on none is sent. */
  lemma BundleStarts(suite: Suite, s: Stores, address: ProtocolAddress, bundle: PreKeyBundle, started: nat,
                     random: BundleRandom, plaintext: Bytes, now: nat, pqRandom: Bytes)
    requires BundleProcessed(suite, s, address, bundle, started, random).Ok?
    ensures var after := BundleProcessed(suite, s, address, bundle, started, random).value;
      var r := MessageEncrypted(suite, after, address, plaintext, now, pqRandom);
      var st := RecordFor(after, address).current;
      st.Some? && (suite.pqSend(st.value.pqState, pqRandom).None? ==> r == Err(InvalidState))
      && (suite.pqSend(st.value.pqState, pqRandom).Some? ==>
            if now > started + 2_592_000 then r == Err(SessionNotFound)
            else r.Ok? && r.value.1.PreKey?
                 && var m := r.value.1.preKey;
                    m.version == 4 && m.registrationId == s.registrationId
                    && m.preKeyId == bundle.preKeyId && m.signedPreKeyId == bundle.signedPreKeyId
                    && m.kyber == Some(KyberPayload(bundle.kyberPreKeyId,
                                                    suite.encapsulate(bundle.kyberPreKeyPublic, random.kem).1))
                    && m.baseKey == suite.publicKey(random.baseKey)
                    && m.identityKey == suite.publicKey(s.identityPrivate))
  {
    hide BundleSession, Encrypted;
    var after := BundleProcessed(suite, s, address, bundle, started, random).value;
    BundleSessionIs(suite, s, bundle, started, random);
    PendingSends(suite, RecordFor(after, address).current.value, plaintext, now, pqRandom);
  }

  lemma BundleSessionIs(suite: Suite, s: Stores, bundle: PreKeyBundle, started: nat, random: BundleRandom)
    ensures var st := BundleSession(suite, s, bundle, started, random);
      st.senderChain.Some? && st.remoteIdentity == Some(bundle.identityKey) && st.storedVersion == 4
      && st.localIdentity == suite.publicKey(s.identityPrivate) && st.localRegistrationId == s.registrationId
      && st.pendingPreKey
         == Some(PendingPreKey(bundle.preKeyId, bundle.signedPreKeyId, suite.publicKey(random.baseKey), started))
      && st.pendingKyber
         == Some(PendingKyberPreKey(bundle.kyberPreKeyId, suite.encapsulate(bundle.kyberPreKeyPublic, random.kem).1))
  {
    hide AliceSecrets;
  }

  lemma PendingSends(suite: Suite, st: SessionStructure, plaintext: Bytes, now: nat, pqRandom: Bytes)
    requires st.senderChain.Some? && st.remoteIdentity.Some? && st.storedVersion == 4
    requires st.pendingPreKey.Some? && st.pendingKyber.Some?
    ensures var (r, items, kyber) := (Encrypted(suite, st, plaintext, now, pqRandom), st.pendingPreKey.value,
                                      st.pendingKyber.value);
      if suite.pqSend(st.pqState, pqRandom).None? then r == Err(InvalidState)
      else if now > items.timestamp + 2_592_000 then r == Err(SessionNotFound)
      else r.Ok? && r.value.1.PreKey?
           && var m := r.value.1.preKey;
              m.version == 4 && m.registrationId == st.localRegistrationId && m.preKeyId == items.preKeyId
              && m.signedPreKeyId == items.signedPreKeyId && m.baseKey == items.baseKey
              && m.kyber == Some(KyberPayload(kyber.preKeyId, kyber.ciphertext)) && m.identityKey == st.localIdentity
  {
    hide NewSignalMessage;
  }
}
