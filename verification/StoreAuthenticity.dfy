/** What a store accepts is authentic: over any run, whatever an operation decrypts verifies under the message key
    of the position its chain hands out, between the identities of the session that accepts it. */
module StoreAuthenticity {
  import opened Wrappers
  import opened Bytes
  import opened KdfChain
  import opened RatchetKeys
  import opened SessionStates
  import opened SessionCipher
  import opened MessageKeyWindow
  import opened PairwiseStore
  import opened PairwiseProperties
  import opened StoreRuns

  /** In this session, under the message key grown from that seed and the post-quantum key, the message is of the
      session's version, its MAC is right from the peer to the owner, and its body decrypts. */
  predicate Verifies(suite: Suite, st: SessionStructure, m: SignalMessage, seed: Bytes, plaintext: Bytes) {
    && m.version == st.SessionVersion() && st.remoteIdentity.Some?
    && var pq := suite.pqReceive(st.pqState, m.pq);
       pq.Some?
       && var keys := suite.messageKdf(seed, pq.value.1);
          m.mac == suite.mac(keys.macKey, st.remoteIdentity.value, st.localIdentity, m.content)
          && suite.decrypt(m.body, keys.cipherKey, keys.iv) == Some(plaintext)
  }

  lemma FoundVerifies(suite: Suite, st: SessionStructure, m: SignalMessage, ephemeral: PrivateKey, i: nat)
    requires DecryptedWithState(suite, st, m, ephemeral).Ok? && FindReceiver(st.receiverChains, m.ratchetKey) == Some(i)
    ensures var taken := TakeKey(suite.hmac, st.receiverChains[i], m.counter, st.WithSelf());
      taken.Ok? && Verifies(suite, st, m, taken.value.1.seed, DecryptedWithState(suite, st, m, ephemeral).value.1)
  {
    hide TakeKey;
  }

  lemma MadeVerifies(suite: Suite, st: SessionStructure, m: SignalMessage, ephemeral: PrivateKey)
    requires DecryptedWithState(suite, st, m, ephemeral).Ok? && FindReceiver(st.receiverChains, m.ratchetKey).None?
    requires var made := NewReceiver(suite, st, m.ratchetKey);
      FindReceiver(AddReceiver(st.receiverChains, made), m.ratchetKey)
      == Some(|AddReceiver(st.receiverChains, made)| - 1)
    ensures var made := NewReceiver(suite, st, m.ratchetKey);
      var chains := AddReceiver(st.receiverChains, made);
      |chains| > 0 && var taken := TakeKey(suite.hmac, chains[|chains| - 1], m.counter, st.WithSelf());
      taken.Ok? && Verifies(suite, st, m, taken.value.1.seed, DecryptedWithState(suite, st, m, ephemeral).value.1)
  {
    hide TakeKey, AddReceiver;
  }

  lemma TakenKeyIs(hmac: Hmac, chain: ReceiverChain, h: ChainHistory, n: u32, withSelf: bool)
    requires HistoryIs(hmac, chain, h) && TakeKey(hmac, chain, n, withSelf).Ok?
    ensures var taken := Taken(chain, h, n).taken;
      Taken(chain, h, n).seed == h.seed && taken != []
      && TakeKey(hmac, chain, n, withSelf).value.1 == MessageKeyAt(hmac, h.seed, taken[|taken| - 1])
  {
    hide TakeKey, WindowAt, PositionFor, CachedAfter, MessageKeyAt;
    TakeKeyKeepsPositions(hmac, h.seed, chain, n, withSelf, h.cached, h.position, Positions(h.taken));
  }

  /** The message verifies under the key of the last position of the history. */
  ghost predicate VerifiesAtLast(suite: Suite, st: SessionStructure, m: SignalMessage, h: ChainHistory,
                                 plaintext: Bytes) {
    h.taken != [] && Verifies(suite, st, m, MessageKeyAt(suite.hmac, h.seed, h.taken[|h.taken| - 1]).seed, plaintext)
  }

  lemma KnownVerifies(suite: Suite, f: Followed, m: SignalMessage, ephemeral: PrivateKey, i: nat)
    requires WellFollowed(suite.hmac, f) && DecryptedWithState(suite, f.session, m, ephemeral).Ok?
    requires FindReceiver(f.session.receiverChains, m.ratchetKey) == Some(i)
    ensures var h := HistoryFor(AfterDecrypting(suite, f, m, ephemeral), m.ratchetKey);
      h.Some? && VerifiesAtLast(suite, f.session, m, h.value,
                                DecryptedWithState(suite, f.session, m, ephemeral).value.1)
  {
    hide TakeKey, DecryptedWithState, HistoryIs, FindReceiver, Taken, TookOne, Verifies, MessageKeyAt;
    TakenOnFound(suite, f.session, m, ephemeral, i);
    TakeIsFollowed(suite.hmac, f.session.receiverChains, f.chains, i, m.counter, f.session.WithSelf());
    TakenKeyIs(suite.hmac, f.session.receiverChains[i], f.chains[i], m.counter, f.session.WithSelf());
    FoundVerifies(suite, f.session, m, ephemeral, i);
  }

  lemma NewVerifies(suite: Suite, f: Followed, m: SignalMessage, ephemeral: PrivateKey)
    requires WellFollowed(suite.hmac, f) && DecryptedWithState(suite, f.session, m, ephemeral).Ok?
    requires FindReceiver(f.session.receiverChains, m.ratchetKey).None?
    ensures var h := HistoryFor(AfterDecrypting(suite, f, m, ephemeral), m.ratchetKey);
      h.Some? && VerifiesAtLast(suite, f.session, m, h.value,
                                DecryptedWithState(suite, f.session, m, ephemeral).value.1)
  {
    hide TakeKey, DecryptedWithState, ChainsFollowed, AddReceiver, MadeSeed, FindReceiver, Taken, TookOne, HistoryIs,
         Verifies, MessageKeyAt;
    var st, made := f.session, NewReceiver(suite, f.session, m.ratchetKey);
    var chains, histories := AddReceiver(st.receiverChains, made), AddHistory(f.chains, NewHistory(made.chainKey.key));
    AddIsFollowed(suite.hmac, st.receiverChains, f.chains, m.ratchetKey, made.chainKey.key);
    NewChainIsFollowed(suite.hmac, made.chainKey.key, m.ratchetKey);
    SameLengths(suite.hmac, chains, histories);
    SameLengths(suite.hmac, st.receiverChains, f.chains);
    LastAdded(st.receiverChains, f.chains, made, NewHistory(made.chainKey.key),
              Taken(made, NewHistory(made.chainKey.key), m.counter));
    TakenOnMade(suite, st, m, ephemeral, chains);
    TakeIsFollowed(suite.hmac, chains, histories, |chains| - 1, m.counter, st.WithSelf());
    TakenKeyIs(suite.hmac, made, NewHistory(made.chainKey.key), m.counter, st.WithSelf());
    MadeVerifies(suite, st, m, ephemeral);
  }

  /** A session decrypts only what verifies under the key of the position it hands out. */
  lemma DecryptVerifies(suite: Suite, f: Followed, m: SignalMessage, ephemeral: PrivateKey)
    requires WellFollowed(suite.hmac, f) && DecryptedWithState(suite, f.session, m, ephemeral).Ok?
    ensures var h := HistoryFor(AfterDecrypting(suite, f, m, ephemeral), m.ratchetKey);
      h.Some? && VerifiesAtLast(suite, f.session, m, h.value,
                                DecryptedWithState(suite, f.session, m, ephemeral).value.1)
  {
    hide DecryptedWithState, ChainsFollowed, AfterDecrypting, VerifiesAtLast;
    match FindReceiver(f.session.receiverChains, m.ratchetKey) {
      case Some(i) => KnownVerifies(suite, f, m, ephemeral, i);
      case None => NewVerifies(suite, f, m, ephemeral);
    }
  }

  /** What an operation that decrypts received and returned. */
  function Given(suite: Suite, s: Stores, op: Operation): Option<(SignalMessage, Bytes)> {
    match op
    case DecryptSignal(address, m, ephemeral) =>
      (match SignalDecrypted(suite, s, address, m, ephemeral)
       case Ok(p) => Some((m, p.1))
       case Err(_) => None)
    case DecryptPreKey(address, m, ephemeral) =>
      (match PreKeyDecrypted(suite, s, address, m, ephemeral).1
       case Ok(plaintext) => Some((m.message, plaintext))
       case Err(_) => None)
    case _ => None
  }

  /** Version and identities of a session stay. */
  predicate SameParties(a: SessionStructure, b: SessionStructure) {
    a.localIdentity == b.localIdentity && a.remoteIdentity == b.remoteIdentity && a.storedVersion == b.storedVersion
  }

  lemma DecryptKeepsParties(suite: Suite, st: SessionStructure, m: SignalMessage, ephemeral: PrivateKey)
    requires DecryptedWithState(suite, st, m, ephemeral).Ok?
    ensures SameParties(st, DecryptedWithState(suite, st, m, ephemeral).value.0)
  {
    hide TakeKey, CreateChain;
  }

  lemma SessionAfter(suite: Suite, f: Followed, m: SignalMessage, ephemeral: PrivateKey)
    requires DecryptedWithState(suite, f.session, m, ephemeral).Ok?
    ensures AfterDecrypting(suite, f, m, ephemeral).session ==
              DecryptedWithState(suite, f.session, m, ephemeral).value.0
  {
    hide DecryptedWithState;
  }

  lemma DecryptorVerifies(suite: Suite, r: FollowedRecord, after: FollowedRecord, m: SignalMessage, f: Followed,
                          drawn: PrivateKey, next: nat)
    requires WellRecorded(suite.hmac, r, next) && WellRecorded(suite.hmac, after, next)
    requires DecryptedBy(suite, r, after, m, f, drawn)
    ensures DecryptedWithState(suite, f.session, m, drawn).Ok? && after.current.Some?
    ensures SameParties(f.session, after.current.value.session)
    ensures var h := HistoryOf(after, after.current.value.id, m.ratchetKey);
      h.Some? && VerifiesAtLast(suite, f.session, m, h.value, DecryptedWithState(suite, f.session, m, drawn).value.1)
  {
    hide WellFollowed, DecryptedWithState, AfterDecrypting, FindId, FindReceiver, Rearranged, VerifiesAtLast,
         SameParties;
    DecryptKeepsParties(suite, f.session, m, drawn);
    SessionAfter(suite, f, m, drawn);
    HeldIsFollowed(suite.hmac, r, f, next);
    DecryptVerifies(suite, f, m, drawn);
    assert after.current.value == All(after)[0];
    FindsHeld(suite.hmac, after, next, after.current.value);
    CurrentHistory(after, m.ratchetKey, after.current.value.id);
  }

  /** Any operation, on any message: if it decrypts, the message and the plaintext returned verify under the key of
      the position that the history of the chain records last, in the session as it was before. */
  lemma AcceptedIsAuthentic(suite: Suite, s: Stores, r: FollowedRecord, op: Operation, peer: ProtocolAddress, next: nat)
      returns (st: SessionStructure)
    requires WellRecorded(suite.hmac, r, next) && Plain(r) == RecordFor(s, peer)
    requires op.address == peer && Given(suite, s, op).Some?
    ensures var (m, plaintext) := Given(suite, s, op).value;
      var after := Follow(suite, s, r, op, peer, next);
      after.current.Some? && SameParties(st, after.current.value.session)
      && var h := HistoryOf(after, after.current.value.id, m.ratchetKey);
         h.Some? && VerifiesAtLast(suite, st, m, h.value, plaintext)
  {
    hide WellRecorded, DecryptedBy, Follow, SignalDecrypted, PreKeyDecrypted, DecryptedWithState, VerifiesAtLast,
         HistoryOf, Rearranged, SameParties;
    var after := Follow(suite, s, r, op, peer, next);
    match op {
      case DecryptSignal(_, m, _) =>
        MoreNames(suite.hmac, r, next);
        var f, drawn := SignalStep(suite, s, r, op, peer, next);
        DecryptorVerifies(suite, r, after, m, f, drawn, next + 1);
        st := f.session;
      case DecryptPreKey(_, m, _) =>
        var between, added, f, drawn := PreKeyStep(suite, s, r, op, peer, next);
        DecryptorVerifies(suite, between, after, m.message, f, drawn, next + 1);
        st := f.session;
    }
  }

  /** And so at every point of every run. */
  lemma RunsAcceptAuthentic(suite: Suite, s: Stores, r: FollowedRecord, run: seq<Operation>, peer: ProtocolAddress,
                            next: nat, i: nat) returns (st: SessionStructure)
    requires WellRecorded(suite.hmac, r, next) && Plain(r) == RecordFor(s, peer)
    requires i < |run| && run[i].address == peer && Given(suite, PerformedAll(suite, s, run[..i]), run[i]).Some?
    ensures var (m, plaintext) := Given(suite, PerformedAll(suite, s, run[..i]), run[i]).value;
      var after := Track(suite, s, r, run[..i + 1], peer, next);
      after.current.Some? && SameParties(st, after.current.value.session)
      && var h := HistoryOf(after, after.current.value.id, m.ratchetKey);
         h.Some? && VerifiesAtLast(suite, st, m, h.value, plaintext)
  {
    hide WellRecorded, Follow, Given, HistoryOf, VerifiesAtLast, Performed, SameParties;
    RunsKeepWindows(suite, s, r, run[..i], peer, next);
    assert run[..i + 1][..i] == run[..i];
    st := AcceptedIsAuthentic(suite, PerformedAll(suite, s, run[..i]), Track(suite, s, r, run[..i], peer, next),
                              run[i], peer,
                              next + i);
  }
}
