/** Two stores that talk to each other through the store operations. Whatever they send, and whatever the
    network loses, repeats and reorders, they hold the two parties of TwoParty, so that what is
    proved of the parties is proved of the stores. */
module TwoStores {
  import opened Wrappers
  import opened Bytes
  import opened RatchetKeys
  import opened RatchetInit
  import opened SessionStates
  import opened SessionCipher
  import opened RatchetAgreement
  import opened PairwiseStore
  import FirstContact
  import TwoParty

  /** A message on the network, of either kind, and what was put in. */
  datatype Posted = Posted(byAlice: bool, plaintext: Bytes, message: CiphertextMessage)

  /** Both stores, each with the address it knows the other under, and everything ever posted. */
  datatype Pair = Pair(alice: Stores, toBob: ProtocolAddress, bob: Stores, toAlice: ProtocolAddress, net: seq<Posted>)
  {
    function Of(isAlice: bool): Stores { if isAlice then alice else bob }
    function PeerOf(isAlice: bool): ProtocolAddress { if isAlice then toBob else toAlice }
    function With(isAlice: bool, s: Stores): Pair { if isAlice then this.(alice := s) else this.(bob := s) }
  }

  function Always(key: PrivateKey): nat -> PrivateKey { _ => key }

  /** A store receives a message of either kind. */
  function Received(suite: Suite, s: Stores, peer: ProtocolAddress, message: CiphertextMessage, ephemeral: PrivateKey)
    : (Stores, Result<Bytes>)
  {
    match message
    case Whisper(m) =>
      (match SignalDecrypted(suite, s, peer, m, Always(ephemeral))
       case Ok(p) => (p.0, Ok(p.1))
       case Err(e) => (s, Err(e)))
    case PreKey(m) => PreKeyDecrypted(suite, s, peer, m, Always(ephemeral))
  }

  function Step(suite: Suite, p: Pair, e: TwoParty.Event): Pair {
    match e
    case Send(byAlice, plaintext, now, pqRandom) =>
      (match MessageEncrypted(suite, p.Of(byAlice), p.PeerOf(byAlice), plaintext, now, pqRandom)
       case Ok(sent) => p.With(byAlice, sent.0).(net := p.net + [Posted(byAlice, plaintext, sent.1)])
       case Err(_) => p)
    case Deliver(toAlice, index, ephemeral) =>
      if index < |p.net| && p.net[index].byAlice != toAlice then
        p.With(toAlice, Received(suite, p.Of(toAlice), p.PeerOf(toAlice), p.net[index].message, ephemeral).0)
      else p
  }

  function After(suite: Suite, p: Pair, run: seq<TwoParty.Event>): Pair {
    if run == [] then p else Step(suite, After(suite, p, run[..|run| - 1]), run[|run| - 1])
  }

  // ------------------------------------------------------- stores and parties

  /** The store holds this one session with the peer, whose identity it trusts. */
  predicate Holds(s: Stores, peer: ProtocolAddress, st: SessionStructure) {
    && peer in s.sessions && s.sessions[peer] == RecordStructure(Some(st), [])
    && st.remoteIdentity.Some? && Trusted(s, peer, st.remoteIdentity.value)
  }

  /** The session knows the other by its identity, and the header it still sends names the other's session. */
  predicate Knows(st: SessionStructure, other: SessionStructure) {
    && st.remoteIdentity == Some(other.localIdentity)
    && (st.pendingPreKey.Some? ==> SameSession(other, st.SessionVersion(), st.pendingPreKey.value.baseKey))
  }

  /** The header, if there is one, names the session that is to receive the message. */
  predicate HeaderNames(message: CiphertextMessage, st: SessionStructure) {
    message.PreKey? ==>
      SameSession(st, message.preKey.version, message.preKey.baseKey)
      && st.remoteIdentity == Some(message.preKey.identityKey)
  }

  predicate PostedAs(posted: Posted, s: Sent, w: TwoParty.World) {
    && posted.byAlice == TwoParty.SentBy(s, true) && posted.plaintext == s.plaintext
    && Signal(posted.message) == s.message
    && HeaderNames(posted.message, w.Session(!posted.byAlice))
  }

  /** The stores hold the parties of the world, and the network what they sent. */
  ghost predicate Linked(p: Pair, w: TwoParty.World) {
    && Holds(p.alice, p.toBob, w.alice) && Holds(p.bob, p.toAlice, w.bob)
    && Knows(w.alice, w.bob) && Knows(w.bob, w.alice) && w.aliceTop % 2 == 1 && w.bobTop % 2 == 0
    && |p.net| == |w.sent| && forall i :: 0 <= i < |p.net| ==> PostedAs(p.net[i], w.sent[i], w)
  }

  /** What a session is known by stays; what it announces is announced until it is acknowledged. */
  predicate SameName(st: SessionStructure, after: SessionStructure) {
    && after.storedVersion == st.storedVersion && after.aliceBaseKey == st.aliceBaseKey
    && after.localIdentity == st.localIdentity && after.remoteIdentity == st.remoteIdentity
    && (after.pendingPreKey == st.pendingPreKey || after.pendingPreKey.None?)
  }

  /** Sending from a store that holds a session is the session's sending. */
  lemma SendsAlike(suite: Suite, s: Stores, peer: ProtocolAddress, st: SessionStructure, other: SessionStructure,
                   plaintext: Bytes, now: nat, pqRandom: Bytes)
    requires Holds(s, peer, st) && Knows(st, other) && other.remoteIdentity == Some(st.localIdentity)
    ensures match Encrypted(suite, st, plaintext, now, pqRandom)
      case Err(e) => MessageEncrypted(suite, s, peer, plaintext, now, pqRandom) == Err(e)
      case Ok(q) =>
        var sent := MessageEncrypted(suite, s, peer, plaintext, now, pqRandom);
        sent.Ok? && sent.value.1 == q.1 && Holds(sent.value.0, peer, q.0) && SameName(st, q.0)
        && HeaderNames(q.1, other)
  {
  }

  lemma DecryptKeepsName(suite: Suite, st: SessionStructure, m: SignalMessage, ephemeral: PrivateKey)
    requires DecryptedWithState(suite, st, m, ephemeral).Ok?
    ensures SameName(st, DecryptedWithState(suite, st, m, ephemeral).value.0)
  {
    hide TakeKey, CreateChain;
  }

  /** Receiving at a store that holds a session is the session's receiving, with a header or without. */
  lemma ReceivesAlike(suite: Suite, s: Stores, peer: ProtocolAddress, st: SessionStructure, message: CiphertextMessage,
                      ephemeral: PrivateKey)
    requires Holds(s, peer, st) && HeaderNames(message, st)
    ensures var (after, r) := Received(suite, s, peer, message, ephemeral);
      match DecryptedWithState(suite, st, Signal(message), ephemeral)
      case Err(_) => r.Err? && after == s
      case Ok(q) => r == Ok(q.1) && Holds(after, peer, q.0) && SameName(st, q.0)
  {
    hide DecryptedWithState, BobParametersFor, BobSession, FindArchived;
    if DecryptedWithState(suite, st, Signal(message), ephemeral).Ok? {
      DecryptKeepsName(suite, st, Signal(message), ephemeral);
    }
  }

  lemma RenamedIsKnown(st: SessionStructure, after: SessionStructure, other: SessionStructure)
    requires Knows(st, other) && Knows(other, st) && SameName(st, after)
    ensures Knows(after, other) && Knows(other, after)
  {
  }

  lemma SendStaysLinked(suite: Suite, p: Pair, w: TwoParty.World, e: TwoParty.Event)
    requires Linked(p, w) && e.Send?
    ensures Linked(Step(suite, p, e), TwoParty.Step(suite, w, e))
  {
    hide Encrypted, MessageEncrypted, Holds, Knows, SameName, HeaderNames;
    var st, other := w.Session(e.byAlice), w.Session(!e.byAlice);
    KnownIdentity(other, st);
    SendsAlike(suite, p.Of(e.byAlice), p.PeerOf(e.byAlice), st, other, e.plaintext, e.now, e.pqRandom);
    var r := Encrypted(suite, st, e.plaintext, e.now, e.pqRandom);
    if r.Ok? {
      RenamedIsKnown(st, r.value.0, other);
      EncryptsOnChain(suite, st, e.plaintext, e.now, e.pqRandom);
      var (q, later) := (Step(suite, p, e), TwoParty.Step(suite, w, e));
      forall i | 0 <= i < |q.net|
        ensures PostedAs(q.net[i], later.sent[i], later)
      {
        if i < |p.net| {
          StillNamed(p.net[i].message, w.Session(!p.net[i].byAlice), later.Session(!p.net[i].byAlice));
        }
      }
    }
  }

  lemma KnownIdentity(st: SessionStructure, other: SessionStructure)
    requires Knows(st, other)
    ensures st.remoteIdentity == Some(other.localIdentity)
  {
  }

  lemma EncryptsOnChain(suite: Suite, st: SessionStructure, plaintext: Bytes, now: nat, pqRandom: Bytes)
    requires Encrypted(suite, st, plaintext, now, pqRandom).Ok?
    ensures st.senderChain.Some? && suite.pqSend(st.pqState, pqRandom).Some?
  {
  }

  lemma StillNamed(message: CiphertextMessage, st: SessionStructure, after: SessionStructure)
    requires HeaderNames(message, st) && (after == st || SameName(st, after))
    ensures HeaderNames(message, after)
  {
  }

  lemma DeliverStaysLinked(suite: Suite, p: Pair, w: TwoParty.World, e: TwoParty.Event)
    requires Linked(p, w) && e.Deliver?
    ensures Linked(Step(suite, p, e), TwoParty.Step(suite, w, e))
  {
    hide DecryptedWithState, Received, Holds, Knows, SameName, HeaderNames;
    if e.index < |p.net| {
      assert PostedAs(p.net[e.index], w.sent[e.index], w);
      if p.net[e.index].byAlice != e.toAlice {
        var st := w.Session(e.toAlice);
        ReceivesAlike(suite, p.Of(e.toAlice), p.PeerOf(e.toAlice), st, p.net[e.index].message, e.ephemeral);
        var r := DecryptedWithState(suite, st, w.sent[e.index].message, e.ephemeral);
        if r.Ok? {
          RenamedIsKnown(st, r.value.0, w.Session(!e.toAlice));
          var later := TwoParty.Step(suite, w, e);
          forall i | 0 <= i < |p.net|
            ensures PostedAs(p.net[i], later.sent[i], later)
          {
            StillNamed(p.net[i].message, w.Session(!p.net[i].byAlice), later.Session(!p.net[i].byAlice));
          }
        }
      }
    }
  }

  /** Two stores that hold two parties hold them through any run: each store operation does to its session
      what the party does, headers included, and returns the same. No law is assumed. */
  lemma {:induction false} StaysLinked(suite: Suite, p: Pair, w: TwoParty.World, run: seq<TwoParty.Event>)
    requires Linked(p, w)
    ensures Linked(After(suite, p, run), TwoParty.After(suite, w, run))
  {
    hide Linked, Step, TwoParty.Step;
    if run != [] {
      var before, e := run[..|run| - 1], run[|run| - 1];
      StaysLinked(suite, p, w, before);
      if e.Send? {
        SendStaysLinked(suite, After(suite, p, before), TwoParty.After(suite, w, before), e);
      } else {
        DeliverStaysLinked(suite, After(suite, p, before), TwoParty.After(suite, w, before), e);
      }
    }
  }

  /** Two stores agree: after any run, a message posted by one and delivered to the other, with a header or
      without, comes out as it was put in where it is readable and the post-quantum ratchets agree;
      and what comes out at all is that, or one of the coincidences of the parties. */
  lemma StoresDeliverWhatWasSent(setup: Setup, p: Pair, w: TwoParty.World, run: seq<TwoParty.Event>, toAlice: bool,
                                 index: nat,
                                 ephemeral: PrivateKey)
    requires Lawful(setup.suite) && TwoParty.WorldInv(setup, w) && Linked(p, w)
             && TwoParty.AllowedRun(setup.suite, w, run)
    requires var q := After(setup.suite, p, run);
      index < |q.net| && q.net[index].byAlice != toAlice
    requires DistinctPublic(setup.suite, TwoParty.After(setup.suite, w, run).keys + [ephemeral])
    ensures var (q, later) := (After(setup.suite, p, run), TwoParty.After(setup.suite, w, run));
      var r := Received(setup.suite, q.Of(toAlice), q.PeerOf(toAlice), q.net[index].message, ephemeral).1;
      |q.net| == |later.sent| && q.net[index].plaintext == later.sent[index].plaintext
      && (TwoParty.CoincidenceIn(setup, w, run)
          || TwoParty.DeliversRightly(setup, later, toAlice, index, ephemeral, r))
  {
    hide Lawful, TwoParty.WorldInv, TwoParty.CoincidenceIn, DistinctPublic, DecryptedWithState, Received, Holds, Knows,
         HeaderNames,
         Readable, PqAgrees, OtherKeyVerifies, TwoParty.Coincidence, ChainCount;
    StaysLinked(setup.suite, p, w, run);
    TwoParty.RunKeepsInv(setup, w, run);
    var (q, later) := (After(setup.suite, p, run), TwoParty.After(setup.suite, w, run));
    assert PostedAs(q.net[index], later.sent[index], later);
    if TwoParty.WorldInv(setup, later) {
      TwoParty.DeliversInStep(setup, later, toAlice, index, ephemeral);
      ReceivesAlike(setup.suite, q.Of(toAlice), q.PeerOf(toAlice), later.Session(toAlice), q.net[index].message,
                    ephemeral);
    }
  }

  // ------------------------------------------------------- from first contact on

  lemma BundleHolds(suite: Suite, s: Stores, peer: ProtocolAddress, bundle: PreKeyBundle, now: nat,
                    random: BundleRandom)
    requires RecordFor(s, peer) == RecordStructure(None, []) && BundleProcessed(suite, s, peer, bundle, now, random).Ok?
    ensures Holds(BundleProcessed(suite, s, peer, bundle, now, random).value, peer,
                  BundleSession(suite, s, bundle, now, random))
  {
    hide AliceSecrets;
  }

  lemma OnlySession(suite: Suite, s: Stores, peer: ProtocolAddress, m: PreKeySignalMessage,
                    ephemeral: nat -> PrivateKey)
    requires RecordFor(s, peer) == RecordStructure(None, []) && PreKeyDecrypted(suite, s, peer, m, ephemeral).1.Ok?
    ensures var after := PreKeyDecrypted(suite, s, peer, m, ephemeral).0;
      peer in after.sessions && after.sessions[peer].previous == [] && Trusted(after, peer, m.identityKey)
  {
    hide DecryptedWithState, BobParametersFor, BobSession;
  }

  /** The sessions of a handshake know each other. */
  lemma MetKnow(suite: Suite, alice: Stores, bob: Stores, bundle: PreKeyBundle, now: nat, random: BundleRandom,
                m: PreKeySignalMessage)
    requires FirstContact.Publishes(suite, bob, bundle) && FirstContact.Introduces(suite, alice, bundle, random, m)
    requires BobParametersFor(bob, m).Ok? && BobSession(suite, BobParametersFor(bob, m).value).Ok?
    ensures var w := FirstContact.Met(suite, alice, bob, bundle, now, random, m);
      w.alice == BundleSession(suite, alice, bundle, now, random) && w.sent == [] && w.aliceTop == 1 && w.bobTop == 0
      && Knows(w.alice, w.bob) && Knows(w.bob, w.alice) && w.bob.remoteIdentity == Some(m.identityKey)
  {
    hide AliceSecrets, BobSecrets;
  }

  /** The first exchange of the world: Alice's send and its delivery. */
  lemma FirstExchange(suite: Suite, met: TwoParty.World, plaintext: Bytes, now: nat, pqRandom: Bytes,
                      ephemeral: PrivateKey, message: CiphertextMessage)
    requires met.sent == [] && met.aliceTop == 1 && met.bobTop == 0 && Knows(met.alice, met.bob)
             && Knows(met.bob, met.alice)
    requires var r := Encrypted(suite, met.alice, plaintext, now, pqRandom);
      r.Ok? && SameName(met.alice, r.value.0) && r.value.1 == message && HeaderNames(message, met.bob)
    ensures var w := TwoParty.Step(suite, TwoParty.Step(suite, met, TwoParty.Send(true, plaintext, now, pqRandom)),
                                   TwoParty.Deliver(false, 0, ephemeral));
      w.alice == Encrypted(suite, met.alice, plaintext, now, pqRandom).value.0 && SameName(met.bob, w.bob)
      && Knows(w.alice, w.bob) && Knows(w.bob, w.alice) && w.aliceTop % 2 == 1 && w.bobTop % 2 == 0
      && |w.sent| == 1 && PostedAs(Posted(true, plaintext, message), w.sent[0], w)
  {
    hide Encrypted, DecryptedWithState, Knows, HeaderNames, SameName;
    EncryptsOnChain(suite, met.alice, plaintext, now, pqRandom);
    var sender := Encrypted(suite, met.alice, plaintext, now, pqRandom).value.0;
    RenamedIsKnown(met.alice, sender, met.bob);
    SameNameAsItself(met.bob);
    var r := DecryptedWithState(suite, met.bob, Signal(message), ephemeral);
    if r.Ok? {
      DecryptKeepsName(suite, met.bob, Signal(message), ephemeral);
      RenamedIsKnown(met.bob, r.value.0, sender);
      StillNamed(message, met.bob, r.value.0);
    }
  }

  lemma SameNameAsItself(st: SessionStructure)
    ensures SameName(st, st)
  {
  }

  /** After first contact between stores without a record of each other, the stores hold two parties in step:
      StoresDeliverWhatWasSent applies from there on. */
  lemma FirstContactLinks(suite: Suite, alice: Stores, bob: Stores, toBob: ProtocolAddress, toAlice: ProtocolAddress,
                          bundle: PreKeyBundle, started: nat, random: BundleRandom, plaintext: Bytes, now: nat,
                              pqRandom: Bytes,
                          ephemeral: PrivateKey) returns (setup: Setup, w: TwoParty.World)
    requires Lawful(suite) && FirstContact.Publishes(suite, bob, bundle)
    requires bundle.kyberPreKeyId in bob.kyberPreKeys
             && Decapsulates(suite, bob.kyberPreKeys[bundle.kyberPreKeyId], random.kem)
    requires FirstContact.PqMeets(suite, FirstContact.FirstPqKey(suite, alice, bundle, random),
                                  suite.publicKey(alice.identityPrivate) == bundle.identityKey, pqRandom)
    requires BundleProcessed(suite, alice, toBob, bundle, started, random).Ok?
    requires MessageEncrypted(suite, BundleProcessed(suite, alice, toBob, bundle, started, random).value, toBob,
                              plaintext, now, pqRandom).Ok?
    requires Trusted(bob, toAlice, suite.publicKey(alice.identityPrivate))
             && suite.isCanonical(suite.publicKey(random.baseKey))
    requires RecordFor(alice, toBob) == RecordStructure(None, []) == RecordFor(bob, toAlice)
    requires suite.publicKey(random.baseKey) !in SeenWith(bob, bundle.kyberPreKeyId, bundle.signedPreKeyId)
    requires bundle.signedPreKeyId in bob.signedPreKeys
    requires DistinctPublic(suite, [bob.signedPreKeys[bundle.signedPreKeyId], random.ratchetKey, ephemeral])
    ensures var sent := MessageEncrypted(suite, BundleProcessed(suite, alice, toBob, bundle, started, random).value,
                                         toBob, plaintext, now, pqRandom).value;
      var received := Received(suite, bob, toAlice, sent.1, ephemeral);
      received.1 == Ok(plaintext) && setup.suite == suite && TwoParty.WorldInv(setup, w)
      && Linked(Pair(sent.0, toBob, received.0, toAlice, [Posted(true, plaintext, sent.1)]), w)
  {
    hide Lawful, TwoParty.WorldInv, FirstContact.Publishes, Decapsulates, FirstContact.PqMeets,
         FirstContact.FirstPqKey, DistinctPublic,
         BundleProcessed, MessageEncrypted, PreKeyDecrypted, FirstContact.Introduces, BobParametersFor, BobSession,
             FirstContact.Met,
         TwoParty.Step, Encrypted, BundleSession, Knows, HeaderNames;
    setup, w := FirstContact.FirstMessageArrives(suite, alice, bob, toBob, toAlice, bundle, started, random, plaintext,
                                                 now, pqRandom,
                                                 Always(ephemeral));
    FirstContact.FirstHeader(suite, alice, bundle, started, random, toBob, plaintext, now, pqRandom);
    var ready := BundleProcessed(suite, alice, toBob, bundle, started, random).value;
    var sent := MessageEncrypted(suite, ready, toBob, plaintext, now, pqRandom).value;
    var met := FirstContact.Met(suite, alice, bob, bundle, started, random, sent.1.preKey);
    MetKnow(suite, alice, bob, bundle, started, random, sent.1.preKey);
    BundleHolds(suite, alice, toBob, bundle, started, random);
    KnownIdentity(met.bob, met.alice);
    SendsAlike(suite, ready, toBob, met.alice, met.bob, plaintext, now, pqRandom);
    FirstExchange(suite, met, plaintext, now, pqRandom, ephemeral, sent.1);
    OnlySession(suite, bob, toAlice, sent.1.preKey, Always(ephemeral));
  }
}
