/** Runs of two parties with one session each: any interleaving of sends and deliveries over a
    network that keeps every message ever sent, so messages may be lost, repeated and
    reordered. */
module TwoParty {
  import opened Wrappers
  import opened Bytes
  import opened KdfChain
  import opened RatchetKeys
  import opened SessionStates
  import opened SessionCipher
  import opened MessageKeyWindow
  import opened RatchetInit
  import opened RatchetAgreement

  /** Both sessions, the number of the ratchet key each party owns, all ratchet private keys drawn,
      all messages sent, and which (chain, position) their recipient accepted. */
  datatype World = World(alice: SessionStructure, aliceTop: nat, bob: SessionStructure, bobTop: nat,
                         keys: seq<PrivateKey>, sent: seq<Sent>, accepted: set<(nat, int)>)
  {
    function Session(isAlice: bool): SessionStructure { if isAlice then alice else bob }
    function Top(isAlice: bool): nat { if isAlice then aliceTop else bobTop }
    function With(isAlice: bool, session: SessionStructure, top: nat): World {
      if isAlice then this.(alice := session, aliceTop := top) else this.(bob := session, bobTop := top)
    }
  }

  datatype Event =
    | Send(byAlice: bool, plaintext: Bytes, now: nat, pqRandom: Bytes)
    | Deliver(toAlice: bool, index: nat, ephemeral: PrivateKey)

  /** Alice owns the odd chains. */
  predicate SentBy(s: Sent, isAlice: bool) { (s.chain % 2 == 1) == isAlice }

  /** What a party does; a send or a delivery that fails changes nothing. */
  function Step(suite: Suite, w: World, e: Event): World {
    match e
    case Send(byAlice, plaintext, now, pqRandom) =>
      var st := w.Session(byAlice);
      (match Encrypted(suite, st, plaintext, now, pqRandom)
       case Err(_) => w
       case Ok(p) =>
         var s := Sent(w.Top(byAlice), st.senderChain.value.chainKey.index, plaintext,
                       suite.pqSend(st.pqState, pqRandom).value.2, Signal(p.1));
         w.With(byAlice, p.0, w.Top(byAlice)).(sent := w.sent + [s]))
    case Deliver(toAlice, index, ephemeral) =>
      if index < |w.sent| && SentBy(w.sent[index], !toAlice) then
        var (s, m) := (w.sent[index], w.Top(toAlice));
        match DecryptedWithState(suite, w.Session(toAlice), s.message, ephemeral)
        case Err(_) => w
        case Ok(p) =>
          w.With(toAlice, p.0, TopAfter(m, s.chain))
           .(keys := KeysAfter(w.keys, m, s.chain, ephemeral), accepted := w.accepted + {(s.chain, s.position as int)})
      else w
  }

  /** A chain's 32-bit counter is not exhausted, and a key drawn for a new chain is new. */
  ghost predicate Allowed(suite: Suite, w: World, e: Event) {
    match e
    case Send(byAlice, _, _, _) =>
      w.Session(byAlice).senderChain.Some? ==> w.Session(byAlice).senderChain.value.chainKey.index < U32_MAX
    case Deliver(_, _, ephemeral) => DistinctPublic(suite, w.keys + [ephemeral])
  }

  function After(suite: Suite, w: World, run: seq<Event>): World {
    if run == [] then w else Step(suite, After(suite, w, run[..|run| - 1]), run[|run| - 1])
  }

  ghost predicate AllowedRun(suite: Suite, w: World, run: seq<Event>) {
    forall i :: 0 <= i < |run| ==> Allowed(suite, After(suite, w, run[..i]), run[i])
  }

  // ------------------------------------------------------- the invariant

  ghost predicate TopsInv(w: World) {
    && w.aliceTop % 2 == 1 && w.bobTop % 2 == 0
    && (w.aliceTop == w.bobTop + 1 || w.bobTop == w.aliceTop + 1)
    && |w.keys| == (if w.aliceTop < w.bobTop then w.bobTop else w.aliceTop) + 1
  }

  ghost predicate SentInv(setup: Setup, w: World) {
    && (forall i :: 0 <= i < |w.sent| ==>
          Honest(setup, w.keys, w.sent[i]) && w.sent[i].chain <= w.Top(w.sent[i].chain % 2 == 1))
    && (forall i, j :: 0 <= i < j < |w.sent| ==>
          w.sent[i].chain != w.sent[j].chain || w.sent[i].position != w.sent[j].position)
  }

  /** Positions of the chain a party sends on are below its counter. */
  ghost predicate CounterInv(w: World, isAlice: bool) {
    w.Session(isAlice).senderChain.Some?
    && forall i :: 0 <= i < |w.sent| && w.sent[i].chain == w.Top(isAlice) ==>
         w.sent[i].position < w.Session(isAlice).senderChain.value.chainKey.index
  }

  /** Both parties are in step: each chain a party holds for a ratchet key of its peer is the
      peer's own chain for that key, and everything sent is honest and sent once. */
  ghost predicate WorldInv(setup: Setup, w: World) {
    && TopsInv(w) && DistinctPublic(setup.suite, w.keys)
    && PartyInv(setup, w.keys, w.alice, w.aliceTop, w.accepted)
    && PartyInv(setup, w.keys, w.bob, w.bobTop, w.accepted)
    && SentInv(setup, w) && CounterInv(w, true) && CounterInv(w, false)
  }

  /** Sending: the message is honest and the party only moved one step along its own chain. */
  lemma SendIsHonest(setup: Setup, keys: seq<PrivateKey>, st: SessionStructure, m: nat, accepted: set<(nat, int)>,
                     plaintext: Bytes, now: nat, pqRandom: Bytes)
    requires PartyInv(setup, keys, st, m, accepted)
    requires st.senderChain.Some? && st.senderChain.value.chainKey.index < U32_MAX
    requires Encrypted(setup.suite, st, plaintext, now, pqRandom).Ok?
    ensures var p := Encrypted(setup.suite, st, plaintext, now, pqRandom).value;
      PartyInv(setup, keys, p.0, m, accepted) && p.0.senderChain.Some?
      && p.0.senderChain.value.chainKey.index == st.senderChain.value.chainKey.index + 1
      && Honest(setup, keys, Sent(m, st.senderChain.value.chainKey.index, plaintext,
                                  setup.suite.pqSend(st.pqState, pqRandom).value.2, Signal(p.1)))
  {
    hide ChainsInv;
  }

  lemma SendKeepsInv(setup: Setup, w: World, e: Event)
    requires WorldInv(setup, w) && e.Send? && Allowed(setup.suite, w, e)
    ensures WorldInv(setup, Step(setup.suite, w, e))
  {
    hide PartyInv, Honest, Encrypted, DistinctPublic;
    var st, m := w.Session(e.byAlice), w.Top(e.byAlice);
    if Encrypted(setup.suite, st, e.plaintext, e.now, e.pqRandom).Ok? {
      SendIsHonest(setup, w.keys, st, m, w.accepted, e.plaintext, e.now, e.pqRandom);
      var after := Step(setup.suite, w, e);
      var s := after.sent[|w.sent|];
      AppendKeepsSent(setup, w, after, s, e.byAlice);
    }
  }

  lemma AppendKeepsSent(setup: Setup, w: World, after: World, s: Sent, isAlice: bool)
    requires TopsInv(w) && SentInv(setup, w) && CounterInv(w, true) && CounterInv(w, false)
    requires after.sent == w.sent + [s] && after.keys == w.keys && after.aliceTop == w.aliceTop
             && after.bobTop == w.bobTop
    requires after.Session(!isAlice) == w.Session(!isAlice) && after.Session(isAlice).senderChain.Some?
    requires s.chain == w.Top(isAlice) && s.position == w.Session(isAlice).senderChain.value.chainKey.index
    requires Honest(setup, w.keys, s)
    requires after.Session(isAlice).senderChain.value.chainKey.index == s.position + 1
    ensures SentInv(setup, after) && CounterInv(after, true) && CounterInv(after, false)
  {
    hide Honest;
    assert after.sent[|w.sent|] == s && forall i :: 0 <= i < |w.sent| ==> after.sent[i] == w.sent[i];
  }

  /** What a peer accepts on a party's own chains, and keys drawn later, leave the party in step. */
  lemma PeerProgress(setup: Setup, keys: seq<PrivateKey>, st: SessionStructure, m: nat, accepted: set<(nat, int)>,
                     j: nat, n: int, later: seq<PrivateKey>)
    requires PartyInv(setup, keys, st, m, accepted) && j % 2 == m % 2
    requires later == keys || (|later| == |keys| + 1 && later == keys + [later[|keys|]])
    ensures PartyInv(setup, later, st, m, accepted + {(j, n)})
  {
    hide ChainWindow;
    if later != keys {
      RootPrefix(setup, keys, later[|keys|], m);
      SeedPrefix(setup, keys, later[|keys|], m);
      ChainsPrefix(setup, keys, later[|keys|], st.receiverChains, m, accepted);
    }
    forall i | 0 <= i < |st.receiverChains|
      ensures ChainInv(setup, later, st.receiverChains[i], ChainOf(m, i), accepted + {(j, n)})
    {
      UsedGrows(accepted, j, n, ChainOf(m, i));
      RatchetKeyOf(setup, later, st.receiverChains, m, accepted, i);
    }
  }

  lemma SentPrefix(setup: Setup, w: World, later: World)
    requires SentInv(setup, w) && later.sent == w.sent
    requires later.keys == w.keys || (|later.keys| == |w.keys| + 1 && later.keys == w.keys + [later.keys[|w.keys|]])
    requires w.aliceTop <= later.aliceTop && w.bobTop <= later.bobTop
    ensures SentInv(setup, later)
  {
    hide Honest;
    forall i | 0 <= i < |w.sent|
      ensures Honest(setup, later.keys, later.sent[i])
    {
      if later.keys != w.keys {
        HonestPrefix(setup, w.keys, later.keys[|w.keys|], w.sent[i]);
      }
    }
  }

  /** The coincidence a delivery can meet: a message of a chain its recipient dropped verifies under the
      chain made up in its place. */
  ghost predicate Coincidence(setup: Setup, w: World, e: Event) {
    e.Deliver? && e.index < |w.sent| && SentBy(w.sent[e.index], !e.toAlice)
    && MadeUpVerifies(setup, w.keys, w.Session(e.toAlice), w.Top(e.toAlice), w.sent[e.index])
  }

  lemma DeliverKeepsInv(setup: Setup, w: World, e: Event)
    requires Lawful(setup.suite)
    requires WorldInv(setup, w) && e.Deliver? && Allowed(setup.suite, w, e)
    ensures WorldInv(setup, Step(setup.suite, w, e)) || Coincidence(setup, w, e)
  {
    hide PartyInv, Honest, Lawful, DecryptedWithState, DistinctPublic, SentInv, Readable, ChainCount, MadeUpVerifies;
    if e.index < |w.sent| && SentBy(w.sent[e.index], !e.toAlice) {
      var s, m, st := w.sent[e.index], w.Top(e.toAlice), w.Session(e.toAlice);
      SentFacts(setup, w, e.index);
      PartyCount(setup, w.keys, st, m, w.accepted);
      if Readable(st, m, s) {
        DeliverReadable(setup, w.keys, st, m, w.accepted, s, e.ephemeral);
        AcceptedKeepsInv(setup, w, e);
      } else {
        UnreadableIsRefused(setup, w.keys, st, m, w.accepted, s, e.ephemeral);
      }
    }
  }

  lemma AcceptedKeepsInv(setup: Setup, w: World, e: Event)
    requires WorldInv(setup, w) && e.Deliver? && Allowed(setup.suite, w, e)
    requires e.index < |w.sent| && SentBy(w.sent[e.index], !e.toAlice)
    requires |w.Session(e.toAlice).receiverChains| == ChainCount(w.Top(e.toAlice))
    requires Readable(w.Session(e.toAlice), w.Top(e.toAlice), w.sent[e.index])
    requires var (s, m) := (w.sent[e.index], w.Top(e.toAlice));
      var r := DecryptedWithState(setup.suite, w.Session(e.toAlice), s.message, e.ephemeral);
      r.Ok? ==> PartyInv(setup, KeysAfter(w.keys, m, s.chain, e.ephemeral), r.value.0, TopAfter(m, s.chain),
                         w.accepted + {(s.chain, s.position)})
    ensures WorldInv(setup, Step(setup.suite, w, e))
  {
    hide PartyInv, Honest, DecryptedWithState, DistinctPublic, SentInv, Readable, ChainCount;
    var s, m, st := w.sent[e.index], w.Top(e.toAlice), w.Session(e.toAlice);
    var after := Step(setup.suite, w, e);
    SentFacts(setup, w, e.index);
    if DecryptedWithState(setup.suite, st, s.message, e.ephemeral).Ok? {
      PeerProgress(setup, w.keys, w.Session(!e.toAlice), w.Top(!e.toAlice), w.accepted, s.chain, s.position,
                   after.keys);
      SentPrefix(setup, w, after);
      if s.chain != m + 1 {
        ReadableIsFound(setup, w.keys, st, m, w.accepted, s);
        SenderChainKept(setup.suite, st, s.message, e.ephemeral);
      }
      CountersAfter(setup, w, after, e.toAlice, w.accepted + {(s.chain, s.position as int)});
    }
  }

  lemma ReadableIsFound(setup: Setup, keys: seq<PrivateKey>, st: SessionStructure, m: nat, accepted: set<(nat, int)>,
                        s: Sent)
    requires DistinctPublic(setup.suite, keys) && PartyInv(setup, keys, st, m, accepted) && Honest(setup, keys, s)
    requires |st.receiverChains| == ChainCount(m) && Readable(st, m, s) && s.chain != m + 1
    ensures FindReceiver(st.receiverChains, s.message.ratchetKey).Some?
  {
    FindsRetained(setup, keys, st.receiverChains, m, accepted, s.chain);
  }

  lemma SenderChainKept(suite: Suite, st: SessionStructure, m: SignalMessage, ephemeral: PrivateKey)
    requires FindReceiver(st.receiverChains, m.ratchetKey).Some? && DecryptedWithState(suite, st, m, ephemeral).Ok?
    ensures DecryptedWithState(suite, st, m, ephemeral).value.0.senderChain == st.senderChain
  {
  }

  lemma PartyCount(setup: Setup, keys: seq<PrivateKey>, st: SessionStructure, m: nat, accepted: set<(nat, int)>)
    requires PartyInv(setup, keys, st, m, accepted)
    ensures |st.receiverChains| == ChainCount(m)
  {
  }

  lemma SentFacts(setup: Setup, w: World, i: nat)
    requires WorldInv(setup, w) && i < |w.sent|
    ensures Honest(setup, w.keys, w.sent[i]) && w.sent[i].chain <= w.Top(w.sent[i].chain % 2 == 1)
  {
    hide PartyInv, Honest;
  }

  /** Accepting moves no counter, except that a new ratchet key starts a chain nothing was sent on. */
  lemma CountersAfter(setup: Setup, w: World, later: World, isAlice: bool, accepted: set<(nat, int)>)
    requires WorldInv(setup, w) && later.sent == w.sent && SentInv(setup, later)
    requires later.Session(!isAlice) == w.Session(!isAlice) && later.Top(!isAlice) == w.Top(!isAlice)
    requires PartyInv(setup, later.keys, later.Session(isAlice), later.Top(isAlice), accepted)
    requires if later.Top(isAlice) == w.Top(isAlice)
             then later.Session(isAlice).senderChain == w.Session(isAlice).senderChain
             else later.Top(isAlice) == w.Top(isAlice) + 2
    ensures CounterInv(later, true) && CounterInv(later, false)
  {
  }

  // ------------------------------------------------------- whole runs

  ghost predicate CoincidenceIn(setup: Setup, w: World, run: seq<Event>) {
    exists i :: 0 <= i < |run| && Coincidence(setup, After(setup.suite, w, run[..i]), run[i])
  }

  /** Agreement over all runs: from parties in step, after any sends, losses, repetitions and
      reorderings, every receiver chain a party holds is its peer's chain for that ratchet key; the
      one other case is that some delivery met a coincidence. */
  lemma {:induction false} RunKeepsInv(setup: Setup, w: World, run: seq<Event>)
    requires Lawful(setup.suite)
    requires WorldInv(setup, w) && AllowedRun(setup.suite, w, run)
    ensures WorldInv(setup, After(setup.suite, w, run)) || CoincidenceIn(setup, w, run)
  {
    hide WorldInv, Lawful, Allowed, Step, Coincidence;
    if run != [] {
      var before, e := run[..|run| - 1], run[|run| - 1];
      assert forall i :: 0 <= i < |before| ==> before[..i] == run[..i];
      RunKeepsInv(setup, w, before);
      assert Allowed(setup.suite, After(setup.suite, w, before), e);
      if WorldInv(setup, After(setup.suite, w, before)) {
        if e.Send? {
          SendKeepsInv(setup, After(setup.suite, w, before), e);
        } else {
          DeliverKeepsInv(setup, After(setup.suite, w, before), e);
        }
      }
    }
  }

  /** The world after the handshake: Alice has made a session from Bob's pre-keys, and Bob the one he
      makes from any of Alice's first messages. */
  function Start(suite: Suite, a: AliceParameters, b: BobParameters, kemRandom: Bytes, ratchetKey: PrivateKey): World
    requires BobSession(suite, b).Ok?
  {
    World(AliceSession(suite, a, kemRandom, ratchetKey), 1, BobSession(suite, b).value, 0,
          [b.ourRatchetKey, ratchetKey], [], {})
  }

  function SetupOf(suite: Suite, a: AliceParameters, b: BobParameters): Setup {
    var (root, chain, _) := suite.textKdf(BobSecrets(suite, b));
    Setup(suite, root, chain, suite.publicKey(a.ourIdentity), suite.publicKey(b.ourIdentity))
  }

  lemma AliceStarts(setup: Setup, keys: seq<PrivateKey>, st: SessionStructure)
    requires |keys| == 2 && st.storedVersion == 4
    requires st.localIdentity == setup.alice && st.remoteIdentity == Some(setup.bob)
    requires var (root, chain) := CreateChain(setup.suite, setup.root, setup.suite.publicKey(keys[0]), keys[1]);
      st.rootKey == Some(root) && st.senderChain == Some(SenderChain(setup.suite.publicKey(keys[1]), keys[1], chain))
    requires st.receiverChains == [ReceiverChain(setup.suite.publicKey(keys[0]), ChainKey(setup.chain, 0), [])]
    ensures PartyInv(setup, keys, st, 1, {})
  {
    assert ChainCount(1) == 1 && ChainOf(1, 0) == 0;
    assert Used({}, 0) == {};
    assert RootAt(setup, keys, 0) == setup.root;
    assert ChainInv(setup, keys, st.receiverChains[0], 0, {});
  }

  /** On matching pre-keys the handshake puts the parties in step. */
  lemma StartInv(suite: Suite, a: AliceParameters, b: BobParameters, kemRandom: Bytes, ratchetKey: PrivateKey)
    requires Lawful(suite) && Matching(suite, a, b, kemRandom) && BobSession(suite, b).Ok?
    requires suite.publicKey(ratchetKey) != suite.publicKey(b.ourRatchetKey)
    ensures WorldInv(SetupOf(suite, a, b), Start(suite, a, b, kemRandom, ratchetKey))
  {
    HandshakeAgrees(suite, a, b, kemRandom);
    hide AliceSecrets, BobSecrets, ChainWindow;
    var setup, w := SetupOf(suite, a, b), Start(suite, a, b, kemRandom, ratchetKey);
    assert w.keys[0] == b.ourRatchetKey && w.keys[1] == ratchetKey;
    AliceStarts(setup, w.keys, w.alice);
  }

  function PlaintextOf(r: Result<(SessionStructure, Bytes)>): Result<Bytes> {
    match r
    case Ok(p) => Ok(p.1)
    case Err(e) => Err(e)
  }

  /** What a delivery between parties in step comes to. */
  ghost predicate DeliversRightly(setup: Setup, w: World, toAlice: bool, index: nat, ephemeral: PrivateKey,
                                  r: Result<Bytes>)
    requires index < |w.sent|
  {
    var (st, s) := (w.Session(toAlice), w.sent[index]);
    && |st.receiverChains| == ChainCount(w.Top(toAlice))
    && (Readable(st, w.Top(toAlice), s) && PqAgrees(setup.suite, st, s) ==> r == Ok(s.plaintext))
    && (r.Ok? ==>
          Coincidence(setup, w, Deliver(toAlice, index, ephemeral))
          || (Readable(st, w.Top(toAlice), s) && (s.chain, s.position) !in w.accepted
              && (r == Ok(s.plaintext) || OtherKeyVerifies(setup, w.keys, st, s))))
  }

  lemma DeliversInStep(setup: Setup, w: World, toAlice: bool, index: nat, ephemeral: PrivateKey)
    requires Lawful(setup.suite) && WorldInv(setup, w)
    requires index < |w.sent| && SentBy(w.sent[index], !toAlice) && DistinctPublic(setup.suite, w.keys + [ephemeral])
    ensures var r := DecryptedWithState(setup.suite, w.Session(toAlice), w.sent[index].message, ephemeral);
      DeliversRightly(setup, w, toAlice, index, ephemeral, PlaintextOf(r))
  {
    hide Lawful, PartyInv, Honest, DistinctPublic, Readable, DecryptedWithState, ChainCount, PqAgrees, MadeUpVerifies,
         OtherKeyVerifies;
    SentFacts(setup, w, index);
    PartyCount(setup, w.keys, w.Session(toAlice), w.Top(toAlice), w.accepted);
    if Readable(w.Session(toAlice), w.Top(toAlice), w.sent[index]) {
      DeliverReadable(setup, w.keys, w.Session(toAlice), w.Top(toAlice), w.accepted, w.sent[index], ephemeral);
    } else {
      UnreadableIsRefused(setup, w.keys, w.Session(toAlice), w.Top(toAlice), w.accepted, w.sent[index], ephemeral);
    }
  }

  /** The two parties agree: in every run from a handshake on matching pre-keys without a coincidence, a
      message that was sent and is delivered decrypts if it is readable, where the post-quantum
      ratchets agree; what decrypts was readable and had not been accepted before, or this delivery is
      the coincidence, and it comes out as it was sent, or its MAC verifies under the wrong key
      although the post-quantum ratchets do not agree. */
  lemma DeliversWhatWasSent(suite: Suite, a: AliceParameters, b: BobParameters, kemRandom: Bytes,
                            ratchetKey: PrivateKey,
                            run: seq<Event>, toAlice: bool, index: nat, ephemeral: PrivateKey)
    requires Lawful(suite) && Matching(suite, a, b, kemRandom) && BobSession(suite, b).Ok?
    requires suite.publicKey(ratchetKey) != suite.publicKey(b.ourRatchetKey)
    requires AllowedRun(suite, Start(suite, a, b, kemRandom, ratchetKey), run)
    requires var w := After(suite, Start(suite, a, b, kemRandom, ratchetKey), run);
      index < |w.sent| && SentBy(w.sent[index], !toAlice) && DistinctPublic(suite, w.keys + [ephemeral])
    ensures var setup := SetupOf(suite, a, b);
      var w := After(suite, Start(suite, a, b, kemRandom, ratchetKey), run);
      var r := DecryptedWithState(suite, w.Session(toAlice), w.sent[index].message, ephemeral);
      CoincidenceIn(setup, Start(suite, a, b, kemRandom, ratchetKey), run)
      || DeliversRightly(setup, w, toAlice, index, ephemeral, PlaintextOf(r))
  {
    hide Lawful, Matching, Start, WorldInv, DistinctPublic, DecryptedWithState, CoincidenceIn, DeliversRightly;
    var setup, w := SetupOf(suite, a, b), After(suite, Start(suite, a, b, kemRandom, ratchetKey), run);
    StartInv(suite, a, b, kemRandom, ratchetKey);
    assert setup.suite == suite;
    RunKeepsInv(setup, Start(suite, a, b, kemRandom, ratchetKey), run);
    if WorldInv(setup, w) {
      DeliversInStep(setup, w, toAlice, index, ephemeral);
    }
  }

  /** Inside the limits nothing is lost: a message not accepted yet, on a new chain at most 25,000 in,
      or on one of the last five chains at most 2,000 behind and 25,000 ahead, is readable. */
  lemma WithinLimitsIsReadable(setup: Setup, w: World, toAlice: bool, index: nat)
    requires WorldInv(setup, w) && index < |w.sent| && |w.Session(toAlice).receiverChains| == ChainCount(w.Top(toAlice))
    requires (w.sent[index].chain, w.sent[index].position) !in w.accepted
    requires var (s, m) := (w.sent[index], w.Top(toAlice));
      if s.chain == m + 1 then s.position <= 25_000
      else Retained(m, s.chain)
           && ChainFor(w.Session(toAlice), m, s.chain).chainKey.index - 2_000 <= s.position
              <= ChainFor(w.Session(toAlice), m, s.chain).chainKey.index + 25_000
    ensures Readable(w.Session(toAlice), w.Top(toAlice), w.sent[index])
  {
    UnacceptedIsReadable(setup, w.keys, w.Session(toAlice), w.Top(toAlice), w.accepted, w.sent[index]);
  }

  /** No two messages of a two-party run, whoever sent them, share ratchet key and counter. */
  lemma SentOnce(setup: Setup, w: World, i: nat, j: nat)
    requires WorldInv(setup, w) && i < j < |w.sent|
    ensures w.sent[i].message.ratchetKey != w.sent[j].message.ratchetKey
            || w.sent[i].message.counter != w.sent[j].message.counter
  {
    SentFacts(setup, w, i);
    SentFacts(setup, w, j);
    if w.sent[i].chain == w.sent[j].chain {
      assert w.sent[i].position != w.sent[j].position;
    }
  }

  // ------------------------------------------------------- consistency

  /** Toy primitives that meet every assumption made on the real ones. */
  function ToySuite(): Suite {
    var ratchetKdf: (Bytes, Bytes) -> (Bytes, Bytes) := (r, d) => (r, [1] + d);
    var messageKdf: (Bytes, Option<Bytes>) -> MessageKeys := (s, salt) => MessageKeys([], s, []);
    var decrypt: (Bytes, Bytes, Bytes) -> Option<Bytes> := (c, k, iv) => Some(c);
    var pqSend: (Bytes, Bytes) -> Option<(Bytes, Bytes, Option<Bytes>)> := (s, r) => Some((s, [], None));
    var pqReceive: (Bytes, Bytes) -> Option<(Bytes, Option<Bytes>)> := (s, m) => Some((s, None));
    Suite((k, l) => k + l, ratchetKdf, s => ([], [], []), messageKdf,
          (a, c) => Unary(|a| + |c|), p => Unary(|p|), p => true, (p, c, s) => true,
          (p, r) => ([], []), (s, c) => [], s => [], (p, k, iv) => p, decrypt,
          (v, k, n, q, b, p) => [], (k, s, r, c) => k, (k, d, w) => [], pqSend, pqReceive)
  }

  function Unary(n: nat): (r: Bytes)
    ensures |r| == n
  {
    seq(n, _ => 0)
  }

  /** The laws of the primitives can be met together. */
  lemma LawsAreConsistent()
    ensures Lawful(ToySuite())
  {
  }
}
