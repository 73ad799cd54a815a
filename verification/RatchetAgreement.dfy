/** Two-party agreement of the Double Ratchet, one party at a time.

    `keys` lists the ratchet private keys of a run in the order they were drawn: key 0 is Bob's
    signed pre-key, key 1 Alice's first ratchet key, and from then on the parties alternate, so
    Alice owns the odd ones and Bob the even ones. Key `i` fixes root key `i` and the seed of
    chain `i`, the chain its owner sends on. */
module RatchetAgreement {
  import opened Wrappers
  import opened Bytes
  import opened KdfChain
  import opened RatchetKeys
  import opened SessionStates
  import opened SessionCipher
  import opened MessageKeyWindow
  import opened RatchetInit

  /** What the handshake fixed: root key, first chain key, and both identities. */
  datatype Setup = Setup(suite: Suite, root: Bytes, chain: Bytes, alice: PublicKey, bob: PublicKey) {
    /** The identity that owns ratchet key `i`, and its peer. */
    function Owner(i: nat): PublicKey { if i % 2 == 1 then alice else bob }
    function Peer(i: nat): PublicKey { if i % 2 == 1 then bob else alice }
  }

  function RootAt(setup: Setup, keys: seq<PrivateKey>, i: nat): Bytes
    requires i < |keys|
  {
    if i == 0 then setup.root
    else setup.suite.ratchetKdf(RootAt(setup, keys, i - 1),
                                setup.suite.agree(keys[i], setup.suite.publicKey(keys[i - 1]))).0
  }

  function SeedAt(setup: Setup, keys: seq<PrivateKey>, i: nat): Bytes
    requires i < |keys|
  {
    if i == 0 then setup.chain
    else setup.suite.ratchetKdf(RootAt(setup, keys, i - 1),
                                setup.suite.agree(keys[i], setup.suite.publicKey(keys[i - 1]))).1
  }

  lemma {:induction false} RootPrefix(setup: Setup, keys: seq<PrivateKey>, key: PrivateKey, i: nat)
    requires i < |keys|
    ensures RootAt(setup, keys + [key], i) == RootAt(setup, keys, i)
  {
    if i > 0 {
      RootPrefix(setup, keys, key, i - 1);
    }
  }

  lemma SeedPrefix(setup: Setup, keys: seq<PrivateKey>, key: PrivateKey, i: nat)
    requires i < |keys|
    ensures SeedAt(setup, keys + [key], i) == SeedAt(setup, keys, i)
  {
    if i > 0 {
      RootPrefix(setup, keys, key, i - 1);
    }
  }

  ghost predicate DistinctPublic(suite: Suite, keys: seq<PrivateKey>) {
    forall i, j :: 0 <= i < j < |keys| ==> suite.publicKey(keys[i]) != suite.publicKey(keys[j])
  }

  // ------------------------------------------------------- one party

  function Min(a: int, b: int): int { if a < b then a else b }

  /** How many receiver chains a party holding ratchet key `m` has. */
  function ChainCount(m: nat): (count: nat)
    ensures count <= 5
  {
    Min(5, (m + 1) / 2)
  }

  /** The chain its `i`-th receiver chain follows. */
  function ChainOf(m: nat, i: nat): (j: nat)
    requires i < ChainCount(m)
    ensures j < m && j % 2 != m % 2
  {
    m - 1 - 2 * (ChainCount(m) - 1 - i)
  }

  /** Chain `j` of the peer is still among the receiver chains. */
  predicate Retained(m: nat, j: nat) {
    j < m && j % 2 != m % 2 && m - j <= 9
  }

  function Used(accepted: set<(nat, int)>, j: nat): set<int> {
    set p | p in accepted && p.0 == j :: p.1
  }

  /** The session of the party that owns key `m`: its root key and sender chain are number `m`, and
      its receiver chains are the last five of the peer's chains it knows, each the same KDF chain
      as the peer's sender chain, with the window invariant for what was accepted on it. */
  ghost predicate PartyInv(setup: Setup, keys: seq<PrivateKey>, st: SessionStructure, m: nat,
                           accepted: set<(nat, int)>) {
    && m < |keys|
    && st.storedVersion == 4 && st.localIdentity == setup.Owner(m) && st.remoteIdentity == Some(setup.Peer(m))
    && st.rootKey == Some(RootAt(setup, keys, m))
    && st.senderChain.Some?
    && st.senderChain.value.ratchetKey == setup.suite.publicKey(keys[m])
    && st.senderChain.value.ratchetPrivate == keys[m]
    && st.senderChain.value.chainKey
       == ChainKeyAt(setup.suite.hmac, SeedAt(setup, keys, m), st.senderChain.value.chainKey.index)
    && (forall p :: p in accepted && p.0 % 2 != m % 2 ==> p.0 < m)
    && ChainsInv(setup, keys, st.receiverChains, m, accepted)
  }

  ghost predicate ChainsInv(setup: Setup, keys: seq<PrivateKey>, chains: seq<ReceiverChain>, m: nat,
                            accepted: set<(nat, int)>)
    requires m < |keys|
  {
    && |chains| == ChainCount(m)
    && forall i :: 0 <= i < |chains| ==> ChainInv(setup, keys, chains[i], ChainOf(m, i), accepted)
  }

  ghost predicate ChainInv(setup: Setup, keys: seq<PrivateKey>, chain: ReceiverChain, j: nat, accepted: set<(nat, int)>)
    requires j < |keys|
  {
    && chain.ratchetKey == setup.suite.publicKey(keys[j])
    && ChainWindow(setup.suite.hmac, SeedAt(setup, keys, j), chain, Used(accepted, j))
  }

  lemma ChainOfIsRetained(m: nat, i: nat)
    requires i < ChainCount(m)
    ensures Retained(m, ChainOf(m, i))
  {
  }

  /** The place of a retained chain among the receiver chains. */
  function PlaceOf(m: nat, j: nat): (i: nat)
    requires Retained(m, j)
    ensures i < ChainCount(m) && ChainOf(m, i) == j
  {
    ChainCount(m) - 1 - (m - 1 - j) / 2
  }

  /** A retained chain is found under its ratchet key; no other chain of the peer is. */
  lemma FindsRetained(setup: Setup, keys: seq<PrivateKey>, chains: seq<ReceiverChain>, m: nat,
                      accepted: set<(nat, int)>, j: nat)
    requires m < |keys| && j < |keys|
    requires DistinctPublic(setup.suite, keys) && ChainsInv(setup, keys, chains, m, accepted)
    ensures var r := FindReceiver(chains, setup.suite.publicKey(keys[j]));
      r.Some? <==> Retained(m, j)
    ensures var r := FindReceiver(chains, setup.suite.publicKey(keys[j]));
      r.Some? ==> r.value < ChainCount(m) && ChainOf(m, r.value) == j
  {
    hide ChainOf, ChainCount, Retained, ChainWindow, ChainsInv, DistinctPublic;
    var r := FindReceiver(chains, setup.suite.publicKey(keys[j]));
    if r.Some? {
      RatchetKeyOf(setup, keys, chains, m, accepted, r.value);
      PublicTellsApart(setup.suite, keys, j, ChainOf(m, r.value));
      ChainOfIsRetained(m, r.value);
    }
    if Retained(m, j) {
      RatchetKeyOf(setup, keys, chains, m, accepted, PlaceOf(m, j));
    }
  }

  lemma RatchetKeyOf(setup: Setup, keys: seq<PrivateKey>, chains: seq<ReceiverChain>, m: nat,
                     accepted: set<(nat, int)>, i: nat)
    requires m < |keys| && (i < |chains| || i < ChainCount(m))
    requires ChainsInv(setup, keys, chains, m, accepted)
    ensures i < |chains| == ChainCount(m) && ChainOf(m, i) < m
    ensures ChainInv(setup, keys, chains[i], ChainOf(m, i), accepted)
    ensures chains[i].ratchetKey == setup.suite.publicKey(keys[ChainOf(m, i)])
  {
  }

  lemma PublicTellsApart(suite: Suite, keys: seq<PrivateKey>, i: nat, j: nat)
    requires DistinctPublic(suite, keys) && i < |keys| && j < |keys|
    requires suite.publicKey(keys[i]) == suite.publicKey(keys[j])
    ensures i == j
  {
  }

  // ------------------------------------------------------- honest messages

  /** A message sent on chain `chain` at `position`, with the post-quantum key it used. */
  datatype Sent = Sent(chain: nat, position: u32, plaintext: Bytes, pqKey: Option<Bytes>, message: SignalMessage)

  /** The message is its plaintext under the key of that position of that chain. */
  ghost predicate Honest(setup: Setup, keys: seq<PrivateKey>, s: Sent) {
    && s.chain < |keys| && s.position < U32_MAX
    && s.message.version == 4 && s.message.ratchetKey == setup.suite.publicKey(keys[s.chain])
    && s.message.counter == s.position
    && var k := setup.suite.messageKdf(MessageKeyAt(setup.suite.hmac, SeedAt(setup, keys, s.chain), s.position).seed,
                                       s.pqKey);
       s.message.body == setup.suite.encrypt(s.plaintext, k.cipherKey, k.iv)
       && s.message.mac == setup.suite.mac(k.macKey, setup.Owner(s.chain), setup.Peer(s.chain), s.message.content)
  }

  lemma HonestPrefix(setup: Setup, keys: seq<PrivateKey>, key: PrivateKey, s: Sent)
    requires Honest(setup, keys, s)
    ensures Honest(setup, keys + [key], s)
  {
    SeedPrefix(setup, keys, key, s.chain);
  }

  /** The post-quantum ratchet of this session takes the message in and yields the key it was sent
      under. */
  predicate PqAgrees(suite: Suite, st: SessionStructure, s: Sent) {
    var r := suite.pqReceive(st.pqState, s.message.pq);
    r.Some? && r.value.1 == s.pqKey
  }

  /** The post-quantum ratchet of this session yields another key than the message was sent under, and its
      MAC verifies all the same: two MAC keys give one MAC, or the key derivation gives one MAC key
      for two different inputs. */
  ghost predicate OtherKeyVerifies(setup: Setup, keys: seq<PrivateKey>, st: SessionStructure, s: Sent) {
    && s.chain < |keys|
    && var (suite, seed) := (setup.suite,
                             MessageKeyAt(setup.suite.hmac, SeedAt(setup, keys, s.chain), s.position).seed);
       var received := suite.pqReceive(st.pqState, s.message.pq);
       received.Some? && received.value.1 != s.pqKey
       && suite.mac(suite.messageKdf(seed, received.value.1).macKey, setup.Owner(s.chain), setup.Peer(s.chain),
                    s.message.content)
          == suite.mac(suite.messageKdf(seed, s.pqKey).macKey, setup.Owner(s.chain), setup.Peer(s.chain),
                       s.message.content)
  }

  lemma OpensOnlyOnAgreement(setup: Setup, keys: seq<PrivateKey>, st: SessionStructure, s: Sent)
    requires Honest(setup, keys, s) && !PqAgrees(setup.suite, st, s)
    requires st.remoteIdentity == Some(setup.Owner(s.chain)) && st.localIdentity == setup.Peer(s.chain)
    requires Opened(setup.suite, st, MessageKeyAt(setup.suite.hmac, SeedAt(setup, keys, s.chain), s.position),
                    s.message).Ok?
    ensures OtherKeyVerifies(setup, keys, st, s)
  {
  }

  /** Under its own key an honest message opens to its plaintext. */
  lemma HonestOpens(setup: Setup, keys: seq<PrivateKey>, st: SessionStructure, s: Sent)
    requires Lawful(setup.suite) && Honest(setup, keys, s) && PqAgrees(setup.suite, st, s)
    requires st.remoteIdentity == Some(setup.Owner(s.chain)) && st.localIdentity == setup.Peer(s.chain)
    ensures var key := MessageKeyAt(setup.suite.hmac, SeedAt(setup, keys, s.chain), s.position);
      Opened(setup.suite, st, key, s.message)
      == Ok((st.(pqState := setup.suite.pqReceive(st.pqState, s.message.pq).value.0).Acknowledged(), s.plaintext))
  {
  }

  /** Whatever opens, only the post-quantum state and what is pending change. */
  lemma OpenedKeeps(suite: Suite, st: SessionStructure, key: MessageKey, m: SignalMessage)
    requires Opened(suite, st, key, m).Ok?
    ensures var after := Opened(suite, st, key, m).value.0;
      after == st.(pqState := after.pqState).Acknowledged()
  {
  }

  lemma UsedGrows(accepted: set<(nat, int)>, j: nat, n: int, i: nat)
    ensures Used(accepted + {(j, n)}, i) == if i == j then Used(accepted, i) + {n} else Used(accepted, i)
  {
    var grown := accepted + {(j, n)};
    assert forall x :: x in Used(grown, i) <==> (i, x) in grown;
    assert forall x :: x in Used(accepted, i) <==> (i, x) in accepted;
  }

  lemma ChainUpdated(setup: Setup, keys: seq<PrivateKey>, chains: seq<ReceiverChain>, m: nat, accepted: set<(nat, int)>,
                     i: nat, chain: ReceiverChain, n: int)
    requires m < |keys| && i < |chains| && ChainsInv(setup, keys, chains, m, accepted)
    requires chain.ratchetKey == chains[i].ratchetKey
    requires ChainWindow(setup.suite.hmac, SeedAt(setup, keys, ChainOf(m, i)), chain,
                         Used(accepted, ChainOf(m, i)) + {n})
    ensures ChainsInv(setup, keys, chains[i := chain], m, accepted + {(ChainOf(m, i), n)})
  {
    hide ChainWindow, Used;
    var after, j := accepted + {(ChainOf(m, i), n)}, ChainOf(m, i);
    forall k | 0 <= k < |chains|
      ensures ChainInv(setup, keys, chains[i := chain][k], ChainOf(m, k), after)
    {
      UsedGrows(accepted, j, n, ChainOf(m, k));
      assert ChainInv(setup, keys, chains[k], ChainOf(m, k), accepted);
    }
  }

  // ------------------------------------------------------- delivering

  /** The receiver chain that follows the peer's chain `j`. */
  function ChainFor(st: SessionStructure, m: nat, j: nat): ReceiverChain
    requires Retained(m, j) && |st.receiverChains| == ChainCount(m)
  {
    st.receiverChains[PlaceOf(m, j)]
  }

  /** An honest message on a retained chain: if its key cannot be taken it is refused; if it can, its
      position was not accepted before, it decrypts to its plaintext when the post-quantum
      ratchets agree, and whenever it is accepted the party is afterwards as it should be. */
  lemma DeliverOnRetained(setup: Setup, keys: seq<PrivateKey>, st: SessionStructure, m: nat, accepted: set<(nat, int)>,
                          s: Sent, ephemeral: PrivateKey)
    requires Lawful(setup.suite) && DistinctPublic(setup.suite, keys)
    requires PartyInv(setup, keys, st, m, accepted) && Honest(setup, keys, s) && Retained(m, s.chain)
    ensures var taken := TakeKey(setup.suite.hmac, ChainFor(st, m, s.chain), s.position, st.WithSelf());
      var r := DecryptedWithState(setup.suite, st, s.message, ephemeral);
      match taken
      case Err(e) => r == Err(e)
      case Ok(_) => (s.chain, s.position) !in accepted
                    && (PqAgrees(setup.suite, st, s) ==> r.Ok? && r.value.1 == s.plaintext)
                    && (r.Ok? ==> PqAgrees(setup.suite, st, s) || OtherKeyVerifies(setup, keys, st, s))
                    && (r.Ok? ==> PartyInv(setup, keys, r.value.0, m, accepted + {(s.chain, s.position)}))
  {
    hide TakeKey, DecryptedWithState, Opened, ChainWindow, ChainInv, ChainOf, ChainCount, Used, Lawful, PqAgrees;
    var i := PlaceOf(m, s.chain);
    FindsRetained(setup, keys, st.receiverChains, m, accepted, s.chain);
    PlaceIsUnique(m, FindReceiver(st.receiverChains, s.message.ratchetKey).value);
    DecryptsOnFound(setup.suite, st, s.message, ephemeral, i);
    if TakeKey(setup.suite.hmac, st.receiverChains[i], s.position, st.WithSelf()).Ok? {
      TakenOnRetained(setup, keys, st, m, accepted, s, i);
    }
  }

  lemma TakenOnRetained(setup: Setup, keys: seq<PrivateKey>, st: SessionStructure, m: nat, accepted: set<(nat, int)>,
                        s: Sent, i: nat)
    requires Lawful(setup.suite) && PartyInv(setup, keys, st, m, accepted) && Honest(setup, keys, s)
    requires i < |st.receiverChains| && ChainOf(m, i) == s.chain
    requires TakeKey(setup.suite.hmac, st.receiverChains[i], s.position, st.WithSelf()).Ok?
    ensures var taken := TakeKey(setup.suite.hmac, st.receiverChains[i], s.position, st.WithSelf()).value;
      var r := Opened(setup.suite, st.(receiverChains := st.receiverChains[i := taken.0]), taken.1, s.message);
      (s.chain, s.position) !in accepted
      && (PqAgrees(setup.suite, st, s) ==> r.Ok? && r.value.1 == s.plaintext)
      && (r.Ok? ==> PqAgrees(setup.suite, st, s) || OtherKeyVerifies(setup, keys, st, s))
      && (r.Ok? ==> PartyInv(setup, keys, r.value.0, m, accepted + {(s.chain, s.position)}))
  {
    hide ChainWindow, Used, TakeKey, ChainCount, ChainOf, ChainsInv, Opened, Lawful;
    var chain := st.receiverChains[i];
    var taken := TakeKey(setup.suite.hmac, chain, s.position, st.WithSelf()).value;
    var after := st.(receiverChains := st.receiverChains[i := taken.0]);
    RatchetKeyOf(setup, keys, st.receiverChains, m, accepted, i);
    TakeKeyKeepsWindow(setup.suite.hmac, SeedAt(setup, keys, s.chain), chain, s.position, st.WithSelf(),
                       Used(accepted, s.chain));
    ChainUpdated(setup, keys, st.receiverChains, m, accepted, i, taken.0, s.position);
    OppositeOwners(setup, m, i);
    if PqAgrees(setup.suite, st, s) {
      HonestOpens(setup, keys, after, s);
    } else if Opened(setup.suite, after, taken.1, s.message).Ok? {
      OpensOnlyOnAgreement(setup, keys, after, s);
    }
    if Opened(setup.suite, after, taken.1, s.message).Ok? {
      OpenedKeeps(setup.suite, after, taken.1, s.message);
    }
    UsedIs(accepted, s.chain, s.position);
  }

  lemma OppositeOwners(setup: Setup, m: nat, i: nat)
    requires i < ChainCount(m)
    ensures setup.Owner(ChainOf(m, i)) == setup.Peer(m) && setup.Peer(ChainOf(m, i)) == setup.Owner(m)
    ensures ChainOf(m, i) % 2 != m % 2 && ChainOf(m, i) < m
  {
  }

  lemma UsedIs(accepted: set<(nat, int)>, j: nat, n: int)
    ensures n in Used(accepted, j) <==> (j, n) in accepted
  {
    if (j, n) in accepted {
      assert (j, n).1 in Used(accepted, j);
    }
  }

  lemma PlaceIsUnique(m: nat, i: nat)
    requires i < ChainCount(m)
    ensures Retained(m, ChainOf(m, i)) && PlaceOf(m, ChainOf(m, i)) == i
  {
  }

  lemma DecryptsOnFound(suite: Suite, st: SessionStructure, m: SignalMessage, ephemeral: PrivateKey, i: nat)
    requires st.rootKey.Some? && m.version == st.SessionVersion()
    requires FindReceiver(st.receiverChains, m.ratchetKey) == Some(i)
    ensures DecryptedWithState(suite, st, m, ephemeral) ==
      match TakeKey(suite.hmac, st.receiverChains[i], m.counter, st.WithSelf())
      case Err(e) => Err(e)
      case Ok(p) => Opened(suite, st.(receiverChains := st.receiverChains[i := p.0]), p.1, m)
  {
  }

  // ------------------------------------------------------- a new ratchet key

  /** Both ends of chain `m + 1` derive the same root key and the same chain. */
  lemma RatchetMeets(setup: Setup, keys: seq<PrivateKey>, m: nat, ephemeral: PrivateKey)
    requires Lawful(setup.suite) && |keys| == m + 2
    ensures var (root1, receiver) := CreateChain(setup.suite, RootAt(setup, keys, m),
                                                 setup.suite.publicKey(keys[m + 1]), keys[m]);
      root1 == RootAt(setup, keys, m + 1) && receiver == ChainKeyAt(setup.suite.hmac, SeedAt(setup, keys, m + 1), 0)
      && CreateChain(setup.suite, root1, setup.suite.publicKey(keys[m + 1]), ephemeral)
         == (RootAt(setup, keys + [ephemeral], m + 2),
             ChainKeyAt(setup.suite.hmac, SeedAt(setup, keys + [ephemeral], m + 2), 0))
  {
    RootPrefix(setup, keys, ephemeral, m + 1);
  }

  lemma ChainsPrefix(setup: Setup, keys: seq<PrivateKey>, key: PrivateKey, chains: seq<ReceiverChain>, m: nat,
                     accepted: set<(nat, int)>)
    requires m < |keys| && ChainsInv(setup, keys, chains, m, accepted)
    ensures ChainsInv(setup, keys + [key], chains, m, accepted)
  {
    hide ChainWindow, ChainOf, ChainCount;
    forall i | 0 <= i < |chains|
      ensures ChainInv(setup, keys + [key], chains[i], ChainOf(m, i), accepted)
    {
      RatchetKeyOf(setup, keys, chains, m, accepted, i);
      SeedPrefix(setup, keys, key, ChainOf(m, i));
    }
  }

  lemma CountGrows(m: nat)
    ensures ChainCount(m + 2) == Min(5, ChainCount(m) + 1)
  {
  }

  lemma AddReceiverPlaces(m: nat, i: nat)
    requires i < ChainCount(m + 2)
    ensures i + 1 == ChainCount(m + 2) ==> ChainOf(m + 2, i) == m + 1
    ensures i + 1 < ChainCount(m + 2) ==>
      var before := i + (ChainCount(m) + 1 - ChainCount(m + 2));
      0 <= before < ChainCount(m) && ChainOf(m + 2, i) == ChainOf(m, before)
  {
  }

  lemma ChainsAdded(setup: Setup, keys: seq<PrivateKey>, chains: seq<ReceiverChain>, m: nat, accepted: set<(nat, int)>,
                    chain: ReceiverChain)
    requires m + 2 < |keys| && ChainsInv(setup, keys, chains, m, accepted)
    requires ChainInv(setup, keys, chain, m + 1, accepted)
    ensures ChainsInv(setup, keys, AddReceiver(chains, chain), m + 2, accepted)
  {
    hide ChainInv, ChainOf, ChainCount;
    var after := AddReceiver(chains, chain);
    CountGrows(m);
    forall i | 0 <= i < |after|
      ensures ChainInv(setup, keys, after[i], ChainOf(m + 2, i), accepted)
    {
      AddReceiverPlaces(m, i);
    }
  }

  lemma FreshChain(setup: Setup, keys: seq<PrivateKey>, m: nat, accepted: set<(nat, int)>)
    requires m + 1 < |keys| && forall p :: p in accepted && p.0 % 2 != m % 2 ==> p.0 < m
    ensures ChainInv(setup, keys, ReceiverChain(setup.suite.publicKey(keys[m + 1]),
                                                ChainKeyAt(setup.suite.hmac, SeedAt(setup, keys, m + 1), 0), []),
                                                    m + 1, accepted)
  {
    assert (m + 1) % 2 != m % 2;
    assert Used(accepted, m + 1) == {};
  }

  /** On the peer's next ratchet key a party makes the peer's chain and moves on to its own next
      key; the message itself is then handled as on any retained chain. */
  lemma RatchetOnNewKey(setup: Setup, keys: seq<PrivateKey>, st: SessionStructure, m: nat, accepted: set<(nat, int)>,
                        s: Sent, ephemeral: PrivateKey) returns (ratcheted: SessionStructure)
    requires Lawful(setup.suite) && |keys| == m + 2 && DistinctPublic(setup.suite, keys + [ephemeral])
    requires PartyInv(setup, keys, st, m, accepted) && Honest(setup, keys, s) && s.chain == m + 1
    ensures PartyInv(setup, keys + [ephemeral], ratcheted, m + 2, accepted)
    ensures DecryptedWithState(setup.suite, st, s.message, ephemeral)
         == DecryptedWithState(setup.suite, ratcheted, s.message, ephemeral)
    ensures |ratcheted.receiverChains| == ChainCount(m + 2) && Retained(m + 2, m + 1)
    ensures ChainFor(ratcheted, m + 2, m + 1).chainKey.index == 0 && ratcheted.WithSelf() == st.WithSelf()
    ensures ratcheted.pqState == st.pqState
  {
    hide *;
    PrefixDistinct(setup.suite, keys, ephemeral);
    ratcheted := RatchetedParty(setup, keys, st, m, accepted, ephemeral);
    RatchetFinds(setup, keys, st, m, accepted, s, ephemeral);
    RatchetedDecryptsAlike(setup.suite, st, s.message, ephemeral, ratcheted);
  }

  lemma RatchetFinds(setup: Setup, keys: seq<PrivateKey>, st: SessionStructure, m: nat, accepted: set<(nat, int)>,
                     s: Sent, ephemeral: PrivateKey)
    requires Lawful(setup.suite) && |keys| == m + 2 && DistinctPublic(setup.suite, keys)
    requires PartyInv(setup, keys, st, m, accepted) && Honest(setup, keys, s) && s.chain == m + 1
    ensures s.message.ratchetKey == setup.suite.publicKey(keys[m + 1])
    ensures FindReceiver(st.receiverChains, s.message.ratchetKey).None?
    ensures RatchetStep(setup.suite, st, s.message.ratchetKey, ephemeral).Ok?
    ensures FindReceiver(RatchetStep(setup.suite, st, s.message.ratchetKey, ephemeral).value.receiverChains,
                         s.message.ratchetKey).Some?
  {
    hide ChainWindow, ChainsInv, ChainOf, ChainCount, Lawful, CreateChain, RatchetStep;
    FindsRetained(setup, keys, st.receiverChains, m, accepted, m + 1);
    RatchetStepMeets(setup, keys, st, m, ephemeral);
    AddedIsFound(st.receiverChains,
                 ReceiverChain(s.message.ratchetKey, ChainKeyAt(setup.suite.hmac, SeedAt(setup, keys, m + 1), 0), []));
  }

  lemma RatchetedParty(setup: Setup, keys: seq<PrivateKey>, st: SessionStructure, m: nat, accepted: set<(nat, int)>,
                       ephemeral: PrivateKey) returns (ratcheted: SessionStructure)
    requires Lawful(setup.suite) && |keys| == m + 2 && PartyInv(setup, keys, st, m, accepted)
    ensures RatchetStep(setup.suite, st, setup.suite.publicKey(keys[m + 1]), ephemeral) == Ok(ratcheted)
    ensures PartyInv(setup, keys + [ephemeral], ratcheted, m + 2, accepted)
    ensures |ratcheted.receiverChains| == ChainCount(m + 2) && Retained(m + 2, m + 1)
    ensures ChainFor(ratcheted, m + 2, m + 1).chainKey.index == 0 && ratcheted.WithSelf() == st.WithSelf()
    ensures ratcheted.pqState == st.pqState
  {
    hide ChainWindow, ChainsInv, ChainOf, ChainCount, Lawful, CreateChain, RatchetStep;
    var theirs := setup.suite.publicKey(keys[m + 1]);
    RatchetStepMeets(setup, keys, st, m, ephemeral);
    ratcheted := RatchetStep(setup.suite, st, theirs, ephemeral).value;
    ChainsRatcheted(setup, keys, st.receiverChains, m, accepted,
                    ReceiverChain(theirs, ChainKeyAt(setup.suite.hmac, SeedAt(setup, keys, m + 1), 0), []), ephemeral);
  }

  lemma RatchetStepMeets(setup: Setup, keys: seq<PrivateKey>, st: SessionStructure, m: nat, ephemeral: PrivateKey)
    requires Lawful(setup.suite) && |keys| == m + 2
    requires st.rootKey == Some(RootAt(setup, keys, m)) && st.senderChain.Some?
             && st.senderChain.value.ratchetPrivate == keys[m]
    ensures var theirs := setup.suite.publicKey(keys[m + 1]);
      var after := RatchetStep(setup.suite, st, theirs, ephemeral);
      after.Ok? && after.value == st.(
        rootKey := Some(RootAt(setup, keys + [ephemeral], m + 2)),
        receiverChains := AddReceiver(st.receiverChains,
          ReceiverChain(theirs, ChainKeyAt(setup.suite.hmac, SeedAt(setup, keys, m + 1), 0), [])),
        previousCounter := after.value.previousCounter,
        senderChain := Some(SenderChain(setup.suite.publicKey(ephemeral), ephemeral,
          ChainKeyAt(setup.suite.hmac, SeedAt(setup, keys + [ephemeral], m + 2), 0))))
  {
    RatchetMeets(setup, keys, m, ephemeral);
  }

  lemma ChainsRatcheted(setup: Setup, keys: seq<PrivateKey>, chains: seq<ReceiverChain>, m: nat,
                        accepted: set<(nat, int)>,
                        chain: ReceiverChain, ephemeral: PrivateKey)
    requires |keys| == m + 2 && ChainsInv(setup, keys, chains, m, accepted)
    requires forall p :: p in accepted && p.0 % 2 != m % 2 ==> p.0 < m
    requires chain == ReceiverChain(setup.suite.publicKey(keys[m + 1]),
                                    ChainKeyAt(setup.suite.hmac, SeedAt(setup, keys, m + 1), 0), [])
    ensures ChainsInv(setup, keys + [ephemeral], AddReceiver(chains, chain), m + 2, accepted)
    ensures |AddReceiver(chains, chain)| == ChainCount(m + 2) && PlaceOf(m + 2, m + 1) == ChainCount(m + 2) - 1
    ensures AddReceiver(chains, chain)[PlaceOf(m + 2, m + 1)] == chain
  {
    hide ChainWindow, ChainOf;
    SeedPrefix(setup, keys, ephemeral, m + 1);
    FreshChain(setup, keys + [ephemeral], m, accepted);
    ChainsPrefix(setup, keys, ephemeral, chains, m, accepted);
    ChainsAdded(setup, keys + [ephemeral], chains, m, accepted, chain);
  }

  lemma PrefixDistinct(suite: Suite, keys: seq<PrivateKey>, key: PrivateKey)
    requires DistinctPublic(suite, keys + [key])
    ensures DistinctPublic(suite, keys)
  {
    forall i, j | 0 <= i < j < |keys|
      ensures suite.publicKey(keys[i]) != suite.publicKey(keys[j])
    {
      assert (keys + [key])[i] == keys[i] && (keys + [key])[j] == keys[j];
    }
  }

  lemma RatchetedDecryptsAlike(suite: Suite, st: SessionStructure, m: SignalMessage, ephemeral: PrivateKey,
                               ratcheted: SessionStructure)
    requires FindReceiver(st.receiverChains, m.ratchetKey).None?
    requires RatchetStep(suite, st, m.ratchetKey, ephemeral) == Ok(ratcheted)
    requires FindReceiver(ratcheted.receiverChains, m.ratchetKey).Some?
    ensures DecryptedWithState(suite, st, m, ephemeral) == DecryptedWithState(suite, ratcheted, m, ephemeral)
  {
  }

  // ------------------------------------------------------- a chain already dropped

  /** The seed of the chain a party makes up for ratchet key `j`, from its current root and key. */
  function MadeUp(setup: Setup, keys: seq<PrivateKey>, m: nat, j: nat): Bytes
    requires m < |keys| && j < |keys|
  {
    CreateChain(setup.suite, RootAt(setup, keys, m), setup.suite.publicKey(keys[j]), keys[m]).1.key
  }

  /** The MAC key under which a session checks a message, if it finds this message seed. */
  function MacKeyFor(suite: Suite, st: SessionStructure, m: SignalMessage, seed: Bytes): Option<Bytes> {
    match suite.pqReceive(st.pqState, m.pq)
    case None => None
    case Some(pq) => Some(suite.messageKdf(seed, pq.1).macKey)
  }

  /** The message is of a chain of the peer that was dropped, and its MAC happens to verify under the
      chain made up in its place. */
  ghost predicate MadeUpVerifies(setup: Setup, keys: seq<PrivateKey>, st: SessionStructure, m: nat, s: Sent) {
    && s.chain < m < |keys| && s.chain % 2 != m % 2 && !Retained(m, s.chain)
    && var seed := MessageKeyAt(setup.suite.hmac, MadeUp(setup, keys, m, s.chain), s.position).seed;
       var macKey := MacKeyFor(setup.suite, st, s.message, seed);
       macKey.Some?
       && setup.suite.mac(macKey.value, setup.Owner(s.chain), setup.Peer(s.chain), s.message.content) == s.message.mac
  }

  /** Two chains meet: different chain keys within the first `n` steps, the same next or message key. */
  ghost predicate ChainsMeet(hmac: Hmac, a: Bytes, b: Bytes, n: nat) {
    exists k: nat :: k <= n && ChainSeed(hmac, a, k) != ChainSeed(hmac, b, k)
      && (hmac(ChainSeed(hmac, a, k), CHAIN_KEY_SEED) == hmac(ChainSeed(hmac, b, k), CHAIN_KEY_SEED)
          || hmac(ChainSeed(hmac, a, k), MESSAGE_KEY_SEED) == hmac(ChainSeed(hmac, b, k), MESSAGE_KEY_SEED))
  }

  lemma {:induction false} DifferentChains(hmac: Hmac, a: Bytes, b: Bytes, n: nat, bound: nat)
    requires a != b && n <= bound && ChainSeed(hmac, a, n) == ChainSeed(hmac, b, n)
    ensures ChainsMeet(hmac, a, b, bound)
  {
    if ChainSeed(hmac, a, n - 1) == ChainSeed(hmac, b, n - 1) {
      DifferentChains(hmac, a, b, n - 1, bound);
    } else {
      assert hmac(ChainSeed(hmac, a, n - 1), CHAIN_KEY_SEED) == hmac(ChainSeed(hmac, b, n - 1), CHAIN_KEY_SEED);
    }
  }

  /** The seed made up is the peer's seed although it was derived otherwise: the handshake's chain key
      came out of the ratchet, a derivation gave one output for two inputs, or one public key agrees
      alike with two different keys. */
  ghost predicate SeedsCoincide(setup: Setup, keys: seq<PrivateKey>, m: nat, j: nat)
    requires m < |keys| && j < |keys|
  {
    MadeUp(setup, keys, m, j) == SeedAt(setup, keys, j)
    && (j > 0 ==>
          var (d1, d2) := (setup.suite.agree(keys[m], setup.suite.publicKey(keys[j])),
                           setup.suite.agree(keys[j - 1], setup.suite.publicKey(keys[j])));
          if d1 == d2 then setup.suite.publicKey(keys[m]) != setup.suite.publicKey(keys[j - 1])
          else setup.suite.ratchetKdf(RootAt(setup, keys, m), d1).1 ==
                setup.suite.ratchetKdf(RootAt(setup, keys, j - 1), d2).1)
  }

  /** A made-up chain verifies an honest message only by a coincidence on the values at hand: MACs
      under different keys are equal, a key derivation or a chain step gives one output for
      different inputs, or the seeds coincide. */
  lemma MadeUpNeedsCoincidence(setup: Setup, keys: seq<PrivateKey>, st: SessionStructure, m: nat, s: Sent)
    requires Lawful(setup.suite) && DistinctPublic(setup.suite, keys) && Honest(setup, keys, s)
    requires MadeUpVerifies(setup, keys, st, m, s)
    ensures var (suite, made, sent) := (setup.suite, MadeUp(setup, keys, m, s.chain), SeedAt(setup, keys, s.chain));
      var (a, b) := (MessageKeyAt(suite.hmac, made, s.position).seed, MessageKeyAt(suite.hmac, sent, s.position).seed);
      var (received, used) := (suite.pqReceive(st.pqState, s.message.pq), suite.messageKdf(b, s.pqKey).macKey);
      received.Some?
      && var checked := suite.messageKdf(a, received.value.1).macKey;
         (checked != used && suite.mac(checked, setup.Owner(s.chain), setup.Peer(s.chain), s.message.content)
                             == suite.mac(used, setup.Owner(s.chain), setup.Peer(s.chain), s.message.content))
         || ((a, received.value.1) != (b, s.pqKey) && checked == used)
         || ChainsMeet(suite.hmac, made, sent, s.position)
         || SeedsCoincide(setup, keys, m, s.chain)
  {
    var (suite, made, sent) := (setup.suite, MadeUp(setup, keys, m, s.chain), SeedAt(setup, keys, s.chain));
    var (a, b) := (ChainSeed(suite.hmac, made, s.position), ChainSeed(suite.hmac, sent, s.position));
    if made == sent {
      StaleDerivation(setup, keys, m, s.chain);
    } else if a == b {
      DifferentChains(suite.hmac, made, sent, s.position, s.position);
    } else if suite.hmac(a, MESSAGE_KEY_SEED) == suite.hmac(b, MESSAGE_KEY_SEED) {
      assert ChainsMeet(suite.hmac, made, sent, s.position);
    }
  }

  lemma StaleDerivation(setup: Setup, keys: seq<PrivateKey>, m: nat, j: nat)
    requires Lawful(setup.suite) && DistinctPublic(setup.suite, keys)
    requires j < m < |keys| && MadeUp(setup, keys, m, j) == SeedAt(setup, keys, j)
    ensures SeedsCoincide(setup, keys, m, j)
  {
    if j > 0 {
      var suite := setup.suite;
      assert suite.publicKey(keys[j - 1]) != suite.publicKey(keys[m]);
      assert suite.agree(keys[j], suite.publicKey(keys[j - 1])) == suite.agree(keys[j - 1], suite.publicKey(keys[j]));
    }
  }

  lemma OpensVerifies(suite: Suite, st: SessionStructure, key: MessageKey, m: SignalMessage)
    requires st.remoteIdentity.Some? && Opened(suite, st, key, m).Ok?
    ensures var macKey := MacKeyFor(suite, st, m, key.seed);
      macKey.Some? && suite.mac(macKey.value, st.remoteIdentity.value, st.localIdentity, m.content) == m.mac
  {
  }

  /** A message of a chain that is no longer retained is refused, so the state is untouched, unless its
      MAC verifies under the chain made up. */
  lemma StaleIsRefused(setup: Setup, keys: seq<PrivateKey>, st: SessionStructure, m: nat, accepted: set<(nat, int)>,
                       s: Sent, ephemeral: PrivateKey)
    requires DistinctPublic(setup.suite, keys)
    requires PartyInv(setup, keys, st, m, accepted) && Honest(setup, keys, s)
    requires s.chain < m && s.chain % 2 != m % 2 && !Retained(m, s.chain)
    ensures DecryptedWithState(setup.suite, st, s.message, ephemeral).Ok? ==> MadeUpVerifies(setup, keys, st, m, s)
  {
    hide ChainWindow, ChainsInv, ChainOf, ChainCount, Opened, TakeKey, MacKeyFor;
    FindsRetained(setup, keys, st.receiverChains, m, accepted, s.chain);
    var theirs := s.message.ratchetKey;
    var (_, made) := CreateChain(setup.suite, RootAt(setup, keys, m), theirs, keys[m]);
    var chain := ReceiverChain(theirs, made, []);
    AddedIsFound(st.receiverChains, chain);
    var ratcheted := RatchetStep(setup.suite, st, theirs, ephemeral).value;
    var i := FindReceiver(ratcheted.receiverChains, theirs).value;
    assert ratcheted.receiverChains[i] == chain;
    RatchetedDecryptsAlike(setup.suite, st, s.message, ephemeral, ratcheted);
    DecryptsOnFound(setup.suite, ratcheted, s.message, ephemeral, i);
    var taken := TakeKey(setup.suite.hmac, chain, s.position, ratcheted.WithSelf());
    if DecryptedWithState(setup.suite, st, s.message, ephemeral).Ok? {
      NewChainKey(setup.suite.hmac, theirs, made.key, s.position, ratcheted.WithSelf());
      var after := ratcheted.(receiverChains := ratcheted.receiverChains[i := taken.value.0]);
      OpensVerifies(setup.suite, after, taken.value.1, s.message);
      SamePqState(setup.suite, st, after, s.message, taken.value.1.seed);
    }
  }

  lemma SamePqState(suite: Suite, st: SessionStructure, after: SessionStructure, m: SignalMessage, seed: Bytes)
    requires after.pqState == st.pqState
    ensures MacKeyFor(suite, st, m, seed) == MacKeyFor(suite, after, m, seed)
  {
  }

  lemma NewChainKey(hmac: Hmac, theirs: PublicKey, seed: Bytes, n: u32, withSelf: bool)
    requires n < U32_MAX && TakeKey(hmac, ReceiverChain(theirs, ChainKey(seed, 0), []), n, withSelf).Ok?
    ensures TakeKey(hmac, ReceiverChain(theirs, ChainKey(seed, 0), []), n, withSelf).value.1 ==
              MessageKeyAt(hmac, seed, n)
  {
    TakeKeyKeepsWindow(hmac, seed, ReceiverChain(theirs, ChainKey(seed, 0), []), n, withSelf, {});
  }

  // ------------------------------------------------------- any honest message

  /** An honest message is readable: it starts a new chain and does not jump too far, or its chain is
      retained and the key of its position is cached or not too far ahead. */
  ghost predicate Readable(st: SessionStructure, m: nat, s: Sent)
    requires |st.receiverChains| == ChainCount(m)
  {
    if s.chain == m + 1 then s.position <= 25_000 || st.remoteIdentity == Some(st.localIdentity)
    else
      Retained(m, s.chain)
      && var chain := ChainFor(st, m, s.chain);
         if s.position < chain.chainKey.index then Has(chain.messageKeys, s.position)
         else s.position - chain.chainKey.index <= 25_000 || st.remoteIdentity == Some(st.localIdentity)
  }

  /** The party's key number after it accepted a message of chain `j`, and the keys drawn. */
  function TopAfter(m: nat, j: nat): nat { if j == m + 1 then m + 2 else m }

  function KeysAfter(keys: seq<PrivateKey>, m: nat, j: nat, ephemeral: PrivateKey): seq<PrivateKey> {
    if j == m + 1 then keys + [ephemeral] else keys
  }

  /** A readable message had not been accepted before, decrypts to what was sent where the post-quantum
      ratchets agree, and leaves the party's chains the peer's; where they do not agree it is refused,
      or its MAC verifies under the wrong key. Only the laws of agreement and decryption are needed. */
  lemma DeliverReadable(setup: Setup, keys: seq<PrivateKey>, st: SessionStructure, m: nat, accepted: set<(nat, int)>,
                        s: Sent, ephemeral: PrivateKey)
    requires Lawful(setup.suite) && DistinctPublic(setup.suite, keys + [ephemeral])
    requires PartyInv(setup, keys, st, m, accepted) && |st.receiverChains| == ChainCount(m)
    requires Honest(setup, keys, s) && s.chain % 2 != m % 2 && s.chain <= m + 1
             && (s.chain == m + 1 ==> |keys| == m + 2)
    requires Readable(st, m, s)
    ensures var r := DecryptedWithState(setup.suite, st, s.message, ephemeral);
      (s.chain, s.position) !in accepted
      && (PqAgrees(setup.suite, st, s) ==> r.Ok? && r.value.1 == s.plaintext)
      && (r.Ok? ==> PqAgrees(setup.suite, st, s) || OtherKeyVerifies(setup, keys, st, s))
      && (r.Ok? ==> PartyInv(setup, KeysAfter(keys, m, s.chain, ephemeral), r.value.0, TopAfter(m, s.chain),
                             accepted + {(s.chain, s.position)}))
  {
    hide DecryptedWithState, ChainWindow, ChainsInv, Lawful, DistinctPublic, Honest, TakeKey, RatchetStep, Has;
    PrefixDistinct(setup.suite, keys, ephemeral);
    if s.chain == m + 1 {
      var ratcheted := RatchetOnNewKey(setup, keys, st, m, accepted, s, ephemeral);
      HonestPrefix(setup, keys, ephemeral, s);
      DeliverOnRetained(setup, keys + [ephemeral], ratcheted, m + 2, accepted, s, ephemeral);
      TakeKeyIff(setup.suite.hmac, ChainFor(ratcheted, m + 2, m + 1), s.position, st.WithSelf());
      SeedPrefix(setup, keys, ephemeral, s.chain);
    } else {
      DeliverOnRetained(setup, keys, st, m, accepted, s, ephemeral);
      TakeKeyIff(setup.suite.hmac, ChainFor(st, m, s.chain), s.position, st.WithSelf());
    }
  }

  /** A message that is not readable is refused, unless it is one of a dropped chain that verifies under
      the chain made up in its place. */
  lemma UnreadableIsRefused(setup: Setup, keys: seq<PrivateKey>, st: SessionStructure, m: nat,
                            accepted: set<(nat, int)>,
                            s: Sent, ephemeral: PrivateKey)
    requires Lawful(setup.suite) && DistinctPublic(setup.suite, keys + [ephemeral])
    requires PartyInv(setup, keys, st, m, accepted) && |st.receiverChains| == ChainCount(m)
    requires Honest(setup, keys, s) && s.chain % 2 != m % 2 && s.chain <= m + 1
             && (s.chain == m + 1 ==> |keys| == m + 2)
    requires !Readable(st, m, s)
    ensures DecryptedWithState(setup.suite, st, s.message, ephemeral).Ok? ==> MadeUpVerifies(setup, keys, st, m, s)
  {
    hide DecryptedWithState, ChainWindow, ChainsInv, Lawful, DistinctPublic, Honest, TakeKey, RatchetStep, Has,
         MadeUpVerifies;
    PrefixDistinct(setup.suite, keys, ephemeral);
    if s.chain == m + 1 {
      var ratcheted := RatchetOnNewKey(setup, keys, st, m, accepted, s, ephemeral);
      HonestPrefix(setup, keys, ephemeral, s);
      DeliverOnRetained(setup, keys + [ephemeral], ratcheted, m + 2, accepted, s, ephemeral);
      TakeKeyIff(setup.suite.hmac, ChainFor(ratcheted, m + 2, m + 1), s.position, st.WithSelf());
    } else if Retained(m, s.chain) {
      DeliverOnRetained(setup, keys, st, m, accepted, s, ephemeral);
      TakeKeyIff(setup.suite.hmac, ChainFor(st, m, s.chain), s.position, st.WithSelf());
    } else {
      StaleIsRefused(setup, keys, st, m, accepted, s, ephemeral);
    }
  }

  /** Whatever honest message of the peer arrives: if it decrypts, it was readable and had not been accepted, the
      party is as it should be, and it comes out as it was sent unless its MAC verifies under another
      key; where the post-quantum ratchets agree it decrypts exactly when it is readable. The one other
      case is a coincidence on a dropped chain. */
  lemma DeliverHonest(setup: Setup, keys: seq<PrivateKey>, st: SessionStructure, m: nat, accepted: set<(nat, int)>,
                      s: Sent, ephemeral: PrivateKey)
    requires Lawful(setup.suite) && DistinctPublic(setup.suite, keys + [ephemeral])
    requires PartyInv(setup, keys, st, m, accepted) && |st.receiverChains| == ChainCount(m)
    requires Honest(setup, keys, s) && s.chain % 2 != m % 2 && s.chain <= m + 1
             && (s.chain == m + 1 ==> |keys| == m + 2)
    ensures var r := DecryptedWithState(setup.suite, st, s.message, ephemeral);
      MadeUpVerifies(setup, keys, st, m, s)
      || ((PqAgrees(setup.suite, st, s) ==> (r.Ok? <==> Readable(st, m, s)))
          && (r.Ok? ==> Readable(st, m, s) && (s.chain, s.position) !in accepted
                        && (r.value.1 == s.plaintext || OtherKeyVerifies(setup, keys, st, s))
                        && PartyInv(setup, KeysAfter(keys, m, s.chain, ephemeral), r.value.0, TopAfter(m, s.chain),
                                    accepted + {(s.chain, s.position)})))
  {
    hide DecryptedWithState, PartyInv, Lawful, DistinctPublic, Honest, Readable, MadeUpVerifies, PqAgrees,
         OtherKeyVerifies;
    if Readable(st, m, s) {
      DeliverReadable(setup, keys, st, m, accepted, s, ephemeral);
    } else {
      UnreadableIsRefused(setup, keys, st, m, accepted, s, ephemeral);
    }
  }

  /** Inside the limits an unaccepted message is readable: its chain is new and it is not too far
      along, or its chain is retained and it is at most 2,000 behind and 25,000 ahead. */
  lemma UnacceptedIsReadable(setup: Setup, keys: seq<PrivateKey>, st: SessionStructure, m: nat,
                             accepted: set<(nat, int)>, s: Sent)
    requires PartyInv(setup, keys, st, m, accepted) && |st.receiverChains| == ChainCount(m)
    requires (s.chain, s.position) !in accepted
    requires if s.chain == m + 1 then s.position <= 25_000
             else Retained(m, s.chain)
                  && ChainFor(st, m, s.chain).chainKey.index - 2_000 <= s.position
                     <= ChainFor(st, m, s.chain).chainKey.index + 25_000
    ensures Readable(st, m, s)
  {
    if s.chain != m + 1 {
      RatchetKeyOf(setup, keys, st.receiverChains, m, accepted, PlaceOf(m, s.chain));
      UsedIs(accepted, s.chain, s.position);
    }
  }

  /** An accepted message of a retained chain is refused as a duplicate. */
  lemma AcceptedIsDuplicate(setup: Setup, keys: seq<PrivateKey>, st: SessionStructure, m: nat,
                            accepted: set<(nat, int)>,
                            s: Sent, ephemeral: PrivateKey)
    requires Lawful(setup.suite) && DistinctPublic(setup.suite, keys)
    requires PartyInv(setup, keys, st, m, accepted) && Honest(setup, keys, s) && Retained(m, s.chain)
    requires (s.chain, s.position) in accepted
    ensures DecryptedWithState(setup.suite, st, s.message, ephemeral) == Err(DuplicatedMessage)
  {
    DeliverOnRetained(setup, keys, st, m, accepted, s, ephemeral);
    RatchetKeyOf(setup, keys, st.receiverChains, m, accepted, PlaceOf(m, s.chain));
    UsedIs(accepted, s.chain, s.position);
    TakeKeyIff(setup.suite.hmac, ChainFor(st, m, s.chain), s.position, st.WithSelf());
  }
}
