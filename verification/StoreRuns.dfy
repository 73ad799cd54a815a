/** Following the sessions with one peer through any run of store operations: which chains each session
    received on, where each chain started and which of its indices were handed out. */
module StoreRuns {
  import opened Wrappers
  import opened Bytes
  import opened KdfChain
  import opened RatchetKeys
  import opened RatchetInit
  import opened SessionStates
  import opened SessionCipher
  import opened MessageKeyWindow
  import opened PairwiseStore
  import opened PairwiseProperties

  /** The seed of a receiver chain, the position it was walked to, the positions of its cached keys, and
      the positions handed out since it was made, in order. */
  datatype ChainHistory = ChainHistory(seed: Bytes, position: nat, cached: seq<nat>, taken: seq<nat>)

  /** A session with a name of its own and the history of each of its receiver chains. */
  datatype Followed = Followed(id: nat, session: SessionStructure, chains: seq<ChainHistory>)

  datatype FollowedRecord = FollowedRecord(current: Option<Followed>, previous: seq<Followed>)

  // ------------------------------------------------------- one session

  ghost predicate DistinctRatchetKeys(chains: seq<ReceiverChain>) {
    forall i, j :: 0 <= i < j < |chains| ==> chains[i].ratchetKey != chains[j].ratchetKey
  }

  function Positions(taken: seq<nat>): set<int> {
    set n: int | n in taken
  }

  ghost predicate Distinct(taken: seq<nat>) {
    forall i, j :: 0 <= i < j < |taken| ==> taken[i] != taken[j]
  }

  /** The chain is the KDF chain of its seed, has the window invariant for the positions it really handed
      out, and handed out none twice. */
  ghost predicate HistoryIs(hmac: Hmac, chain: ReceiverChain, h: ChainHistory) {
    WindowAt(hmac, h.seed, chain, h.cached, h.position, Positions(h.taken)) && Distinct(h.taken)
  }

  ghost predicate ChainsFollowed(hmac: Hmac, chains: seq<ReceiverChain>, histories: seq<ChainHistory>) {
    && |histories| == |chains| <= 5 && DistinctRatchetKeys(chains)
    && forall i :: 0 <= i < |chains| ==> HistoryIs(hmac, chains[i], histories[i])
  }

  function NewHistory(seed: Bytes): ChainHistory {
    ChainHistory(seed, 0, [], [])
  }

  /** The history after the chain handed out the key for a counter. */
  function Taken(chain: ReceiverChain, h: ChainHistory, n: u32): ChainHistory {
    var p := PositionFor(chain, h.cached, h.position, n);
    ChainHistory(h.seed, Later(h.position, p), CachedAfter(chain, h.cached, h.position, n), h.taken + [p])
  }

  /** Exactly one more position was handed out, a new one, and it carries the index `n`. */
  predicate TookOne(h: ChainHistory, now: ChainHistory, n: int) {
    && now.seed == h.seed && h.position <= now.position
    && |now.taken| == |h.taken| + 1 && now.taken[..|h.taken|] == h.taken
    && now.taken[|h.taken|] !in h.taken && now.taken[|h.taken|] % TWO_TO_32 == n
  }

  ghost predicate WellFollowed(hmac: Hmac, f: Followed) {
    ChainsFollowed(hmac, f.session.receiverChains, f.chains)
  }

  /** The history of the chain for a ratchet key. */
  function HistoryFor(f: Followed, theirs: PublicKey): Option<ChainHistory> {
    match FindReceiver(f.session.receiverChains, theirs)
    case None => None
    case Some(i) => if i < |f.chains| then Some(f.chains[i]) else None
  }

  /** Histories move like the chains: a new one at the end, the oldest beyond the limit dropped. */
  function AddHistory(histories: seq<ChainHistory>, h: ChainHistory): seq<ChainHistory> {
    var longer := histories + [h];
    if |longer| > MAX_RECEIVER_CHAINS then longer[1..] else longer
  }

  /** The seed of the chain a ratchet step makes. */
  function MadeSeed(suite: Suite, st: SessionStructure, theirs: PublicKey): Bytes {
    if st.rootKey.None? || st.senderChain.None? then []
    else CreateChain(suite, st.rootKey.value, theirs, st.senderChain.value.ratchetPrivate).1.key
  }

  function NewReceiver(suite: Suite, st: SessionStructure, theirs: PublicKey): ReceiverChain {
    ReceiverChain(theirs, ChainKey(MadeSeed(suite, st, theirs), 0), [])
  }

  /** The session and its histories after it decrypted a message. */
  function AfterDecrypting(suite: Suite, f: Followed, m: SignalMessage, ephemeral: PrivateKey): Followed
    requires DecryptedWithState(suite, f.session, m, ephemeral).Ok?
  {
    var session := DecryptedWithState(suite, f.session, m, ephemeral).value.0;
    var histories :=
      match FindReceiver(f.session.receiverChains, m.ratchetKey)
      case Some(i) =>
        if i < |f.chains| then f.chains[i := Taken(f.session.receiverChains[i], f.chains[i], m.counter)] else f.chains
      case None =>
        var made := NewReceiver(suite, f.session, m.ratchetKey);
        AddHistory(f.chains, Taken(made, NewHistory(made.chainKey.key), m.counter));
    Followed(f.id, session, histories)
  }

  lemma TakenIs(hmac: Hmac, chain: ReceiverChain, h: ChainHistory, n: u32, withSelf: bool)
    requires HistoryIs(hmac, chain, h) && TakeKey(hmac, chain, n, withSelf).Ok?
    ensures HistoryIs(hmac, TakeKey(hmac, chain, n, withSelf).value.0, Taken(chain, h, n))
            && TookOne(h, Taken(chain, h, n), n)
    ensures TakeKey(hmac, chain, n, withSelf).value.0.ratchetKey == chain.ratchetKey
  {
    hide TakeKey, WindowAt, PositionFor, CachedAfter, Positions;
    TakeKeyKeepsPositions(hmac, h.seed, chain, n, withSelf, h.cached, h.position, Positions(h.taken));
    var p := PositionFor(chain, h.cached, h.position, n);
    PositionsGrow(h.taken, p);
  }

  lemma PositionsGrow(taken: seq<nat>, p: nat)
    ensures Positions(taken + [p]) == Positions(taken) + {p as int}
    ensures p as int in Positions(taken) <==> p in taken
  {
  }

  /** A position handed out is new to the history of its chain and then in it. */
  lemma TakeIsFollowed(hmac: Hmac, chains: seq<ReceiverChain>, histories: seq<ChainHistory>, i: nat, n: u32,
                       withSelf: bool)
    requires ChainsFollowed(hmac, chains, histories) && i < |chains| && TakeKey(hmac, chains[i], n, withSelf).Ok?
    ensures var chain := TakeKey(hmac, chains[i], n, withSelf).value.0;
      TookOne(histories[i], Taken(chains[i], histories[i], n), n)
      && FindReceiver(chains[i := chain], chains[i].ratchetKey) == Some(i)
      && ChainsFollowed(hmac, chains[i := chain], histories[i := Taken(chains[i], histories[i], n)])
  {
    hide TakeKey, HistoryIs, Taken, TookOne;
    TakenIs(hmac, chains[i], histories[i], n, withSelf);
    var after := chains[i := TakeKey(hmac, chains[i], n, withSelf).value.0];
    var k := FindReceiver(after, chains[i].ratchetKey);
    assert after[i].ratchetKey == chains[i].ratchetKey;
  }

  lemma AddIsFollowed(hmac: Hmac, chains: seq<ReceiverChain>, histories: seq<ChainHistory>, theirs: PublicKey,
                      seed: Bytes)
    requires ChainsFollowed(hmac, chains, histories) && FindReceiver(chains, theirs).None?
    ensures var after := AddReceiver(chains, ReceiverChain(theirs, ChainKey(seed, 0), []));
      ChainsFollowed(hmac, after, AddHistory(histories, NewHistory(seed)))
      && FindReceiver(after, theirs) == Some(|after| - 1)
  {
    hide HistoryIs, FindReceiver;
    NewChainIsFollowed(hmac, seed, theirs);
    AddedIsFound(chains, ReceiverChain(theirs, ChainKey(seed, 0), []));
  }

  lemma NewChainIsFollowed(hmac: Hmac, seed: Bytes, theirs: PublicKey)
    ensures HistoryIs(hmac, ReceiverChain(theirs, ChainKey(seed, 0), []), NewHistory(seed))
  {
  }

  /** Decrypting hands out a key of the chain found, or of the chain just made. */
  lemma TakenOnFound(suite: Suite, st: SessionStructure, m: SignalMessage, ephemeral: PrivateKey, i: nat)
    requires DecryptedWithState(suite, st, m, ephemeral).Ok? && FindReceiver(st.receiverChains, m.ratchetKey) == Some(i)
    ensures TakeKey(suite.hmac, st.receiverChains[i], m.counter, st.WithSelf()).Ok?
    ensures DecryptedWithState(suite, st, m, ephemeral).value.0.receiverChains
         == st.receiverChains[i := TakeKey(suite.hmac, st.receiverChains[i], m.counter, st.WithSelf()).value.0]
  {
    hide TakeKey;
  }

  lemma TakenOnMade(suite: Suite, st: SessionStructure, m: SignalMessage, ephemeral: PrivateKey,
                    chains: seq<ReceiverChain>)
    requires DecryptedWithState(suite, st, m, ephemeral).Ok? && FindReceiver(st.receiverChains, m.ratchetKey).None?
    requires chains == AddReceiver(st.receiverChains, NewReceiver(suite, st, m.ratchetKey))
    requires FindReceiver(chains, m.ratchetKey) == Some(|chains| - 1)
    ensures TakeKey(suite.hmac, chains[|chains| - 1], m.counter, st.WithSelf()).Ok?
    ensures DecryptedWithState(suite, st, m, ephemeral).value.0.receiverChains
         == chains[|chains| - 1 := TakeKey(suite.hmac, chains[|chains| - 1], m.counter, st.WithSelf()).value.0]
  {
    hide TakeKey, AddReceiver;
  }

  lemma KnownIsFollowed(suite: Suite, f: Followed, m: SignalMessage, ephemeral: PrivateKey, i: nat)
    requires WellFollowed(suite.hmac, f) && DecryptedWithState(suite, f.session, m, ephemeral).Ok?
    requires FindReceiver(f.session.receiverChains, m.ratchetKey) == Some(i)
    ensures i < |f.chains|
    ensures var after := AfterDecrypting(suite, f, m, ephemeral);
      WellFollowed(suite.hmac, after) && HistoryFor(after, m.ratchetKey).Some?
      && TookOne(f.chains[i], HistoryFor(after, m.ratchetKey).value, m.counter)
  {
    hide TakeKey, DecryptedWithState, HistoryIs, FindReceiver, Taken, TookOne;
    TakenOnFound(suite, f.session, m, ephemeral, i);
    TakeIsFollowed(suite.hmac, f.session.receiverChains, f.chains, i, m.counter, f.session.WithSelf());
  }

  lemma MadeIsFollowed(suite: Suite, f: Followed, m: SignalMessage, ephemeral: PrivateKey)
    requires WellFollowed(suite.hmac, f) && DecryptedWithState(suite, f.session, m, ephemeral).Ok?
    requires FindReceiver(f.session.receiverChains, m.ratchetKey).None?
    ensures var after := AfterDecrypting(suite, f, m, ephemeral);
      WellFollowed(suite.hmac, after) && HistoryFor(after, m.ratchetKey).Some?
      && TookOne(NewHistory(MadeSeed(suite, f.session, m.ratchetKey)), HistoryFor(after, m.ratchetKey).value, m.counter)
  {
    hide TakeKey, DecryptedWithState, ChainsFollowed, AddReceiver, MadeSeed, FindReceiver, Taken, TookOne;
    var st, made := f.session, NewReceiver(suite, f.session, m.ratchetKey);
    var chains, histories := AddReceiver(st.receiverChains, made), AddHistory(f.chains, NewHistory(made.chainKey.key));
    AddIsFollowed(suite.hmac, st.receiverChains, f.chains, m.ratchetKey, made.chainKey.key);
    SameLengths(suite.hmac, chains, histories);
    SameLengths(suite.hmac, st.receiverChains, f.chains);
    LastAdded(st.receiverChains, f.chains, made, NewHistory(made.chainKey.key),
              Taken(made, NewHistory(made.chainKey.key), m.counter));
    TakenOnMade(suite, st, m, ephemeral, chains);
    TakeIsFollowed(suite.hmac, chains, histories, |chains| - 1, m.counter, st.WithSelf());
  }

  lemma SameLengths(hmac: Hmac, chains: seq<ReceiverChain>, histories: seq<ChainHistory>)
    requires ChainsFollowed(hmac, chains, histories)
    ensures |chains| == |histories|
  {
  }

  lemma LastAdded(chains: seq<ReceiverChain>, histories: seq<ChainHistory>, made: ReceiverChain, h: ChainHistory,
                  after: ChainHistory)
    requires |chains| == |histories|
    ensures var added := AddHistory(histories, h);
      |AddReceiver(chains, made)| == |added| > 0 && AddReceiver(chains, made)[|added| - 1] == made
      && added[|added| - 1] == h && AddHistory(histories, after) == added[|added| - 1 := after]
  {
  }

  /** Decrypting hands out a position of a chain that was not handed out before, and records it. */
  lemma DecryptIsFollowed(suite: Suite, f: Followed, m: SignalMessage, ephemeral: PrivateKey)
    requires WellFollowed(suite.hmac, f) && DecryptedWithState(suite, f.session, m, ephemeral).Ok?
    ensures var (h, after) := (HistoryFor(f, m.ratchetKey), AfterDecrypting(suite, f, m, ephemeral));
      WellFollowed(suite.hmac, after) && HistoryFor(after, m.ratchetKey).Some?
      && TookOne(if h.Some? then h.value else NewHistory(MadeSeed(suite, f.session, m.ratchetKey)),
                 HistoryFor(after, m.ratchetKey).value, m.counter)
  {
    hide DecryptedWithState, ChainsFollowed, MadeSeed, AfterDecrypting, TookOne;
    match FindReceiver(f.session.receiverChains, m.ratchetKey) {
      case Some(i) => KnownIsFollowed(suite, f, m, ephemeral, i);
      case None => MadeIsFollowed(suite, f, m, ephemeral);
    }
  }

  lemma KnownOthersStay(suite: Suite, f: Followed, m: SignalMessage, ephemeral: PrivateKey, theirs: PublicKey, i: nat)
    requires WellFollowed(suite.hmac, f) && DecryptedWithState(suite, f.session, m, ephemeral).Ok?
    requires FindReceiver(f.session.receiverChains, m.ratchetKey) == Some(i) && theirs != m.ratchetKey
    ensures HistoryFor(AfterDecrypting(suite, f, m, ephemeral), theirs).Some? ==>
              HistoryFor(AfterDecrypting(suite, f, m, ephemeral), theirs) == HistoryFor(f, theirs)
  {
    hide TakeKey, DecryptedWithState, HistoryIs, FindReceiver, Taken;
    TakenOnFound(suite, f.session, m, ephemeral, i);
    KeepsRatchetKey(suite.hmac, f.session.receiverChains[i], m.counter, f.session.WithSelf());
    var after := AfterDecrypting(suite, f, m, ephemeral).session.receiverChains;
    if FindReceiver(after, theirs).Some? {
      SameFound(f.session.receiverChains, after, theirs, 0);
    }
  }

  lemma KeepsRatchetKey(hmac: Hmac, chain: ReceiverChain, n: u32, withSelf: bool)
    requires TakeKey(hmac, chain, n, withSelf).Ok?
    ensures TakeKey(hmac, chain, n, withSelf).value.0.ratchetKey == chain.ratchetKey
  {
  }

  lemma MadeOthersStay(suite: Suite, f: Followed, m: SignalMessage, ephemeral: PrivateKey, theirs: PublicKey)
    requires WellFollowed(suite.hmac, f) && DecryptedWithState(suite, f.session, m, ephemeral).Ok?
    requires FindReceiver(f.session.receiverChains, m.ratchetKey).None? && theirs != m.ratchetKey
    ensures HistoryFor(AfterDecrypting(suite, f, m, ephemeral), theirs).Some? ==>
              HistoryFor(AfterDecrypting(suite, f, m, ephemeral), theirs) == HistoryFor(f, theirs)
  {
    hide TakeKey, DecryptedWithState, HistoryIs, MadeSeed, FindReceiver, Taken, AddReceiver, AddHistory,
         DistinctRatchetKeys;
    var st := f.session;
    var made := NewReceiver(suite, st, m.ratchetKey);
    AddedIsFound(st.receiverChains, made);
    TakenOnMade(suite, st, m, ephemeral, AddReceiver(st.receiverChains, made));
    KeepsRatchetKey(suite.hmac, made, m.counter, st.WithSelf());
    OthersShift(st.receiverChains, f.chains, made, TakeKey(suite.hmac, made, m.counter, st.WithSelf()).value.0,
                Taken(made, NewHistory(made.chainKey.key), m.counter), theirs);
  }

  /** A new chain leaves every other chain it keeps with its history. */
  lemma OthersShift(chains: seq<ReceiverChain>, histories: seq<ChainHistory>, made: ReceiverChain, last: ReceiverChain,
                    h: ChainHistory, theirs: PublicKey)
    requires |chains| == |histories| <= MAX_RECEIVER_CHAINS && DistinctRatchetKeys(chains)
    requires FindReceiver(chains, made.ratchetKey).None? && last.ratchetKey == made.ratchetKey != theirs
    ensures var added := AddReceiver(chains, made);
      |added| > 0 && added[|added| - 1] == made && |AddHistory(histories, h)| == |added|
      && var (before, after) := (FindReceiver(chains, theirs), FindReceiver(added[|added| - 1 := last], theirs));
         after.Some? ==> before.Some? && after.value < |added|
                         && AddHistory(histories, h)[after.value] == histories[before.value]
  {
    hide FindReceiver;
    var added := AddReceiver(chains, made);
    var after, dropped := added[|added| - 1 := last], if |chains| < MAX_RECEIVER_CHAINS then 0 else 1;
    if FindReceiver(after, theirs).Some? {
      SameFound(chains + [made], after, theirs, dropped);
      var k := FindReceiver(after, theirs).value;
      assert (chains + [made])[k + dropped].ratchetKey == theirs;
      StillFound(chains, made, theirs, k + dropped);
    }
  }

  lemma StillFound(chains: seq<ReceiverChain>, made: ReceiverChain, theirs: PublicKey, k: nat)
    requires FindReceiver(chains + [made], theirs) == Some(k) && made.ratchetKey != theirs
    ensures FindReceiver(chains, theirs) == Some(k)
  {
    hide FindReceiver;
    assert (chains + [made])[k] == chains[k];
    var found := FindReceiver(chains, theirs);
    assert (chains + [made])[found.value] == chains[found.value];
  }

  /** And it leaves the history of every other chain it keeps as it was. */
  lemma OtherHistoriesStay(suite: Suite, f: Followed, m: SignalMessage, ephemeral: PrivateKey, theirs: PublicKey)
    requires WellFollowed(suite.hmac, f) && DecryptedWithState(suite, f.session, m, ephemeral).Ok?
    requires theirs != m.ratchetKey && HistoryFor(AfterDecrypting(suite, f, m, ephemeral), theirs).Some?
    ensures HistoryFor(AfterDecrypting(suite, f, m, ephemeral), theirs) == HistoryFor(f, theirs)
  {
    hide DecryptedWithState, ChainsFollowed, AfterDecrypting;
    match FindReceiver(f.session.receiverChains, m.ratchetKey) {
      case Some(i) => KnownOthersStay(suite, f, m, ephemeral, theirs, i);
      case None => MadeOthersStay(suite, f, m, ephemeral, theirs);
    }
  }

  /** A ratchet key is found at its only place, also after the first `dropped` chains went. */
  lemma SameFound(chains: seq<ReceiverChain>, after: seq<ReceiverChain>, theirs: PublicKey, dropped: nat)
    requires dropped <= |chains| && |after| == |chains| - dropped
    requires forall i :: 0 <= i < |after| ==> after[i].ratchetKey == chains[i + dropped].ratchetKey
    requires DistinctRatchetKeys(chains) && FindReceiver(after, theirs).Some?
    ensures FindReceiver(chains, theirs) == Some(FindReceiver(after, theirs).value + dropped)
  {
    hide FindReceiver;
    var k := FindReceiver(after, theirs).value;
    assert chains[k + dropped].ratchetKey == theirs;
  }

  // ------------------------------------------------------- the sessions of a record

  function Sessions(fs: seq<Followed>): (r: seq<SessionStructure>)
    ensures |r| == |fs|
  {
    seq(|fs|, i requires 0 <= i < |fs| => fs[i].session)
  }

  /** The record without names and histories. */
  function Plain(r: FollowedRecord): RecordStructure {
    RecordStructure(if r.current.Some? then Some(r.current.value.session) else None, Sessions(r.previous))
  }

  function All(r: FollowedRecord): seq<Followed> {
    (if r.current.Some? then [r.current.value] else []) + r.previous
  }

  /** All sessions are well followed, under distinct names below `next`, and at most 40 are archived. */
  ghost predicate WellRecorded(hmac: Hmac, r: FollowedRecord, next: nat) {
    && |r.previous| <= 40
    && (forall f :: f in All(r) ==> WellFollowed(hmac, f) && f.id < next)
    && forall i, j :: 0 <= i < j < |All(r)| ==> All(r)[i].id != All(r)[j].id
  }

  /** The session of a name. */
  function FindId(fs: seq<Followed>, id: nat): (r: Option<Followed>)
    ensures r.Some? ==> r.value in fs && r.value.id == id
    ensures r.None? ==> forall f :: f in fs ==> f.id != id
  {
    if fs == [] then None else if fs[0].id == id then Some(fs[0]) else FindId(fs[1..], id)
  }

  /** The history of the chain for a ratchet key in the session of a name. */
  function HistoryOf(r: FollowedRecord, id: nat, theirs: PublicKey): Option<ChainHistory> {
    match FindId(All(r), id)
    case None => None
    case Some(f) => HistoryFor(f, theirs)
  }

  lemma FindsHeld(hmac: Hmac, r: FollowedRecord, next: nat, f: Followed)
    requires WellRecorded(hmac, r, next) && f in All(r)
    ensures FindId(All(r), f.id) == Some(f)
  {
    hide WellFollowed, FindId;
    var found := FindId(All(r), f.id).value;
    var i :| 0 <= i < |All(r)| && All(r)[i] == f;
    var j :| 0 <= j < |All(r)| && All(r)[j] == found;
  }

  /** Nothing about receiving changed. */
  predicate SameChains(f: Followed, g: Followed) {
    f.id == g.id && f.chains == g.chains && f.session.receiverChains == g.session.receiverChains
  }

  /** The sessions of `after` are those of `r`, one of them possibly new, received on as before. */
  ghost predicate Rearranged(r: FollowedRecord, after: FollowedRecord, added: set<Followed>) {
    forall g :: g in All(after) ==> g in added || exists f :: f in All(r) && SameChains(f, g)
  }

  function Acked(f: Followed): Followed {
    f.(session := f.session.Acknowledged())
  }

  function FollowedPromoted(r: FollowedRecord, f: Followed): FollowedRecord {
    match r.current
    case None => FollowedRecord(Some(f), r.previous)
    case Some(replaced) =>
      var room := if |r.previous| >= ARCHIVED_STATES_MAX_LENGTH then r.previous[..|r.previous| - 1] else r.previous;
      FollowedRecord(Some(f), [Acked(replaced)] + room)
  }

  function Removed(r: FollowedRecord, i: nat): FollowedRecord
    requires i < |r.previous|
  {
    r.(previous := Without(r.previous, i))
  }

  lemma PlainPromoted(r: FollowedRecord, f: Followed)
    ensures Plain(FollowedPromoted(r, f)) == Promoted(Plain(r), f.session)
  {
  }

  lemma PlainRemoved(r: FollowedRecord, i: nat)
    requires i < |r.previous|
    ensures Plain(Removed(r, i)) == Plain(r).(previous := Without(Plain(r).previous, i))
  {
  }

  lemma AckedIsFollowed(hmac: Hmac, f: Followed)
    ensures WellFollowed(hmac, Acked(f)) == WellFollowed(hmac, f) && SameChains(f, Acked(f))
  {
  }

  /** Making a session current, under a name no other session has. */
  lemma PromotedIsRecorded(hmac: Hmac, r: FollowedRecord, f: Followed, next: nat)
    requires WellRecorded(hmac, r, next) && WellFollowed(hmac, f) && f.id < next
             && forall g :: g in All(r) ==> g.id != f.id
    ensures WellRecorded(hmac, FollowedPromoted(r, f), next)
    ensures Rearranged(r, FollowedPromoted(r, f), {f})
    ensures forall g :: g in All(FollowedPromoted(r, f)) && g != f ==> g.id != f.id
  {
    hide WellFollowed;
    var after := FollowedPromoted(r, f);
    if r.current.Some? {
      AckedIsFollowed(hmac, r.current.value);
    }
    forall k | 0 < k < |All(after)|
      ensures SameChains(All(r)[k - 1], All(after)[k]) && WellFollowed(hmac, All(after)[k])
    {
      assert All(after)[k] == (if k == 1 && r.current.Some? then Acked(All(r)[0]) else All(r)[k - 1]);
    }
  }

  lemma AllRemoved(r: FollowedRecord, i: nat)
    requires i < |r.previous|
    ensures var k := i + (if r.current.Some? then 1 else 0);
      k < |All(r)| && All(r)[k] == r.previous[i] && All(Removed(r, i)) == Without(All(r), k)
  {
    var k := i + (if r.current.Some? then 1 else 0);
    var (list, rest) := (All(r), All(Removed(r, i)));
    assert forall j :: 0 <= j < |rest| ==> rest[j] == Without(list, k)[j];
  }

  lemma RemovedIsRecorded(hmac: Hmac, r: FollowedRecord, i: nat, next: nat)
    requires WellRecorded(hmac, r, next) && i < |r.previous|
    ensures WellRecorded(hmac, Removed(r, i), next) && r.previous[i] in All(r)
    ensures Rearranged(r, Removed(r, i), {}) && forall g :: g in All(Removed(r, i)) ==> g.id != r.previous[i].id
  {
    hide WellFollowed, All;
    AllRemoved(r, i);
    var k := i + (if r.current.Some? then 1 else 0);
    var (list, rest) := (All(r), All(Removed(r, i)));
    forall j | 0 <= j < |rest|
      ensures rest[j] == list[if j < k then j else j + 1] && SameChains(rest[j], rest[j])
    {
    }
  }

  // ------------------------------------------------------- decrypting with a record

  /** The record after it decrypted a message. */
  function AfterRecord(suite: Suite, r: FollowedRecord, m: SignalMessage, isPreKey: bool,
                       ephemeral: nat -> PrivateKey): FollowedRecord
    requires DecryptedWithRecord(suite, Plain(r), m, isPreKey, ephemeral).Ok?
  {
    if r.current.Some? && DecryptedWithState(suite, r.current.value.session, m, ephemeral(0)).Ok? then
      r.(current := Some(AfterDecrypting(suite, r.current.value, m, ephemeral(0))))
    else
      var i := TryPrevious(suite, Plain(r).previous, m, ephemeral, 0).value.0;
      SearchYields(suite, Plain(r).previous, m, ephemeral, 0);
      FollowedPromoted(Removed(r, i), AfterDecrypting(suite, r.previous[i], m, ephemeral(i + 1)))
  }

  /** The session `f` of `r` decrypted the message and is now current in `after`; no other changed. */
  ghost predicate DecryptedBy(suite: Suite, r: FollowedRecord, after: FollowedRecord, m: SignalMessage, f: Followed,
                              ephemeral: PrivateKey) {
    && f in All(r) && DecryptedWithState(suite, f.session, m, ephemeral).Ok?
    && after.current == Some(AfterDecrypting(suite, f, m, ephemeral))
    && Rearranged(r, after, {after.current.value})
  }

  lemma RearrangedTwice(r: FollowedRecord, between: FollowedRecord, after: FollowedRecord, added: set<Followed>)
    requires Rearranged(r, between, {}) && Rearranged(between, after, added)
    ensures Rearranged(r, after, added)
  {
    forall g | g in All(after) && g !in added
      ensures exists f :: f in All(r) && SameChains(f, g)
    {
      var b :| b in All(between) && SameChains(b, g);
      var f :| f in All(r) && SameChains(f, b);
      assert SameChains(f, g);
    }
  }

  lemma CurrentIsFollowed(suite: Suite, r: FollowedRecord, m: SignalMessage, ephemeral: PrivateKey, next: nat)
    requires WellRecorded(suite.hmac, r, next) && r.current.Some?
    requires DecryptedWithState(suite, r.current.value.session, m, ephemeral).Ok?
    ensures var after := r.(current := Some(AfterDecrypting(suite, r.current.value, m, ephemeral)));
      WellRecorded(suite.hmac, after, next) && DecryptedBy(suite, r, after, m, r.current.value, ephemeral)
  {
    hide WellFollowed, DecryptedWithState;
    DecryptIsFollowed(suite, r.current.value, m, ephemeral);
    var after := r.(current := Some(AfterDecrypting(suite, r.current.value, m, ephemeral)));
    assert All(r)[0] == r.current.value;
    forall k | 0 < k < |All(after)|
      ensures All(after)[k] == All(r)[k] && SameChains(All(r)[k], All(after)[k])
    {
    }
  }

  lemma ArchivedIsFollowed(suite: Suite, r: FollowedRecord, i: nat, m: SignalMessage, ephemeral: PrivateKey, next: nat)
    requires WellRecorded(suite.hmac, r, next) && i < |r.previous|
    requires DecryptedWithState(suite, r.previous[i].session, m, ephemeral).Ok?
    ensures var after := FollowedPromoted(Removed(r, i), AfterDecrypting(suite, r.previous[i], m, ephemeral));
      WellRecorded(suite.hmac, after, next) && DecryptedBy(suite, r, after, m, r.previous[i], ephemeral)
  {
    hide WellFollowed, DecryptedWithState, WellRecorded, Rearranged;
    RemovedIsRecorded(suite.hmac, r, i, next);
    HeldIsFollowed(suite.hmac, r, r.previous[i], next);
    DecryptIsFollowed(suite, r.previous[i], m, ephemeral);
    var f := AfterDecrypting(suite, r.previous[i], m, ephemeral);
    PromotedIsRecorded(suite.hmac, Removed(r, i), f, next);
    RearrangedTwice(r, Removed(r, i), FollowedPromoted(Removed(r, i), f), {f});
  }

  lemma HeldIsFollowed(hmac: Hmac, r: FollowedRecord, f: Followed, next: nat)
    requires WellRecorded(hmac, r, next) && f in All(r)
    ensures WellFollowed(hmac, f) && f.id < next
  {
  }

  /** A record that decrypts stays well recorded, and one of its sessions did it. */
  lemma RecordIsFollowed(suite: Suite, r: FollowedRecord, m: SignalMessage, isPreKey: bool,
                         ephemeral: nat -> PrivateKey, next: nat)
      returns (f: Followed, drawn: PrivateKey)
    requires WellRecorded(suite.hmac, r, next)
    requires DecryptedWithRecord(suite, Plain(r), m, isPreKey, ephemeral).Ok?
    ensures var after := AfterRecord(suite, r, m, isPreKey, ephemeral);
      Plain(after) == DecryptedWithRecord(suite, Plain(r), m, isPreKey, ephemeral).value.0
      && WellRecorded(suite.hmac, after, next) && DecryptedBy(suite, r, after, m, f, drawn)
    ensures DecryptedWithState(suite, f.session, m, drawn).Ok?
    ensures DecryptedWithRecord(suite, Plain(r), m, isPreKey, ephemeral).value.1
         == DecryptedWithState(suite, f.session, m, drawn).value.1
  {
    hide WellRecorded, DecryptedBy, DecryptedWithState, TryPrevious;
    if r.current.Some? && DecryptedWithState(suite, r.current.value.session, m, ephemeral(0)).Ok? {
      f, drawn := r.current.value, ephemeral(0);
      CurrentIsFollowed(suite, r, m, drawn, next);
    } else {
      var i := TryPrevious(suite, Plain(r).previous, m, ephemeral, 0).value.0;
      SearchYields(suite, Plain(r).previous, m, ephemeral, 0);
      f, drawn := r.previous[i], ephemeral(i + 1);
      ArchivedIsFollowed(suite, r, i, m, drawn, next);
      PlainRemoved(r, i);
      PlainPromoted(Removed(r, i), AfterDecrypting(suite, f, m, drawn));
    }
  }

  /** A session that was only moved has its history as before. */
  lemma MovedHistory(hmac: Hmac, r: FollowedRecord, after: FollowedRecord, added: set<Followed>, next: nat, id: nat,
                     theirs: PublicKey)
    requires WellRecorded(hmac, r, next) && Rearranged(r, after, added) && forall g :: g in added ==> g.id != id
    requires HistoryOf(after, id, theirs).Some?
    ensures HistoryOf(after, id, theirs) == HistoryOf(r, id, theirs)
  {
    hide WellFollowed, FindId, FindReceiver;
    var g := FindId(All(after), id).value;
    var f :| f in All(r) && SameChains(f, g);
    FindsHeld(hmac, r, next, f);
  }

  /** Decrypting records its position under the session that did it, where it is new; no other history
      changes. */
  lemma DecryptedHistory(suite: Suite, r: FollowedRecord, after: FollowedRecord, m: SignalMessage, f: Followed,
                         drawn: PrivateKey, next: nat)
    requires WellRecorded(suite.hmac, r, next) && WellRecorded(suite.hmac, after, next)
    requires DecryptedBy(suite, r, after, m, f, drawn)
    ensures var (before, now) := (HistoryOf(r, f.id, m.ratchetKey), HistoryOf(after, f.id, m.ratchetKey));
      now.Some?
      && TookOne(if before.Some? then before.value
                 else NewHistory(MadeSeed(suite, f.session, m.ratchetKey)), now.value, m.counter)
    ensures after.current.value.id == f.id
  {
    hide WellFollowed, DecryptedWithState, AfterDecrypting, FindId, FindReceiver, Rearranged, TookOne, MadeSeed;
    HeldIsFollowed(suite.hmac, r, f, next);
    DecryptIsFollowed(suite, f, m, drawn);
    FindsHeld(suite.hmac, r, next, f);
    SameName(suite, f, m, drawn);
    assert after.current.value == All(after)[0];
    FindsHeld(suite.hmac, after, next, after.current.value);
  }

  lemma SameName(suite: Suite, f: Followed, m: SignalMessage, ephemeral: PrivateKey)
    requires DecryptedWithState(suite, f.session, m, ephemeral).Ok?
    ensures AfterDecrypting(suite, f, m, ephemeral).id == f.id
  {
    hide DecryptedWithState;
  }

  lemma UntouchedHistory(suite: Suite, r: FollowedRecord, after: FollowedRecord, m: SignalMessage, f: Followed,
                         drawn: PrivateKey, next: nat,
                         id: nat, theirs: PublicKey)
    requires WellRecorded(suite.hmac, r, next) && WellRecorded(suite.hmac, after, next)
    requires DecryptedBy(suite, r, after, m, f, drawn) && (id != f.id || theirs != m.ratchetKey)
    requires HistoryOf(after, id, theirs).Some?
    ensures HistoryOf(after, id, theirs) == HistoryOf(r, id, theirs)
  {
    hide WellFollowed, DecryptedWithState, AfterDecrypting, FindId, FindReceiver, Rearranged;
    SameName(suite, f, m, drawn);
    if id == f.id {
      HeldIsFollowed(suite.hmac, r, f, next);
      FindsHeld(suite.hmac, r, next, f);
      assert after.current.value == All(after)[0];
      FindsHeld(suite.hmac, after, next, after.current.value);
      OtherHistoriesStay(suite, f, m, drawn, theirs);
    } else {
      MovedHistory(suite.hmac, r, after, {after.current.value}, next, id, theirs);
    }
  }

  // ------------------------------------------------------- one operation

  /** The session a bundle starts, named `next`; its one receiver chain comes from the handshake. */
  function BundleFollowed(suite: Suite, s: Stores, bundle: PreKeyBundle, now: nat, random: BundleRandom,
                          next: nat): Followed {
    var session := BundleSession(suite, s, bundle, now, random);
    Followed(next, session, [NewHistory(session.receiverChains[0].chainKey.key)])
  }

  lemma BundleFollowedIs(suite: Suite, s: Stores, bundle: PreKeyBundle, now: nat, random: BundleRandom, next: nat)
    ensures var f := BundleFollowed(suite, s, bundle, now, random, next);
      f.id == next && f.session == BundleSession(suite, s, bundle, now, random)
  {
  }

  /** The record after the pre-keys of a message were processed; a new session is named `next`. */
  function AfterPreKey(suite: Suite, s: Stores, peer: ProtocolAddress, r: FollowedRecord, m: PreKeySignalMessage,
                       next: nat): FollowedRecord
    requires Plain(r) == RecordFor(s, peer) && PreKeyProcessed(suite, s, peer, Plain(r), m).Ok?
  {
    if PromotedMatching(Plain(r), m.version, m.baseKey).None? then
      FollowedPromoted(r, Followed(next, NewBobSession(suite, s, m), []))
    else if r.current.Some? && SameSession(r.current.value.session, m.version, m.baseKey) then r
    else
      var i := FindArchived(Plain(r).previous, m.version, m.baseKey).value;
      FollowedPromoted(Removed(r, i), r.previous[i])
  }

  /** The record of a peer after one store operation; a session it starts is named `next`. */
  function Follow(suite: Suite, s: Stores, r: FollowedRecord, op: Operation, peer: ProtocolAddress,
                  next: nat): FollowedRecord {
    if op.address != peer || Plain(r) != RecordFor(s, peer) then r
    else match op
      case EncryptMessage(_, plaintext, now, pqRandom) =>
        var sent := MessageEncrypted(suite, s, peer, plaintext, now, pqRandom);
        if sent.Err? then r
        else r.(current := Some(r.current.value.(session := Encrypted(suite, r.current.value.session, plaintext, now,
                                                                      pqRandom).value.0)))
      case ProcessBundle(_, bundle, now, random) =>
        if BundleProcessed(suite, s, peer, bundle, now, random).Err? then r
        else FollowedPromoted(r, BundleFollowed(suite, s, bundle, now, random, next))
      case DecryptSignal(_, m, ephemeral) =>
        if SignalDecrypted(suite, s, peer, m, ephemeral).Err? then r else AfterRecord(suite, r, m, false, ephemeral)
      case DecryptPreKey(_, m, ephemeral) =>
        if PreKeyDecrypted(suite, s, peer, m, ephemeral).1.Err? then r
        else
          PlainAfterPreKey(suite, s, peer, r, m, next);
          AfterRecord(suite, AfterPreKey(suite, s, peer, r, m, next), m.message, true, ephemeral)
  }

  lemma PlainAfterPreKey(suite: Suite, s: Stores, peer: ProtocolAddress, r: FollowedRecord, m: PreKeySignalMessage,
                         next: nat)
    requires Plain(r) == RecordFor(s, peer) && PreKeyProcessed(suite, s, peer, Plain(r), m).Ok?
    ensures Plain(AfterPreKey(suite, s, peer, r, m, next)) == PreKeyProcessed(suite, s, peer, Plain(r), m).value.0
  {
    hide BobParametersFor, BobSession, Promoted, FollowedPromoted;
    if PromotedMatching(Plain(r), m.version, m.baseKey).None? {
      PlainPromoted(r, Followed(next, NewBobSession(suite, s, m), []));
    } else if !(r.current.Some? && SameSession(r.current.value.session, m.version, m.baseKey)) {
      var i := FindArchived(Plain(r).previous, m.version, m.baseKey).value;
      PlainRemoved(r, i);
      PlainPromoted(Removed(r, i), r.previous[i]);
    }
  }

  lemma MoreNames(hmac: Hmac, r: FollowedRecord, next: nat)
    requires WellRecorded(hmac, r, next)
    ensures WellRecorded(hmac, r, next + 1) && forall f :: f in All(r) ==> f.id != next
  {
  }

  lemma SelfRearranged(r: FollowedRecord)
    ensures Rearranged(r, r, {})
  {
    forall g | g in All(r)
      ensures SameChains(g, g)
    {
    }
  }

  lemma AddedIsRecorded(hmac: Hmac, r: FollowedRecord, f: Followed, next: nat)
    requires WellRecorded(hmac, r, next) && WellFollowed(hmac, f) && f.id == next
    ensures WellRecorded(hmac, FollowedPromoted(r, f), next + 1) && Rearranged(r, FollowedPromoted(r, f), {f})
  {
    hide WellFollowed, WellRecorded, Rearranged;
    MoreNames(hmac, r, next);
    PromotedIsRecorded(hmac, r, f, next + 1);
  }

  lemma PreKeyIsRecorded(suite: Suite, s: Stores, peer: ProtocolAddress, r: FollowedRecord, m: PreKeySignalMessage,
                         next: nat)
      returns (added: set<Followed>)
    requires WellRecorded(suite.hmac, r, next) && Plain(r) == RecordFor(s, peer)
             && PreKeyProcessed(suite, s, peer, Plain(r), m).Ok?
    ensures var after := AfterPreKey(suite, s, peer, r, m, next);
      WellRecorded(suite.hmac, after, next + 1) && Rearranged(r, after, added)
    ensures forall f :: f in added ==> f.id == next
  {
    hide WellFollowed, WellRecorded, Rearranged, BobParametersFor, FollowedPromoted, PromotedMatching;
    added := {};
    MoreNames(suite.hmac, r, next);
    SelfRearranged(r);
    if PromotedMatching(Plain(r), m.version, m.baseKey).None? {
      var f := Followed(next, NewBobSession(suite, s, m), []);
      added := {f};
      NothingToFollow(suite.hmac, f);
      AddedIsRecorded(suite.hmac, r, f, next);
    } else if !(r.current.Some? && SameSession(r.current.value.session, m.version, m.baseKey)) {
      MatchesArchived(Plain(r), m.version, m.baseKey);
      var i := FindArchived(Plain(r).previous, m.version, m.baseKey).value;
      BackIsRecorded(suite.hmac, r, i, next + 1);
    }
  }

  /** An archived session brought back as it is. */
  lemma BackIsRecorded(hmac: Hmac, r: FollowedRecord, i: nat, next: nat)
    requires WellRecorded(hmac, r, next) && i < |r.previous|
    ensures WellRecorded(hmac, FollowedPromoted(Removed(r, i), r.previous[i]), next)
    ensures Rearranged(r, FollowedPromoted(Removed(r, i), r.previous[i]), {})
  {
    hide WellFollowed, WellRecorded, Rearranged, FollowedPromoted, Removed;
    RemovedIsRecorded(hmac, r, i, next);
    HeldIsFollowed(hmac, r, r.previous[i], next);
    PromotedIsRecorded(hmac, Removed(r, i), r.previous[i], next);
    BackIsRearranged(r, i);
  }

  lemma MatchesArchived(record: RecordStructure, version: u32, baseKey: PublicKey)
    requires PromotedMatching(record, version, baseKey).Some?
             && !(record.current.Some? && SameSession(record.current.value, version, baseKey))
    ensures FindArchived(record.previous, version, baseKey).Some?
  {
  }

  lemma NothingToFollow(hmac: Hmac, f: Followed)
    requires f.session.receiverChains == [] && f.chains == []
    ensures WellFollowed(hmac, f)
  {
  }

  lemma BackIsRearranged(r: FollowedRecord, i: nat)
    requires i < |r.previous| && Rearranged(r, Removed(r, i), {}) && r.previous[i] in All(r)
    requires Rearranged(Removed(r, i), FollowedPromoted(Removed(r, i), r.previous[i]), {r.previous[i]})
    ensures Rearranged(r, FollowedPromoted(Removed(r, i), r.previous[i]), {})
  {
    hide FollowedPromoted, Removed;
    var after := FollowedPromoted(Removed(r, i), r.previous[i]);
    assert SameChains(r.previous[i], r.previous[i]);
    RearrangedTwice(r, Removed(r, i), after, {r.previous[i]});
  }

  lemma BundleIsFollowed(suite: Suite, s: Stores, bundle: PreKeyBundle, now: nat, random: BundleRandom, next: nat)
    ensures WellFollowed(suite.hmac, BundleFollowed(suite, s, bundle, now, random, next))
  {
    hide HistoryIs, AliceSecrets;
    var session := BundleSession(suite, s, bundle, now, random);
    NewChainIsFollowed(suite.hmac, session.receiverChains[0].chainKey.key, session.receiverChains[0].ratchetKey);
  }

  /** Sending leaves the receiver chains alone. */
  lemma SendIsFollowed(suite: Suite, r: FollowedRecord, plaintext: Bytes, now: nat, pqRandom: Bytes, next: nat)
    requires WellRecorded(suite.hmac, r, next) && r.current.Some?
             && Encrypted(suite, r.current.value.session, plaintext, now, pqRandom).Ok?
    ensures var after := r.(current := Some(r.current.value.(session :=
                             Encrypted(suite, r.current.value.session, plaintext, now, pqRandom).value.0)));
      WellRecorded(suite.hmac, after, next) && Rearranged(r, after, {})
  {
    hide ChainsFollowed;
    var after := r.(current := Some(r.current.value.(session := Encrypted(suite, r.current.value.session, plaintext,
                                                                          now, pqRandom).value.0)));
    assert SameChains(r.current.value, after.current.value);
    assert All(r)[0] == r.current.value;
    forall k | 0 < k < |All(after)|
      ensures All(after)[k] == All(r)[k] && SameChains(All(r)[k], All(after)[k])
    {
    }
  }

  /** What one operation receives: the session that accepted a message, its ratchet key and counter. */
  function Accepted(suite: Suite, s: Stores, r: FollowedRecord, op: Operation, peer: ProtocolAddress,
                    next: nat): Option<(nat, PublicKey, int)> {
    var after := Follow(suite, s, r, op, peer, next);
    if op.address != peer || after.current.None? then None
    else match op
      case DecryptSignal(_, m, ephemeral) =>
        if SignalDecrypted(suite, s, peer, m, ephemeral).Ok?
        then Some((after.current.value.id, m.ratchetKey, m.counter)) else None
      case DecryptPreKey(_, m, ephemeral) =>
        if PreKeyDecrypted(suite, s, peer, m, ephemeral).1.Ok?
        then Some((after.current.value.id, m.message.ratchetKey, m.message.counter)) else None
      case _ => None
  }

  lemma PreKeyParts(suite: Suite, s: Stores, peer: ProtocolAddress, m: PreKeySignalMessage,
                    ephemeral: nat -> PrivateKey)
    requires PreKeyDecrypted(suite, s, peer, m, ephemeral).1.Ok?
    ensures PreKeyProcessed(suite, s, peer, RecordFor(s, peer), m).Ok?
    ensures var r := DecryptedWithRecord(suite, PreKeyProcessed(suite, s, peer, RecordFor(s, peer), m).value.0,
                                         m.message, true, ephemeral);
      r.Ok? && RecordFor(PreKeyDecrypted(suite, s, peer, m, ephemeral).0, peer) == r.value.0
      && PreKeyDecrypted(suite, s, peer, m, ephemeral).1 == Ok(r.value.1)
  {
    hide PreKeyProcessed, DecryptedWithRecord;
  }

  lemma FailedPreKeyKeepsRecord(suite: Suite, s: Stores, peer: ProtocolAddress, m: PreKeySignalMessage,
                                ephemeral: nat -> PrivateKey)
    requires PreKeyDecrypted(suite, s, peer, m, ephemeral).1.Err?
    ensures RecordFor(PreKeyDecrypted(suite, s, peer, m, ephemeral).0, peer) == RecordFor(s, peer)
  {
    hide PreKeyProcessed, DecryptedWithRecord;
  }

  /** One operation moves sessions about and may start one, and then one session may decrypt a message. */
  ghost predicate FollowsBy(suite: Suite, r: FollowedRecord, between: FollowedRecord, after: FollowedRecord,
                            added: set<Followed>,
                            taken: Option<SignalMessage>, f: Followed, drawn: PrivateKey, next: nat) {
    && WellRecorded(suite.hmac, between, next + 1) && WellRecorded(suite.hmac, after, next + 1)
    && Rearranged(r, between, added) && (forall g :: g in added ==> g.id == next)
    && match taken
       case None => after == between
       case Some(m) => DecryptedBy(suite, between, after, m, f, drawn)
  }

  lemma BundleStep(suite: Suite, s: Stores, r: FollowedRecord, op: Operation, peer: ProtocolAddress, next: nat)
    requires WellRecorded(suite.hmac, r, next) && Plain(r) == RecordFor(s, peer) && op.ProcessBundle?
             && op.address == peer
    requires BundleProcessed(suite, s, peer, op.bundle, op.now, op.random).Ok?
    ensures var after := Follow(suite, s, r, op, peer, next);
      Plain(after) == RecordFor(Performed(suite, s, op), peer) && WellRecorded(suite.hmac, after, next + 1)
      && Rearranged(r, after, {BundleFollowed(suite, s, op.bundle, op.now, op.random, next)})
      && BundleFollowed(suite, s, op.bundle, op.now, op.random, next).id == next
  {
    hide WellRecorded, Rearranged, BundleSession, BundleFollowed, FollowedPromoted;
    BundleFollowedIs(suite, s, op.bundle, op.now, op.random, next);
    BundleIsFollowed(suite, s, op.bundle, op.now, op.random, next);
    AddedIsRecorded(suite.hmac, r, BundleFollowed(suite, s, op.bundle, op.now, op.random, next), next);
    PlainPromoted(r, BundleFollowed(suite, s, op.bundle, op.now, op.random, next));
  }

  lemma EncryptStep(suite: Suite, s: Stores, r: FollowedRecord, op: Operation, peer: ProtocolAddress, next: nat)
    requires WellRecorded(suite.hmac, r, next) && Plain(r) == RecordFor(s, peer) && op.EncryptMessage?
             && op.address == peer
    ensures var after := Follow(suite, s, r, op, peer, next);
      Plain(after) == RecordFor(Performed(suite, s, op), peer) && WellRecorded(suite.hmac, after, next + 1)
      && Rearranged(r, after, {})
  {
    hide WellRecorded, Rearranged, Encrypted;
    SelfRearranged(r);
    MoreNames(suite.hmac, r, next);
    if MessageEncrypted(suite, s, peer, op.plaintext, op.now, op.pqRandom).Ok? {
      SendIsFollowed(suite, r, op.plaintext, op.now, op.pqRandom, next);
      MoreNames(suite.hmac, Follow(suite, s, r, op, peer, next), next);
    }
  }

  lemma SignalStep(suite: Suite, s: Stores, r: FollowedRecord, op: Operation, peer: ProtocolAddress, next: nat)
      returns (f: Followed, drawn: PrivateKey)
    requires WellRecorded(suite.hmac, r, next) && Plain(r) == RecordFor(s, peer) && op.DecryptSignal?
             && op.address == peer
    requires SignalDecrypted(suite, s, peer, op.message, op.ephemeral).Ok?
    ensures var after := Follow(suite, s, r, op, peer, next);
      Plain(after) == RecordFor(Performed(suite, s, op), peer) && WellRecorded(suite.hmac, after, next + 1)
      && WellRecorded(suite.hmac, r, next + 1) && DecryptedBy(suite, r, after, op.message, f, drawn)
    ensures DecryptedWithState(suite, f.session, op.message, drawn).Ok?
    ensures SignalDecrypted(suite, s, peer, op.message, op.ephemeral).value.1
         == DecryptedWithState(suite, f.session, op.message, drawn).value.1
  {
    hide WellRecorded, DecryptedBy, AfterRecord, DecryptedWithRecord;
    MoreNames(suite.hmac, r, next);
    f, drawn := RecordIsFollowed(suite, r, op.message, false, op.ephemeral, next + 1);
  }

  lemma PreKeyStep(suite: Suite, s: Stores, r: FollowedRecord, op: Operation, peer: ProtocolAddress, next: nat)
      returns (between: FollowedRecord, added: set<Followed>, f: Followed, drawn: PrivateKey)
    requires WellRecorded(suite.hmac, r, next) && Plain(r) == RecordFor(s, peer) && op.DecryptPreKey?
             && op.address == peer
    requires PreKeyDecrypted(suite, s, peer, op.preKeyMessage, op.ephemeral).1.Ok?
    ensures var after := Follow(suite, s, r, op, peer, next);
      Plain(after) == RecordFor(Performed(suite, s, op), peer) && WellRecorded(suite.hmac, after, next + 1)
      && WellRecorded(suite.hmac, between, next + 1) && Rearranged(r, between, added)
      && DecryptedBy(suite, between, after, op.preKeyMessage.message, f, drawn)
    ensures forall g :: g in added ==> g.id == next
    ensures DecryptedWithState(suite, f.session, op.preKeyMessage.message, drawn).Ok?
    ensures PreKeyDecrypted(suite, s, peer, op.preKeyMessage, op.ephemeral).1
         == Ok(DecryptedWithState(suite, f.session, op.preKeyMessage.message, drawn).value.1)
  {
    hide WellRecorded, DecryptedBy, Rearranged, AfterRecord, AfterPreKey, DecryptedWithRecord, PreKeyProcessed,
         PreKeyDecrypted;
    PreKeyParts(suite, s, peer, op.preKeyMessage, op.ephemeral);
    PlainAfterPreKey(suite, s, peer, r, op.preKeyMessage, next);
    between := AfterPreKey(suite, s, peer, r, op.preKeyMessage, next);
    added := PreKeyIsRecorded(suite, s, peer, r, op.preKeyMessage, next);
    f, drawn := RecordIsFollowed(suite, between, op.preKeyMessage.message, true, op.ephemeral, next + 1);
  }

  /** What an operation that decrypts comes to. */
  lemma DecryptionIsFollowed(suite: Suite, s: Stores, r: FollowedRecord, op: Operation, peer: ProtocolAddress,
                             next: nat)
      returns (between: FollowedRecord, added: set<Followed>, taken: Option<SignalMessage>, f: Followed,
               drawn: PrivateKey)
    requires WellRecorded(suite.hmac, r, next) && Plain(r) == RecordFor(s, peer) && op.address == peer
    requires op.DecryptSignal? || op.DecryptPreKey?
    ensures Plain(Follow(suite, s, r, op, peer, next)) == RecordFor(Performed(suite, s, op), peer)
    ensures FollowsBy(suite, r, between, Follow(suite, s, r, op, peer, next), added, taken, f, drawn, next)
    ensures Accepted(suite, s, r, op, peer, next)
      == match taken
         case None => None
         case Some(m) => Some((Follow(suite, s, r, op, peer, next).current.value.id, m.ratchetKey, m.counter as int))
  {
    hide WellRecorded, Rearranged, AfterRecord, AfterPreKey, SignalDecrypted, PreKeyDecrypted, AfterDecrypting, Plain,
         DecryptedBy;
    between, added, taken := r, {}, None;
    f, drawn := Followed(next, BlankSession(), []), [];
    SelfRearranged(r);
    MoreNames(suite.hmac, r, next);
    match op {
      case DecryptSignal(_, m, ephemeral) =>
        if SignalDecrypted(suite, s, peer, m, ephemeral).Ok? {
          taken := Some(m);
          f, drawn := SignalStep(suite, s, r, op, peer, next);
          DecryptorIsNamed(suite, r, Follow(suite, s, r, op, peer, next), m, f, drawn, next + 1);
        }
      case DecryptPreKey(_, m, ephemeral) =>
        if PreKeyDecrypted(suite, s, peer, m, ephemeral).1.Ok? {
          taken := Some(m.message);
          between, added, f, drawn := PreKeyStep(suite, s, r, op, peer, next);
          DecryptorIsNamed(suite, between, Follow(suite, s, r, op, peer, next), m.message, f, drawn, next + 1);
        } else {
          FailedPreKeyKeepsRecord(suite, s, peer, m, ephemeral);
        }
    }
  }

  lemma OperationIsFollowed(suite: Suite, s: Stores, r: FollowedRecord, op: Operation, peer: ProtocolAddress, next: nat)
      returns (between: FollowedRecord, added: set<Followed>, taken: Option<SignalMessage>, f: Followed,
               drawn: PrivateKey)
    requires WellRecorded(suite.hmac, r, next) && Plain(r) == RecordFor(s, peer)
    ensures Plain(Follow(suite, s, r, op, peer, next)) == RecordFor(Performed(suite, s, op), peer)
    ensures FollowsBy(suite, r, between, Follow(suite, s, r, op, peer, next), added, taken, f, drawn, next)
    ensures Accepted(suite, s, r, op, peer, next)
      == match taken
         case None => None
         case Some(m) => Some((Follow(suite, s, r, op, peer, next).current.value.id, m.ratchetKey, m.counter as int))
  {
    hide WellRecorded, Rearranged, MessageEncrypted, BundleProcessed, SignalDecrypted, PreKeyDecrypted, Encrypted,
         BundleFollowed, FollowedPromoted, Plain, DecryptedBy;
    between, added, taken := Follow(suite, s, r, op, peer, next), {}, None;
    f, drawn := Followed(next, BlankSession(), []), [];
    SelfRearranged(r);
    MoreNames(suite.hmac, r, next);
    if op.address != peer {
      OthersUntouched(suite, s, op, peer);
    } else {
      match op {
        case EncryptMessage(_, _, _, _) => EncryptStep(suite, s, r, op, peer, next);
        case ProcessBundle(_, bundle, now, random) =>
          if BundleProcessed(suite, s, peer, bundle, now, random).Ok? {
            added := {BundleFollowed(suite, s, bundle, now, random, next)};
            BundleStep(suite, s, r, op, peer, next);
          }
        case _ => between, added, taken, f, drawn := DecryptionIsFollowed(suite, s, r, op, peer, next);
      }
    }
  }

  function BlankSession(): SessionStructure {
    SessionStructure(0, [], None, None, 0, None, [], None, None, 0, 0, [], [])
  }

  /** What one operation does to the history of a chain that is held before and after it: it accepts a
      position that was not handed out before and records it, or it leaves the history alone. */
  lemma HistoryStep(suite: Suite, s: Stores, r: FollowedRecord, op: Operation, peer: ProtocolAddress, next: nat,
                    id: nat, theirs: PublicKey)
    requires WellRecorded(suite.hmac, r, next) && Plain(r) == RecordFor(s, peer) && id < next
    requires HistoryOf(r, id, theirs).Some? && HistoryOf(Follow(suite, s, r, op, peer, next), id, theirs).Some?
    ensures var (h, now) := (HistoryOf(r, id, theirs).value,
                             HistoryOf(Follow(suite, s, r, op, peer, next), id, theirs).value);
      match Accepted(suite, s, r, op, peer, next)
      case Some(p) => if p.0 == id && p.1 == theirs then TookOne(h, now, p.2) else now == h
      case None => now == h
  {
    hide WellRecorded, Rearranged, Follow, Accepted, DecryptedBy, HistoryOf;
    var between, added, taken, f, drawn := OperationIsFollowed(suite, s, r, op, peer, next);
    var after := Follow(suite, s, r, op, peer, next);
    if taken.Some? {
      DecryptedHistory(suite, between, after, taken.value, f, drawn, next + 1);
      if id == f.id && theirs == taken.value.ratchetKey {
        HeldBetween(suite, r, between, added, next, id, theirs, f, taken.value, drawn, after);
      } else {
        UntouchedHistory(suite, between, after, taken.value, f, drawn, next + 1, id, theirs);
        MovedHistory(suite.hmac, r, between, added, next, id, theirs);
      }
    } else {
      MovedHistory(suite.hmac, r, between, added, next, id, theirs);
    }
  }

  lemma HeldBetween(suite: Suite, r: FollowedRecord, between: FollowedRecord, added: set<Followed>, next: nat, id: nat,
                    theirs: PublicKey,
                    f: Followed, m: SignalMessage, drawn: PrivateKey, after: FollowedRecord)
    requires WellRecorded(suite.hmac, r, next) && WellRecorded(suite.hmac, between, next + 1)
    requires Rearranged(r, between, added) && (forall g :: g in added ==> g.id == next) && id < next
    requires DecryptedBy(suite, between, after, m, f, drawn) && id == f.id && HistoryOf(r, id, theirs).Some?
    ensures HistoryOf(between, id, theirs) == HistoryOf(r, id, theirs)
  {
    hide WellFollowed, FindId, FindReceiver, DecryptedWithState, AfterDecrypting;
    FindsHeld(suite.hmac, between, next + 1, f);
    var g :| g in All(r) && SameChains(g, f);
    FindsHeld(suite.hmac, r, next, g);
  }

  lemma AcceptedIsRecorded(suite: Suite, s: Stores, r: FollowedRecord, op: Operation, peer: ProtocolAddress, next: nat)
    requires WellRecorded(suite.hmac, r, next) && Plain(r) == RecordFor(s, peer)
    requires Accepted(suite, s, r, op, peer, next).Some?
    ensures var (id, theirs, n) := Accepted(suite, s, r, op, peer, next).value;
      var h := HistoryOf(Follow(suite, s, r, op, peer, next), id, theirs);
      h.Some? && h.value.taken != [] && h.value.taken[|h.value.taken| - 1] % TWO_TO_32 == n && id < next + 1
  {
    hide WellRecorded, Rearranged, Follow, Accepted, DecryptedBy, HistoryOf;
    var between, added, taken, f, drawn := OperationIsFollowed(suite, s, r, op, peer, next);
    var after := Follow(suite, s, r, op, peer, next);
    DecryptedHistory(suite, between, after, taken.value, f, drawn, next + 1);
    DecryptorIsNamed(suite, between, after, taken.value, f, drawn, next + 1);
  }

  lemma DecryptorIsNamed(suite: Suite, r: FollowedRecord, after: FollowedRecord, m: SignalMessage, f: Followed,
                         drawn: PrivateKey, next: nat)
    requires WellRecorded(suite.hmac, r, next) && DecryptedBy(suite, r, after, m, f, drawn)
    ensures f.id < next && after.current.Some?
  {
    hide WellFollowed, DecryptedWithState, AfterDecrypting;
  }

  // ------------------------------------------------------- whole runs

  /** The record of a peer, followed through a run; sessions are named in the order they start. */
  function Track(suite: Suite, s: Stores, r: FollowedRecord, run: seq<Operation>, peer: ProtocolAddress,
                 next: nat): FollowedRecord {
    if run == [] then r
    else
      var before := run[..|run| - 1];
      Follow(suite, PerformedAll(suite, s, before), Track(suite, s, r, before, peer, next), run[|run| - 1], peer,
             next + |before|)
  }

  /** No chain of a session loses an unread key inside its window, over any run of store operations with
      any peers and any messages: every receiver chain of every session is the KDF chain of its seed and
      has the window invariant for the positions it really handed out, none of them twice. */
  lemma {:induction false} RunsKeepWindows(suite: Suite, s: Stores, r: FollowedRecord, run: seq<Operation>,
                                           peer: ProtocolAddress, next: nat)
    requires WellRecorded(suite.hmac, r, next) && Plain(r) == RecordFor(s, peer)
    ensures Plain(Track(suite, s, r, run, peer, next)) == RecordFor(PerformedAll(suite, s, run), peer)
    ensures WellRecorded(suite.hmac, Track(suite, s, r, run, peer, next), next + |run|)
  {
    hide WellRecorded, Plain, Follow, Performed;
    if run != [] {
      var before, op := run[..|run| - 1], run[|run| - 1];
      RunsKeepWindows(suite, s, r, before, peer, next);
      var _, _, _, _, _ := OperationIsFollowed(suite, PerformedAll(suite, s, before),
                                               Track(suite, s, r, before, peer, next), op,
                                               peer, next + |before|);
    }
  }

  /** What the `i`-th operation of a run accepted. */
  function AcceptedAt(suite: Suite, s: Stores, r: FollowedRecord, run: seq<Operation>, peer: ProtocolAddress,
                      next: nat, i: nat)
    : Option<(nat, PublicKey, int)>
    requires i < |run|
  {
    Accepted(suite, PerformedAll(suite, s, run[..i]), Track(suite, s, r, run[..i], peer, next), run[i], peer, next + i)
  }

  /** The session of that name holds a chain for the ratchet key, from just after event `i` up to and
      including just before event `j`. */
  ghost predicate HeldThrough(suite: Suite, s: Stores, r: FollowedRecord, run: seq<Operation>, peer: ProtocolAddress,
                              next: nat,
                              id: nat, theirs: PublicKey, i: nat, j: nat)
    requires i < j <= |run|
  {
    forall k :: i < k <= j ==> HistoryOf(Track(suite, s, r, run[..k], peer, next), id, theirs).Some?
  }

  /** The positions a chain handed out so far. */
  function TakenAt(suite: Suite, s: Stores, r: FollowedRecord, run: seq<Operation>, peer: ProtocolAddress, next: nat,
                   id: nat, theirs: PublicKey): seq<nat> {
    match HistoryOf(Track(suite, s, r, run, peer, next), id, theirs)
    case None => []
    case Some(h) => h.taken
  }

  /** While a session holds a chain its seed stays and its history only grows. */
  lemma {:induction false} HistoryGrows(suite: Suite, s: Stores, r: FollowedRecord, run: seq<Operation>,
                                        peer: ProtocolAddress, next: nat,
                                        id: nat, theirs: PublicKey, i: nat, j: nat)
    requires WellRecorded(suite.hmac, r, next) && Plain(r) == RecordFor(s, peer)
    requires i < j <= |run| && id < next + i + 1 && HeldThrough(suite, s, r, run, peer, next, id, theirs, i, j)
    ensures var (h, now) := (HistoryOf(Track(suite, s, r, run[..i + 1], peer, next), id, theirs),
                             HistoryOf(Track(suite, s, r, run[..j], peer, next), id, theirs));
      h.Some? && now.Some? && h.value.seed == now.value.seed && h.value.taken <= now.value.taken
    decreases j
  {
    hide WellRecorded, Plain, Follow, Performed, HistoryOf, Accepted;
    assert HistoryOf(Track(suite, s, r, run[..i + 1], peer, next), id, theirs).Some?;
    assert HistoryOf(Track(suite, s, r, run[..j], peer, next), id, theirs).Some?;
    if i + 1 < j {
      HistoryGrows(suite, s, r, run, peer, next, id, theirs, i, j - 1);
      assert run[..j][..j - 1] == run[..j - 1];
      RunsKeepWindows(suite, s, r, run[..j - 1], peer, next);
      HistoryStep(suite, PerformedAll(suite, s, run[..j - 1]), Track(suite, s, r, run[..j - 1], peer, next),
                  run[j - 1], peer,
                  next + j - 1, id, theirs);
    }
  }

  /** What was accepted stays in the history of its chain. */
  lemma UsedStays(suite: Suite, s: Stores, r: FollowedRecord, run: seq<Operation>, peer: ProtocolAddress, next: nat,
                  i: nat, j: nat)
      returns (p: nat)
    requires WellRecorded(suite.hmac, r, next) && Plain(r) == RecordFor(s, peer)
    requires i < j <= |run| && AcceptedAt(suite, s, r, run, peer, next, i).Some?
    requires var (id, theirs, _) := AcceptedAt(suite, s, r, run, peer, next, i).value;
      HeldThrough(suite, s, r, run, peer, next, id, theirs, i, j)
    ensures var (id, theirs, n) := AcceptedAt(suite, s, r, run, peer, next, i).value;
      var first := TakenAt(suite, s, r, run[..i + 1], peer, next, id, theirs);
      id < next + i + 1 && first != [] && p == first[|first| - 1] && p % TWO_TO_32 == n
      && p in TakenAt(suite, s, r, run[..j], peer, next, id, theirs)
  {
    hide WellRecorded, Plain, Follow, Performed, HistoryOf, Accepted;
    var (id, theirs, n) := AcceptedAt(suite, s, r, run, peer, next, i).value;
    RunsKeepWindows(suite, s, r, run[..i], peer, next);
    AcceptedIsRecorded(suite, PerformedAll(suite, s, run[..i]), Track(suite, s, r, run[..i], peer, next), run[i], peer,
                       next + i);
    assert run[..i + 1][..i] == run[..i];
    HistoryGrows(suite, s, r, run, peer, next, id, theirs, i, j);
    var first := TakenAt(suite, s, r, run[..i + 1], peer, next, id, theirs);
    p := first[|first| - 1];
  }

  /** At most once: over any run of store operations, while a session stays held, current or archived, and
      keeps the chain, no two messages it accepts under one ratchet key get the key of the same
      position; and if they carry the same counter, the chain has handed out its last 32-bit index. */
  lemma AtMostOnce(suite: Suite, s: Stores, r: FollowedRecord, run: seq<Operation>, peer: ProtocolAddress, next: nat,
                   i: nat, j: nat)
    requires WellRecorded(suite.hmac, r, next) && Plain(r) == RecordFor(s, peer)
    requires i < j < |run| && AcceptedAt(suite, s, r, run, peer, next, i).Some?
             && AcceptedAt(suite, s, r, run, peer, next, j).Some?
    requires var (id, theirs, _) := AcceptedAt(suite, s, r, run, peer, next, i).value;
      HeldThrough(suite, s, r, run, peer, next, id, theirs, i, j)
      && AcceptedAt(suite, s, r, run, peer, next, j).value.0 == id
      && AcceptedAt(suite, s, r, run, peer, next, j).value.1 == theirs
    ensures var (id, theirs, n) := AcceptedAt(suite, s, r, run, peer, next, i).value;
      var (first, second) := (TakenAt(suite, s, r, run[..i + 1], peer, next, id, theirs),
                              TakenAt(suite, s, r, run[..j + 1], peer, next, id, theirs));
      first != [] && second != [] && first[|first| - 1] != second[|second| - 1]
      && (AcceptedAt(suite, s, r, run, peer, next, j).value.2 == n ==> U32_MAX in second)
  {
    hide WellRecorded, Plain, Follow, Performed, HistoryOf, Accepted;
    var (id, theirs, n) := AcceptedAt(suite, s, r, run, peer, next, i).value;
    var p := UsedStays(suite, s, r, run, peer, next, i, j);
    assert run[..j + 1][..j] == run[..j];
    RunsKeepWindows(suite, s, r, run[..j], peer, next);
    AcceptedIsRecorded(suite, PerformedAll(suite, s, run[..j]), Track(suite, s, r, run[..j], peer, next), run[j], peer,
                       next + j);
    HistoryStep(suite, PerformedAll(suite, s, run[..j]), Track(suite, s, r, run[..j], peer, next), run[j], peer,
                next + j, id, theirs);
    var second := TakenAt(suite, s, r, run[..j + 1], peer, next, id, theirs);
    assert p in second[..|second| - 1];
    RunsKeepWindows(suite, s, r, run[..j + 1], peer, next);
    if AcceptedAt(suite, s, r, run, peer, next, j).value.2 == n {
      SameIndexWraps(suite.hmac, Track(suite, s, r, run[..j + 1], peer, next), next + j + 1, id, theirs, p,
                     second[|second| - 1]);
    }
  }

  /** Two positions of one index were handed out only if the index wrapped. */
  lemma SameIndexWraps(hmac: Hmac, r: FollowedRecord, next: nat, id: nat, theirs: PublicKey, p: nat, q: nat)
    requires WellRecorded(hmac, r, next) && HistoryOf(r, id, theirs).Some?
    requires p in HistoryOf(r, id, theirs).value.taken && q in HistoryOf(r, id, theirs).value.taken
    requires p != q && p % TWO_TO_32 == q % TWO_TO_32
    ensures U32_MAX in HistoryOf(r, id, theirs).value.taken
  {
    hide FindId, FindReceiver, MessageKeyAt, ChainKeyAt;
    var f := FindId(All(r), id).value;
    var i := FindReceiver(f.session.receiverChains, theirs).value;
    assert HistoryIs(hmac, f.session.receiverChains[i], f.chains[i]);
    assert p as int in Positions(f.chains[i].taken) && q as int in Positions(f.chains[i].taken);
  }

  /** And delivered again at any later time, to a record where that session is current and keeps the chain,
      and the chain has not handed out its last 32-bit index, the same signal message is refused as a
      duplicate and changes nothing. */
  lemma ReplayIsDuplicate(suite: Suite, s: Stores, r: FollowedRecord, run: seq<Operation>, peer: ProtocolAddress,
                          next: nat, i: nat,
                          m: SignalMessage, again: nat -> PrivateKey)
    requires WellRecorded(suite.hmac, r, next) && Plain(r) == RecordFor(s, peer)
    requires i < |run| && AcceptedAt(suite, s, r, run, peer, next, i).Some?
    requires var (id, theirs, n) := AcceptedAt(suite, s, r, run, peer, next, i).value;
      HeldThrough(suite, s, r, run, peer, next, id, theirs, i, |run|) && m.ratchetKey == theirs && m.counter == n
      && U32_MAX !in TakenAt(suite, s, r, run, peer, next, id, theirs)
      && var now := Track(suite, s, r, run, peer, next).current;
         now.Some? && now.value.id == id && now.value.session.rootKey.Some?
         && now.value.session.SessionVersion() == m.version
    ensures SignalDecrypted(suite, PerformedAll(suite, s, run), peer, m, again) == Err(DuplicatedMessage)
  {
    hide WellRecorded, Follow, Performed, HistoryOf, Accepted, DecryptedWithState;
    assert run[..|run|] == run;
    var p := UsedStays(suite, s, r, run, peer, next, i, |run|);
    RunsKeepWindows(suite, s, r, run, peer, next);
    var now := Track(suite, s, r, run, peer, next);
    assert now.current.value == All(now)[0];
    FindsHeld(suite.hmac, now, next + |run|, now.current.value);
    HeldIsFollowed(suite.hmac, now, now.current.value, next + |run|);
    CurrentHistory(now, m.ratchetKey, now.current.value.id);
    UsedIsDuplicate(suite, now.current.value, m, again(0), p);
    IsLoaded(PerformedAll(suite, s, run), peer);
  }

  lemma CurrentHistory(r: FollowedRecord, theirs: PublicKey, id: nat)
    requires r.current.Some? && FindId(All(r), id) == Some(r.current.value)
    ensures HistoryOf(r, id, theirs) == HistoryFor(r.current.value, theirs)
  {
  }

  lemma IsLoaded(s: Stores, peer: ProtocolAddress)
    requires RecordFor(s, peer).current.Some?
    ensures Loaded(s, peer) == Some(s.sessions[peer]) && RecordFor(s, peer) == s.sessions[peer]
  {
  }

  lemma UsedIsDuplicate(suite: Suite, f: Followed, m: SignalMessage, ephemeral: PrivateKey, p: nat)
    requires WellFollowed(suite.hmac, f) && f.session.rootKey.Some? && f.session.SessionVersion() == m.version
    requires HistoryFor(f, m.ratchetKey).Some? && p in HistoryFor(f, m.ratchetKey).value.taken
             && p % TWO_TO_32 == m.counter
    requires U32_MAX !in HistoryFor(f, m.ratchetKey).value.taken
    ensures DecryptedWithState(suite, f.session, m, ephemeral) == Err(DuplicatedMessage)
  {
    hide TakeKey, FindReceiver, WindowAt;
    var i := FindReceiver(f.session.receiverChains, m.ratchetKey).value;
    PassedIsGone(suite.hmac, f.session.receiverChains[i], f.chains[i], p);
    TakeKeyIff(suite.hmac, f.session.receiverChains[i], m.counter, f.session.WithSelf());
  }

  lemma PassedIsGone(hmac: Hmac, chain: ReceiverChain, h: ChainHistory, p: nat)
    requires HistoryIs(hmac, chain, h) && p in h.taken && U32_MAX !in h.taken
    ensures p < chain.chainKey.index && !Has(chain.messageKeys, p)
  {
    hide MessageKeyAt, ChainKeyAt;
    assert p as int in Positions(h.taken);
    UnwrappedPositions(hmac, h.seed, chain, h.cached, h.position, Positions(h.taken));
    UsedIsGone(hmac, h.seed, chain, Positions(h.taken), p);
  }

  /** A peer without a record can be followed from the start. */
  lemma NothingYet(hmac: Hmac, s: Stores, peer: ProtocolAddress)
    requires peer !in s.sessions
    ensures WellRecorded(hmac, FollowedRecord(None, []), 0) && Plain(FollowedRecord(None, [])) == RecordFor(s, peer)
  {
  }
}
