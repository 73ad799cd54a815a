/** No message key is used twice with one peer, over any run of store operations: any messages from
    anyone, any pre-keys, sessions archived, promoted and dropped. No law of a primitive is
    assumed here. */
module StoreFreshness {
  import opened Wrappers
  import opened Bytes
  import opened KdfChain
  import opened RatchetKeys
  import opened RatchetInit
  import opened SessionStates
  import opened SessionCipher
  import opened PairwiseStore
  import opened PairwiseProperties
  import SessionRuns

  type Sender = Option<SenderChain>

  function SenderList(sessions: seq<SessionStructure>): (r: seq<Sender>)
    ensures |r| == |sessions|
  {
    seq(|sessions|, i requires 0 <= i < |sessions| => sessions[i].senderChain)
  }

  /** The sender chains of a record, that of the current session first. */
  function Senders(record: RecordStructure): seq<Sender> {
    (if record.current.Some? then [record.current.value.senderChain] else []) + SenderList(record.previous)
  }

  /** No two sessions send under one ratchet key. */
  ghost predicate KeysApart(list: seq<Sender>) {
    forall i, j :: 0 <= i < j < |list| && list[i].Some? && list[j].Some? ==>
      list[i].value.ratchetKey != list[j].value.ratchetKey
  }

  /** The keys of all sessions are known and apart, and the counter of each is past all that was sent
      under its key. */
  ghost predicate Accounted(list: seq<Sender>, known: iset<PublicKey>, sent: iset<(PublicKey, int)>) {
    && KeysApart(list)
    && (forall i :: 0 <= i < |list| && list[i].Some? ==> list[i].value.ratchetKey in known)
    && (forall p :: p in sent ==> p.0 in known)
    && (forall p, i :: p in sent && 0 <= i < |list| && list[i].Some? && list[i].value.ratchetKey == p.0 ==>
          p.1 < list[i].value.chainKey.index)
  }

  // ------------------------------------------------------- changes of the list

  lemma BeginningAccounted(list: seq<Sender>, shorter: seq<Sender>, known: iset<PublicKey>,
                           sent: iset<(PublicKey, int)>)
    requires Accounted(list, known, sent) && shorter <= list
    ensures Accounted(shorter, known, sent)
  {
    assert forall i :: 0 <= i < |shorter| ==> shorter[i] == list[i];
  }

  lemma KnownGrows(list: seq<Sender>, known: iset<PublicKey>, more: iset<PublicKey>, sent: iset<(PublicKey, int)>)
    requires Accounted(list, known, sent) && known <= more
    ensures Accounted(list, more, sent)
  {
  }

  /** A sender chain that a session has after an event: its own, or one under a key drawn. */
  predicate Succeeds(next: Sender, was: Sender, drawn: PublicKey) {
    next == was || (next.Some? && next.value.ratchetKey == drawn)
  }

  lemma ReplacedAccounted(list: seq<Sender>, i: nat, next: Sender, drawn: PublicKey, known: iset<PublicKey>,
                          sent: iset<(PublicKey, int)>)
    requires Accounted(list, known, sent) && i < |list| && Succeeds(next, list[i], drawn) && drawn !in known
    ensures Accounted(list[i := next], known + iset{drawn}, sent)
  {
  }

  lemma FrontAccounted(list: seq<Sender>, next: SenderChain, known: iset<PublicKey>, sent: iset<(PublicKey, int)>)
    requires Accounted(list, known, sent) && next.ratchetKey !in known
    ensures Accounted([Some(next)] + list, known + iset{next.ratchetKey}, sent)
  {
  }

  lemma MovedAccounted(list: seq<Sender>, i: nat, known: iset<PublicKey>, sent: iset<(PublicKey, int)>)
    requires Accounted(list, known, sent) && i < |list|
    ensures Accounted([list[i]] + Without(list, i), known, sent)
  {
    var moved := [list[i]] + Without(list, i);
    assert forall k :: 0 <= k < |moved| ==> moved[k] == list[if k == 0 then i else if k - 1 < i then k - 1 else k];
  }

  /** One step along the chain at the front: what was sent there is new. */
  lemma SentAccounted(list: seq<Sender>, next: ChainKey, known: iset<PublicKey>, sent: iset<(PublicKey, int)>)
    requires Accounted(list, known, sent) && list != [] && list[0].Some?
    requires next.index == list[0].value.chainKey.index + 1
    ensures var message := (list[0].value.ratchetKey, list[0].value.chainKey.index as int);
      message.0 in known && message !in sent
      && Accounted(list[0 := Some(list[0].value.(chainKey := next))], known, sent + iset{message})
  {
  }

  // ------------------------------------------------------- changes of a record

  lemma SendersPromoted(record: RecordStructure, session: SessionStructure)
    ensures Senders(Promoted(record, session)) <= [session.senderChain] + Senders(record)
  {
  }

  lemma SendersWithout(record: RecordStructure, i: nat)
    requires i < |record.previous|
    ensures var k := i + (if record.current.Some? then 1 else 0);
      k < |Senders(record)| && Senders(record)[k] == record.previous[i].senderChain
      && Senders(record.(previous := Without(record.previous, i))) == Without(Senders(record), k)
  {
    var k := i + (if record.current.Some? then 1 else 0);
    var (list, after) := (Senders(record), Senders(record.(previous := Without(record.previous, i))));
    assert forall j :: 0 <= j < |after| ==> after[j] == Without(list, k)[j];
  }

  lemma SendersSet(record: RecordStructure, session: SessionStructure)
    requires record.current.Some?
    ensures Senders(record.(current := Some(session))) == Senders(record)[0 := session.senderChain]
  {
  }

  lemma DecryptSucceeds(suite: Suite, st: SessionStructure, m: SignalMessage, ephemeral: PrivateKey)
    requires DecryptedWithState(suite, st, m, ephemeral).Ok?
    ensures Succeeds(DecryptedWithState(suite, st, m, ephemeral).value.0.senderChain, st.senderChain,
                     suite.publicKey(ephemeral))
  {
    hide DecryptedWithState;
    SessionRuns.StepOnSender(suite, st, SessionRuns.Receive(m, ephemeral));
  }

  /** An archived session brought forward with its sender chain possibly replaced. */
  lemma BroughtForward(record: RecordStructure, i: nat, session: SessionStructure, drawn: PublicKey,
                       known: iset<PublicKey>, sent: iset<(PublicKey, int)>)
    requires Accounted(Senders(record), known, sent) && i < |record.previous| && drawn !in known
    requires Succeeds(session.senderChain, record.previous[i].senderChain, drawn)
    ensures Accounted(Senders(Promoted(record.(previous := Without(record.previous, i)), session)),
                      known + iset{drawn}, sent)
  {
    hide Senders, Accounted;
    var k := i + (if record.current.Some? then 1 else 0);
    SendersWithout(record, i);
    ReplacedAccounted(Senders(record), k, session.senderChain, drawn, known, sent);
    MovedAccounted(Senders(record)[k := session.senderChain], k, known + iset{drawn}, sent);
    assert Without(Senders(record)[k := session.senderChain], k) == Without(Senders(record), k);
    SendersPromoted(record.(previous := Without(record.previous, i)), session);
    BeginningAccounted([session.senderChain] + Without(Senders(record), k),
                       Senders(Promoted(record.(previous := Without(record.previous, i)), session)),
                           known + iset{drawn}, sent);
  }

  lemma CurrentReplaced(record: RecordStructure, session: SessionStructure, drawn: PublicKey, known: iset<PublicKey>,
                        sent: iset<(PublicKey, int)>)
    requires Accounted(Senders(record), known, sent) && record.current.Some? && drawn !in known
    requires Succeeds(session.senderChain, record.current.value.senderChain, drawn)
    ensures Accounted(Senders(record.(current := Some(session))), known + iset{drawn}, sent)
  {
    hide Accounted;
    SendersSet(record, session);
    ReplacedAccounted(Senders(record), 0, session.senderChain, drawn, known, sent);
  }

  ghost function DrawnBy(suite: Suite, ephemeral: nat -> PrivateKey): iset<PublicKey> {
    iset n: nat :: suite.publicKey(ephemeral(n))
  }

  lemma DrawnMember(suite: Suite, ephemeral: nat -> PrivateKey, n: nat)
    ensures suite.publicKey(ephemeral(n)) in DrawnBy(suite, ephemeral)
  {
  }

  lemma RecordAccounted(suite: Suite, record: RecordStructure, m: SignalMessage, isPreKey: bool,
                        ephemeral: nat -> PrivateKey,
                        known: iset<PublicKey>, sent: iset<(PublicKey, int)>)
    requires Accounted(Senders(record), known, sent) && known !! DrawnBy(suite, ephemeral)
    requires DecryptedWithRecord(suite, record, m, isPreKey, ephemeral).Ok?
    ensures Accounted(Senders(DecryptedWithRecord(suite, record, m, isPreKey, ephemeral).value.0),
                      known + DrawnBy(suite, ephemeral), sent)
  {
    hide Senders, Accounted, DecryptedWithState, TryPrevious, DrawnBy, Succeeds;
    var after := DecryptedWithRecord(suite, record, m, isPreKey, ephemeral).value.0;
    var n: nat;
    if record.current.Some? && DecryptedWithState(suite, record.current.value, m, ephemeral(0)).Ok? {
      n := 0;
      DrawnMember(suite, ephemeral, 0);
      DecryptSucceeds(suite, record.current.value, m, ephemeral(0));
      CurrentReplaced(record, after.current.value, suite.publicKey(ephemeral(0)), known, sent);
    } else {
      var (i, session, _) := TryPrevious(suite, record.previous, m, ephemeral, 0).value;
      n := i + 1;
      DrawnMember(suite, ephemeral, i + 1);
      SearchYields(suite, record.previous, m, ephemeral, 0);
      DecryptSucceeds(suite, record.previous[i], m, ephemeral(i + 1));
      BroughtForward(record, i, session, suite.publicKey(ephemeral(i + 1)), known, sent);
    }
    KnownGrows(Senders(after), known + iset{suite.publicKey(ephemeral(n))}, known + DrawnBy(suite, ephemeral), sent);
  }

  /** The session of a pre-key message brought forward as it is. */
  lemma PromotedAccounted(record: RecordStructure, version: u32, baseKey: PublicKey, known: iset<PublicKey>,
                          sent: iset<(PublicKey, int)>)
    requires Accounted(Senders(record), known, sent) && PromotedMatching(record, version, baseKey).Some?
    ensures Accounted(Senders(PromotedMatching(record, version, baseKey).value), known, sent)
  {
    hide Senders, Accounted;
    if !(record.current.Some? && SameSession(record.current.value, version, baseKey)) {
      var i := FindArchived(record.previous, version, baseKey).value;
      var rest := record.(previous := Without(record.previous, i));
      var k := i + (if record.current.Some? then 1 else 0);
      SendersWithout(record, i);
      MovedAccounted(Senders(record), k, known, sent);
      SendersPromoted(rest, record.previous[i]);
      BeginningAccounted([record.previous[i].senderChain] + Without(Senders(record), k),
                         Senders(Promoted(rest, record.previous[i])), known, sent);
    }
  }

  /** A session a pre-key message just started sends, once it decrypted, under the key drawn for it, and
      never under the signed pre-key. */
  lemma FirstAccounted(suite: Suite, record: RecordStructure, session: SessionStructure, m: SignalMessage,
                       ephemeral: nat -> PrivateKey,
                       known: iset<PublicKey>, sent: iset<(PublicKey, int)>)
    requires Accounted(Senders(record), known, sent) && known !! DrawnBy(suite, ephemeral)
             && session.receiverChains == []
    requires DecryptedWithRecord(suite, Promoted(record, session), m, true, ephemeral).Ok?
    ensures Accounted(Senders(DecryptedWithRecord(suite, Promoted(record, session), m, true, ephemeral).value.0),
                      known + DrawnBy(suite, ephemeral), sent)
  {
    hide Accounted, DecryptedWithState, DrawnBy;
    var (promoted, after) := (Promoted(record, session),
                              DecryptedWithRecord(suite, Promoted(record, session), m, true, ephemeral).value.0);
    FirstRatchets(suite, session, m, ephemeral(0));
    DrawnMember(suite, ephemeral, 0);
    var next := after.current.value.senderChain.value;
    SendersPromoted(record, session);
    SendersSet(promoted, after.current.value);
    FrontAccounted(Senders(record), next, known, sent);
    BeginningAccounted([Some(next)] + Senders(record), Senders(after), known + iset{next.ratchetKey}, sent);
    KnownGrows(Senders(after), known + iset{next.ratchetKey}, known + DrawnBy(suite, ephemeral), sent);
  }

  lemma FirstRatchets(suite: Suite, session: SessionStructure, m: SignalMessage, ephemeral: PrivateKey)
    requires session.receiverChains == []
    ensures var r := DecryptedWithState(suite, session, m, ephemeral);
      r.Ok? ==> r.value.0.senderChain.Some? && r.value.0.senderChain.value.ratchetKey == suite.publicKey(ephemeral)
  {
    hide DecryptedWithState;
    SessionRuns.StepOnSender(suite, session, SessionRuns.Receive(m, ephemeral));
  }

  lemma PreKeyAccounted(suite: Suite, s: Stores, address: ProtocolAddress, m: PreKeySignalMessage,
                        ephemeral: nat -> PrivateKey,
                        known: iset<PublicKey>, sent: iset<(PublicKey, int)>)
    requires Accounted(Senders(RecordFor(s, address)), known, sent) && known !! DrawnBy(suite, ephemeral)
    requires PreKeyDecrypted(suite, s, address, m, ephemeral).1.Ok?
    ensures Accounted(Senders(RecordFor(PreKeyDecrypted(suite, s, address, m, ephemeral).0, address)),
                      known + DrawnBy(suite, ephemeral), sent)
  {
    hide Senders, Accounted, DecryptedWithRecord, DrawnBy, Promoted, PromotedMatching, BobParametersFor;
    var record := RecordFor(s, address);
    var processed := PreKeyProcessed(suite, s, address, record, m).value.0;
    if PromotedMatching(record, m.version, m.baseKey).Some? {
      PromotedAccounted(record, m.version, m.baseKey, known, sent);
      RecordAccounted(suite, processed, m.message, true, ephemeral, known, sent);
    } else {
      var session := BobSession(suite, BobParametersFor(s, m).value).value
                       .(localRegistrationId := s.registrationId, remoteRegistrationId := m.registrationId);
      FirstAccounted(suite, record, session, m.message, ephemeral, known, sent);
    }
  }

  // ------------------------------------------------------- one operation

  /** The ratchet keys an operation may draw. */
  ghost function Drawn(suite: Suite, op: Operation): iset<PublicKey> {
    match op
    case EncryptMessage(_, _, _, _) => iset{}
    case ProcessBundle(_, _, _, random) => iset{suite.publicKey(random.ratchetKey)}
    case DecryptSignal(_, _, ephemeral) => DrawnBy(suite, ephemeral)
    case DecryptPreKey(_, _, ephemeral) => DrawnBy(suite, ephemeral)
  }

  /** The message an operation returns. */
  function Output(suite: Suite, s: Stores, op: Operation): Option<SignalMessage> {
    match op
    case EncryptMessage(address, plaintext, now, pqRandom) =>
      var r := MessageEncrypted(suite, s, address, plaintext, now, pqRandom);
      if r.Ok? then Some(Signal(r.value.1)) else None
    case _ => None
  }

  ghost function SentBy(suite: Suite, s: Stores, op: Operation): iset<(PublicKey, int)> {
    match Output(suite, s, op)
    case Some(m) => iset{(m.ratchetKey, m.counter as int)}
    case None => iset{}
  }

  lemma EncryptAccounted(suite: Suite, s: Stores, op: Operation, known: iset<PublicKey>, sent: iset<(PublicKey, int)>)
    requires op.EncryptMessage? && Accounted(Senders(RecordFor(s, op.address)), known, sent)
    requires Output(suite, s, op).Some? && Output(suite, s, op).value.counter < U32_MAX
    ensures Accounted(Senders(RecordFor(Performed(suite, s, op), op.address)), known, sent + SentBy(suite, s, op))
    ensures SentBy(suite, s, op) !! sent
  {
    hide Accounted, DecryptedWithState, Encrypted;
    var record := RecordFor(s, op.address);
    var st := record.current.value;
    SessionRuns.StepOnSender(suite, st, SessionRuns.Send(op.plaintext, op.now, op.pqRandom));
    var after := Encrypted(suite, st, op.plaintext, op.now, op.pqRandom).value.0;
    SendersSet(record, after);
    SentAccounted(Senders(record), after.senderChain.value.chainKey, known, sent);
  }

  lemma BundleAccounted(suite: Suite, s: Stores, op: Operation, known: iset<PublicKey>, sent: iset<(PublicKey, int)>)
    requires op.ProcessBundle? && Accounted(Senders(RecordFor(s, op.address)), known, sent) && known !! Drawn(suite, op)
    requires BundleProcessed(suite, s, op.address, op.bundle, op.now, op.random).Ok?
    ensures Accounted(Senders(RecordFor(Performed(suite, s, op), op.address)), known + Drawn(suite, op), sent)
  {
    hide Accounted, Senders, AliceSecrets;
    var record, session := RecordFor(s, op.address), BundleSession(suite, s, op.bundle, op.now, op.random);
    FrontAccounted(Senders(record), session.senderChain.value, known, sent);
    SendersPromoted(record, session);
    BeginningAccounted([session.senderChain] + Senders(record), Senders(Promoted(record, session)),
                       known + Drawn(suite, op), sent);
  }

  /** One operation with the peer keeps all accounted for, and what it sends was not sent before. */
  lemma PerformedAccounted(suite: Suite, s: Stores, op: Operation, known: iset<PublicKey>, sent: iset<(PublicKey, int)>)
    requires Accounted(Senders(RecordFor(s, op.address)), known, sent) && known !! Drawn(suite, op)
    requires Output(suite, s, op).Some? ==> Output(suite, s, op).value.counter < U32_MAX
    ensures Accounted(Senders(RecordFor(Performed(suite, s, op), op.address)), known + Drawn(suite, op),
                      sent + SentBy(suite, s, op))
    ensures SentBy(suite, s, op) !! sent
  {
    hide Accounted, Senders, MessageEncrypted, BundleProcessed, DecryptedWithRecord, PreKeyProcessed, DrawnBy;
    if op.EncryptMessage? {
      assert known + Drawn(suite, op) == known;
      if Output(suite, s, op).Some? {
        EncryptAccounted(suite, s, op, known, sent);
      } else {
        assert sent + SentBy(suite, s, op) == sent;
      }
    } else {
      assert sent + SentBy(suite, s, op) == sent;
      KnownGrows(Senders(RecordFor(s, op.address)), known, known + Drawn(suite, op), sent);
      match op {
        case ProcessBundle(address, bundle, now, random) =>
          if BundleProcessed(suite, s, address, bundle, now, random).Ok? {
            BundleAccounted(suite, s, op, known, sent);
          }
        case DecryptSignal(address, m, ephemeral) =>
          if SignalDecrypted(suite, s, address, m, ephemeral).Ok? {
            RecordAccounted(suite, RecordFor(s, address), m, false, ephemeral, known, sent);
          }
        case DecryptPreKey(address, m, ephemeral) =>
          if PreKeyDecrypted(suite, s, address, m, ephemeral).1.Ok? {
            PreKeyAccounted(suite, s, address, m, ephemeral, known, sent);
          }
        case EncryptMessage(_, _, _, _) =>
      }
    }
  }

  // ------------------------------------------------------- whole runs

  /** The ratchet keys held for the peer at the start or drawn for it so far. */
  ghost function Known(suite: Suite, s: Stores, peer: ProtocolAddress, run: seq<Operation>): iset<PublicKey> {
    if run == [] then iset x | x in Senders(RecordFor(s, peer)) && x.Some? :: x.value.ratchetKey
    else Known(suite, s, peer, run[..|run| - 1])
         + (if run[|run| - 1].address == peer then Drawn(suite, run[|run| - 1]) else iset{})
  }

  ghost function AllSent(suite: Suite, s: Stores, peer: ProtocolAddress, run: seq<Operation>): iset<(PublicKey, int)> {
    if run == [] then iset{}
    else
      var (before, op) := (run[..|run| - 1], run[|run| - 1]);
      AllSent(suite, s, peer, before)
          + (if op.address == peer then SentBy(suite, PerformedAll(suite, s, before), op) else iset{})
  }

  /** No ratchet key is drawn for the peer that was held or drawn before. */
  ghost predicate NoKeyTwice(suite: Suite, s: Stores, peer: ProtocolAddress, run: seq<Operation>) {
    forall i :: 0 <= i < |run| && run[i].address == peer ==> Known(suite, s, peer, run[..i]) !! Drawn(suite, run[i])
  }

  /** The message the `i`-th operation returns. */
  function OutputAt(suite: Suite, s: Stores, run: seq<Operation>, i: nat): Option<SignalMessage>
    requires i < |run|
  {
    Output(suite, PerformedAll(suite, s, run[..i]), run[i])
  }

  /** No message carries the last 32-bit counter. */
  ghost predicate CountersLeft(suite: Suite, s: Stores, peer: ProtocolAddress, run: seq<Operation>) {
    forall i :: 0 <= i < |run| && run[i].address == peer && OutputAt(suite, s, run, i).Some? ==>
      OutputAt(suite, s, run, i).value.counter < U32_MAX
  }

  lemma {:induction false} RunAccounted(suite: Suite, s: Stores, peer: ProtocolAddress, run: seq<Operation>)
    requires KeysApart(Senders(RecordFor(s, peer))) && NoKeyTwice(suite, s, peer, run)
             && CountersLeft(suite, s, peer, run)
    ensures Accounted(Senders(RecordFor(PerformedAll(suite, s, run), peer)), Known(suite, s, peer, run),
                      AllSent(suite, s, peer, run))
  {
    hide Senders, KeysApart, Performed, Drawn, Output;
    if run == [] {
      StartAccounted(Senders(RecordFor(s, peer)));
    } else {
      hide Accounted;
      var (before, op) := (run[..|run| - 1], run[|run| - 1]);
      PrefixRun(suite, s, peer, run, |run| - 1);
      RunAccounted(suite, s, peer, before);
      var now := PerformedAll(suite, s, before);
      if op.address == peer {
        assert OutputAt(suite, s, run, |run| - 1) == Output(suite, now, op);
        PerformedAccounted(suite, now, op, Known(suite, s, peer, before), AllSent(suite, s, peer, before));
      } else {
        OthersUntouched(suite, now, op, peer);
        assert Known(suite, s, peer, run) == Known(suite, s, peer, before);
        assert AllSent(suite, s, peer, run) == AllSent(suite, s, peer, before);
      }
    }
  }

  lemma StartAccounted(list: seq<Sender>)
    requires KeysApart(list)
    ensures Accounted(list, iset x | x in list && x.Some? :: x.value.ratchetKey, iset{})
  {
  }

  lemma {:induction false} SentIsRemembered(suite: Suite, s: Stores, peer: ProtocolAddress, run: seq<Operation>, i: nat)
    requires i < |run| && run[i].address == peer && OutputAt(suite, s, run, i).Some?
    ensures var m := OutputAt(suite, s, run, i).value; (m.ratchetKey, m.counter as int) in AllSent(suite, s, peer, run)
  {
    hide Output, Performed;
    if i < |run| - 1 {
      assert run[..|run| - 1][..i] == run[..i];
      SentIsRemembered(suite, s, peer, run[..|run| - 1], i);
    }
  }

  /** A sender never reuses a message key with a peer: over any run of store operations, no two messages
      returned for one address share ratchet key and counter, as long as no ratchet key is drawn twice
      and no message carries the last 32-bit counter. */
  lemma NeverReuses(suite: Suite, s: Stores, peer: ProtocolAddress, run: seq<Operation>, i: nat, j: nat)
    requires KeysApart(Senders(RecordFor(s, peer))) && NoKeyTwice(suite, s, peer, run)
             && CountersLeft(suite, s, peer, run)
    requires i < j < |run| && run[i].address == peer && run[j].address == peer
    requires OutputAt(suite, s, run, i).Some? && OutputAt(suite, s, run, j).Some?
    ensures var (a, b) := (OutputAt(suite, s, run, i).value, OutputAt(suite, s, run, j).value);
      a.ratchetKey != b.ratchetKey || a.counter != b.counter
  {
    hide Senders, KeysApart, Performed, Drawn, Output, Accounted, Known, AllSent, PerformedAll;
    var before := run[..j];
    PrefixRun(suite, s, peer, run, j);
    RunAccounted(suite, s, peer, before);
    assert before[..i] == run[..i];
    SentIsRemembered(suite, s, peer, before, i);
    PerformedAccounted(suite, PerformedAll(suite, s, before), run[j], Known(suite, s, peer, before),
                       AllSent(suite, s, peer, before));
  }

  lemma PrefixRun(suite: Suite, s: Stores, peer: ProtocolAddress, run: seq<Operation>, j: nat)
    requires j <= |run| && NoKeyTwice(suite, s, peer, run) && CountersLeft(suite, s, peer, run)
    ensures NoKeyTwice(suite, s, peer, run[..j]) && CountersLeft(suite, s, peer, run[..j])
  {
    hide Known, Drawn, Output, PerformedAll;
    var before := run[..j];
    forall i | 0 <= i < j
      ensures before[..i] == run[..i] && OutputAt(suite, s, before, i) == OutputAt(suite, s, run, i)
    {
      assert before[..i] == run[..i];
    }
  }
}
