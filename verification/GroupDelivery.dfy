/** Delivery, at-most-once acceptance and key freshness over whole runs of a sender-key record. */
module GroupDelivery {
  import opened Wrappers
  import opened Bytes
  import opened KdfChain
  import opened SenderKeys
  import opened SenderKeyChain
  import opened GroupCipher
  import opened GroupRuns

  /** The record holds a state for this chain id and signing key. */
  predicate Holds(stored: Stored, chainId: u32, publicKey: Bytes) {
    stored.Some? && FindState(stored.value, chainId, publicKey).Some?
  }

  function Held(stored: Stored, chainId: u32, publicKey: Bytes): StateStructure
    requires Holds(stored, chainId, publicKey)
  {
    stored.value[FindState(stored.value, chainId, publicKey).value]
  }

  lemma HeldIsUnique(states: RecordStructure, i: nat, chainId: u32, publicKey: Bytes)
    requires DistinctChains(states) && i < |states| && Matches(states[i], chainId, publicKey)
    ensures FindState(states, chainId, publicKey) == Some(i) && FindChain(states, chainId) == Some(i)
  {
  }

  /** How one operation changes a state that is held before and after it. */
  function Advanced(suite: Suite, st: StateStructure, e: Event, outcome: Outcome): StateStructure {
    if e.Decrypt? && outcome.Received? && e.message.chainId == st.chainId
       && TakeKey(suite.hmac, st, e.message.iteration).Ok? then
      TakeKey(suite.hmac, st, e.message.iteration).value.0
    else if e.Encrypt? && outcome.Sent? && outcome.sent.chainId == st.chainId
            && st.senderChainKey.Some? && st.senderChainKey.value.Next(suite.hmac).Ok? then
      st.(senderChainKey := Some(st.senderChainKey.value.Next(suite.hmac).value))
    else st
  }

  /** Everything an addition leaves under a chain id was there before, unless it is the addition. */
  lemma AddStateKeeps(states: RecordStructure, added: StateStructure, j: nat)
    requires added.signingPublic.Some? && j < |AddState(states, added)|
    ensures AddState(states, added)[j] in states
            || (AddState(states, added)[j] == added
                && FindState(states, added.chainId, added.signingPublic.value).None?)
    ensures j > 0 ==> AddState(states, added)[j].chainId != added.chainId
  {
    AddStateShape(states, added);
    DropChainMembers(states, added.chainId);
    if j > 0 {
      assert AddState(states, added)[j] == DropChain(states, added.chainId)[j - 1];
      assert DropChain(states, added.chainId)[j - 1] in DropChain(states, added.chainId);
    }
  }

  lemma AdditionOnHeld(states: RecordStructure, added: StateStructure, chainId: u32, publicKey: Bytes)
    requires added.signingPublic.Some? && DistinctChains(states)
    requires Holds(Some(AddState(states, added)), chainId, publicKey)
    ensures var after := Held(Some(AddState(states, added)), chainId, publicKey);
      if Holds(Some(states), chainId, publicKey) then after == Held(Some(states), chainId, publicKey)
      else after == added
  {
    var j := FindState(AddState(states, added), chainId, publicKey).value;
    AddStateKeeps(states, added, j);
    var after := AddState(states, added)[j];
    if after in states {
      var i :| 0 <= i < |states| && states[i] == after;
      HeldIsUnique(states, i, chainId, publicKey);
    }
  }

  /** Encrypting and decrypting touch one state and keep every identity. */
  lemma UpdateIsPointwise(suite: Suite, id: Uuid, stored: Stored, e: Event)
    requires Disciplined(stored) && (e.Encrypt? || e.Decrypt?)
    ensures var (after, outcome) := Step(suite, id, stored, e);
      if stored.None? then after.None?
      else after.Some? && |after.value| == |stored.value|
           && forall j :: 0 <= j < |stored.value| ==>
                after.value[j] == Advanced(suite, stored.value[j], e, outcome)
  {
  }

  /** A state held before and after an operation changed only as `Advanced` says. */
  lemma StepOnHeld(suite: Suite, id: Uuid, stored: Stored, e: Event, chainId: u32, publicKey: Bytes)
    requires Disciplined(stored)
    requires Holds(stored, chainId, publicKey)
    requires var after := Step(suite, id, stored, e).0; Holds(after, chainId, publicKey)
    ensures var (after, outcome) := Step(suite, id, stored, e);
      Held(after, chainId, publicKey) == Advanced(suite, Held(stored, chainId, publicKey), e, outcome)
  {
    var i := FindState(stored.value, chainId, publicKey).value;
    HeldIsUnique(stored.value, i, chainId, publicKey);
    StepDisciplined(suite, id, stored, e);
    var (after, outcome) := Step(suite, id, stored, e);
    match e {
      case Process(d) =>
        AdditionOnHeld(stored.value, NewState(d.version, d.chainId, d.iteration, d.chainKey, d.signingKey, None),
                       chainId, publicKey);
      case Create(_) =>
      case _ =>
        UpdateIsPointwise(suite, id, stored, e);
        HeldIsUnique(after.value, i, chainId, publicKey);
    }
  }

  lemma AdvancedKeeps(suite: Suite, st: StateStructure, e: Event, outcome: Outcome)
    ensures var after := Advanced(suite, st, e, outcome);
      after.chainId == st.chainId && after.signingPublic == st.signingPublic && after.storedVersion == st.storedVersion
  {
  }

  lemma UpdateHoldsAlike(suite: Suite, id: Uuid, stored: Stored, e: Event, chainId: u32, publicKey: Bytes)
    requires Disciplined(stored) && (e.Encrypt? || e.Decrypt?)
    ensures Holds(Step(suite, id, stored, e).0, chainId, publicKey) ==> Holds(stored, chainId, publicKey)
  {
    hide Advanced, TakeKey;
    var (after, outcome) := Step(suite, id, stored, e);
    UpdateIsPointwise(suite, id, stored, e);
    if Holds(after, chainId, publicKey) {
      AdvancedKeeps(suite, stored.value[FindState(after.value, chainId, publicKey).value], e, outcome);
    }
  }

  /** A state that appears was made by this operation, from a distribution message or from fresh
      random values. */
  lemma StepOnNew(suite: Suite, id: Uuid, stored: Stored, e: Event, chainId: u32, publicKey: Bytes)
    requires Disciplined(stored)
    requires !Holds(stored, chainId, publicKey)
    requires Holds(Step(suite, id, stored, e).0, chainId, publicKey)
    ensures var st := Held(Step(suite, id, stored, e).0, chainId, publicKey);
      match e
      case Process(d) => d.chainId == chainId && d.signingKey == publicKey
                         && st == NewState(d.version, chainId, d.iteration, d.chainKey, publicKey, None)
      case Create(r) => r.chainId == chainId && suite.publicKey(r.privateKey) == publicKey
                        && st == NewState(SENDERKEY_MESSAGE_CURRENT_VERSION, chainId, 0, r.chainKey,
                                          publicKey, Some(r.privateKey))
      case _ => false
  {
    match e {
      case Process(d) =>
        AdditionOnHeld(if stored.Some? then stored.value else [],
                       NewState(d.version, d.chainId, d.iteration, d.chainKey, d.signingKey, None), chainId, publicKey);
      case Create(r) =>
        AdditionOnHeld([], NewState(SENDERKEY_MESSAGE_CURRENT_VERSION, r.chainId, 0, r.chainKey,
                                    suite.publicKey(r.privateKey), Some(r.privateKey)), chainId, publicKey);
      case _ =>
        UpdateHoldsAlike(suite, id, stored, e, chainId, publicKey);
    }
  }

  // ------------------------------------------------------- following one state

  /** Where a held state started and which iterations it has handed out since. */
  datatype History = History(start: SenderChainKey, used: set<int>)

  function UsedBy(e: Event, outcome: Outcome, chainId: u32): set<int> {
    if e.Decrypt? && outcome.Received? && e.message.chainId == chainId then {e.message.iteration}
    else if e.Encrypt? && outcome.Sent? && outcome.sent.chainId == chainId then {outcome.sent.iteration}
    else {}
  }

  /** The history of a state since it was last added, over a run; None while it is not held. */
  function Track(suite: Suite, id: Uuid, run: seq<Event>, chainId: u32, publicKey: Bytes): Option<History> {
    if run == [] then None
    else
      var (before, e) := (run[..|run| - 1], run[|run| - 1]);
      var (after, outcome) := Step(suite, id, After(suite, id, before), e);
      if !Holds(after, chainId, publicKey) then None
      else match Track(suite, id, before, chainId, publicKey)
        case Some(h) => Some(History(h.start, h.used + UsedBy(e, outcome, chainId)))
        case None =>
          match Held(after, chainId, publicKey).senderChainKey
          case Some(start) => Some(History(start, {}))
          case None => None
  }

  ghost predicate Tracked(suite: Suite, stored: Stored, chainId: u32, publicKey: Bytes, h: Option<History>) {
    if Holds(stored, chainId, publicKey) then
      h.Some? && StateWindow(suite.hmac, h.value.start, Held(stored, chainId, publicKey), h.value.used)
    else h.None?
  }

  /** Nothing unread is lost: at every point of every run, each held state has the window
      invariant of SenderKeyChain for its own history. */
  lemma {:induction false} RunKeepsWindow(suite: Suite, id: Uuid, run: seq<Event>, chainId: u32, publicKey: Bytes)
    ensures Tracked(suite, After(suite, id, run), chainId, publicKey, Track(suite, id, run, chainId, publicKey))
  {
    if run != [] {
      var before, e := run[..|run| - 1], run[|run| - 1];
      var stored := After(suite, id, before);
      RunKeepsWindow(suite, id, before, chainId, publicKey);
      RunDisciplined(suite, id, before);
      if Holds(Step(suite, id, stored, e).0, chainId, publicKey) {
        if Holds(stored, chainId, publicKey) {
          StepKeepsWindow(suite, id, stored, e, chainId, publicKey, Track(suite, id, before, chainId, publicKey).value);
        } else {
          StepOnNew(suite, id, stored, e, chainId, publicKey);
        }
      }
    }
  }

  lemma StepKeepsWindow(suite: Suite, id: Uuid, stored: Stored, e: Event, chainId: u32, publicKey: Bytes, h: History)
    requires Disciplined(stored)
    requires Holds(stored, chainId, publicKey) && Holds(Step(suite, id, stored, e).0, chainId, publicKey)
    requires StateWindow(suite.hmac, h.start, Held(stored, chainId, publicKey), h.used)
    ensures var (after, outcome) := Step(suite, id, stored, e);
      StateWindow(suite.hmac, h.start, Held(after, chainId, publicKey), h.used + UsedBy(e, outcome, chainId))
  {
    hide Window, FindState, TakeKey;
    StepOnHeld(suite, id, stored, e, chainId, publicKey);
    var i := FindState(stored.value, chainId, publicKey).value;
    HeldIsUnique(stored.value, i, chainId, publicKey);
    var st := Held(stored, chainId, publicKey);
    var outcome := Step(suite, id, stored, e).1;
    if UsedBy(e, outcome, chainId) == {} {
      assert h.used + {} == h.used;
    } else if e.Decrypt? {
      TakeKeyKeepsWindow(suite.hmac, h.start, st, e.message.iteration, h.used);
    } else {
      assert stored.value[0].chainId == chainId && i == 0;
      UseCurrent(suite.hmac, h.start, st.messageKeys, st.senderChainKey.value.iteration, h.used);
    }
  }

  // ------------------------------------------------------- at most once

  /** The state stays in the record from just after event `i` until event `j` is handled. */
  ghost predicate HeldThrough(suite: Suite, id: Uuid, run: seq<Event>, i: nat, j: nat, chainId: u32, publicKey: Bytes)
    requires i < j < |run|
  {
    forall k :: i < k <= j ==> Holds(After(suite, id, run[..k]), chainId, publicKey)
  }

  /** While a state is held its start stays and its history only grows. */
  lemma {:induction false} HistoryGrows(suite: Suite, id: Uuid, run: seq<Event>, i: nat, j: nat,
                                        chainId: u32, publicKey: Bytes)
    requires i < j < |run| && HeldThrough(suite, id, run, i, j, chainId, publicKey)
    ensures var from, to := Track(suite, id, run[..i + 1], chainId, publicKey),
                            Track(suite, id, run[..j], chainId, publicKey);
      from.Some? && to.Some? && from.value.start == to.value.start && from.value.used <= to.value.used
    decreases j - i
  {
    hide Step, Holds, Held;
    assert Holds(After(suite, id, run[..i + 1]), chainId, publicKey);
    if i + 1 < j {
      HistoryGrows(suite, id, run, i, j - 1, chainId, publicKey);
      assert run[..j][..j - 1] == run[..j - 1];
      assert Holds(After(suite, id, run[..j]), chainId, publicKey);
    } else {
      RunKeepsWindow(suite, id, run[..i + 1], chainId, publicKey);
    }
  }

  lemma {:induction false} VersionStays(suite: Suite, id: Uuid, run: seq<Event>, i: nat, j: nat,
                                        chainId: u32, publicKey: Bytes)
    requires i < j < |run| && HeldThrough(suite, id, run, i, j, chainId, publicKey)
    ensures Holds(After(suite, id, run[..i + 1]), chainId, publicKey)
            && Holds(After(suite, id, run[..j]), chainId, publicKey)
    ensures Held(After(suite, id, run[..i + 1]), chainId, publicKey).storedVersion
         == Held(After(suite, id, run[..j]), chainId, publicKey).storedVersion
    decreases j - i
  {
    hide Step, Holds, Held;
    assert Holds(After(suite, id, run[..i + 1]), chainId, publicKey)
           && Holds(After(suite, id, run[..j]), chainId, publicKey);
    if i + 1 < j {
      VersionStays(suite, id, run, i, j - 1, chainId, publicKey);
      RunDisciplined(suite, id, run[..j - 1]);
      assert run[..j][..j - 1] == run[..j - 1];
      StepKeepsVersion(suite, id, After(suite, id, run[..j - 1]), run[j - 1], chainId, publicKey);
    }
  }

  lemma StepKeepsVersion(suite: Suite, id: Uuid, stored: Stored, e: Event, chainId: u32, publicKey: Bytes)
    requires Disciplined(stored) && Holds(stored, chainId, publicKey)
    requires Holds(Step(suite, id, stored, e).0, chainId, publicKey)
    ensures Held(Step(suite, id, stored, e).0, chainId, publicKey).storedVersion
         == Held(stored, chainId, publicKey).storedVersion
  {
    StepOnHeld(suite, id, stored, e, chainId, publicKey);
  }

  lemma UsedIsRefused(suite: Suite, stored: Stored, m: SenderKeyMessage, publicKey: Bytes, h: History)
    requires Disciplined(stored) && Holds(stored, m.chainId, publicKey)
    requires StateWindow(suite.hmac, h.start, Held(stored, m.chainId, publicKey), h.used) && m.iteration in h.used
    ensures Decrypted(suite, stored, m).Err?
    ensures m.version == Held(stored, m.chainId, publicKey).MessageVersion()
            && suite.verify(publicKey, m.content, m.signature)
            ==> Decrypted(suite, stored, m) == Err(DuplicatedMessage)
  {
    var k := FindState(stored.value, m.chainId, publicKey).value;
    HeldIsUnique(stored.value, k, m.chainId, publicKey);
    UnreadIsAvailable(suite.hmac, h.start, stored.value[k], m.iteration, h.used);
  }

  /** An iteration accepted, or sent, at event `i` is in the history of its state afterwards. */
  lemma UseIsRecorded(suite: Suite, id: Uuid, run: seq<Event>, i: nat, chainId: u32, publicKey: Bytes)
    requires i < |run| && Holds(After(suite, id, run[..i + 1]), chainId, publicKey)
    requires UsedBy(run[i], OutcomeAt(suite, id, run, i), chainId) != {}
    ensures var h := Track(suite, id, run[..i + 1], chainId, publicKey);
      h.Some? && UsedBy(run[i], OutcomeAt(suite, id, run, i), chainId) <= h.value.used
  {
    var before, e := run[..i], run[i];
    assert run[..i + 1][..i] == before;
    RunKeepsWindow(suite, id, before, chainId, publicKey);
    RunDisciplined(suite, id, before);
    if !Holds(After(suite, id, before), chainId, publicKey) {
      StepOnNew(suite, id, After(suite, id, before), e, chainId, publicKey);
      assert false;
    }
  }

  /** At most once: if a message was decrypted and the state it used stays in the record, no
      message of that chain and iteration is decrypted again, whatever happens in between,
      processing its distribution message again included; the same message is refused as a
      duplicate and the refusal stores nothing. */
  lemma AtMostOnce(suite: Suite, id: Uuid, run: seq<Event>, i: nat, j: nat, publicKey: Bytes)
    requires i < j < |run| && run[i].Decrypt? && run[j].Decrypt?
    requires run[i].message.chainId == run[j].message.chainId && run[i].message.iteration == run[j].message.iteration
    requires OutcomeAt(suite, id, run, i).Received?
    requires HeldThrough(suite, id, run, i, j, run[i].message.chainId, publicKey)
    ensures OutcomeAt(suite, id, run, j).Failed?
    ensures After(suite, id, run[..j + 1]) == After(suite, id, run[..j])
    ensures run[i].message == run[j].message ==> OutcomeAt(suite, id, run, j) == Failed(DuplicatedMessage)
  {
    hide Holds, Held, StateWindow, Encrypted, Decrypted, Processed, CreatedRecord;
    var m := run[j].message;
    var stored := After(suite, id, run[..j]);
    assert Holds(After(suite, id, run[..i + 1]), m.chainId, publicKey) && Holds(stored, m.chainId, publicKey);
    UseIsRecorded(suite, id, run, i, m.chainId, publicKey);
    HistoryGrows(suite, id, run, i, j, m.chainId, publicKey);
    RunKeepsWindow(suite, id, run[..j], m.chainId, publicKey);
    RunDisciplined(suite, id, run[..j]);
    UsedIsRefused(suite, stored, m, publicKey, Track(suite, id, run[..j], m.chainId, publicKey).value);
    assert run[..j + 1][..j] == run[..j];
    if run[i].message == m {
      AcceptedMatches(suite, id, run, i, publicKey);
      VersionStays(suite, id, run, i, j, m.chainId, publicKey);
    }
  }

  /** A decrypted message carried the version of the state it used, where 0 stands for 3, and its signature
      verified under the key of that state. */
  lemma AcceptedMatches(suite: Suite, id: Uuid, run: seq<Event>, i: nat, publicKey: Bytes)
    requires i < |run| && run[i].Decrypt? && OutcomeAt(suite, id, run, i).Received?
    requires Holds(After(suite, id, run[..i + 1]), run[i].message.chainId, publicKey)
    ensures var stored := Held(After(suite, id, run[..i + 1]), run[i].message.chainId, publicKey).storedVersion;
      run[i].message.version == if stored == 0 then 3 else stored
    ensures suite.verify(publicKey, run[i].message.content, run[i].message.signature)
  {
    hide TakeKey;
    var m, stored := run[i].message, After(suite, id, run[..i]);
    assert run[..i + 1][..i] == run[..i];
    RunDisciplined(suite, id, run[..i]);
    RunDisciplined(suite, id, run[..i + 1]);
    UpdateIsPointwise(suite, id, stored, run[i]);
    hide Advanced, TakeKey;
    var k := FindChain(stored.value, m.chainId).value;
    AdvancedKeeps(suite, stored.value[k], run[i], OutcomeAt(suite, id, run, i));
    var after := After(suite, id, run[..i + 1]).value;
    HeldIsUnique(after, FindState(after, m.chainId, publicKey).value, m.chainId, publicKey);
    assert after[k].chainId == m.chainId;
  }

  /** A sender never reuses a message key: of two messages sent on one state the later has the
      larger iteration. */
  lemma SentIterationsGrow(suite: Suite, id: Uuid, run: seq<Event>, i: nat, j: nat, publicKey: Bytes)
    requires i < j < |run| && run[i].Encrypt? && run[j].Encrypt?
    requires OutcomeAt(suite, id, run, i).Sent? && OutcomeAt(suite, id, run, j).Sent?
    requires OutcomeAt(suite, id, run, i).sent.chainId == OutcomeAt(suite, id, run, j).sent.chainId
    requires HeldThrough(suite, id, run, i, j, OutcomeAt(suite, id, run, i).sent.chainId, publicKey)
    ensures OutcomeAt(suite, id, run, i).sent.iteration < OutcomeAt(suite, id, run, j).sent.iteration
  {
    var chainId := OutcomeAt(suite, id, run, i).sent.chainId;
    var stored := After(suite, id, run[..j]);
    assert Holds(After(suite, id, run[..i + 1]), chainId, publicKey) && Holds(stored, chainId, publicKey);
    UseIsRecorded(suite, id, run, i, chainId, publicKey);
    HistoryGrows(suite, id, run, i, j, chainId, publicKey);
    RunKeepsWindow(suite, id, run[..j], chainId, publicKey);
    RunDisciplined(suite, id, run[..j]);
    HeldIsUnique(stored.value, FindState(stored.value, chainId, publicKey).value, chainId, publicKey);
    assert stored.value[0].chainId == chainId;
  }

  /** The last 32-bit iteration is refused on both sides, never wrapped: a sender whose chain
      stands there sends nothing more, and no message carrying it is ever accepted. */
  lemma ExhaustionIsRefused(suite: Suite, id: Uuid, run: seq<Event>, i: nat)
    requires i < |run|
    ensures match (run[i], OutcomeAt(suite, id, run, i))
      case (Encrypt(_, _), Sent(m)) => m.iteration < U32_MAX
      case (Decrypt(m), Received(_)) => m.iteration < U32_MAX
      case _ => true
    ensures var stored := After(suite, id, run[..i]);
      run[i].Encrypt? && stored.Some? && stored.value != [] && stored.value[0].senderChainKey.Some?
      && stored.value[0].signingPrivate.Some? && stored.value[0].MessageVersion() <= 0xFF
      && stored.value[0].senderChainKey.value.iteration == U32_MAX
      ==> OutcomeAt(suite, id, run, i) == Failed(InvalidState)
  {
    var stored := After(suite, id, run[..i]);
    if run[i].Decrypt? && OutcomeAt(suite, id, run, i).Received? {
      var m := run[i].message;
      var k := FindChain(stored.value, m.chainId).value;
      var publicKey := stored.value[k].signingPublic.value;
      RunDisciplined(suite, id, run[..i]);
      HeldIsUnique(stored.value, k, m.chainId, publicKey);
      RunKeepsWindow(suite, id, run[..i], m.chainId, publicKey);
      TakeKeyIff(suite.hmac, stored.value[k], m.iteration);
    }
  }

  // ------------------------------------------------------- delivery in any order

  /** The random values of the first distribution message made in a run. */
  function Origin(run: seq<Event>): Option<Fresh> {
    if run == [] then None
    else if Origin(run[..|run| - 1]).Some? then Origin(run[..|run| - 1])
    else match run[|run| - 1]
      case Create(drawn) => Some(drawn)
      case _ => None
  }

  /** A sender's own record is only used to send and to make distribution messages. */
  ghost predicate SenderOnly(run: seq<Event>) {
    forall i :: 0 <= i < |run| ==> run[i].Encrypt? || run[i].Create?
  }

  /** The state of a sender whose chain, made from `drawn`, stands at `n`. */
  function SenderState(suite: Suite, drawn: Fresh, n: u32): StateStructure {
    NewState(SENDERKEY_MESSAGE_CURRENT_VERSION, drawn.chainId, 0, drawn.chainKey,
             suite.publicKey(drawn.privateKey), Some(drawn.privateKey))
      .(senderChainKey := Some(ChainAt(suite.hmac, SenderChainKey(0, drawn.chainKey), n)))
  }

  function Position(stored: Stored): u32 {
    if stored.Some? && stored.value != [] && stored.value[0].senderChainKey.Some?
    then stored.value[0].senderChainKey.value.iteration else 0
  }

  function SenderStored(suite: Suite, origin: Option<Fresh>, n: u32): Stored {
    match origin
    case None => None
    case Some(drawn) => Some([SenderState(suite, drawn, n)])
  }

  lemma {:induction false} SenderRecord(suite: Suite, id: Uuid, run: seq<Event>)
    requires SenderOnly(run)
    ensures After(suite, id, run) == SenderStored(suite, Origin(run), Position(After(suite, id, run)))
  {
    if run != [] {
      var before, e := run[..|run| - 1], run[|run| - 1];
      SenderRecord(suite, id, before);
      if Origin(before).Some? {
        SenderStep(suite, id, Origin(before).value, Position(After(suite, id, before)), e);
      } else if e.Create? {
        FirstState(suite, e.drawn);
      }
    }
  }

  lemma FirstState(suite: Suite, drawn: Fresh)
    ensures CreatedRecord(suite, None, drawn) == [SenderState(suite, drawn, 0)]
  {
    AddStateShape([], SenderState(suite, drawn, 0));
  }

  /** What a sender with a record returns and stores. */
  lemma SenderStep(suite: Suite, id: Uuid, drawn: Fresh, n: u32, e: Event)
    requires e.Encrypt? || e.Create?
    ensures var (after, outcome) := Step(suite, id, SenderStored(suite, Some(drawn), n), e);
      var chain := ChainAt(suite.hmac, SenderChainKey(0, drawn.chainKey), n);
      match e
      case Create(_) =>
        after == SenderStored(suite, Some(drawn), n)
        && outcome == Announces(DistributionMessage(3, id, drawn.chainId, n, chain.chainKey,
                                                    suite.publicKey(drawn.privateKey)))
      case Encrypt(plaintext, random) =>
        if n == U32_MAX then after == SenderStored(suite, Some(drawn), n) && outcome == Failed(InvalidState)
        else
          after == SenderStored(suite, Some(drawn), n + 1) && outcome.Sent?
          && outcome.sent.version == 3 && outcome.sent.chainId == drawn.chainId && outcome.sent.iteration == n
          && outcome.sent.ciphertext == suite.encrypt(plaintext, suite.messageKey(chain.MessageKey(suite.hmac).seed))
          && outcome.sent.signature == suite.sign(drawn.privateKey, outcome.sent.content, random)
          && outcome.sent.distributionId == id
          && outcome.sent.content == suite.content(3, id, drawn.chainId, n, outcome.sent.ciphertext)
  {
    var chain := ChainAt(suite.hmac, SenderChainKey(0, drawn.chainKey), n);
    if n < U32_MAX {
      assert chain.Next(suite.hmac) == Ok(ChainAt(suite.hmac, SenderChainKey(0, drawn.chainKey), n + 1));
      assert [SenderState(suite, drawn, n)][0 := SenderState(suite, drawn, n + 1)] ==
               [SenderState(suite, drawn, n + 1)];
    }
  }

  lemma {:induction false} OriginStays(run: seq<Event>, k: nat)
    requires k <= |run| && Origin(run[..k]).Some?
    ensures Origin(run) == Origin(run[..k])
  {
    if k < |run| {
      assert run[..|run| - 1][..k] == run[..k];
      OriginStays(run[..|run| - 1], k);
    } else {
      assert run[..k] == run;
    }
  }

  /** The message is its plaintext under the key of its iteration on the chain drawn, signed. */
  ghost predicate HonestMessage(suite: Suite, drawn: Fresh, m: SenderKeyMessage, plaintext: Bytes) {
    && m.version == SENDERKEY_MESSAGE_CURRENT_VERSION && m.iteration < U32_MAX && m.chainId == drawn.chainId
    && m.ciphertext == suite.encrypt(plaintext, suite.messageKey(
         KeyAt(suite.hmac, SenderChainKey(0, drawn.chainKey), m.iteration).seed))
    && suite.verify(suite.publicKey(drawn.privateKey), m.content, m.signature)
  }

  /** What the signature covers are the message's own fields, under its distribution id. */
  predicate SignsItself(suite: Suite, id: Uuid, m: SenderKeyMessage) {
    m.distributionId == id && m.content == suite.content(m.version, id, m.chainId, m.iteration, m.ciphertext)
  }

  /** The distribution message carries the chain drawn, at the iteration it names. */
  ghost predicate HonestAnnouncement(suite: Suite, drawn: Fresh, d: DistributionMessage) {
    && d.version == SENDERKEY_MESSAGE_CURRENT_VERSION && d.chainId == drawn.chainId
    && d.signingKey == suite.publicKey(drawn.privateKey)
    && SenderChainKey(d.iteration, d.chainKey)
       == ChainAt(suite.hmac, SenderChainKey(0, drawn.chainKey), d.iteration)
  }

  /** Every message a sender sends and every distribution message it makes is honest. */
  lemma SenderIsHonest(suite: Suite, id: Uuid, run: seq<Event>, i: nat)
    requires Lawful(suite) && SenderOnly(run) && i < |run|
    ensures match OutcomeAt(suite, id, run, i)
      case Sent(m) =>
        Origin(run).Some? && HonestMessage(suite, Origin(run).value, m, run[i].plaintext) && SignsItself(suite, id, m)
      case Announces(d) => Origin(run).Some? && HonestAnnouncement(suite, Origin(run).value, d)
      case _ => true
  {
    SenderRecord(suite, id, run[..i]);
    hide Encrypted, CreatedRecord, Announced, ChainSeed;
    var e, stored := run[i], After(suite, id, run[..i]);
    if Origin(run[..i]).Some? {
      OriginStays(run, i);
      SenderStep(suite, id, Origin(run).value, Position(stored), e);
    } else if e.Create? {
      assert run[..i + 1][..i] == run[..i];
      OriginStays(run, i + 1);
      FirstState(suite, e.drawn);
    }
  }

  lemma EmptyHoldsNothing(suite: Suite, id: Uuid, chainId: u32, publicKey: Bytes)
    ensures !Holds(After(suite, id, []), chainId, publicKey)
  {
  }

  /** Every state of a receiver comes from a distribution message it processed. */
  lemma {:induction false} ReceiverStart(suite: Suite, id: Uuid, run: seq<Event>, chainId: u32,
                                         publicKey: Bytes) returns (i: nat)
    requires forall k :: 0 <= k < |run| ==> run[k].Decrypt? || run[k].Process?
    requires Holds(After(suite, id, run), chainId, publicKey)
    ensures i < |run| && run[i].Process? && run[i].announced.chainId == chainId
            && run[i].announced.signingKey == publicKey
    ensures Track(suite, id, run, chainId, publicKey).Some?
    ensures Track(suite, id, run, chainId, publicKey).value.start
         == SenderChainKey(run[i].announced.iteration, run[i].announced.chainKey)
    ensures Held(After(suite, id, run), chainId, publicKey).storedVersion == run[i].announced.version
  {
    hide Encrypted, Decrypted, Processed, CreatedRecord, Announced, Holds, Held, StateWindow, Disciplined;
    assert run != [] by { EmptyHoldsNothing(suite, id, chainId, publicKey); }
    var before, e := run[..|run| - 1], run[|run| - 1];
    var stored := After(suite, id, before);
    RunDisciplined(suite, id, before);
    RunKeepsWindow(suite, id, before, chainId, publicKey);
    if Holds(stored, chainId, publicKey) {
      i := ReceiverStart(suite, id, before, chainId, publicKey);
      StepOnHeld(suite, id, stored, e, chainId, publicKey);
    } else {
      StepOnNew(suite, id, stored, e, chainId, publicKey);
      i := |run| - 1;
    }
  }

  /** A receiver of the sender's messages: it handles messages, whoever made them, and
      distribution messages, of which those with the sender's chain id are honest. */
  ghost predicate Receives(suite: Suite, drawn: Fresh, run: seq<Event>) {
    forall k :: 0 <= k < |run| ==>
      run[k].Decrypt? || (run[k].Process? &&
        (run[k].announced.chainId == drawn.chainId ==> HonestAnnouncement(suite, drawn, run[k].announced)))
  }

  /** The receiver holds the sender's state, the iteration is not before the state's start, was not
      accepted since, and lies at most 2,000 behind the chain and at most 25,000 ahead of it. */
  ghost predicate Readable(suite: Suite, id: Uuid, receiver: seq<Event>, drawn: Fresh, n: u32) {
    var stored, publicKey := After(suite, id, receiver), suite.publicKey(drawn.privateKey);
    && Holds(stored, drawn.chainId, publicKey)
    && var h := Track(suite, id, receiver, drawn.chainId, publicKey);
       var st := Held(stored, drawn.chainId, publicKey);
       h.Some? && st.senderChainKey.Some? && h.value.start.iteration <= n && n !in h.value.used
       && st.senderChainKey.value.iteration - 2_000 <= n
          <= st.senderChainKey.value.iteration + 25_000
  }

  lemma HonestIsDelivered(suite: Suite, id: Uuid, receiver: seq<Event>, drawn: Fresh, m: SenderKeyMessage,
                          plaintext: Bytes)
    requires Lawful(suite) && Receives(suite, drawn, receiver) && HonestMessage(suite, drawn, m, plaintext)
    requires Readable(suite, id, receiver, drawn, m.iteration)
    ensures Decrypted(suite, After(suite, id, receiver), m).Ok?
    ensures Decrypted(suite, After(suite, id, receiver), m).value.1 == plaintext
  {
    var publicKey := suite.publicKey(drawn.privateKey);
    var i := ReceiverStart(suite, id, receiver, m.chainId, publicKey);
    RunKeepsWindow(suite, id, receiver, m.chainId, publicKey);
    RunDisciplined(suite, id, receiver);
    UnusedIsDelivered(suite, After(suite, id, receiver), drawn, m, plaintext,
                      Track(suite, id, receiver, m.chainId, publicKey).value);
  }

  lemma UnusedIsDelivered(suite: Suite, stored: Stored, drawn: Fresh, m: SenderKeyMessage, plaintext: Bytes, h: History)
    requires Lawful(suite) && HonestMessage(suite, drawn, m, plaintext)
    requires Disciplined(stored) && Holds(stored, m.chainId, suite.publicKey(drawn.privateKey))
    requires h.start == ChainAt(suite.hmac, SenderChainKey(0, drawn.chainKey), h.start.iteration)
    requires var st := Held(stored, m.chainId, suite.publicKey(drawn.privateKey));
      StateWindow(suite.hmac, h.start, st, h.used) && st.MessageVersion() == m.version
      && h.start.iteration <= m.iteration && m.iteration !in h.used
      && st.senderChainKey.value.iteration - 2_000 <= m.iteration
         <= st.senderChainKey.value.iteration + 25_000
    ensures Decrypted(suite, stored, m).Ok? && Decrypted(suite, stored, m).value.1 == plaintext
  {
    var k := FindState(stored.value, m.chainId, suite.publicKey(drawn.privateKey)).value;
    HeldIsUnique(stored.value, k, m.chainId, suite.publicKey(drawn.privateKey));
    SameKey(suite.hmac, SenderChainKey(0, drawn.chainKey), h.start, m.iteration);
    UnusedIsTaken(suite.hmac, stored.value[k], m.iteration, h);
  }

  lemma UnusedIsTaken(hmac: Hmac, st: StateStructure, n: u32, h: History)
    requires StateWindow(hmac, h.start, st, h.used)
    requires h.start.iteration <= n < U32_MAX && n !in h.used
    requires st.senderChainKey.value.iteration - 2_000 <= n
             <= st.senderChainKey.value.iteration + 25_000
    ensures TakeKey(hmac, st, n).Ok? && TakeKey(hmac, st, n).value.1 == KeyAt(hmac, h.start, n)
  {
    UnreadIsAvailable(hmac, h.start, st, n, h.used);
    TakeKeyKeepsWindow(hmac, h.start, st, n, h.used);
  }

  /** A chain joined in the middle yields the same keys. */
  lemma SameKey(hmac: Hmac, origin: SenderChainKey, start: SenderChainKey, n: u32)
    requires origin.iteration <= start.iteration <= n && start == ChainAt(hmac, origin, start.iteration)
    ensures KeyAt(hmac, start, n) == KeyAt(hmac, origin, n)
  {
    ChainSeedComposes(hmac, origin.chainKey, start.iteration - origin.iteration, n - start.iteration);
  }

  /** Group delivery in any order. A sender makes distribution messages and messages; a receiver
      handles any sequence of distribution messages and messages, in which each distribution
      message for the sender's chain id is one the sender made, and messages may be lost,
      reordered, repeated or forged. Every message of the sender that is readable when it
      arrives is decrypted to its plaintext. */
  lemma DeliveredInAnyOrder(suite: Suite, id: Uuid, sender: seq<Event>, s: nat, receiver: seq<Event>)
    requires Lawful(suite) && SenderOnly(sender) && Origin(sender).Some?
    requires s < |sender| && OutcomeAt(suite, id, sender, s).Sent?
    requires forall k :: 0 <= k < |receiver| ==>
      receiver[k].Decrypt? || (receiver[k].Process? &&
        (receiver[k].announced.chainId == Origin(sender).value.chainId ==>
          exists a :: 0 <= a < |sender| && OutcomeAt(suite, id, sender, a) == Announces(receiver[k].announced)))
    requires Readable(suite, id, receiver, Origin(sender).value, OutcomeAt(suite, id, sender, s).sent.iteration)
    ensures var r := Decrypted(suite, After(suite, id, receiver), OutcomeAt(suite, id, sender, s).sent);
      r.Ok? && r.value.1 == sender[s].plaintext
  {
    var drawn := Origin(sender).value;
    SenderIsHonest(suite, id, sender, s);
    forall k | 0 <= k < |receiver| && receiver[k].Process? && receiver[k].announced.chainId == drawn.chainId
      ensures HonestAnnouncement(suite, drawn, receiver[k].announced)
    {
      var a :| 0 <= a < |sender| && OutcomeAt(suite, id, sender, a) == Announces(receiver[k].announced);
      SenderIsHonest(suite, id, sender, a);
    }
    HonestIsDelivered(suite, id, receiver, drawn, OutcomeAt(suite, id, sender, s).sent, sender[s].plaintext);
  }
}
