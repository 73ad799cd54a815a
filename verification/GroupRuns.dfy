/** Whole runs over the record stored for one (sender, distribution id): any sequence of
    encryptions, decryptions, distribution messages processed and distribution messages made,
    starting from an empty store. */
module GroupRuns {
  import opened Wrappers
  import opened Bytes
  import opened KdfChain
  import opened SenderKeys
  import opened GroupCipher

  datatype Event =
    | Encrypt(plaintext: Bytes, random: Bytes)
    | Decrypt(message: SenderKeyMessage)
    | Process(announced: DistributionMessage)
    | Create(drawn: Fresh)

  datatype Outcome =
    | Sent(sent: SenderKeyMessage)
    | Received(received: Bytes)
    | Announces(made: DistributionMessage)
    | Done
    | Failed(error: Error)

  /** What one operation returns and stores; a failing encryption or decryption stores nothing. */
  function Step(suite: Suite, id: Uuid, stored: Stored, e: Event): (Stored, Outcome) {
    match e
    case Encrypt(plaintext, random) =>
      (match Encrypted(suite, id, stored, plaintext, random)
       case Ok(p) => (Some(p.0), Sent(p.1))
       case Err(err) => (stored, Failed(err)))
    case Decrypt(message) =>
      (match Decrypted(suite, stored, message)
       case Ok(p) => (Some(p.0), Received(p.1))
       case Err(err) => (stored, Failed(err)))
    case Process(d) => (Some(Processed(stored, d)), Done)
    case Create(random) =>
      var record := CreatedRecord(suite, stored, random);
      (Some(record), match Announced(id, record) case Ok(d) => Announces(d) case Err(err) => Failed(err))
  }

  function After(suite: Suite, id: Uuid, run: seq<Event>): Stored {
    if run == [] then None
    else Step(suite, id, After(suite, id, run[..|run| - 1]), run[|run| - 1]).0
  }

  function OutcomeAt(suite: Suite, id: Uuid, run: seq<Event>, i: nat): Outcome
    requires i < |run|
  {
    Step(suite, id, After(suite, id, run[..i]), run[i]).1
  }

  // ------------------------------------------------- record discipline

  ghost predicate DistinctChains(states: RecordStructure) {
    forall i, j :: 0 <= i < j < |states| ==> states[i].chainId != states[j].chainId
  }

  ghost predicate Disciplined(stored: Stored) {
    stored.Some? ==> |stored.value| <= 5 && DistinctChains(stored.value)
  }

  function ChainIds(states: RecordStructure): seq<u32> {
    seq(|states|, i requires 0 <= i < |states| => states[i].chainId)
  }

  function Except(ids: seq<u32>, id: u32): seq<u32> {
    if ids == [] then [] else (if ids[0] == id then [] else [ids[0]]) + Except(ids[1..], id)
  }

  function Newest(ids: seq<u32>, count: nat): seq<u32> {
    if |ids| <= count then ids else ids[..count]
  }

  lemma {:induction false} DropChainIds(states: RecordStructure, id: u32)
    ensures ChainIds(DropChain(states, id)) == Except(ChainIds(states), id)
    ensures |DropChain(states, id)| <= |states|
  {
    if states != [] {
      DropChainIds(states[1..], id);
      assert ChainIds(states)[1..] == ChainIds(states[1..]);
      assert ChainIds(DropChain(states, id))
          == (if states[0].chainId == id then [] else [states[0].chainId]) + ChainIds(DropChain(states[1..], id));
    } else {
      assert ChainIds(states) == [];
    }
  }

  lemma {:induction false} DropChainMembers(states: RecordStructure, id: u32)
    ensures forall st :: st in DropChain(states, id) <==> st in states && st.chainId != id
  {
    if states != [] {
      DropChainMembers(states[1..], id);
      assert states == [states[0]] + states[1..];
    }
  }

  lemma {:induction false} DropChainDistinct(states: RecordStructure, id: u32)
    requires DistinctChains(states)
    ensures DistinctChains(DropChain(states, id))
  {
    if states != [] {
      DropChainDistinct(states[1..], id);
      DropChainMembers(states[1..], id);
      var rest := DropChain(states[1..], id);
      forall j | 0 <= j < |rest|
        ensures rest[j].chainId != states[0].chainId
      {
        assert rest[j] in states[1..];
      }
    }
  }

  lemma {:induction false} DropChainWithout(states: RecordStructure, k: nat, id: u32)
    requires k < |states| && states[k].chainId == id
    ensures DropChain(Without(states, k), id) == DropChain(states, id)
  {
    if k > 0 {
      DropChainWithout(states[1..], k - 1, id);
      assert Without(states, k)[0] == states[0] && Without(states, k)[1..] == Without(states[1..], k - 1);
    } else {
      assert Without(states, 0) == states[1..];
    }
  }

  /** What an addition leaves: the state itself in front, then at most 4 of the others, in order. */
  lemma AddStateShape(states: RecordStructure, added: StateStructure)
    requires added.signingPublic.Some?
    ensures AddState(states, added)
         == [match FindState(states, added.chainId, added.signingPublic.value)
             case None => added
             case Some(k) => states[k]]
            + MakeRoom(DropChain(states, added.chainId))
  {
    var held := FindState(states, added.chainId, added.signingPublic.value);
    if held.Some? {
      DropChainWithout(states, held.value, added.chainId);
    }
  }

  lemma AddStateDisciplined(states: RecordStructure, added: StateStructure)
    requires added.signingPublic.Some? && DistinctChains(states)
    ensures Disciplined(Some(AddState(states, added)))
  {
    hide AddState, FindState, DropChain;
    AddStateShape(states, added);
    DropChainIds(states, added.chainId);
    DropChainMembers(states, added.chainId);
    DropChainDistinct(states, added.chainId);
    var rest := DropChain(states, added.chainId);
    var after := AddState(states, added);
    forall i, j | 0 <= i < j < |after|
      ensures after[i].chainId != after[j].chainId
    {
      assert after[j] == rest[j - 1] && rest[j - 1] in rest;
      if i > 0 {
        assert after[i] == rest[i - 1];
      }
    }
  }

  lemma AddStateIds(states: RecordStructure, added: StateStructure)
    requires added.signingPublic.Some?
    ensures ChainIds(AddState(states, added))
         == [added.chainId] + Newest(Except(ChainIds(states), added.chainId), MAX_SENDER_KEY_STATES - 1)
  {
    AddStateShape(states, added);
    DropChainIds(states, added.chainId);
    RoomIds(AddState(states, added)[0], DropChain(states, added.chainId));
  }

  lemma RoomIds(front: StateStructure, rest: RecordStructure)
    ensures ChainIds([front] + MakeRoom(rest))
         == [front.chainId] + Newest(ChainIds(rest), MAX_SENDER_KEY_STATES - 1)
  {
  }

  lemma StepDisciplined(suite: Suite, id: Uuid, stored: Stored, e: Event)
    requires Disciplined(stored)
    ensures Disciplined(Step(suite, id, stored, e).0)
  {
    hide AddState;
    match e
    case Process(d) =>
      AddStateDisciplined(if stored.Some? then stored.value else [],
                          NewState(d.version, d.chainId, d.iteration, d.chainKey, d.signingKey, None));
    case Create(r) =>
      AddStateDisciplined([], NewState(SENDERKEY_MESSAGE_CURRENT_VERSION, r.chainId, 0, r.chainKey,
                                       suite.publicKey(r.privateKey), Some(r.privateKey)));
    case _ =>
  }

  /** In every reachable record there are at most 5 states, with pairwise distinct chain ids. */
  lemma {:induction false} RunDisciplined(suite: Suite, id: Uuid, run: seq<Event>)
    ensures Disciplined(After(suite, id, run))
  {
    if run != [] {
      RunDisciplined(suite, id, run[..|run| - 1]);
      StepDisciplined(suite, id, After(suite, id, run[..|run| - 1]), run[|run| - 1]);
    }
  }

  /** Processing a distribution message again moves its state to the front as it stands, chain
      not rewound and cached keys kept, and leaves the other states in order. */
  lemma ReAddMovesToFront(states: RecordStructure, k: nat, added: StateStructure)
    requires Disciplined(Some(states)) && k < |states|
    requires added.signingPublic.Some? && Matches(states[k], added.chainId, added.signingPublic.value)
    ensures AddState(states, added) == [states[k]] + Without(states, k)
  {
    AddStateShape(states, added);
    DropChainWithout(states, k, added.chainId);
    DropNothing(Without(states, k), added.chainId);
  }

  lemma {:induction false} DropNothing(states: RecordStructure, id: u32)
    requires forall i :: 0 <= i < |states| ==> states[i].chainId != id
    ensures DropChain(states, id) == states
  {
    if states != [] {
      DropNothing(states[1..], id);
    }
  }

  /** The chain ids a run adds, oldest first. */
  function Added(suite: Suite, id: Uuid, run: seq<Event>): seq<u32> {
    if run == [] then []
    else
      var (before, e) := (run[..|run| - 1], run[|run| - 1]);
      Added(suite, id, before) +
      match e
      case Process(d) => [d.chainId]
      case Create(r) => if After(suite, id, before).None? then [r.chainId] else []
      case _ => []
  }

  /** The distinct entries of a history, the most recently added first, whatever their number. */
  function MostRecent(history: seq<u32>): seq<u32> {
    if history == [] then []
    else
      var last := history[|history| - 1];
      [last] + Except(MostRecent(history[..|history| - 1]), last)
  }

  lemma {:induction false} ExceptMembers(ids: seq<u32>, id: u32)
    ensures forall x :: x in Except(ids, id) <==> x in ids && x != id
  {
    if ids != [] {
      ExceptMembers(ids[1..], id);
    }
  }

  lemma {:induction false} ExceptAbsent(ids: seq<u32>, id: u32)
    requires id !in ids
    ensures Except(ids, id) == ids
  {
    if ids != [] {
      ExceptAbsent(ids[1..], id);
    }
  }

  lemma {:induction false} ExceptDistinct(ids: seq<u32>, id: u32)
    requires Distinct(ids)
    ensures Distinct(Except(ids, id))
  {
    if ids != [] {
      ExceptDistinct(ids[1..], id);
      ExceptMembers(ids[1..], id);
      var rest := Except(ids[1..], id);
      forall j | 0 <= j < |rest|
        ensures rest[j] != ids[0]
      {
        assert rest[j] in ids[1..];
      }
    }
  }

  ghost predicate Distinct(ids: seq<u32>) {
    forall i, j :: 0 <= i < j < |ids| ==> ids[i] != ids[j]
  }

  lemma {:induction false} MostRecentDistinct(history: seq<u32>)
    ensures Distinct(MostRecent(history))
  {
    if history != [] {
      MostRecentDistinct(history[..|history| - 1]);
      ExceptDistinct(MostRecent(history[..|history| - 1]), history[|history| - 1]);
      ExceptMembers(MostRecent(history[..|history| - 1]), history[|history| - 1]);
      var rest := Except(MostRecent(history[..|history| - 1]), history[|history| - 1]);
      assert forall j :: 0 <= j < |rest| ==> rest[j] in rest;
    }
  }

  /** Forgetting all but the newest before removing an entry loses nothing of what is kept. */
  lemma {:induction false} NewestExcept(ids: seq<u32>, id: u32, count: nat)
    requires Distinct(ids)
    ensures Newest(Except(Newest(ids, count + 1), id), count) == Newest(Except(ids, id), count)
  {
    if |ids| > count + 1 {
      var first, rest, short := ids[0], ids[1..], Newest(ids, count + 1);
      assert short[0] == first && short[1..] == Newest(rest, count);
      if first == id {
        ExceptAbsent(rest, id);
        ExceptAbsent(Newest(rest, count), id);
      } else if count > 0 {
        NewestExcept(rest, id, count - 1);
        NewestCons(first, Except(Newest(rest, count), id), count);
        NewestCons(first, Except(rest, id), count);
      }
    }
  }

  lemma NewestCons(first: u32, rest: seq<u32>, count: nat)
    requires count > 0
    ensures Newest([first] + rest, count) == [first] + Newest(rest, count - 1)
  {
  }

  /** The states of a reachable record are the 5 most recently added chains of the run, the most
      recent first: decrypting and encrypting never change that order. */
  lemma {:induction false} RecordIsMostRecent(suite: Suite, id: Uuid, run: seq<Event>)
    ensures ListsNewest(After(suite, id, run), Added(suite, id, run))
  {
    if run != [] {
      var before, e := run[..|run| - 1], run[|run| - 1];
      RecordIsMostRecent(suite, id, before);
      StepListsNewest(suite, id, After(suite, id, before), e, Added(suite, id, before));
    }
  }

  ghost predicate ListsNewest(stored: Stored, history: seq<u32>) {
    match stored
    case None => history == []
    case Some(states) => ChainIds(states) == Newest(MostRecent(history), MAX_SENDER_KEY_STATES)
  }

  lemma StepListsNewest(suite: Suite, id: Uuid, stored: Stored, e: Event, history: seq<u32>)
    requires ListsNewest(stored, history)
    ensures ListsNewest(Step(suite, id, stored, e).0,
                        history + match e
                                  case Process(d) => [d.chainId]
                                  case Create(r) => if stored.None? then [r.chainId] else []
                                  case _ => [])
  {
    assert history + [] == history;
    match e {
      case Process(d) =>
        AdditionIsMostRecent(if stored.Some? then stored.value else [],
                             NewState(d.version, d.chainId, d.iteration, d.chainKey, d.signingKey, None), history);
      case Create(r) =>
        if stored.None? {
          AdditionIsMostRecent([], NewState(SENDERKEY_MESSAGE_CURRENT_VERSION, r.chainId, 0, r.chainKey,
                                            suite.publicKey(r.privateKey), Some(r.privateKey)), history);
        }
      case Encrypt(_, _) => UpdateKeepsIds(suite, id, stored, e);
      case Decrypt(_) => UpdateKeepsIds(suite, id, stored, e);
    }
  }

  lemma UpdateKeepsIds(suite: Suite, id: Uuid, stored: Stored, e: Event)
    requires e.Encrypt? || e.Decrypt?
    ensures var after := Step(suite, id, stored, e).0;
      stored.Some? == after.Some? && (stored.Some? ==> ChainIds(after.value) == ChainIds(stored.value))
  {
  }

  lemma AdditionIsMostRecent(states: RecordStructure, added: StateStructure, history: seq<u32>)
    requires added.signingPublic.Some?
    requires ChainIds(states) == Newest(MostRecent(history), MAX_SENDER_KEY_STATES)
    ensures ChainIds(AddState(states, added))
         == Newest(MostRecent(history + [added.chainId]), MAX_SENDER_KEY_STATES)
  {
    AddStateIds(states, added);
    MostRecentDistinct(history);
    NewestExcept(MostRecent(history), added.chainId, MAX_SENDER_KEY_STATES - 1);
    assert (history + [added.chainId])[..|history|] == history;
  }
}
