/** Runs of one session against anything: its owner sends, and receives arbitrary messages from whoever
    makes them. No law of a primitive is assumed here. */
module SessionRuns {
  import opened Wrappers
  import opened Bytes
  import opened RatchetKeys
  import opened SessionStates
  import opened SessionCipher

  datatype Event =
    | Send(plaintext: Bytes, now: nat, pqRandom: Bytes)
    | Receive(message: SignalMessage, ephemeral: PrivateKey)

  /** The session after an event and the message it returned, if any; a failure changes nothing. */
  function Step(suite: Suite, st: SessionStructure, e: Event): (SessionStructure, Option<SignalMessage>) {
    match e
    case Send(plaintext, now, pqRandom) =>
      (match Encrypted(suite, st, plaintext, now, pqRandom)
       case Ok(p) => (p.0, Some(Signal(p.1)))
       case Err(_) => (st, None))
    case Receive(m, ephemeral) =>
      (match DecryptedWithState(suite, st, m, ephemeral)
       case Ok(p) => (p.0, None)
       case Err(_) => (st, None))
  }

  function After(suite: Suite, st: SessionStructure, run: seq<Event>): SessionStructure {
    if run == [] then st else Step(suite, After(suite, st, run[..|run| - 1]), run[|run| - 1]).0
  }

  function Returned(suite: Suite, st: SessionStructure, run: seq<Event>, i: nat): Option<SignalMessage>
    requires i < |run|
  {
    Step(suite, After(suite, st, run[..i]), run[i]).1
  }

  /** The event makes the session send under a newly drawn ratchet key. */
  predicate Ratchets(suite: Suite, st: SessionStructure, e: Event) {
    e.Receive? && FindReceiver(st.receiverChains, e.message.ratchetKey).None?
    && DecryptedWithState(suite, st, e.message, e.ephemeral).Ok?
  }

  predicate RatchetsAt(suite: Suite, st: SessionStructure, run: seq<Event>, i: nat)
    requires i < |run|
  {
    Ratchets(suite, After(suite, st, run[..i]), run[i])
  }

  /** The last event before `j` that ratcheted. */
  function LastRatchet(suite: Suite, st: SessionStructure, run: seq<Event>, j: nat): Option<nat>
    requires j <= |run|
  {
    if j == 0 then None
    else if RatchetsAt(suite, st, run, j - 1) then Some(j - 1)
    else LastRatchet(suite, st, run, j - 1)
  }

  lemma {:induction false} LastRatchetIs(suite: Suite, st: SessionStructure, run: seq<Event>, j: nat, k: nat)
    requires j <= |run|
    ensures var r := LastRatchet(suite, st, run, j);
      (r.Some? ==> r.value < j && RatchetsAt(suite, st, run, r.value))
      && (k < j && RatchetsAt(suite, st, run, k) ==> r.Some? && k <= r.value)
  {
    hide Ratchets, After;
    if j > 0 {
      LastRatchetIs(suite, st, run, j - 1, k);
    }
  }

  /** The ratchet keys drawn differ from each other and from the one the session had. */
  ghost predicate FreshKeys(suite: Suite, st: SessionStructure, run: seq<Event>) {
    && (forall i :: 0 <= i < |run| && RatchetsAt(suite, st, run, i) && st.senderChain.Some? ==>
          suite.publicKey(run[i].ephemeral) != st.senderChain.value.ratchetKey)
    && (forall i, j :: 0 <= i < j < |run| && RatchetsAt(suite, st, run, i) && RatchetsAt(suite, st, run, j) ==>
          suite.publicKey(run[i].ephemeral) != suite.publicKey(run[j].ephemeral))
  }

  /** How many messages were returned from event `i` on and before event `j`. */
  function SentBetween(suite: Suite, st: SessionStructure, run: seq<Event>, i: nat, j: nat): nat
    requires i <= j <= |run|
    decreases j
  {
    if i == j then 0
    else SentBetween(suite, st, run, i, j - 1) + (if Returned(suite, st, run, j - 1).Some? then 1 else 0)
  }

  // ------------------------------------------------------- one event

  /** What one event does to the sender chain: a message returned carries its key and index and moves it
      one step on; a ratchet replaces it by a new chain under the key drawn; nothing else changes it. */
  lemma StepOnSender(suite: Suite, st: SessionStructure, e: Event)
    ensures var (after, returned) := Step(suite, st, e);
      if returned.Some? then
        st.senderChain.Some? && !Ratchets(suite, st, e)
        && returned.value.ratchetKey == st.senderChain.value.ratchetKey
        && returned.value.counter == st.senderChain.value.chainKey.index
        && after.senderChain == Some(st.senderChain.value.(chainKey := st.senderChain.value.chainKey.Next(suite.hmac)))
      else if Ratchets(suite, st, e) then
        e.Receive? && after.senderChain.Some? && after.senderChain.value.ratchetKey == suite.publicKey(e.ephemeral)
        && after.senderChain.value.chainKey.index == 0
      else after.senderChain == st.senderChain
  {
  }

  lemma AfterNext(suite: Suite, st: SessionStructure, run: seq<Event>, j: nat)
    requires j < |run|
    ensures After(suite, st, run[..j + 1]) == Step(suite, After(suite, st, run[..j]), run[j]).0
  {
    assert run[..j + 1][..j] == run[..j];
  }

  /** The key a session sends under is the one drawn at the last ratchet, or its first. */
  lemma {:induction false} SenderKeyAt(suite: Suite, st: SessionStructure, run: seq<Event>, j: nat)
    requires j <= |run|
    ensures var (now, last) := (After(suite, st, run[..j]).senderChain, LastRatchet(suite, st, run, j));
      now.Some? ==>
        if last.Some? then last.value < j && run[last.value].Receive?
                           && now.value.ratchetKey == suite.publicKey(run[last.value].ephemeral)
        else st.senderChain.Some? && now.value.ratchetKey == st.senderChain.value.ratchetKey
  {
    hide Step, Ratchets;
    if j > 0 {
      SenderKeyAt(suite, st, run, j - 1);
      AfterNext(suite, st, run, j - 1);
      StepOnSender(suite, After(suite, st, run[..j - 1]), run[j - 1]);
    }
  }

  /** Without a ratchet in between, the counter advanced by the number of messages, modulo 2^32. */
  lemma {:induction false} CounterAdvances(suite: Suite, st: SessionStructure, run: seq<Event>, i: nat, j: nat)
    requires i <= j <= |run| && forall k :: i <= k < j ==> !RatchetsAt(suite, st, run, k)
    requires After(suite, st, run[..i]).senderChain.Some?
    ensures var (from, now) := (After(suite, st, run[..i]).senderChain, After(suite, st, run[..j]).senderChain);
      now.Some? && now.value.ratchetKey == from.value.ratchetKey
      && now.value.chainKey.index == (from.value.chainKey.index + SentBetween(suite, st, run, i, j)) % 0x1_0000_0000
    decreases j
  {
    hide Step, Ratchets;
    if i < j {
      CounterAdvances(suite, st, run, i, j - 1);
      AfterNext(suite, st, run, j - 1);
      StepOnSender(suite, After(suite, st, run[..j - 1]), run[j - 1]);
      assert !RatchetsAt(suite, st, run, j - 1);
    }
  }

  /** A ratchet in between changes the key for good. */
  lemma KeyChanges(suite: Suite, st: SessionStructure, run: seq<Event>, i: nat, j: nat, k: nat)
    requires i <= k < j <= |run| && FreshKeys(suite, st, run) && RatchetsAt(suite, st, run, k)
    requires After(suite, st, run[..i]).senderChain.Some? && After(suite, st, run[..j]).senderChain.Some?
    ensures After(suite, st, run[..i]).senderChain.value.ratchetKey !=
              After(suite, st, run[..j]).senderChain.value.ratchetKey
  {
    hide Step, Ratchets, After, LastRatchet;
    SenderKeyAt(suite, st, run, i);
    SenderKeyAt(suite, st, run, j);
    LastRatchetIs(suite, st, run, i, k);
    LastRatchetIs(suite, st, run, j, k);
  }

  // ------------------------------------------------------- messages of a run

  /** Exactly when two messages of one session carry the same ratchet key and counter: no ratchet lies
      between them and the number of messages from the first on is a multiple of 2^32. */
  lemma CounterRepeatsIff(suite: Suite, st: SessionStructure, run: seq<Event>, i: nat, j: nat)
    requires i < j < |run| && FreshKeys(suite, st, run)
    requires Returned(suite, st, run, i).Some? && Returned(suite, st, run, j).Some?
    ensures var (a, b) := (Returned(suite, st, run, i).value, Returned(suite, st, run, j).value);
      (a.ratchetKey == b.ratchetKey && a.counter == b.counter)
      <==> (forall k :: i <= k < j ==> !RatchetsAt(suite, st, run, k))
           && SentBetween(suite, st, run, i, j) % 0x1_0000_0000 == 0
  {
    hide Step, Ratchets, After, FreshKeys;
    StepOnSender(suite, After(suite, st, run[..i]), run[i]);
    StepOnSender(suite, After(suite, st, run[..j]), run[j]);
    if k :| i <= k < j && RatchetsAt(suite, st, run, k) {
      KeyChanges(suite, st, run, i, j, k);
    } else {
      CounterAdvances(suite, st, run, i, j);
      SameRemainder(After(suite, st, run[..i]).senderChain.value.chainKey.index, SentBetween(suite, st, run, i, j));
    }
  }

  lemma SameRemainder(index: u32, n: nat)
    ensures index == (index + n) % 0x1_0000_0000 <==> n % 0x1_0000_0000 == 0
  {
  }

  // ------------------------------------------------------- a run in which counters repeat

  /** The session sends whatever it is given. */
  ghost predicate CanSend(suite: Suite, st: SessionStructure) {
    && st.senderChain.Some? && st.remoteIdentity.Some? && st.SessionVersion() <= 0xFF && st.pendingPreKey.None?
    && forall state, random :: suite.pqSend(state, random).Some?
  }

  ghost predicate OnlySends(run: seq<Event>) {
    forall k :: 0 <= k < |run| ==> run[k].Send?
  }

  lemma SendingGoesOn(suite: Suite, st: SessionStructure, e: Event)
    requires CanSend(suite, st) && e.Send?
    ensures Step(suite, st, e).1.Some? && CanSend(suite, Step(suite, st, e).0)
  {
    assert suite.pqSend(st.pqState, e.pqRandom).Some?;
  }

  lemma {:induction false} SendsAll(suite: Suite, st: SessionStructure, run: seq<Event>, j: nat)
    requires CanSend(suite, st) && OnlySends(run) && j <= |run|
    ensures CanSend(suite, After(suite, st, run[..j]))
    ensures j < |run| ==> Returned(suite, st, run, j).Some? && !RatchetsAt(suite, st, run, j)
  {
    hide Step, CanSend;
    if j > 0 {
      SendsAll(suite, st, run, j - 1);
      AfterNext(suite, st, run, j - 1);
      SendingGoesOn(suite, After(suite, st, run[..j - 1]), run[j - 1]);
    }
    if j < |run| {
      SendingGoesOn(suite, After(suite, st, run[..j]), run[j]);
    }
  }

  lemma {:induction false} SentAll(suite: Suite, st: SessionStructure, run: seq<Event>, i: nat, j: nat)
    requires CanSend(suite, st) && OnlySends(run) && i <= j <= |run|
    ensures SentBetween(suite, st, run, i, j) == j - i
    decreases j
  {
    hide Step, CanSend, OnlySends, Returned;
    if i < j {
      SentAll(suite, st, run, i, j - 1);
      SendsAll(suite, st, run, j - 1);
    }
  }

  /** Counters do repeat: a session that can send and only sends returns, 2^32 messages later, a message
      under the same ratchet key with the same counter. */
  lemma CounterRepeats(suite: Suite, st: SessionStructure, run: seq<Event>, i: nat)
    requires CanSend(suite, st) && OnlySends(run) && i + 0x1_0000_0000 < |run|
    ensures var (first, second) := (Returned(suite, st, run, i), Returned(suite, st, run, i + 0x1_0000_0000));
      first.Some? && second.Some?
      && first.value.ratchetKey == second.value.ratchetKey && first.value.counter == second.value.counter
  {
    hide Step, CanSend, After, Ratchets;
    forall k | 0 <= k < |run|
      ensures Returned(suite, st, run, k).Some? && !RatchetsAt(suite, st, run, k)
    {
      SendsAll(suite, st, run, k);
    }
    SentAll(suite, st, run, i, i + 0x1_0000_0000);
    CounterRepeatsIff(suite, st, run, i, i + 0x1_0000_0000);
  }

  // ------------------------------------------------------- below the last counter

  lemma {:induction false} CounterGrows(suite: Suite, st: SessionStructure, run: seq<Event>, i: nat, j: nat)
    requires i <= j <= |run| && forall k :: i <= k < j ==> !RatchetsAt(suite, st, run, k)
    requires forall k :: 0 <= k < |run| && Returned(suite, st, run, k).Some? ==>
               Returned(suite, st, run, k).value.counter < U32_MAX
    requires After(suite, st, run[..i]).senderChain.Some?
    ensures var (from, now) := (After(suite, st, run[..i]).senderChain, After(suite, st, run[..j]).senderChain);
      now.Some? && now.value.ratchetKey == from.value.ratchetKey
      && now.value.chainKey.index == from.value.chainKey.index + SentBetween(suite, st, run, i, j)
    decreases j
  {
    hide Step, Ratchets;
    if i < j {
      CounterGrows(suite, st, run, i, j - 1);
      AfterNext(suite, st, run, j - 1);
      StepOnSender(suite, After(suite, st, run[..j - 1]), run[j - 1]);
      assert !RatchetsAt(suite, st, run, j - 1);
    }
  }

  lemma {:induction false} SentAtLeast(suite: Suite, st: SessionStructure, run: seq<Event>, i: nat, j: nat)
    requires i < j <= |run| && Returned(suite, st, run, i).Some?
    ensures SentBetween(suite, st, run, i, j) > 0
    decreases j
  {
    hide Returned;
    if i < j - 1 {
      SentAtLeast(suite, st, run, i, j - 1);
    }
  }

  /** A sender never reuses a message key: over any run of a session, whatever it is given to receive,
      two messages it returned differ in ratchet key or counter, as long as the keys drawn are fresh
      and no message carried the last 32-bit counter. */
  lemma NeverRepeats(suite: Suite, st: SessionStructure, run: seq<Event>, i: nat, j: nat)
    requires i < j < |run| && FreshKeys(suite, st, run)
    requires forall k :: 0 <= k < |run| && Returned(suite, st, run, k).Some? ==>
               Returned(suite, st, run, k).value.counter < U32_MAX
    requires Returned(suite, st, run, i).Some? && Returned(suite, st, run, j).Some?
    ensures var (a, b) := (Returned(suite, st, run, i).value, Returned(suite, st, run, j).value);
      a.ratchetKey != b.ratchetKey || a.counter < b.counter
  {
    hide Step, Ratchets, After, FreshKeys;
    StepOnSender(suite, After(suite, st, run[..i]), run[i]);
    StepOnSender(suite, After(suite, st, run[..j]), run[j]);
    if k :| i <= k < j && RatchetsAt(suite, st, run, k) {
      KeyChanges(suite, st, run, i, j, k);
    } else {
      CounterGrows(suite, st, run, i, j);
      SentAtLeast(suite, st, run, i, j);
    }
  }

  // ------------------------------------------------------- what messages carry

  /** The message is complete: what its MAC covers is the serialization of its own fields, its version that of
      the session. */
  predicate Whole(suite: Suite, st: SessionStructure, m: SignalMessage) {
    && m.version == st.SessionVersion()
    && m.content == suite.encode(m.version, m.ratchetKey, m.counter, m.previousCounter, m.body, m.pq)
  }

  lemma SentIsWhole(suite: Suite, st: SessionStructure, e: Event)
    requires Step(suite, st, e).1.Some?
    ensures Whole(suite, st, Step(suite, st, e).1.value)
    ensures Step(suite, st, e).1.value.previousCounter == st.previousCounter
  {
  }

  /** An event keeps the version and moves the previous counter only at a ratchet, to the last counter of the
      chain left behind. */
  lemma StepOnPrevious(suite: Suite, st: SessionStructure, e: Event)
    ensures var after := Step(suite, st, e).0;
      after.storedVersion == st.storedVersion
      && after.previousCounter
         == if Ratchets(suite, st, e)
            then if st.senderChain.Some? && st.senderChain.value.chainKey.index > 0
                 then st.senderChain.value.chainKey.index - 1 else 0
            else st.previousCounter
  {
    hide TakeKey, CreateChain;
  }

  lemma {:induction false} PreviousStays(suite: Suite, st: SessionStructure, run: seq<Event>, i: nat, j: nat)
    requires i <= j <= |run| && forall k :: i <= k < j ==> !RatchetsAt(suite, st, run, k)
    ensures After(suite, st, run[..j]).previousCounter == After(suite, st, run[..i]).previousCounter
    decreases j
  {
    hide Step, Ratchets;
    if i < j {
      PreviousStays(suite, st, run, i, j - 1);
      AfterNext(suite, st, run, j - 1);
      StepOnPrevious(suite, After(suite, st, run[..j - 1]), run[j - 1]);
      assert !RatchetsAt(suite, st, run, j - 1);
    }
  }

  lemma {:induction false} VersionStays(suite: Suite, st: SessionStructure, run: seq<Event>, j: nat)
    requires j <= |run|
    ensures After(suite, st, run[..j]).storedVersion == st.storedVersion
  {
    hide Step;
    if j > 0 {
      VersionStays(suite, st, run, j - 1);
      AfterNext(suite, st, run, j - 1);
      StepOnPrevious(suite, After(suite, st, run[..j - 1]), run[j - 1]);
    }
  }

  /** Every message a session returns, over any run, is complete. */
  lemma ReturnedIsWhole(suite: Suite, st: SessionStructure, run: seq<Event>, j: nat)
    requires j < |run| && Returned(suite, st, run, j).Some?
    ensures Whole(suite, st, Returned(suite, st, run, j).value)
  {
    hide Step, After;
    VersionStays(suite, st, run, j);
    SentIsWhole(suite, After(suite, st, run[..j]), run[j]);
  }

  /** A message's previous counter is that of the last message on the chain before: `i` is the last message
      returned before the ratchet at `k`, and `j` any one returned before the next. The last 32-bit
      counter is the exception; after it the count has started over at 0. */
  lemma PreviousCounterIs(suite: Suite, st: SessionStructure, run: seq<Event>, i: nat, k: nat, j: nat)
    requires i < k < j < |run| && Returned(suite, st, run, i).Some? && Returned(suite, st, run, j).Some?
    requires RatchetsAt(suite, st, run, k) && forall e :: i <= e < j && e != k ==> !RatchetsAt(suite, st, run, e)
    requires forall e :: i < e < k ==> Returned(suite, st, run, e).None?
    ensures var (last, message) := (Returned(suite, st, run, i).value, Returned(suite, st, run, j).value);
      message.previousCounter == if last.counter < U32_MAX then last.counter else 0
  {
    hide Step, Ratchets, After;
    var before := After(suite, st, run[..i]);
    StepOnSender(suite, before, run[i]);
    AfterNext(suite, st, run, i);
    NoneSent(suite, st, run, i + 1, k);
    CounterAdvances(suite, st, run, i + 1, k);
    AfterNext(suite, st, run, k);
    StepOnPrevious(suite, After(suite, st, run[..k]), run[k]);
    PreviousStays(suite, st, run, k + 1, j);
    SentIsWhole(suite, After(suite, st, run[..j]), run[j]);
  }

  /** On the first chain a session sends on, and after a chain nothing was sent on, it is 0. */
  lemma PreviousCounterIsZero(suite: Suite, st: SessionStructure, run: seq<Event>, k: nat, j: nat)
    requires k < j < |run| && Returned(suite, st, run, j).Some? && RatchetsAt(suite, st, run, k)
    requires forall e :: k < e < j ==> !RatchetsAt(suite, st, run, e)
    requires var chain := After(suite, st, run[..k]).senderChain;
      chain.Some? ==> chain.value.chainKey.index == 0
    ensures Returned(suite, st, run, j).value.previousCounter == 0
  {
    hide Step, Ratchets, After;
    AfterNext(suite, st, run, k);
    StepOnPrevious(suite, After(suite, st, run[..k]), run[k]);
    PreviousStays(suite, st, run, k + 1, j);
    SentIsWhole(suite, After(suite, st, run[..j]), run[j]);
  }

  lemma {:induction false} NoneSent(suite: Suite, st: SessionStructure, run: seq<Event>, i: nat, j: nat)
    requires i <= j <= |run| && forall e :: i <= e < j ==> Returned(suite, st, run, e).None?
    ensures SentBetween(suite, st, run, i, j) == 0
    decreases j
  {
    hide Returned;
    if i < j {
      NoneSent(suite, st, run, i, j - 1);
    }
  }

  // ------------------------------------------------------- the post-quantum ratchet

  /** The post-quantum state fed with exactly the messages the session returned and accepted, in order. */
  function Fed(suite: Suite, st: SessionStructure, run: seq<Event>, j: nat): Bytes
    requires j <= |run|
  {
    if j == 0 then st.pqState
    else
      var state := Fed(suite, st, run, j - 1);
      match run[j - 1]
      case Send(_, _, pqRandom) =>
        var sent := suite.pqSend(state, pqRandom);
        if Returned(suite, st, run, j - 1).Some? && sent.Some? then sent.value.0 else state
      case Receive(m, ephemeral) =>
        var received := suite.pqReceive(state, m.pq);
        if DecryptedWithState(suite, After(suite, st, run[..j - 1]), m, ephemeral).Ok? && received.Some?
        then received.value.0 else state
  }

  lemma StepOnPq(suite: Suite, st: SessionStructure, e: Event)
    ensures var (after, returned) := Step(suite, st, e);
      match e
      case Send(_, _, pqRandom) =>
        var sent := suite.pqSend(st.pqState, pqRandom);
        if returned.Some? then sent.Some? && after.pqState == sent.value.0 && returned.value.pq == sent.value.1
        else after.pqState == st.pqState
      case Receive(m, ephemeral) =>
        var received := suite.pqReceive(st.pqState, m.pq);
        if DecryptedWithState(suite, st, m, ephemeral).Ok? then received.Some? && after.pqState == received.value.0
        else after.pqState == st.pqState
  {
    hide TakeKey, CreateChain, FindReceiver;
  }

  /** Over any run the post-quantum ratchet of a session advances with it: its state is the initial one fed with
      the messages that went out and those that were accepted, each once and in order, and with nothing
      refused. */
  lemma {:induction false} PqAdvances(suite: Suite, st: SessionStructure, run: seq<Event>, j: nat)
    requires j <= |run|
    ensures After(suite, st, run[..j]).pqState == Fed(suite, st, run, j)
  {
    hide Step, DecryptedWithState;
    if j > 0 {
      PqAdvances(suite, st, run, j - 1);
      AfterNext(suite, st, run, j - 1);
      StepOnPq(suite, After(suite, st, run[..j - 1]), run[j - 1]);
    }
  }

  // ------------------------------------------------------- until the peer answers

  /** The session has everything it needs to send a message now. */
  predicate CouldSend(suite: Suite, st: SessionStructure, pqRandom: Bytes) {
    && st.senderChain.Some? && st.remoteIdentity.Some? && st.SessionVersion() <= 0xFF
    && suite.pqSend(st.pqState, pqRandom).Some?
  }

  /** Exactly when a session sends: it could, and the peer has answered or the session was started at most
      thirty days, 2,592,000 seconds, ago. Until the peer answers every message carries the header. */
  lemma SendsIff(suite: Suite, st: SessionStructure, plaintext: Bytes, now: nat, pqRandom: Bytes)
    ensures var r := Encrypted(suite, st, plaintext, now, pqRandom);
      (r.Ok? <==> CouldSend(suite, st, pqRandom)
                  && (st.pendingPreKey.Some? ==> now <= st.pendingPreKey.value.timestamp + 2_592_000))
      && (CouldSend(suite, st, pqRandom) && r.Err? ==> r.error == SessionNotFound)
      && (r.Ok? ==>
            (r.value.1.PreKey? <==> st.pendingPreKey.Some?) && r.value.0.pendingPreKey == st.pendingPreKey
            && r.value.0.pendingKyber == st.pendingKyber)
  {
  }

  lemma StepOnPending(suite: Suite, st: SessionStructure, e: Event)
    ensures var after := Step(suite, st, e).0;
      if e.Receive? && DecryptedWithState(suite, st, e.message, e.ephemeral).Ok?
      then after.pendingPreKey.None? && after.pendingKyber.None?
      else after.pendingPreKey == st.pendingPreKey && after.pendingKyber == st.pendingKyber
  {
    hide TakeKey, CreateChain, FindReceiver;
  }

  /** The session accepted a message before event `j`. */
  predicate Answered(suite: Suite, st: SessionStructure, run: seq<Event>, j: nat)
    requires j <= |run|
  {
    j > 0 && ((run[j - 1].Receive?
               && DecryptedWithState(suite, After(suite, st, run[..j - 1]), run[j - 1].message,
                                     run[j - 1].ephemeral).Ok?)
              || Answered(suite, st, run, j - 1))
  }

  lemma {:induction false} PendingUntilAnswered(suite: Suite, st: SessionStructure, run: seq<Event>, j: nat)
    requires j <= |run|
    ensures var now := After(suite, st, run[..j]);
      if Answered(suite, st, run, j) then now.pendingPreKey.None? && now.pendingKyber.None?
      else now.pendingPreKey == st.pendingPreKey && now.pendingKyber == st.pendingKyber
  {
    hide Step, DecryptedWithState;
    if j > 0 {
      PendingUntilAnswered(suite, st, run, j - 1);
      AfterNext(suite, st, run, j - 1);
      StepOnPending(suite, After(suite, st, run[..j - 1]), run[j - 1]);
    }
  }

  /** Over any run of a session started at some time: what it could send is sent exactly if a message of the peer
      was accepted before, or it is not thirty days yet; and with the header exactly if none was. */
  lemma SilentWhenStale(suite: Suite, st: SessionStructure, run: seq<Event>, j: nat)
    requires j < |run| && run[j].Send? && st.pendingPreKey.Some?
    requires CouldSend(suite, After(suite, st, run[..j]), run[j].pqRandom)
    ensures Returned(suite, st, run, j).Some?
      <==> Answered(suite, st, run, j) || run[j].now <= st.pendingPreKey.value.timestamp + 2_592_000
    ensures Returned(suite, st, run, j).Some? ==>
      (Encrypted(suite, After(suite, st, run[..j]), run[j].plaintext, run[j].now, run[j].pqRandom).value.1.Whisper?
       <==> Answered(suite, st, run, j))
  {
    hide After, Encrypted;
    PendingUntilAnswered(suite, st, run, j);
    SendsIff(suite, After(suite, st, run[..j]), run[j].plaintext, run[j].now, run[j].pqRandom);
  }
}
