/** Session state and session record (libsignal/rust/protocol/src/state/session.rs).

    A SessionState object owns one SessionStructure, as in the source, and its methods update it in
    place; each is proved against a function on structures. */
module SessionStates {
  import opened Wrappers
  import opened Bytes
  import opened KdfChain
  import opened RatchetKeys

  /** A receiver chain with its skipped message keys, the newest first. */
  datatype ReceiverChain = ReceiverChain(ratchetKey: PublicKey, chainKey: ChainKey, messageKeys: seq<MessageKey>)

  datatype SenderChain = SenderChain(ratchetKey: PublicKey, ratchetPrivate: PrivateKey, chainKey: ChainKey)

  datatype PendingPreKey = PendingPreKey(preKeyId: Option<u32>, signedPreKeyId: u32, baseKey: PublicKey, timestamp: nat)

  datatype PendingKyberPreKey = PendingKyberPreKey(preKeyId: u32, ciphertext: Bytes)

  /** `SessionStructure`. A root key that does not have 32 bytes is None. */
  datatype SessionStructure = SessionStructure(
    storedVersion: u32,
    localIdentity: PublicKey,
    remoteIdentity: Option<PublicKey>,
    rootKey: Option<Bytes>,
    previousCounter: u32,
    senderChain: Option<SenderChain>,
    receiverChains: seq<ReceiverChain>,
    pendingPreKey: Option<PendingPreKey>,
    pendingKyber: Option<PendingKyberPreKey>,
    remoteRegistrationId: u32,
    localRegistrationId: u32,
    aliceBaseKey: PublicKey,
    pqState: Bytes)
  {
    function SessionVersion(): u32 {
      if storedVersion == 0 then 2 else storedVersion
    }

    predicate WithSelf() {
      remoteIdentity == Some(localIdentity)
    }

    function Acknowledged(): SessionStructure {
      this.(pendingPreKey := None, pendingKyber := None)
    }
  }

  // ------------------------------------------------------- receiver chains

  /** Index of the first receiver chain for a ratchet key. */
  function FindReceiver(chains: seq<ReceiverChain>, theirs: PublicKey): (r: Option<nat>)
    ensures r.None? <==> forall k :: 0 <= k < |chains| ==> chains[k].ratchetKey != theirs
    ensures r.Some? ==> r.value < |chains| && chains[r.value].ratchetKey == theirs
                        && forall k :: 0 <= k < r.value ==> chains[k].ratchetKey != theirs
  {
    if chains == [] then None
    else if chains[0].ratchetKey == theirs then Some(0)
    else match FindReceiver(chains[1..], theirs)
      case None => None
      case Some(k) =>
        assert chains[k + 1] == chains[1..][k];
        Some(k + 1)
  }

  /** Append; if there are now more than MAX_RECEIVER_CHAINS, drop the oldest. */
  function AddReceiver(chains: seq<ReceiverChain>, chain: ReceiverChain): seq<ReceiverChain> {
    var longer := chains + [chain];
    if |longer| > MAX_RECEIVER_CHAINS then longer[1..] else longer
  }

  /** Put in front; if there are now more than MAX_MESSAGE_KEYS, drop the last. */
  function InsertKey(keys: seq<MessageKey>, key: MessageKey): seq<MessageKey> {
    var longer := [key] + keys;
    if |longer| > MAX_MESSAGE_KEYS then longer[..|longer| - 1] else longer
  }

  function KeyPosition(keys: seq<MessageKey>, counter: u32): (r: Option<nat>)
    ensures r.None? <==> forall k :: 0 <= k < |keys| ==> keys[k].index != counter
    ensures r.Some? ==> r.value < |keys| && keys[r.value].index == counter
                        && forall k :: 0 <= k < r.value ==> keys[k].index != counter
  {
    if keys == [] then None
    else if keys[0].index == counter then Some(0)
    else match KeyPosition(keys[1..], counter)
      case None => None
      case Some(k) =>
        assert keys[k + 1] == keys[1..][k];
        Some(k + 1)
  }

  /** Cache the key of every index before `counter` and walk the chain up to it. */
  function SkipTo(hmac: Hmac, keys: seq<MessageKey>, chain: ChainKey, counter: u32): (r: (seq<MessageKey>, ChainKey))
    requires chain.index <= counter
    ensures r.1.index == counter
    decreases counter - chain.index
  {
    if chain.index == counter then (keys, chain)
    else SkipTo(hmac, InsertKey(keys, chain.MessageKeyOf(hmac)), chain.Next(hmac), counter)
  }

  /** The message key for a counter and the receiver chain left behind. */
  function TakeKey(hmac: Hmac, chain: ReceiverChain, counter: u32, withSelf: bool): Result<(ReceiverChain,
                   MessageKey)> {
    if chain.chainKey.index > counter then
      match KeyPosition(chain.messageKeys, counter)
      case None => Err(DuplicatedMessage)
      case Some(k) => Ok((chain.(messageKeys := Without(chain.messageKeys, k)), chain.messageKeys[k]))
    else if counter - chain.chainKey.index > MAX_FORWARD_JUMPS && !withSelf then Err(InvalidMessage)
    else
      var (keys, last) := SkipTo(hmac, chain.messageKeys, chain.chainKey, counter);
      Ok((chain.(messageKeys := keys, chainKey := last.Next(hmac)), last.MessageKeyOf(hmac)))
  }

  /** A Diffie-Hellman ratchet step on a new ratchet key: a receiver chain for it, and a new
      sender chain under a fresh key of ours. */
  function RatchetStep(suite: Suite, st: SessionStructure, theirs: PublicKey,
                       ours: PrivateKey): Result<SessionStructure> {
    if st.rootKey.None? || st.senderChain.None? then Err(InvalidSessionStructure)
    else
      var (root1, receiver) := CreateChain(suite, st.rootKey.value, theirs, st.senderChain.value.ratchetPrivate);
      var (root2, sender) := CreateChain(suite, root1, theirs, ours);
      var sent := st.senderChain.value.chainKey.index;
      Ok(st.(rootKey := Some(root2),
             receiverChains := AddReceiver(st.receiverChains, ReceiverChain(theirs, receiver, [])),
             previousCounter := if sent > 0 then sent - 1 else 0,
             senderChain := Some(SenderChain(suite.publicKey(ours), ours, sender))))
  }

  class SessionState {
    var session: SessionStructure

    constructor (session: SessionStructure)
      ensures this.session == session
    {
      this.session := session;
    }

    method GetReceiverChain(theirs: PublicKey) returns (r: Option<nat>)
      ensures r == FindReceiver(session.receiverChains, theirs)
    {
      var i := 0;
      while i < |session.receiverChains|
        invariant 0 <= i <= |session.receiverChains|
        invariant forall k :: 0 <= k < i ==> session.receiverChains[k].ratchetKey != theirs
      {
        if session.receiverChains[i].ratchetKey == theirs {
          return Some(i);
        }
        i := i + 1;
      }
      return None;
    }

    method AddReceiverChain(theirs: PublicKey, chainKey: ChainKey)
      modifies this
      ensures session == old(session).(receiverChains :=
                AddReceiver(old(session).receiverChains, ReceiverChain(theirs, chainKey, [])))
    {
      var chains := session.receiverChains + [ReceiverChain(theirs, chainKey, [])];
      if |chains| > MAX_RECEIVER_CHAINS {
        chains := chains[1..];
      }
      session := session.(receiverChains := chains);
    }

    method SetSenderChain(ours: PrivateKey, ourPublic: PublicKey, chainKey: ChainKey)
      modifies this
      ensures session == old(session).(senderChain := Some(SenderChain(ourPublic, ours, chainKey)))
    {
      session := session.(senderChain := Some(SenderChain(ourPublic, ours, chainKey)));
    }

    method SetSenderChainKey(chainKey: ChainKey)
      modifies this
      ensures session == old(session).(senderChain := Some(match old(session).senderChain
                           case None => SenderChain([], [], chainKey)
                           case Some(c) => c.(chainKey := chainKey)))
    {
      var chain := if session.senderChain.None? then SenderChain([], [], chainKey)
                   else session.senderChain.value.(chainKey := chainKey);
      session := session.(senderChain := Some(chain));
    }

    method UpdateChain(i: nat, chain: ReceiverChain)
      requires i < |session.receiverChains|
      modifies this
      ensures session == old(session).(receiverChains := old(session).receiverChains[i := chain])
    {
      session := session.(receiverChains := session.receiverChains[i := chain]);
    }

    /** Take a cached key out, once. */
    method GetMessageKeys(theirs: PublicKey, counter: u32) returns (r: Option<MessageKey>)
      modifies this
      ensures match FindReceiver(old(session).receiverChains, theirs)
        case None => r == None && session == old(session)
        case Some(i) =>
          var chain := old(session).receiverChains[i];
          match KeyPosition(chain.messageKeys, counter)
          case None => r == None && session == old(session)
          case Some(k) =>
            r == Some(chain.messageKeys[k])
            && session == old(session).(receiverChains := old(session).receiverChains[i :=
                            chain.(messageKeys := Without(chain.messageKeys, k))])
    {
      var found := GetReceiverChain(theirs);
      if found.Some? {
        var chain := session.receiverChains[found.value];
        var position := KeyPosition(chain.messageKeys, counter);
        if position.Some? {
          UpdateChain(found.value, chain.(messageKeys := Without(chain.messageKeys, position.value)));
          return Some(chain.messageKeys[position.value]);
        }
      }
      return None;
    }

    method SetMessageKeys(theirs: PublicKey, key: MessageKey)
      requires FindReceiver(session.receiverChains, theirs).Some?
      modifies this
      ensures var i := FindReceiver(old(session).receiverChains, theirs).value;
        var chain := old(session).receiverChains[i];
        session == old(session).(receiverChains := old(session).receiverChains[i :=
                     chain.(messageKeys := InsertKey(chain.messageKeys, key))])
    {
      var found := GetReceiverChain(theirs);
      var chain := session.receiverChains[found.value];
      var keys := [key] + chain.messageKeys;
      if |keys| > MAX_MESSAGE_KEYS {
        keys := keys[..|keys| - 1];
      }
      UpdateChain(found.value, chain.(messageKeys := keys));
    }

    method SetReceiverChainKey(theirs: PublicKey, chainKey: ChainKey)
      requires FindReceiver(session.receiverChains, theirs).Some?
      modifies this
      ensures var i := FindReceiver(old(session).receiverChains, theirs).value;
        session == old(session).(receiverChains := old(session).receiverChains[i :=
                     old(session).receiverChains[i].(chainKey := chainKey)])
    {
      var found := GetReceiverChain(theirs);
      UpdateChain(found.value, session.receiverChains[found.value].(chainKey := chainKey));
    }

    method ClearUnacknowledgedPreKeyMessage()
      modifies this
      ensures session == old(session).Acknowledged()
    {
      session := session.(pendingPreKey := None, pendingKyber := None);
    }

    /** `get_or_create_chain_key` (libsignal/rust/protocol/src/session_cipher.rs:696-730). */
    method GetOrCreateChainKey(suite: Suite, theirs: PublicKey, ephemeral: PrivateKey) returns (r: Result<ChainKey>)
      modifies this
      ensures match FindReceiver(old(session).receiverChains, theirs)
        case Some(i) => session == old(session) && r == Ok(session.receiverChains[i].chainKey)
        case None =>
          match RatchetStep(suite, old(session), theirs, ephemeral)
          case Ok(st) => session == st && r.Ok? && FindReceiver(st.receiverChains, theirs).Some?
                         && r.value == st.receiverChains[FindReceiver(st.receiverChains, theirs).value].chainKey
          case Err(e) => r == Err(e)
    {
      var found := GetReceiverChain(theirs);
      if found.Some? {
        return Ok(session.receiverChains[found.value].chainKey);
      }
      if session.rootKey.None? {
        return Err(InvalidSessionStructure);
      }
      if session.senderChain.None? {
        return Err(InvalidSessionStructure);
      }
      var sender := session.senderChain.value;
      var (root1, receiverChain) := CreateChain(suite, session.rootKey.value, theirs, sender.ratchetPrivate);
      var (root2, senderChain) := CreateChain(suite, root1, theirs, ephemeral);
      session := session.(rootKey := Some(root2));
      AddReceiverChain(theirs, receiverChain);
      var currentIndex := sender.chainKey.index;
      session := session.(previousCounter := if currentIndex > 0 then currentIndex - 1 else 0);
      SetSenderChain(ephemeral, suite.publicKey(ephemeral), senderChain);
      AddedIsFound(old(session).receiverChains, ReceiverChain(theirs, receiverChain, []));
      return Ok(receiverChain);
    }

    /** `get_or_create_message_key` (libsignal/rust/protocol/src/session_cipher.rs:732-782). */
    method GetOrCreateMessageKey(suite: Suite, theirs: PublicKey, chainKey: ChainKey,
                                 counter: u32) returns (r: Result<MessageKey>)
      requires FindReceiver(session.receiverChains, theirs).Some?
      requires chainKey == session.receiverChains[FindReceiver(session.receiverChains, theirs).value].chainKey
      modifies this
      ensures var i := FindReceiver(old(session).receiverChains, theirs).value;
        match TakeKey(suite.hmac, old(session).receiverChains[i], counter, old(session).WithSelf())
        case Ok(p) => r == Ok(p.1) && session == old(session).(receiverChains := old(session).receiverChains[i := p.0])
        case Err(e) => r == Err(e)
    {
      hide InsertKey, FindReceiver, KeyPosition;
      if chainKey.index > counter {
        var cached := GetMessageKeys(theirs, counter);
        if cached.Some? {
          return Ok(cached.value);
        } else {
          return Err(DuplicatedMessage);
        }
      }
      var jump := counter - chainKey.index;
      if jump > MAX_FORWARD_JUMPS {
        if !session.WithSelf() {
          return Err(InvalidMessage);
        }
      }
      var chain := chainKey;
      ghost var i := FindReceiver(session.receiverChains, theirs).value;
      ghost var before := session.receiverChains[i];
      while chain.index < counter
        invariant chain.index <= counter && i < |session.receiverChains|
        invariant FindReceiver(session.receiverChains, theirs) == Some(i)
        invariant session == old(session).(receiverChains := old(session).receiverChains[i :=
                               before.(messageKeys := session.receiverChains[i].messageKeys)])
        invariant SkipTo(suite.hmac, session.receiverChains[i].messageKeys, chain, counter)
               == SkipTo(suite.hmac, before.messageKeys, before.chainKey, counter)
        decreases counter - chain.index
      {
        ghost var was := session.receiverChains;
        SetMessageKeys(theirs, chain.MessageKeyOf(suite.hmac));
        UpdateKeepsFound(was, i, session.receiverChains[i], theirs);
        chain := chain.Next(suite.hmac);
      }
      SetReceiverChainKey(theirs, chain.Next(suite.hmac));
      return Ok(chain.MessageKeyOf(suite.hmac));
    }
  }

  lemma UpdateKeepsFound(chains: seq<ReceiverChain>, i: nat, chain: ReceiverChain, theirs: PublicKey)
    requires FindReceiver(chains, theirs) == Some(i) && chain.ratchetKey == theirs
    ensures FindReceiver(chains[i := chain], theirs) == Some(i)
  {
    var k := FindReceiver(chains[i := chain], theirs);
    assert chains[i := chain][i].ratchetKey == theirs;
  }

  lemma AddedIsFound(chains: seq<ReceiverChain>, chain: ReceiverChain)
    requires FindReceiver(chains, chain.ratchetKey).None?
    ensures var after := AddReceiver(chains, chain);
      FindReceiver(after, chain.ratchetKey) == Some(|after| - 1) && after[|after| - 1] == chain
  {
    var after := AddReceiver(chains, chain);
    assert after[|after| - 1].ratchetKey == chain.ratchetKey;
  }

  // ------------------------------------------------------------- the record

  /** `SessionRecord`: the current session and the archived ones, the most recent first. */
  datatype RecordStructure = RecordStructure(current: Option<SessionStructure>, previous: seq<SessionStructure>)

  /** Make a session current; the one it replaces is archived in front, acknowledged, and the
      oldest archived one makes room when there are ARCHIVED_STATES_MAX_LENGTH. */
  function Promoted(record: RecordStructure, session: SessionStructure): RecordStructure {
    match record.current
    case None => RecordStructure(Some(session), record.previous)
    case Some(replaced) =>
      var room := if |record.previous| >= ARCHIVED_STATES_MAX_LENGTH
                  then record.previous[..|record.previous| - 1] else record.previous;
      RecordStructure(Some(session), [replaced.Acknowledged()] + room)
  }

  /** The record owns its sessions; one handed out for updating is a SessionState object made
      from it and put back. */
  class SessionRecord {
    var record: RecordStructure

    constructor (record: RecordStructure)
      ensures this.record == record
    {
      this.record := record;
    }

    method SetSessionState(session: SessionStructure)
      modifies this
      ensures record == old(record).(current := Some(session))
    {
      record := record.(current := Some(session));
    }

    method PromoteState(session: SessionStructure)
      modifies this
      ensures record == Promoted(old(record), session)
    {
      if record.current.Some? {
        var archived := record.current.value.Acknowledged();
        var previous := record.previous;
        if |previous| >= ARCHIVED_STATES_MAX_LENGTH {
          previous := previous[..|previous| - 1];
        }
        record := RecordStructure(None, [archived] + previous);
      }
      record := record.(current := Some(session));
    }

    method PromoteOldSession(i: nat, session: SessionStructure)
      requires i < |record.previous|
      modifies this
      ensures record == Promoted(old(record).(previous := Without(old(record).previous, i)), session)
    {
      record := record.(previous := Without(record.previous, i));
      PromoteState(session);
    }
  }
}
