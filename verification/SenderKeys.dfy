/** Sender keys: the hash chain, one sender-key state, and the record of states
    (libsignal/rust/protocol/src/sender_keys.rs).

    The datatypes are the stored structures; the classes own one structure and update it in
    place. Every method is proved against a function on structures, and the run theorems
    in GroupRuns are about those functions. */
module SenderKeys {
  import opened Wrappers
  import opened Bytes
  import opened KdfChain

  datatype SenderMessageKey = SenderMessageKey(iteration: u32, seed: Bytes)

  datatype SenderChainKey = SenderChainKey(iteration: u32, chainKey: Bytes) {
    /** The counter is checked: the chain ends at `u32::MAX` instead of wrapping. */
    function Next(hmac: Hmac): Result<SenderChainKey> {
      if iteration == U32_MAX then Err(InvalidState)
      else Ok(SenderChainKey(iteration + 1, hmac(chainKey, CHAIN_KEY_SEED)))
    }

    function MessageKey(hmac: Hmac): SenderMessageKey {
      SenderMessageKey(iteration, hmac(chainKey, MESSAGE_KEY_SEED))
    }
  }

  /** `SenderKeyStateStructure`. A missing or undecodable signing key is `None`. */
  datatype StateStructure = StateStructure(
    storedVersion: u32,
    chainId: u32,
    senderChainKey: Option<SenderChainKey>,
    signingPublic: Option<Bytes>,
    signingPrivate: Option<Bytes>,
    messageKeys: seq<SenderMessageKey>)
  {
    /** Version 0 on disk means the first sender-key version. */
    function MessageVersion(): u32 {
      if storedVersion == 0 then 3 else storedVersion
    }
  }

  // ---------------------------------------------------------------- one state

  /** Append, then drop from the front until at most MAX_MESSAGE_KEYS remain. */
  function PushKey(keys: seq<SenderMessageKey>, key: SenderMessageKey): seq<SenderMessageKey> {
    var longer := keys + [key];
    if |longer| > MAX_MESSAGE_KEYS then longer[|longer| - MAX_MESSAGE_KEYS..] else longer
  }

  /** Position of the first cached key for an iteration. */
  function KeyPosition(keys: seq<SenderMessageKey>, iteration: u32): (r: Option<nat>)
    ensures r.None? <==> forall k :: 0 <= k < |keys| ==> keys[k].iteration != iteration
    ensures r.Some? ==> r.value < |keys| && keys[r.value].iteration == iteration
                        && forall k :: 0 <= k < r.value ==> keys[k].iteration != iteration
  {
    if keys == [] then None
    else if keys[0].iteration == iteration then Some(0)
    else match KeyPosition(keys[1..], iteration)
      case None => None
      case Some(k) =>
        assert keys[k + 1] == keys[1..][k];
        Some(k + 1)
  }

  /** Cache the key of every iteration before `target` and walk the chain up to it. */
  function SkipTo(hmac: Hmac, keys: seq<SenderMessageKey>, chain: SenderChainKey, target: u32)
    : (r: (seq<SenderMessageKey>, SenderChainKey))
    requires chain.iteration <= target
    ensures r.1.iteration == target
    decreases target - chain.iteration
  {
    if chain.iteration == target then (keys, chain)
    else SkipTo(hmac, PushKey(keys, chain.MessageKey(hmac)), chain.Next(hmac).value, target)
  }

  /** What `get_sender_key` returns and the state it leaves behind when it succeeds. */
  function TakeKey(hmac: Hmac, st: StateStructure, iteration: u32): Result<(StateStructure, SenderMessageKey)> {
    if st.senderChainKey.None? then Err(InvalidSenderKeySession)
    else
      var chain := st.senderChainKey.value;
      if chain.iteration > iteration then
        match KeyPosition(st.messageKeys, iteration)
        case None => Err(DuplicatedMessage)
        case Some(k) => Ok((st.(messageKeys := Without(st.messageKeys, k)), st.messageKeys[k]))
      else if iteration - chain.iteration > MAX_FORWARD_JUMPS then Err(InvalidMessage)
      else
        var (keys, last) := SkipTo(hmac, st.messageKeys, chain, iteration);
        var next :- last.Next(hmac);
        Ok((st.(messageKeys := keys, senderChainKey := Some(next)), last.MessageKey(hmac)))
  }

  class SenderKeyState {
    var state: StateStructure

    constructor (state: StateStructure)
      ensures this.state == state
    {
      this.state := state;
    }

    method SetSenderChainKey(chainKey: SenderChainKey)
      modifies this
      ensures state == old(state).(senderChainKey := Some(chainKey))
    {
      state := state.(senderChainKey := Some(chainKey));
    }

    method AddSenderMessageKey(key: SenderMessageKey)
      modifies this
      ensures state == old(state).(messageKeys := PushKey(old(state).messageKeys, key))
    {
      var keys := state.messageKeys + [key];
      ghost var all := keys;
      ghost var dropped := 0;
      while |keys| > MAX_MESSAGE_KEYS
        invariant dropped <= |all| && keys == all[dropped..]
        invariant dropped > 0 ==> |keys| >= MAX_MESSAGE_KEYS
      {
        keys := keys[1..];
        dropped := dropped + 1;
      }
      state := state.(messageKeys := keys);
    }

    method RemoveSenderMessageKey(iteration: u32) returns (r: Option<SenderMessageKey>)
      modifies this
      ensures match KeyPosition(old(state).messageKeys, iteration)
        case None => r == None && state == old(state)
        case Some(k) => r == Some(old(state).messageKeys[k])
                        && state == old(state).(messageKeys := Without(old(state).messageKeys, k))
    {
      var k := KeyPosition(state.messageKeys, iteration);
      match k {
        case None => r := None;
        case Some(i) =>
          r := Some(state.messageKeys[i]);
          state := state.(messageKeys := Without(state.messageKeys, i));
      }
    }

    /** `get_sender_key` (libsignal/rust/protocol/src/group_cipher.rs:75-122): a failing call may
        leave skipped keys in this object, but the caller then drops it without storing it. */
    method GetSenderKey(hmac: Hmac, iteration: u32) returns (r: Result<SenderMessageKey>)
      modifies this
      ensures match TakeKey(hmac, old(state), iteration)
        case Ok(p) => r == Ok(p.1) && state == p.0
        case Err(e) => r == Err(e)
      ensures state.chainId == old(state).chainId
    {
      if state.senderChainKey.None? {
        return Err(InvalidSenderKeySession);
      }
      var chain := state.senderChainKey.value;
      if chain.iteration > iteration {
        var found := RemoveSenderMessageKey(iteration);
        if found.Some? {
          return Ok(found.value);
        } else {
          return Err(DuplicatedMessage);
        }
      }
      var jump := iteration - chain.iteration;
      if jump > MAX_FORWARD_JUMPS {
        return Err(InvalidMessage);
      }
      while chain.iteration < iteration
        invariant chain.iteration <= iteration
        invariant state == old(state).(messageKeys := state.messageKeys)
        invariant SkipTo(hmac, state.messageKeys, chain, iteration)
               == SkipTo(hmac, old(state).messageKeys, old(state).senderChainKey.value, iteration)
        decreases iteration - chain.iteration
      {
        AddSenderMessageKey(chain.MessageKey(hmac));
        chain := chain.Next(hmac).value;
      }
      var next := chain.Next(hmac);
      if next.Err? {
        return Err(next.error);
      }
      SetSenderChainKey(next.value);
      return Ok(chain.MessageKey(hmac));
    }
  }

  // ------------------------------------------------------- the record of states

  type RecordStructure = seq<StateStructure>

  /** Index of the first state with a chain id. */
  function FindChain(states: RecordStructure, chainId: u32): (r: Option<nat>)
    ensures r.None? <==> forall k :: 0 <= k < |states| ==> states[k].chainId != chainId
    ensures r.Some? ==> r.value < |states| && states[r.value].chainId == chainId
                        && forall k :: 0 <= k < r.value ==> states[k].chainId != chainId
  {
    if states == [] then None
    else if states[0].chainId == chainId then Some(0)
    else match FindChain(states[1..], chainId)
      case None => None
      case Some(k) =>
        assert states[k + 1] == states[1..][k];
        Some(k + 1)
  }

  predicate Matches(st: StateStructure, chainId: u32, publicKey: Bytes) {
    st.chainId == chainId && st.signingPublic == Some(publicKey)
  }

  /** Index of the first state with a chain id and a signing key. */
  function FindState(states: RecordStructure, chainId: u32, publicKey: Bytes): (r: Option<nat>)
    ensures r.None? <==> forall k :: 0 <= k < |states| ==> !Matches(states[k], chainId, publicKey)
    ensures r.Some? ==> r.value < |states| && Matches(states[r.value], chainId, publicKey)
                        && forall k :: 0 <= k < r.value ==> !Matches(states[k], chainId, publicKey)
  {
    if states == [] then None
    else if Matches(states[0], chainId, publicKey) then Some(0)
    else match FindState(states[1..], chainId, publicKey)
      case None => None
      case Some(k) =>
        assert states[k + 1] == states[1..][k];
        Some(k + 1)
  }

  function DropChain(states: RecordStructure, chainId: u32): RecordStructure {
    if states == [] then []
    else (if states[0].chainId == chainId then [] else [states[0]]) + DropChain(states[1..], chainId)
  }

  lemma DropChainStep(left: RecordStructure, states: RecordStructure, i: nat, chainId: u32)
    requires i < |states|
    ensures left + DropChain(states[i..], chainId)
         == (if states[i].chainId == chainId then left else left + [states[i]])
            + DropChain(states[i + 1..], chainId)
  {
    assert states[i..][1..] == states[i + 1..];
  }

  function NewState(version: byte, chainId: u32, iteration: u32, chainKey: Bytes,
                    publicKey: Bytes, privateKey: Option<Bytes>): StateStructure
  {
    StateStructure(version, chainId, Some(SenderChainKey(iteration, chainKey)),
                   Some(publicKey), privateKey, [])
  }

  function MakeRoom(states: RecordStructure): RecordStructure {
    if |states| >= MAX_SENDER_KEY_STATES then states[..MAX_SENDER_KEY_STATES - 1] else states
  }

  /** `add_sender_key_state`: a held state with the same chain id and signing key is kept as it
      is, any other with that chain id goes, the oldest go while 5 or more remain, and the
      state goes to the front. */
  function AddState(states: RecordStructure, added: StateStructure): RecordStructure
    requires added.signingPublic.Some?
  {
    var held := FindState(states, added.chainId, added.signingPublic.value);
    var rest := DropChain(if held.Some? then Without(states, held.value) else states, added.chainId);
    [if held.Some? then states[held.value] else added] + MakeRoom(rest)
  }

  /** The record owns its states; a state borrowed mutably is a SenderKeyState object made from
      the entry and written back with `Replace`. */
  class SenderKeyRecord {
    var states: RecordStructure

    constructor (stored: RecordStructure)
      ensures states == stored
    {
      states := stored;
    }

    method StateForChainId(chainId: u32) returns (r: Option<nat>)
      ensures r == FindChain(states, chainId)
    {
      var i := 0;
      while i < |states|
        invariant 0 <= i <= |states|
        invariant forall k :: 0 <= k < i ==> states[k].chainId != chainId
      {
        if states[i].chainId == chainId {
          return Some(i);
        }
        i := i + 1;
      }
      return None;
    }

    method Replace(i: nat, st: StateStructure)
      requires i < |states|
      modifies this
      ensures states == old(states)[i := st]
    {
      states := states[i := st];
    }

    method RemoveState(chainId: u32, publicKey: Bytes) returns (r: Option<StateStructure>)
      modifies this
      ensures match FindState(old(states), chainId, publicKey)
        case None => r == None && states == old(states)
        case Some(k) => r == Some(old(states)[k]) && states == Without(old(states), k)
    {
      var i := 0;
      while i < |states|
        invariant 0 <= i <= |states| && states == old(states)
        invariant forall k :: 0 <= k < i ==> !Matches(states[k], chainId, publicKey)
      {
        if Matches(states[i], chainId, publicKey) {
          r := Some(states[i]);
          states := Without(states, i);
          return;
        }
        i := i + 1;
      }
      return None;
    }

    /** Every other state stays, in order; returns how many were removed. */
    method RemoveStatesWithChainId(chainId: u32) returns (removed: nat)
      modifies this
      ensures states == DropChain(old(states), chainId)
      ensures removed == |old(states)| - |states|
    {
      var i, kept := 0, [];
      while i < |states|
        invariant states == old(states) && |kept| <= i <= |states|
        invariant kept + DropChain(states[i..], chainId) == DropChain(states, chainId)
      {
        DropChainStep(kept, states, i, chainId);
        if states[i].chainId != chainId {
          kept := kept + [states[i]];
        }
        i := i + 1;
      }
      removed := |states| - |kept|;
      states := kept;
    }

    method AddSenderKeyState(version: byte, chainId: u32, iteration: u32, chainKey: Bytes,
                             publicKey: Bytes, privateKey: Option<Bytes>)
      modifies this
      ensures states == AddState(old(states),
                                 NewState(version, chainId, iteration, chainKey, publicKey, privateKey))
    {
      var existing := RemoveState(chainId, publicKey);
      var _ := RemoveStatesWithChainId(chainId);
      var st := if existing.Some? then existing.value
                else NewState(version, chainId, iteration, chainKey, publicKey, privateKey);
      ghost var rest := states;
      while |states| >= MAX_SENDER_KEY_STATES
        invariant |states| <= |rest| && states == rest[..|states|]
        invariant |states| >= MAX_SENDER_KEY_STATES - 1 || |states| == |rest|
      {
        states := states[..|states| - 1];
      }
      states := [st] + states;
    }
  }
}
