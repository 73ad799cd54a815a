/** The multi-recipient encoder of Sealed Sender v2
    (libsignal/rust/protocol/src/sealed_sender.rs:1360-1593). */
module SealedSenderEncoder {
  import opened Wrappers
  import opened Bytes
  import opened Arithmetic
  import opened SealedSenderFormat
  import opened SealedSenderKem

  /** Who encrypts: the identity key, the random message key, and the identities known. */
  datatype Sender = Sender(identity: Key, messageKey: Key, known: map<ProtocolAddress, Key>)

  /** Consecutive destinations of one name with the identity key of the first. */
  datatype Group = Group(identity: Key, start: nat, end: nat)

  // ------------------------------------------------------------- grouping

  /** End of the run of destinations named like `d[start]`, of which those before `i` are known. */
  function GroupEnd(d: seq<ProtocolAddress>, start: nat, i: nat): (end: nat)
    requires start < i <= |d|
    ensures i <= end <= |d|
    decreases |d| - i
  {
    if i < |d| && d[i].name == d[start].name then GroupEnd(d, start, i + 1) else i
  }

  function Groups(known: map<ProtocolAddress, Key>, d: seq<ProtocolAddress>, start: nat): Result<seq<Group>>
    requires start <= |d|
    decreases |d| - start
  {
    if start == |d| then Ok([])
    else if d[start] !in known then Err(SessionNotFound)
    else
      var end := GroupEnd(d, start, start + 1);
      var rest :- Groups(known, d, end);
      Ok([Group(known[d[start]], start, end)] + rest)
  }

  // ------------------------------------------------------------- one recipient

  predicate ValidSession(registrationId: Option<u32>) {
    registrationId.Some? && registrationId.value < 0x4000
  }

  /** The devices of destinations `i` to `end`, if their sessions name 14-bit registration ids. */
  function GroupDevices(d: seq<ProtocolAddress>, sessions: seq<Option<u32>>, i: nat, end: nat): (r: Result<seq<Device>>)
    requires i <= end <= |d| == |sessions|
    ensures r.Ok? ==> |r.value| == end - i
    decreases end - i
  {
    if i == end then Ok([])
    else if sessions[i].None? then Err(InvalidState)
    else if sessions[i].value >= 0x4000 then Err(InvalidRegistrationId)
    else
      var rest :- GroupDevices(d, sessions, i + 1, end);
      Ok([Device(d[i].deviceId, sessions[i].value)] + rest)
  }

  /** `serialize_recipient_destinations_into`: what is appended for one group. */
  function GroupBytes(suite: Suite, sender: Sender, d: seq<ProtocolAddress>, sessions: seq<Option<u32>>,
                      g: Group): Result<Bytes>
    requires |d| == |sessions| && g.start < g.end <= |d|
  {
    match suite.parseName(d[g.start].name)
    case None => Err(InvalidArgument)
    case Some(id) =>
      var devices :- GroupDevices(d, sessions, g.start, g.end);
      Ok(FixedWidth(id) + DeviceList(devices) + KeyMaterial(suite, sender.identity, sender.messageKey, g.identity))
  }

  /** One output after another, or the first error. */
  function Then(first: Result<Bytes>, rest: Result<Bytes>): Result<Bytes> {
    if first.Err? then first else if rest.Err? then rest else Ok(first.value + rest.value)
  }

  lemma ThenAssociates(a: Result<Bytes>, b: Result<Bytes>, c: Result<Bytes>)
    ensures Then(Then(a, b), c) == Then(a, Then(b, c))
  {
    if a.Ok? && b.Ok? && c.Ok? {
      assert a.value + b.value + c.value == a.value + (b.value + c.value);
    }
  }

  lemma ThenNothing(a: Result<Bytes>)
    ensures Then(a, Ok([])) == a && Then(Ok([]), a) == a
  {
    if a.Ok? {
      assert a.value + [] == a.value && [] + a.value == a.value;
    }
  }

  predicate ValidGroups(d: seq<ProtocolAddress>, groups: seq<Group>) {
    forall i :: 0 <= i < |groups| ==> groups[i].start < groups[i].end <= |d|
  }

  /** One in-order pass over the groups. */
  function GroupsBytes(suite: Suite, sender: Sender, d: seq<ProtocolAddress>, sessions: seq<Option<u32>>,
                       groups: seq<Group>): Result<Bytes>
    requires |d| == |sessions| && ValidGroups(d, groups)
  {
    if groups == [] then Ok([])
    else Then(GroupBytes(suite, sender, d, sessions, groups[0]), GroupsBytes(suite, sender, d, sessions, groups[1..]))
  }

  function Excluded(ids: seq<ServiceId>): Bytes {
    if ids == [] then [] else FixedWidth(ids[0]) + [0] + Excluded(ids[1..])
  }

  /** The sent message, or the first error. */
  function Encoded(suite: Suite, sender: Sender, d: seq<ProtocolAddress>, sessions: seq<Option<u32>>,
                   excluded: seq<ServiceId>,
                   content: Bytes): Result<Bytes>
  {
    if |d| != |sessions| then Err(InvalidArgument)
    else
      var groups :- Groups(sender.known, d, 0);
      GroupsAreValid(sender.known, d, 0);
      var recipients :- GroupsBytes(suite, sender, d, sessions, groups);
      Ok([SEALED_SENDER_V2_SERVICE_ID_FULL_VERSION] + EncodeVarint(|groups| + |excluded|)
         + recipients + Excluded(excluded) + SharedBytes(suite, sender.messageKey, content))
  }

  /** The groups are non-empty contiguous ranges that partition the destinations from `start` on,
      all of one name, and as long as they can be. */
  lemma {:induction false} GroupsPartition(known: map<ProtocolAddress, Key>, d: seq<ProtocolAddress>, start: nat,
                                           k: nat, i: nat)
    requires start <= |d| && Groups(known, d, start).Ok? && k < |Groups(known, d, start).value|
    ensures var groups := Groups(known, d, start).value;
      groups[k].start < groups[k].end <= |d|
      && groups[k].start == (if k == 0 then start else groups[k - 1].end)
      && (if k == |groups| - 1 then groups[k].end == |d|
          else groups[k].end < |d| && d[groups[k].end].name != d[groups[k].start].name)
      && (groups[k].start <= i < groups[k].end ==> d[i].name == d[groups[k].start].name)
      && d[groups[k].start] in known && groups[k].identity == known[d[groups[k].start]]
    decreases |d| - start
  {
    var end := GroupEnd(d, start, start + 1);
    GroupEndIs(d, start, start + 1, i);
    if k > 0 {
      GroupsPartition(known, d, end, k - 1, i);
    } else if end < |d| {
      assert Groups(known, d, end).value != [];
    }
  }

  lemma {:induction false} GroupEndIs(d: seq<ProtocolAddress>, start: nat, i: nat, j: nat)
    requires start < i <= |d|
    ensures var end := GroupEnd(d, start, i);
      (end < |d| ==> d[end].name != d[start].name) && (i <= j < end ==> d[j].name == d[start].name)
    decreases |d| - i
  {
    if i < |d| && d[i].name == d[start].name {
      GroupEndIs(d, start, i + 1, j);
    }
  }

  lemma GroupsAreValid(known: map<ProtocolAddress, Key>, d: seq<ProtocolAddress>, start: nat)
    requires start <= |d| && Groups(known, d, start).Ok?
    ensures ValidGroups(d, Groups(known, d, start).value)
  {
    var groups := Groups(known, d, start).value;
    forall k | 0 <= k < |groups|
      ensures groups[k].start < groups[k].end <= |d|
    {
      GroupsPartition(known, d, start, k, 0);
    }
  }

  // ------------------------------------------------------------- the encoder as it runs

  method GroupDestinations(known: map<ProtocolAddress, Key>, d: seq<ProtocolAddress>) returns (r: Result<seq<Group>>)
    ensures r == Groups(known, d, 0)
  {
    var groups: seq<Group> := [];
    var start := 0;
    while start < |d|
      invariant start <= |d|
      invariant Groups(known, d, start).Err? ==> Groups(known, d, 0) == Groups(known, d, start)
      invariant Groups(known, d, start).Ok? ==>
          Groups(known, d, 0).Ok? && Groups(known, d, 0).value == groups + Groups(known, d, start).value
    {
      var end := start + 1;
      while end < |d| && d[end].name == d[start].name
        invariant start < end <= |d|
        invariant GroupEnd(d, start, end) == GroupEnd(d, start, start + 1)
      {
        end := end + 1;
      }
      if d[start] !in known {
        return Err(SessionNotFound);
      }
      groups := groups + [Group(known[d[start]], start, end)];
      start := end;
    }
    assert groups + [] == groups;
    return Ok(groups);
  }

  /** Append one recipient. The high bit is set on all registration ids but the last. */
  method SerializeGroup(suite: Suite, sender: Sender, d: seq<ProtocolAddress>, sessions: seq<Option<u32>>, g: Group,
                        serialized: Bytes)
    returns (r: Result<Bytes>)
    requires |d| == |sessions| && g.start < g.end <= |d|
    ensures r == Then(Ok(serialized), GroupBytes(suite, sender, d, sessions, g))
  {
    hide ApplyAgreementXor, AuthenticationTag, FixedWidth, BigEndian16;
    var id := suite.parseName(d[g.start].name);
    if id.None? {
      return Err(InvalidArgument);
    }
    var out: Bytes := serialized + FixedWidth(id.value);
    var i := g.start;
    while i < g.end
      invariant g.start <= i <= g.end
      invariant GroupDevices(d, sessions, g.start, g.end).Err? <==> GroupDevices(d, sessions, i, g.end).Err?
      invariant GroupDevices(d, sessions, i, g.end).Err? ==>
          GroupDevices(d, sessions, g.start, g.end) == GroupDevices(d, sessions, i, g.end)
      invariant GroupDevices(d, sessions, i, g.end).Ok? ==>
          serialized + FixedWidth(id.value) + DeviceList(GroupDevices(d, sessions, g.start, g.end).value)
             == out + DeviceList(GroupDevices(d, sessions, i, g.end).value)
    {
      if sessions[i].None? {
        return Err(InvalidState);
      }
      var registrationId := sessions[i].value;
      if registrationId % 0x4000 != registrationId {
        return Err(InvalidRegistrationId);
      }
      var entry: Bytes := [d[i].deviceId]
          + BigEndian16(if i + 1 < g.end then registrationId + 0x8000 else registrationId);
      out := out + entry;
      i := i + 1;
    }
    var c := ApplyAgreementXor(suite, suite.deriveE(sender.messageKey), g.identity, Sending, sender.messageKey);
    var tag := AuthenticationTag(suite, sender.identity, g.identity, Sending,
                                 suite.publicKey(suite.deriveE(sender.messageKey)), c);
    assert out == serialized + FixedWidth(id.value) + DeviceList(GroupDevices(d, sessions, g.start, g.end).value);
    assert out + c + tag == serialized
           + (FixedWidth(id.value) + DeviceList(GroupDevices(d, sessions, g.start, g.end).value) + (c + tag));
    return Ok(out + c + tag);
  }

  /** `process_chunk`. */
  method ProcessChunk(suite: Suite, sender: Sender, d: seq<ProtocolAddress>, sessions: seq<Option<u32>>,
                      groups: seq<Group>,
                      serialized: Bytes) returns (r: Result<Bytes>)
    requires |d| == |sessions| && ValidGroups(d, groups)
    ensures r == Then(Ok(serialized), GroupsBytes(suite, sender, d, sessions, groups))
  {
    hide GroupBytes;
    var out: Bytes := serialized;
    for i := 0 to |groups|
      invariant Then(Ok(serialized), GroupsBytes(suite, sender, d, sessions, groups))
             == Then(Ok(out), GroupsBytes(suite, sender, d, sessions, groups[i..]))
    {
      assert groups[i..][0] == groups[i] && groups[i..][1..] == groups[i + 1..];
      ThenAssociates(Ok(out), GroupBytes(suite, sender, d, sessions, groups[i]),
                     GroupsBytes(suite, sender, d, sessions, groups[i + 1..]));
      out :- SerializeGroup(suite, sender, d, sessions, groups[i], out);
    }
    ThenNothing(Ok(out));
    return Ok(out);
  }

  /** A pass over two stretches of groups is a pass over the first, then over the second. */
  lemma {:induction false} PassSplits(suite: Suite, sender: Sender, d: seq<ProtocolAddress>, sessions: seq<Option<u32>>,
                                      a: seq<Group>, b: seq<Group>)
    requires |d| == |sessions| && ValidGroups(d, a) && ValidGroups(d, b)
    ensures ValidGroups(d, a + b)
    ensures GroupsBytes(suite, sender, d, sessions, a + b)
         == Then(GroupsBytes(suite, sender, d, sessions, a), GroupsBytes(suite, sender, d, sessions, b))
  {
    hide GroupBytes, Then;
    if a == [] {
      assert a + b == b;
      ThenNothing(GroupsBytes(suite, sender, d, sessions, b));
    } else {
      assert (a + b)[0] == a[0] && (a + b)[1..] == a[1..] + b;
      PassSplits(suite, sender, d, sessions, a[1..], b);
      ThenAssociates(GroupBytes(suite, sender, d, sessions, a[0]), GroupsBytes(suite, sender, d, sessions, a[1..]),
                     GroupsBytes(suite, sender, d, sessions, b));
    }
  }

  function Min(a: nat, b: nat): nat { if a < b then a else b }

  /** What is left of a list after its first `k` chunks of `size`, and chunk `k` itself. */
  function Tail(groups: seq<Group>, size: nat, k: nat): seq<Group> {
    groups[Min(k * size, |groups|)..]
  }

  function Chunk(groups: seq<Group>, size: nat, k: nat): seq<Group> {
    groups[Min(k * size, |groups|)..Min(k * size + size, |groups|)]
  }

  lemma ChunkThenTail(groups: seq<Group>, size: nat, k: nat)
    ensures Tail(groups, size, k) == Chunk(groups, size, k) + Tail(groups, size, k + 1)
  {
    assert (k + 1) * size == k * size + size;
  }

  lemma ChunksEnd(groups: seq<Group>, size: nat)
    requires size > 0
    ensures Tail(groups, size, DivCeil(|groups|, size)) == [] && Tail(groups, size, 0) == groups
    ensures size < |groups| ==> DivCeil(|groups|, size) >= 2
  {
    hide DivCeil;
    DivCeilReaches(|groups|, size, DivCeil(|groups|, size));
    DivCeilReaches(|groups|, size, 1);
  }

  function Jobs(count: nat): (r: set<nat>)
    ensures forall k :: k in r <==> 1 <= k < count
  {
    if count <= 1 then {} else Jobs(count - 1) + {count - 1}
  }

  lemma PartsAreValid(d: seq<ProtocolAddress>, groups: seq<Group>, size: nat, k: nat)
    requires ValidGroups(d, groups)
    ensures ValidGroups(d, Chunk(groups, size, k)) && ValidGroups(d, Tail(groups, size, k))
  {
  }

  /** The jobs for all chunks but the first. They run in any order and only meet in their output
      slots. */
  method Spawn(suite: Suite, sender: Sender, d: seq<ProtocolAddress>, sessions: seq<Option<u32>>, groups: seq<Group>,
               chunkSize: nat, count: nat) returns (outputs: array<Result<Bytes>>)
    requires |d| == |sessions| && ValidGroups(d, groups) && count > 0
    ensures outputs.Length == count - 1
    ensures forall k :: 1 <= k < count ==>
              outputs[k - 1] == ChunkOutput(suite, sender, d, sessions, groups, chunkSize, k)
  {
    hide ChunkOutput, Jobs, ValidGroups;
    outputs := new Result<Bytes>[count - 1](_ => Ok([]));
    var pending := Jobs(count);
    while pending != {}
      invariant pending <= Jobs(count)
      invariant forall k :: 1 <= k < count && k !in pending ==>
          outputs[k - 1] == ChunkOutput(suite, sender, d, sessions, groups, chunkSize, k)
      decreases |pending|
    {
      var k :| k in pending;
      outputs[k - 1] := Job(suite, sender, d, sessions, groups, chunkSize, k);
      pending := pending - {k};
    }
  }

  function ChunkOutput(suite: Suite, sender: Sender, d: seq<ProtocolAddress>, sessions: seq<Option<u32>>,
                       groups: seq<Group>,
                       size: nat, k: nat): Result<Bytes>
    requires |d| == |sessions| && ValidGroups(d, groups)
  {
    PartsAreValid(d, groups, size, k);
    GroupsBytes(suite, sender, d, sessions, Chunk(groups, size, k))
  }

  method Job(suite: Suite, sender: Sender, d: seq<ProtocolAddress>, sessions: seq<Option<u32>>, groups: seq<Group>,
              chunkSize: nat, k: nat) returns (r: Result<Bytes>)
    requires |d| == |sessions| && ValidGroups(d, groups)
    ensures r == ChunkOutput(suite, sender, d, sessions, groups, chunkSize, k)
  {
    hide GroupsBytes, Chunk;
    PartsAreValid(d, groups, chunkSize, k);
    r := ProcessChunk(suite, sender, d, sessions, Chunk(groups, chunkSize, k), []);
    ThenNothing(GroupsBytes(suite, sender, d, sessions, Chunk(groups, chunkSize, k)));
  }

  /** The fan-out over threads: for every degree of parallelism, and whatever order the jobs run in,
      the result is that of one in-order pass: the same bytes, or the same first error. */
  method FanOut(suite: Suite, sender: Sender, d: seq<ProtocolAddress>, sessions: seq<Option<u32>>, groups: seq<Group>,
                parallelism: nat, serialized: Bytes) returns (r: Result<Bytes>)
    requires |d| == |sessions| && ValidGroups(d, groups) && parallelism > 0
    ensures r == Then(Ok(serialized), GroupsBytes(suite, sender, d, sessions, groups))
  {
    hide GroupsBytes, DivCeil, Then, Chunk, Tail, ValidGroups;
    var chunkSize := if DivCeil(|groups|, parallelism) > 6 then DivCeil(|groups|, parallelism) else 6;
    if parallelism == 1 || chunkSize >= |groups| {
      r := ProcessChunk(suite, sender, d, sessions, groups, serialized);
      return;
    }
    var count := DivCeil(|groups|, chunkSize);
    ChunksEnd(groups, chunkSize);
    var spawned := Spawn(suite, sender, d, sessions, groups, chunkSize, count);
    var outputs := spawned[..];
    NextChunk(suite, sender, d, sessions, groups, chunkSize, 0, serialized);
    var out :- ProcessChunk(suite, sender, d, sessions, Chunk(groups, chunkSize, 0), serialized);
    for k := 1 to count
      invariant ValidGroups(d, Tail(groups, chunkSize, k))
      invariant Then(Ok(serialized), GroupsBytes(suite, sender, d, sessions, groups))
             == Then(Ok(out), GroupsBytes(suite, sender, d, sessions, Tail(groups, chunkSize, k)))
    {
      NextChunk(suite, sender, d, sessions, groups, chunkSize, k, out);
      assert outputs[k - 1] == ChunkOutput(suite, sender, d, sessions, groups, chunkSize, k);
      var output :- outputs[k - 1];
      out := out + output;
    }
    NothingLeft(suite, sender, d, sessions);
    ThenNothing(Ok(out));
    return Ok(out);
  }

  lemma NothingLeft(suite: Suite, sender: Sender, d: seq<ProtocolAddress>, sessions: seq<Option<u32>>)
    requires |d| == |sessions|
    ensures ValidGroups(d, []) && GroupsBytes(suite, sender, d, sessions, []) == Ok([])
  {
  }

  /** Appending a chunk's output, or stopping at its error, leaves the rest of the pass to do. */
  lemma NextChunk(suite: Suite, sender: Sender, d: seq<ProtocolAddress>, sessions: seq<Option<u32>>, groups: seq<Group>,
                  size: nat, k: nat, out: Bytes)
    requires |d| == |sessions| && ValidGroups(d, groups)
    ensures ValidGroups(d, Chunk(groups, size, k)) && ValidGroups(d, Tail(groups, size, k))
            && ValidGroups(d, Tail(groups, size, k + 1))
    ensures var chunk := GroupsBytes(suite, sender, d, sessions, Chunk(groups, size, k));
      var whole := Then(Ok(out), GroupsBytes(suite, sender, d, sessions, Tail(groups, size, k)));
      if chunk.Err? then whole == chunk && Then(Ok(out), chunk) == chunk
      else whole == Then(Ok(out + chunk.value), GroupsBytes(suite, sender, d, sessions, Tail(groups, size, k + 1)))
           && Then(Ok(out), chunk) == Ok(out + chunk.value)
  {
    hide GroupsBytes;
    PartsAreValid(d, groups, size, k);
    PartsAreValid(d, groups, size, k + 1);
    ChunkThenTail(groups, size, k);
    var (chunk, rest) := (GroupsBytes(suite, sender, d, sessions, Chunk(groups, size, k)),
                          GroupsBytes(suite, sender, d, sessions, Tail(groups, size, k + 1)));
    PassSplits(suite, sender, d, sessions, Chunk(groups, size, k), Tail(groups, size, k + 1));
    ThenAssociates(Ok(out), chunk, rest);
  }

  method ExcludedRecipients(excluded: seq<ServiceId>, serialized: Bytes) returns (r: Bytes)
    ensures r == serialized + Excluded(excluded)
  {
    r := serialized;
    for i := 0 to |excluded|
      invariant serialized + Excluded(excluded) == r + Excluded(excluded[i..])
    {
      assert excluded[i..][0] == excluded[i] && excluded[i..][1..] == excluded[i + 1..];
      r := r + FixedWidth(excluded[i]);
      r := r + [0];
    }
  }

  /** `sealed_sender_multi_recipient_encrypt_impl`. */
  method MultiRecipientEncrypt(suite: Suite, sender: Sender, d: seq<ProtocolAddress>, sessions: seq<Option<u32>>,
                               excluded: seq<ServiceId>, content: Bytes, parallelism: nat) returns (r: Result<Bytes>)
    requires parallelism > 0
    ensures r == Encoded(suite, sender, d, sessions, excluded, content)
  {
    hide GroupsBytes, Groups, ValidGroups;
    if |d| != |sessions| {
      return Err(InvalidArgument);
    }
    var shared := SharedBytes(suite, sender.messageKey, content);
    var groups :- GroupDestinations(sender.known, d);
    GroupsAreValid(sender.known, d, 0);
    var serialized: Bytes := [SEALED_SENDER_V2_SERVICE_ID_FULL_VERSION];
    serialized := serialized + EncodeVarint(|groups| + |excluded|);
    serialized :- FanOut(suite, sender, d, sessions, groups, parallelism, serialized);
    serialized := ExcludedRecipients(excluded, serialized);
    return Ok(serialized + shared);
  }
}
