/** Sealed Sender v2 end to end: what the parser makes of the encoder's output, and what each
    recipient makes of its part of it. */
module SealedSenderRoundTrip {
  import opened Wrappers
  import opened Bytes
  import opened SealedSenderFormat
  import opened SealedSenderKem
  import opened SealedSenderEncoder

  // ------------------------------------------------------- what a list of destinations says

  /** The service id a destination's name stands for, and its device. */
  function IdOf(suite: Suite, address: ProtocolAddress): ServiceId {
    match suite.parseName(address.name)
    case Some(id) => id
    case None => Aci(seq(16, _ => 0))
  }

  function DeviceOf(address: ProtocolAddress, session: Option<u32>): Device {
    Device(address.deviceId, if ValidSession(session) then session.value else 0)
  }

  function Ids(suite: Suite, d: seq<ProtocolAddress>): (r: seq<ServiceId>)
    ensures |r| == |d|
  {
    seq(|d|, i requires 0 <= i < |d| => IdOf(suite, d[i]))
  }

  function Devices(d: seq<ProtocolAddress>, sessions: seq<Option<u32>>): (r: seq<Device>)
    requires |d| == |sessions|
    ensures |r| == |d|
  {
    seq(|d|, i requires 0 <= i < |d| => DeviceOf(d[i], sessions[i]))
  }

  /** The distinct ids in order of first appearance. */
  function FirstAppearances(ids: seq<ServiceId>): seq<ServiceId> {
    if ids == [] then []
    else
      var (before, last) := (ids[..|ids| - 1], ids[|ids| - 1]);
      if last in before then FirstAppearances(before) else FirstAppearances(before) + [last]
  }

  /** The devices of one id, in order. */
  function DevicesFor(ids: seq<ServiceId>, devices: seq<Device>, id: ServiceId): seq<Device>
    requires |ids| == |devices|
  {
    if ids == [] then []
    else
      var before := DevicesFor(ids[..|ids| - 1], devices[..|ids| - 1], id);
      if ids[|ids| - 1] == id then before + [devices[|ids| - 1]] else before
  }

  /** Where an id first appears. */
  function FirstIndex(ids: seq<ServiceId>, id: ServiceId): (p: nat)
    requires id in ids
    ensures p < |ids| && ids[p] == id && forall k :: 0 <= k < p ==> ids[k] != id
  {
    if ids[0] == id then 0 else FirstIndex(ids[1..], id) + 1
  }

  lemma {:induction false} FirstAppearancesAre(ids: seq<ServiceId>, id: ServiceId)
    ensures id in FirstAppearances(ids) <==> id in ids
    ensures forall i, j :: 0 <= i < j < |FirstAppearances(ids)| ==> FirstAppearances(ids)[i] != FirstAppearances(ids)[j]
    decreases |ids|
  {
    if ids != [] {
      var (before, last) := (ids[..|ids| - 1], ids[|ids| - 1]);
      assert ids == before + [last];
      FirstAppearancesAre(before, id);
      FirstAppearancesAre(before, last);
    }
  }

  /** One more stretch of a single id. */
  lemma {:induction false} StretchAppears(ids: seq<ServiceId>, x: ServiceId, n: nat)
    requires n > 0
    ensures FirstAppearances(ids + seq(n, _ => x)) ==
              if x in ids then FirstAppearances(ids) else FirstAppearances(ids) + [x]
  {
    var longer := ids + seq(n, _ => x);
    assert longer[..|longer| - 1] == ids + seq(n - 1, _ => x);
    if n == 1 {
      assert ids + seq(0, _ => x) == ids;
    } else {
      StretchAppears(ids, x, n - 1);
      assert (ids + seq(n - 1, _ => x))[|ids|] == x;
    }
  }

  lemma {:induction false} StretchDevices(ids: seq<ServiceId>, devices: seq<Device>, x: ServiceId, more: seq<Device>,
                                          id: ServiceId)
    requires |ids| == |devices|
    ensures DevicesFor(ids + seq(|more|, _ => x), devices + more, id)
         == DevicesFor(ids, devices, id) + (if id == x then more else [])
    decreases |more|
  {
    if more == [] {
      assert ids + seq(0, _ => x) == ids && devices + [] == devices;
    } else {
      var n := |more| - 1;
      var (longer, all) := (ids + seq(|more|, _ => x), devices + more);
      assert longer[..|longer| - 1] == ids + seq(n, _ => x) && all[..|all| - 1] == devices + more[..n];
      StretchDevices(ids, devices, x, more[..n], id);
      assert more == more[..n] + [more[n]];
    }
  }

  lemma {:induction false} AbsentHasNoDevices(ids: seq<ServiceId>, devices: seq<Device>, id: ServiceId)
    requires |ids| == |devices|
    ensures DevicesFor(ids, devices, id) == [] <==> id !in ids
  {
    if ids != [] {
      AbsentHasNoDevices(ids[..|ids| - 1], devices[..|ids| - 1], id);
      assert ids == ids[..|ids| - 1] + [ids[|ids| - 1]];
    }
  }

  // ------------------------------------------------------- entries and their bytes

  /** A recipient entry with its key material; one without devices has none. */
  datatype Entry = Entry(id: ServiceId, devices: seq<Device>, keys: Bytes)

  predicate WellFormed(e: Entry) {
    if e.devices == [] then e.keys == [] else |e.keys| == MESSAGE_KEY_LEN + AUTH_TAG_LEN
  }

  function EntryBytes(e: Entry): Bytes {
    FixedWidth(e.id) + (if e.devices == [] then [0] else DeviceList(e.devices)) + e.keys
  }

  function EntriesBytes(es: seq<Entry>): Bytes {
    if es == [] then [] else EntryBytes(es[0]) + EntriesBytes(es[1..])
  }

  ghost predicate Holds(data: Bytes, pos: nat, piece: Bytes) {
    pos + |piece| <= |data| && data[pos..pos + |piece|] == piece
  }

  lemma HoldsParts(data: Bytes, pos: nat, a: Bytes, b: Bytes)
    requires Holds(data, pos, a + b)
    ensures Holds(data, pos, a) && Holds(data, pos + |a|, b)
  {
    assert data[pos..pos + |a|] == (a + b)[..|a|];
    assert data[pos + |a|..pos + |a| + |b|] == (a + b)[|a|..];
  }

  lemma HoldsAt(data: Bytes, pos: nat, piece: Bytes, i: nat)
    requires Holds(data, pos, piece) && i < |piece|
    ensures data[pos + i] == piece[i]
  {
    assert data[pos..pos + |piece|][i] == piece[i];
  }

  /** A device list is read back, exactly to its end. */
  lemma {:induction false} DevicesAreRead(data: Bytes, pos: nat, devices: seq<Device>, before: seq<Device>)
    requires devices != [] && Holds(data, pos, DeviceList(devices))
    ensures ParseDevices(data, pos, before) == Ok((before + devices, pos + 3 * |devices|))
    decreases |devices|
  {
    var entry := DeviceEntry(devices[0], |devices| > 1);
    HoldsParts(data, pos, entry, DeviceList(devices[1..]));
    HoldsAt(data, pos, entry, 0);
    HoldsAt(data, pos, entry, 1);
    HoldsAt(data, pos, entry, 2);
    EntryIsRead(devices[0], |devices| > 1);
    if |devices| > 1 {
      DevicesAreRead(data, pos + 3, devices[1..], before + [devices[0]]);
      assert before + [devices[0]] + devices[1..] == before + devices;
    } else {
      assert before + [devices[0]] == before + devices;
    }
  }

  lemma EntryIsRead(device: Device, hasMore: bool)
    ensures var e := DeviceEntry(device, hasMore);
      e[0] == device.id && FromBigEndian16(e[1], e[2]) % 0x4000 == device.registrationId
      && (FromBigEndian16(e[1], e[2]) >= 0x8000 <==> hasMore)
  {
  }

  lemma IdIsRead(data: Bytes, pos: nat, id: ServiceId)
    requires Holds(data, pos, FixedWidth(id))
    ensures ParseServiceId(data, SEALED_SENDER_V2_SERVICE_ID_FULL_VERSION, pos) == Ok((id, pos + 17))
  {
    assert FixedWidth(id)[1..] == id.uuid;
  }

  /** One entry is read back: its id, its devices, and a slice that holds its keys. */
  lemma RecipientIsRead(data: Bytes, pos: nat, e: Entry)
    requires WellFormed(e) && Holds(data, pos, EntryBytes(e))
    ensures var r := ParseRecipient(data, SEALED_SENDER_V2_SERVICE_ID_FULL_VERSION, pos);
      r.Ok? && r.value.0 == e.id && r.value.1.devices == e.devices && r.value.2 == pos + |EntryBytes(e)|
      && Holds(data, r.value.1.keys.offset, e.keys) && r.value.1.keys.length == |e.keys|
  {
    hide Holds, FixedWidth, ParseDevices, ParseServiceId;
    if e.devices == [] {
      EmptyIsRead(data, pos, e);
    } else {
      var (id, list) := (FixedWidth(e.id), DeviceList(e.devices));
      assert EntryBytes(e) == id + list + e.keys;
      HoldsParts(data, pos, id + list, e.keys);
      HoldsParts(data, pos, id, list);
      IdIsRead(data, pos, e.id);
      DevicesAreRead(data, pos + 17, e.devices, []);
      HoldsFits(data, pos + 17 + |list|, e.keys);
      assert [] + e.devices == e.devices;
    }
  }

  lemma EmptyIsRead(data: Bytes, pos: nat, e: Entry)
    requires WellFormed(e) && e.devices == [] && Holds(data, pos, EntryBytes(e))
    ensures ParseRecipient(data, SEALED_SENDER_V2_SERVICE_ID_FULL_VERSION, pos)
         == Ok((e.id, Recipient([], Slice(0, 0)), pos + |EntryBytes(e)|))
    ensures Holds(data, 0, e.keys)
  {
    hide Holds, FixedWidth, ParseServiceId;
    assert EntryBytes(e) == FixedWidth(e.id) + [0];
    HoldsParts(data, pos, FixedWidth(e.id), [0]);
    IdIsRead(data, pos, e.id);
    HoldsFits(data, pos + 17, [0]);
    HoldsAt(data, pos + 17, [0], 0);
    HoldsNothing(data);
  }

  lemma HoldsFits(data: Bytes, pos: nat, piece: Bytes)
    requires Holds(data, pos, piece)
    ensures pos + |piece| <= |data|
  {
  }

  lemma HoldsNothing(data: Bytes)
    ensures Holds(data, 0, [])
  {
  }

  // ------------------------------------------------------- merging

  function FindEntry(merged: seq<Entry>, id: ServiceId): (r: Option<nat>)
    ensures r.None? <==> forall k :: 0 <= k < |merged| ==> merged[k].id != id
    ensures r.Some? ==> r.value < |merged| && merged[r.value].id == id
                        && forall k :: 0 <= k < r.value ==> merged[k].id != id
  {
    if merged == [] then None
    else if merged[0].id == id then Some(0)
    else match FindEntry(merged[1..], id)
      case None => None
      case Some(k) =>
        assert merged[k + 1] == merged[1..][k];
        Some(k + 1)
  }

  /** What the parser's map does, on entries instead of slices. */
  function Merge(merged: seq<Entry>, e: Entry): Result<seq<Entry>> {
    match FindEntry(merged, e.id)
    case None => Ok(merged + [e])
    case Some(k) =>
      if merged[k].devices == [] || e.devices == [] then Err(InvalidSealedSenderMessage)
      else Ok(merged[k := merged[k].(devices := merged[k].devices + e.devices)])
  }

  function MergeAll(merged: seq<Entry>, es: seq<Entry>): Result<seq<Entry>>
    decreases |es|
  {
    if es == [] then Ok(merged)
    else
      var next :- Merge(merged, es[0]);
      MergeAll(next, es[1..])
  }

  /** The parsed recipients are these entries, their key slices holding the entries' keys. */
  ghost predicate Reads(data: Bytes, recipients: Recipients, merged: seq<Entry>) {
    && |recipients| == |merged|
    && forall k :: 0 <= k < |merged| ==>
         recipients[k].0 == merged[k].id && recipients[k].1.devices == merged[k].devices
         && recipients[k].1.keys.length == |merged[k].keys| && Holds(data, recipients[k].1.keys.offset, merged[k].keys)
  }

  lemma AddReads(data: Bytes, recipients: Recipients, merged: seq<Entry>, r: Recipient, e: Entry)
    requires Reads(data, recipients, merged) && r.devices == e.devices
    requires r.keys.length == |e.keys| && Holds(data, r.keys.offset, e.keys)
    ensures match Merge(merged, e)
      case Err(error) => Add(recipients, e.id, r) == Err(error)
      case Ok(next) => Add(recipients, e.id, r).Ok? && Reads(data, Add(recipients, e.id, r).value, next)
  {
    hide Holds, Find, FindEntry;
    assert Find(recipients, e.id) == FindEntry(merged, e.id) by {
      if Find(recipients, e.id).Some? {
        assert merged[Find(recipients, e.id).value].id == e.id;
      }
      if FindEntry(merged, e.id).Some? {
        assert recipients[FindEntry(merged, e.id).value].0 == e.id;
      }
    }
  }

  /** The parser on well-formed entries does what merging them does. */
  lemma {:induction false} EntriesAreRead(data: Bytes, pos: nat, es: seq<Entry>, recipients: Recipients,
                                          merged: seq<Entry>)
    requires (forall i :: 0 <= i < |es| ==> WellFormed(es[i])) && Holds(data, pos, EntriesBytes(es))
             && Reads(data, recipients, merged)
    requires pos <= |data|
    ensures var r := ParseRecipients(data, SEALED_SENDER_V2_SERVICE_ID_FULL_VERSION, pos, |es|, recipients);
      match MergeAll(merged, es)
      case Err(error) => r == Err(error)
      case Ok(all) => r.Ok? && r.value.1 == pos + |EntriesBytes(es)| && Reads(data, r.value.0, all)
    decreases |es|
  {
    hide Reads, Merge, Add, ParseRecipient, WellFormed, EntryBytes, Holds;
    if es != [] {
      var e := es[0];
      HoldsParts(data, pos, EntryBytes(e), EntriesBytes(es[1..]));
      RecipientIsRead(data, pos, e);
      var (_, r, next) := ParseRecipient(data, SEALED_SENDER_V2_SERVICE_ID_FULL_VERSION, pos).value;
      AddReads(data, recipients, merged, r, e);
      if Merge(merged, e).Ok? {
        EntriesAreRead(data, next, es[1..], Add(recipients, e.id, r).value, Merge(merged, e).value);
      }
    }
  }

  lemma {:induction false} MergeAllSplits(merged: seq<Entry>, a: seq<Entry>, b: seq<Entry>)
    ensures MergeAll(merged, a + b) == match MergeAll(merged, a)
      case Err(e) => Err(e)
      case Ok(all) => MergeAll(all, b)
    decreases |a|
  {
    hide Merge;
    if a == [] {
      assert a + b == b;
    } else {
      assert (a + b)[0] == a[0] && (a + b)[1..] == a[1..] + b;
      if Merge(merged, a[0]).Ok? {
        MergeAllSplits(Merge(merged, a[0]).value, a[1..], b);
      }
    }
  }

  // ------------------------------------------------------- the encoder's entries

  function EntryOf(suite: Suite, sender: Sender, d: seq<ProtocolAddress>, sessions: seq<Option<u32>>, g: Group): Entry
    requires |d| == |sessions| && g.start < g.end <= |d|
  {
    Entry(IdOf(suite, d[g.start]), Devices(d, sessions)[g.start..g.end],
          KeyMaterial(suite, sender.identity, sender.messageKey, g.identity))
  }

  function EntriesOf(suite: Suite, sender: Sender, d: seq<ProtocolAddress>, sessions: seq<Option<u32>>,
                     groups: seq<Group>): (r: seq<Entry>)
    requires |d| == |sessions| && ValidGroups(d, groups)
    ensures |r| == |groups| && forall i :: 0 <= i < |r| ==> WellFormed(r[i])
  {
    if groups == [] then []
    else [EntryOf(suite, sender, d, sessions, groups[0])] + EntriesOf(suite, sender, d, sessions, groups[1..])
  }

  function ExcludedEntries(excluded: seq<ServiceId>): (r: seq<Entry>)
    ensures |r| == |excluded| && forall i :: 0 <= i < |r| ==> WellFormed(r[i]) && r[i] == Entry(excluded[i], [], [])
  {
    seq(|excluded|, i requires 0 <= i < |excluded| => Entry(excluded[i], [], []))
  }

  /** The devices of a group, exactly when all its sessions are valid. */
  lemma {:induction false} GroupDevicesAre(d: seq<ProtocolAddress>, sessions: seq<Option<u32>>, i: nat, end: nat)
    requires i <= end <= |d| == |sessions|
    ensures var r := GroupDevices(d, sessions, i, end);
      (r.Ok? <==> forall k :: i <= k < end ==> ValidSession(sessions[k]))
      && (r.Ok? ==> r.value == Devices(d, sessions)[i..end])
    decreases end - i
  {
    if i < end {
      GroupDevicesAre(d, sessions, i + 1, end);
      assert Devices(d, sessions)[i..end] == [Devices(d, sessions)[i]] + Devices(d, sessions)[i + 1..end];
    }
  }

  lemma GroupIsEntry(suite: Suite, sender: Sender, d: seq<ProtocolAddress>, sessions: seq<Option<u32>>, g: Group)
    requires |d| == |sessions| && g.start < g.end <= |d| && GroupBytes(suite, sender, d, sessions, g).Ok?
    ensures GroupBytes(suite, sender, d, sessions, g).value == EntryBytes(EntryOf(suite, sender, d, sessions, g))
  {
    hide KeyMaterial, Devices;
    GroupDevicesAre(d, sessions, g.start, g.end);
  }

  lemma {:induction false} GroupsAreEntries(suite: Suite, sender: Sender, d: seq<ProtocolAddress>,
                                            sessions: seq<Option<u32>>, groups: seq<Group>)
    requires |d| == |sessions| && ValidGroups(d, groups) && GroupsBytes(suite, sender, d, sessions, groups).Ok?
    ensures GroupsBytes(suite, sender, d, sessions, groups).value ==
              EntriesBytes(EntriesOf(suite, sender, d, sessions, groups))
    decreases |groups|
  {
    hide GroupBytes, EntryBytes, EntryOf;
    if groups != [] {
      GroupIsEntry(suite, sender, d, sessions, groups[0]);
      GroupsAreEntries(suite, sender, d, sessions, groups[1..]);
    }
  }

  lemma {:induction false} ExcludedAreEntries(excluded: seq<ServiceId>)
    ensures Excluded(excluded) == EntriesBytes(ExcludedEntries(excluded))
  {
    if excluded != [] {
      ExcludedAreEntries(excluded[1..]);
      assert ExcludedEntries(excluded)[1..] == ExcludedEntries(excluded[1..]);
      assert EntryBytes(ExcludedEntries(excluded)[0]) == FixedWidth(excluded[0]) + [0];
    }
  }

  lemma {:induction false} EntriesBytesJoin(a: seq<Entry>, b: seq<Entry>)
    ensures EntriesBytes(a + b) == EntriesBytes(a) + EntriesBytes(b)
  {
    hide EntryBytes;
    if a == [] {
      assert a + b == b;
    } else {
      assert (a + b)[0] == a[0] && (a + b)[1..] == a[1..] + b;
      EntriesBytesJoin(a[1..], b);
    }
  }

  // ------------------------------------------------------- merging the encoder's entries

  /** An entry says of its id what the first `n` destinations say: all its devices in order, and the
      key material for the identity known for the first of them. */
  ghost predicate RightEntry(suite: Suite, sender: Sender, d: seq<ProtocolAddress>, sessions: seq<Option<u32>>, n: nat,
                             e: Entry) {
    && n <= |d| == |sessions|
    && e.id in Ids(suite, d)[..n]
    && e.devices == DevicesFor(Ids(suite, d)[..n], Devices(d, sessions)[..n], e.id)
    && d[FirstIndex(Ids(suite, d)[..n], e.id)] in sender.known
    && e.keys == KeyMaterial(suite, sender.identity, sender.messageKey,
                             sender.known[d[FirstIndex(Ids(suite, d)[..n], e.id)]])
  }

  ghost predicate MergedRight(suite: Suite, sender: Sender, d: seq<ProtocolAddress>, sessions: seq<Option<u32>>,
                              n: nat, merged: seq<Entry>) {
    && n <= |d| == |sessions|
    && |merged| == |FirstAppearances(Ids(suite, d)[..n])|
    && forall k :: 0 <= k < |merged| ==>
         merged[k].id == FirstAppearances(Ids(suite, d)[..n])[k] && RightEntry(suite, sender, d, sessions, n, merged[k])
  }

  /** A group is a stretch of one id. */
  lemma GroupIsStretch(suite: Suite, d: seq<ProtocolAddress>, sessions: seq<Option<u32>>, start: nat, end: nat)
    requires start < end <= |d| == |sessions| && forall i :: start <= i < end ==> d[i].name == d[start].name
    ensures Ids(suite, d)[..end] == Ids(suite, d)[..start] + seq(end - start, _ => IdOf(suite, d[start]))
    ensures Devices(d, sessions)[..end] == Devices(d, sessions)[..start] + Devices(d, sessions)[start..end]
  {
    forall i | start <= i < end
      ensures Ids(suite, d)[i] == IdOf(suite, d[start])
    {
      assert d[i].name == d[start].name;
    }
  }

  lemma FirstIndexStays(ids: seq<ServiceId>, more: seq<ServiceId>, id: ServiceId)
    requires id in ids + more
    ensures id in ids ==> FirstIndex(ids + more, id) == FirstIndex(ids, id)
    ensures id !in ids ==> FirstIndex(ids + more, id) >= |ids|
    ensures id !in ids && more[0] == id ==> FirstIndex(ids + more, id) == |ids|
  {
    var p := FirstIndex(ids + more, id);
    if id in ids {
      var q := FirstIndex(ids, id);
      assert (ids + more)[q] == id;
    } else if more[0] == id {
      assert (ids + more)[|ids|] == id;
    }
  }

  /** What a right entry becomes when a group is added: for another id nothing changes; for the
      group's id its devices are added. */
  lemma RightEntryGrows(suite: Suite, sender: Sender, d: seq<ProtocolAddress>, sessions: seq<Option<u32>>, g: Group,
                        e: Entry)
    requires g.start < g.end <= |d| == |sessions| && forall i :: g.start <= i < g.end ==> d[i].name == d[g.start].name
    requires RightEntry(suite, sender, d, sessions, g.start, e)
    ensures RightEntry(suite, sender, d, sessions, g.end,
              if e.id == IdOf(suite, d[g.start]) then e.(devices := e.devices + Devices(d, sessions)[g.start..g.end])
              else e)
  {
    hide KeyMaterial, IdOf, DeviceOf, FirstIndex;
    var (ids, x) := (Ids(suite, d), IdOf(suite, d[g.start]));
    GroupIsStretch(suite, d, sessions, g.start, g.end);
    StretchDevices(ids[..g.start], Devices(d, sessions)[..g.start], x, Devices(d, sessions)[g.start..g.end], e.id);
    FirstIndexStays(ids[..g.start], seq(g.end - g.start, _ => x), e.id);
  }

  lemma NewIdIsFirst(ids: seq<ServiceId>, n: nat, id: ServiceId)
    requires n > 0 && id !in ids
    ensures var longer := ids + seq(n, _ => id);
      id in longer && FirstIndex(longer, id) == |ids|
  {
    hide FirstIndex;
    var more := seq(n, _ => id);
    assert more[0] == id && (ids + more)[|ids|] == id;
    FirstIndexStays(ids, more, id);
  }

  lemma NewEntryIsRight(suite: Suite, sender: Sender, d: seq<ProtocolAddress>, sessions: seq<Option<u32>>, g: Group)
    requires g.start < g.end <= |d| == |sessions| && forall i :: g.start <= i < g.end ==> d[i].name == d[g.start].name
    requires IdOf(suite, d[g.start]) !in Ids(suite, d)[..g.start]
    requires d[g.start] in sender.known && g.identity == sender.known[d[g.start]]
    ensures RightEntry(suite, sender, d, sessions, g.end, EntryOf(suite, sender, d, sessions, g))
  {
    hide KeyMaterial, IdOf, DeviceOf, FirstIndex, DevicesFor, Ids, Devices;
    var (ids, x) := (Ids(suite, d), IdOf(suite, d[g.start]));
    GroupIsStretch(suite, d, sessions, g.start, g.end);
    NewIdIsFirst(ids[..g.start], g.end - g.start, x);
    AbsentHasNoDevices(ids[..g.start], Devices(d, sessions)[..g.start], x);
    StretchDevices(ids[..g.start], Devices(d, sessions)[..g.start], x, Devices(d, sessions)[g.start..g.end], x);
  }

  lemma GroupMerges(suite: Suite, sender: Sender, d: seq<ProtocolAddress>, sessions: seq<Option<u32>>, g: Group,
                    merged: seq<Entry>)
    requires g.start < g.end <= |d| == |sessions| && forall i :: g.start <= i < g.end ==> d[i].name == d[g.start].name
    requires d[g.start] in sender.known && g.identity == sender.known[d[g.start]]
    requires MergedRight(suite, sender, d, sessions, g.start, merged)
    ensures Merge(merged, EntryOf(suite, sender, d, sessions, g)).Ok?
    ensures MergedRight(suite, sender, d, sessions, g.end, Merge(merged, EntryOf(suite, sender, d, sessions, g)).value)
  {
    hide RightEntry, FirstAppearances, KeyMaterial, Ids, Devices, IdOf;
    var (e, before, x) := (EntryOf(suite, sender, d, sessions, g), Ids(suite, d)[..g.start], IdOf(suite, d[g.start]));
    GroupIsStretch(suite, d, sessions, g.start, g.end);
    StretchAppears(before, x, g.end - g.start);
    FirstAppearancesAre(before, x);
    FoundIffAppeared(merged, before, x);
    forall k | 0 <= k < |merged|
      ensures RightEntry(suite, sender, d, sessions, g.end,
                if merged[k].id == x then merged[k].(devices := merged[k].devices + e.devices) else merged[k])
      ensures merged[k].devices != []
    {
      RightEntryGrows(suite, sender, d, sessions, g, merged[k]);
      RightHasDevices(suite, sender, d, sessions, g.start, merged[k]);
    }
    if FindEntry(merged, x).None? {
      NewEntryIsRight(suite, sender, d, sessions, g);
    } else {
      var k := FindEntry(merged, x).value;
      forall j | 0 <= j < |merged| && j != k
        ensures merged[j].id != x
      {
        assert FirstAppearances(before)[j] != FirstAppearances(before)[k];
      }
    }
  }

  lemma RightHasDevices(suite: Suite, sender: Sender, d: seq<ProtocolAddress>, sessions: seq<Option<u32>>, n: nat,
                        e: Entry)
    requires RightEntry(suite, sender, d, sessions, n, e)
    ensures e.devices != []
  {
    AbsentHasNoDevices(Ids(suite, d)[..n], Devices(d, sessions)[..n], e.id);
  }

  lemma FoundIffAppeared(merged: seq<Entry>, ids: seq<ServiceId>, x: ServiceId)
    requires |merged| == |FirstAppearances(ids)|
             && forall k :: 0 <= k < |merged| ==> merged[k].id == FirstAppearances(ids)[k]
    ensures FindEntry(merged, x).Some? <==> x in ids
  {
    FirstAppearancesAre(ids, x);
    if x in ids {
      var k :| 0 <= k < |FirstAppearances(ids)| && FirstAppearances(ids)[k] == x;
      assert merged[k].id == x;
    }
  }

  /** Merging the groups from `start` on makes of what the destinations before said what all say. */
  lemma {:induction false} GroupsMerge(suite: Suite, sender: Sender, d: seq<ProtocolAddress>,
                                       sessions: seq<Option<u32>>,
                                       start: nat, merged: seq<Entry>)
    requires start <= |d| == |sessions| && Groups(sender.known, d, start).Ok?
    requires MergedRight(suite, sender, d, sessions, start, merged)
    ensures ValidGroups(d, Groups(sender.known, d, start).value)
    ensures var r := MergeAll(merged, EntriesOf(suite, sender, d, sessions, Groups(sender.known, d, start).value));
      r.Ok? && MergedRight(suite, sender, d, sessions, |d|, r.value)
    decreases |d| - start
  {
    hide MergedRight, Merge, EntryOf;
    GroupsAreValid(sender.known, d, start);
    if start < |d| {
      var g := Groups(sender.known, d, start).value[0];
      forall i | g.start <= i < g.end
        ensures d[i].name == d[g.start].name
      {
        GroupEndIs(d, start, start + 1, i);
      }
      GroupMerges(suite, sender, d, sessions, g, merged);
      GroupsMerge(suite, sender, d, sessions, g.end, Merge(merged, EntryOf(suite, sender, d, sessions, g)).value);
    }
  }

  /** Excluded ids are new and distinct. */
  ghost predicate ExcludedAnew(ids: seq<ServiceId>, excluded: seq<ServiceId>) {
    && (forall i :: 0 <= i < |excluded| ==> excluded[i] !in ids)
    && forall i, j :: 0 <= i < j < |excluded| ==> excluded[i] != excluded[j]
  }

  function MergedIds(merged: seq<Entry>): (r: seq<ServiceId>)
    ensures |r| == |merged| && forall k :: 0 <= k < |r| ==> r[k] == merged[k].id
  {
    seq(|merged|, k requires 0 <= k < |merged| => merged[k].id)
  }

  lemma ExcludedStep(ids: seq<ServiceId>, excluded: seq<ServiceId>)
    requires excluded != []
    ensures ExcludedAnew(ids, excluded) <==> excluded[0] !in ids && ExcludedAnew(ids + [excluded[0]], excluded[1..])
  {
    var rest := excluded[1..];
    if excluded[0] !in ids && ExcludedAnew(ids + [excluded[0]], rest) {
      forall i | 0 <= i < |excluded|
        ensures excluded[i] !in ids && (i > 0 ==> excluded[i] != excluded[0])
      {
        if i > 0 {
          assert rest[i - 1] !in ids + [excluded[0]];
        }
      }
      forall i, j | 0 <= i < j < |excluded|
        ensures excluded[i] != excluded[j]
      {
        if i > 0 {
          assert rest[i - 1] != rest[j - 1];
        }
      }
    }
  }

  /** Excluded recipients are accepted exactly when they are distinct and none is already there. */
  lemma {:induction false} ExcludedMerge(merged: seq<Entry>, excluded: seq<ServiceId>)
    ensures var r := MergeAll(merged, ExcludedEntries(excluded));
      (if ExcludedAnew(MergedIds(merged), excluded) then r == Ok(merged + ExcludedEntries(excluded))
       else r == Err(InvalidSealedSenderMessage))
    decreases |excluded|
  {
    hide ExcludedAnew, MergedIds;
    if excluded == [] {
      NothingExcluded(MergedIds(merged));
      assert merged + ExcludedEntries(excluded) == merged;
    } else {
      var (e, es) := (Entry(excluded[0], [], []), ExcludedEntries(excluded));
      ExcludedStep(MergedIds(merged), excluded);
      assert es[0] == e && es[1..] == ExcludedEntries(excluded[1..]);
      assert (e.id in MergedIds(merged)) <==> FindEntry(merged, e.id).Some?;
      if FindEntry(merged, e.id).None? {
        ExcludedMerge(merged + [e], excluded[1..]);
        assert MergedIds(merged + [e]) == MergedIds(merged) + [e.id];
        assert merged + [e] + es[1..] == merged + es;
      }
    }
  }

  lemma NothingExcluded(ids: seq<ServiceId>)
    ensures ExcludedAnew(ids, [])
  {
  }

  lemma SameExcluded(a: seq<ServiceId>, b: seq<ServiceId>, excluded: seq<ServiceId>)
    requires forall i :: 0 <= i < |excluded| ==> (excluded[i] in a <==> excluded[i] in b)
    ensures ExcludedAnew(a, excluded) <==> ExcludedAnew(b, excluded)
  {
  }

  // ------------------------------------------------------- the count

  lemma {:induction false} VarintIsRead(n: nat, rest: Bytes, count: nat)
    ensures var r := DecodeVarint(EncodeVarint(n) + rest, count);
      (r.Some? ==> r.value == n) && (|EncodeVarint(n)| + count <= 9 ==> r.Some?)
    decreases n
  {
    if n >= 0x80 {
      VarintIsRead(n / 0x80, rest, count + 1);
      assert (EncodeVarint(n) + rest)[1..] == EncodeVarint(n / 0x80) + rest;
    }
  }

  lemma VarintIsShort(n: nat)
    requires n <= U32_MAX
    ensures |EncodeVarint(n)| <= 5
  {
    assert n / 0x80 / 0x80 / 0x80 / 0x80 < 0x80;
    assert |EncodeVarint(n / 0x80 / 0x80 / 0x80 / 0x80)| == 1;
    assert |EncodeVarint(n / 0x80 / 0x80 / 0x80)| <= 2;
    assert |EncodeVarint(n / 0x80 / 0x80)| <= 3;
    assert |EncodeVarint(n / 0x80)| <= 4;
  }

  lemma CountIsRead(data: Bytes, n: nat, rest: Bytes)
    requires data == [SEALED_SENDER_V2_SERVICE_ID_FULL_VERSION] + EncodeVarint(n) + rest
    ensures ParseCount(data) == if n <= U32_MAX then Ok((n, 1 + |EncodeVarint(n)|)) else Err(InvalidProtobufEncoding)
  {
    hide DecodeVarint, EncodeVarint;
    assert data[1..] == EncodeVarint(n) + rest;
    VarintIsRead(n, rest, 0);
    if n <= U32_MAX {
      VarintIsShort(n);
    }
  }

  // ------------------------------------------------------- end to end

  /** All entries of a sent message. */
  function AllEntries(suite: Suite, sender: Sender, d: seq<ProtocolAddress>, sessions: seq<Option<u32>>,
                      excluded: seq<ServiceId>): seq<Entry>
    requires |d| == |sessions| && Groups(sender.known, d, 0).Ok?
  {
    GroupsAreValid(sender.known, d, 0);
    EntriesOf(suite, sender, d, sessions, Groups(sender.known, d, 0).value) + ExcludedEntries(excluded)
  }

  lemma EncodedIsEntries(suite: Suite, sender: Sender, d: seq<ProtocolAddress>, sessions: seq<Option<u32>>,
                         excluded: seq<ServiceId>,
                         content: Bytes)
    requires Encoded(suite, sender, d, sessions, excluded, content).Ok?
    ensures |d| == |sessions| && Groups(sender.known, d, 0).Ok?
    ensures |AllEntries(suite, sender, d, sessions, excluded)| == |Groups(sender.known, d, 0).value| + |excluded|
    ensures forall i :: 0 <= i < |AllEntries(suite, sender, d, sessions, excluded)| ==>
              WellFormed(AllEntries(suite, sender, d, sessions, excluded)[i])
    ensures Encoded(suite, sender, d, sessions, excluded, content).value
         == [SEALED_SENDER_V2_SERVICE_ID_FULL_VERSION] + EncodeVarint(|Groups(sender.known, d, 0).value| + |excluded|)
            + EntriesBytes(AllEntries(suite, sender, d, sessions, excluded))
                + SharedBytes(suite, sender.messageKey, content)
  {
    hide EncodeVarint, SharedBytes, EntriesOf, EntriesBytes, GroupsBytes, Groups;
    GroupsAreValid(sender.known, d, 0);
    var groups := Groups(sender.known, d, 0).value;
    GroupsAreEntries(suite, sender, d, sessions, groups);
    ExcludedAreEntries(excluded);
    EntriesBytesJoin(EntriesOf(suite, sender, d, sessions, groups), ExcludedEntries(excluded));
  }

  /** The entries of a message merge exactly when the excluded ids are new and distinct; then they
      merge to one right entry per id, in order of first appearance, and the excluded ones. */
  lemma EntriesMerge(suite: Suite, sender: Sender, d: seq<ProtocolAddress>, sessions: seq<Option<u32>>,
                     excluded: seq<ServiceId>)
      returns (merged: seq<Entry>)
    requires |d| == |sessions| && Groups(sender.known, d, 0).Ok?
    ensures MergedRight(suite, sender, d, sessions, |d|, merged)
    ensures MergeAll([], AllEntries(suite, sender, d, sessions, excluded))
         == if ExcludedAnew(Ids(suite, d), excluded) then Ok(merged + ExcludedEntries(excluded))
            else Err(InvalidSealedSenderMessage)
  {
    hide MergeAll, RightEntry, EntriesOf, Groups, ExcludedAnew;
    assert Ids(suite, d)[..0] == [];
    assert MergedRight(suite, sender, d, sessions, 0, []);
    GroupsMerge(suite, sender, d, sessions, 0, []);
    var entries := EntriesOf(suite, sender, d, sessions, Groups(sender.known, d, 0).value);
    merged := MergeAll([], entries).value;
    MergeAllSplits([], entries, ExcludedEntries(excluded));
    ExcludedMerge(merged, excluded);
    assert Ids(suite, d)[..|d|] == Ids(suite, d);
    forall i | 0 <= i < |excluded|
      ensures excluded[i] in MergedIds(merged) <==> excluded[i] in Ids(suite, d)
    {
      FirstAppearancesAre(Ids(suite, d), excluded[i]);
      SameMembers(merged, FirstAppearances(Ids(suite, d)), excluded[i]);
    }
    SameExcluded(MergedIds(merged), Ids(suite, d), excluded);
  }

  lemma SameMembers(merged: seq<Entry>, ids: seq<ServiceId>, id: ServiceId)
    requires |merged| == |ids| && forall k :: 0 <= k < |merged| ==> merged[k].id == ids[k]
    ensures id in MergedIds(merged) <==> id in ids
  {
    assert MergedIds(merged) == ids;
  }

  /** The parser reads the encoder's output exactly when the count fits 32 bits and the excluded ids
      are new and distinct; what it reads are the merged entries, and the shared bytes follow. */
  lemma EncodedIsRead(suite: Suite, sender: Sender, d: seq<ProtocolAddress>, sessions: seq<Option<u32>>,
                      excluded: seq<ServiceId>,
                      content: Bytes) returns (merged: seq<Entry>)
    requires Encoded(suite, sender, d, sessions, excluded, content).Ok?
    ensures |d| == |sessions| && Groups(sender.known, d, 0).Ok?
    ensures MergedRight(suite, sender, d, sessions, |d|, merged)
    ensures var data := Encoded(suite, sender, d, sessions, excluded, content).value;
      (Parse(data).Ok? <==>
         |Groups(sender.known, d, 0).value| + |excluded| <= U32_MAX && ExcludedAnew(Ids(suite, d), excluded))
      && (Parse(data).Ok? ==> Reads(data, Parse(data).value.recipients, merged + ExcludedEntries(excluded))
                              && Parse(data).value.sharedOffset <= |data| && Parse(data).value.fullMessage == data
                              && data[Parse(data).value.sharedOffset..]
                                 == SharedBytes(suite, sender.messageKey, content))
  {
    hide EncodeVarint, EntriesBytes, Encoded, MergeAll, Groups, AllEntries, MergedRight, ExcludedAnew, ParseCount,
         ParseRecipients, Reads;
    EncodedIsEntries(suite, sender, d, sessions, excluded, content);
    merged := EntriesMerge(suite, sender, d, sessions, excluded);
    var (data, es) := (Encoded(suite, sender, d, sessions, excluded, content).value,
                       AllEntries(suite, sender, d, sessions, excluded));
    var (head, shared) := ([SEALED_SENDER_V2_SERVICE_ID_FULL_VERSION] + EncodeVarint(|es|),
                           SharedBytes(suite, sender.messageKey, content));
    assert data == [SEALED_SENDER_V2_SERVICE_ID_FULL_VERSION] + EncodeVarint(|es|) + (EntriesBytes(es) + shared);
    CountIsRead(data, |es|, EntriesBytes(es) + shared);
    assert data[|head|..|head| + |EntriesBytes(es)|] == EntriesBytes(es);
    NothingRead(data);
    EntriesAreRead(data, |head|, es, [], []);
    assert data[|head| + |EntriesBytes(es)|..] == shared;
  }

  lemma NothingRead(data: Bytes)
    ensures Reads(data, [], [])
  {
  }

  /** Parsing undoes encoding. For any destinations: the parser accepts the output exactly when the
      number of entries fits 32 bits and the excluded ids are distinct and none of them a
      destination; it then lists every destination id in order of first appearance, each with
      exactly its devices and registration ids in order, and after them the excluded ids with
      none. */
  lemma ParseUndoesEncode(suite: Suite, sender: Sender, d: seq<ProtocolAddress>, sessions: seq<Option<u32>>,
                          excluded: seq<ServiceId>,
                          content: Bytes, k: nat)
    requires Encoded(suite, sender, d, sessions, excluded, content).Ok?
    ensures |d| == |sessions| && Groups(sender.known, d, 0).Ok?
    ensures var r := Parse(Encoded(suite, sender, d, sessions, excluded, content).value);
      (r.Ok? <==> |Groups(sender.known, d, 0).value| + |excluded| <= U32_MAX && ExcludedAnew(Ids(suite, d), excluded))
      && (r.Ok? ==>
            var (ids, found) := (FirstAppearances(Ids(suite, d)), r.value.recipients);
            |found| == |ids| + |excluded|
            && (k < |ids| ==> found[k].0 == ids[k]
                              && found[k].1.devices == DevicesFor(Ids(suite, d), Devices(d, sessions), ids[k]))
            && (|ids| <= k < |found| ==> found[k].0 == excluded[k - |ids|] && found[k].1.devices == []))
  {
    hide Encoded, Parse, Groups, ExcludedAnew, FirstAppearances, DevicesFor, Holds;
    var merged := EncodedIsRead(suite, sender, d, sessions, excluded, content);
    assert Ids(suite, d)[..|d|] == Ids(suite, d) && Devices(d, sessions)[..|d|] == Devices(d, sessions);
  }

  /** And every recipient can read it: the message extracted for a destination id is decrypted, with
      the private key of the identity known for the first destination of that id, to the content
      that was encrypted, when the content's certificate carries the sender's identity key and,
      short of a collision of tags, only then. */
  lemma RecipientsDecrypt(suite: Suite, sender: Sender, d: seq<ProtocolAddress>, sessions: seq<Option<u32>>,
                          excluded: seq<ServiceId>,
                          content: Bytes, k: nat, ours: Key)
    requires Lawful(suite) && Encoded(suite, sender, d, sessions, excluded, content).Ok?
    requires Parse(Encoded(suite, sender, d, sessions, excluded, content).value).Ok?
    requires k < |FirstAppearances(Ids(suite, d))|
    ensures FirstAppearances(Ids(suite, d))[k] in Ids(suite, d)
    ensures var p := FirstIndex(Ids(suite, d), FirstAppearances(Ids(suite, d))[k]);
      d[p] in sender.known
    ensures var m := Parse(Encoded(suite, sender, d, sessions, excluded, content).value).value;
      k < |m.recipients| && m.recipients[k].1.keys.offset + m.recipients[k].1.keys.length <= |m.fullMessage|
      && m.sharedOffset <= |m.fullMessage|
    ensures var m := Parse(Encoded(suite, sender, d, sessions, excluded, content).value).value;
      var p := FirstIndex(Ids(suite, d), FirstAppearances(Ids(suite, d))[k]);
      var r := Deserialize(ReceivedMessage(m, m.recipients[k].1));
      r.Ok? && r.value.V2?
      && (suite.publicKey(ours) == sender.known[d[p]] ==>
            (Decrypted(suite, ours, r.value) == Ok(content) <==>
               suite.sender(content) == Some(suite.publicKey(sender.identity))
               || (suite.sender(content).Some?
                   && TagsCollide(suite, sender.identity, sender.messageKey, ours, suite.sender(content).value))))
  {
    hide Encoded, Parse, Groups, ExcludedAnew, FirstAppearances, DevicesFor, Lawful, TagsCollide, Decrypted,
         KeyMaterial, SharedBytes, Deserialize;
    var merged := EncodedIsRead(suite, sender, d, sessions, excluded, content);
    var m := Parse(Encoded(suite, sender, d, sessions, excluded, content).value).value;
    assert Ids(suite, d)[..|d|] == Ids(suite, d);
    var (e, keys) := (merged[k], m.recipients[k].1.keys);
    assert (merged + ExcludedEntries(excluded))[k] == e;
    var theirs := sender.known[d[FirstIndex(Ids(suite, d), e.id)]];
    assert ReceivedMessage(m, m.recipients[k].1)
        == [SEALED_SENDER_V2_UUID_FULL_VERSION] + KeyMaterial(suite, sender.identity, sender.messageKey, theirs)
           + SharedBytes(suite, sender.messageKey, content);
    ReceivedDeserializes(suite, sender.identity, sender.messageKey, content, theirs);
    if suite.publicKey(ours) == theirs {
      ReceivedDecrypts(suite, sender.identity, sender.messageKey, content, ours);
    }
  }

  lemma ReceivedDeserializes(suite: Suite, identity: Key, m: Key, content: Bytes, theirs: Key)
    ensures var r := Deserialize([SEALED_SENDER_V2_UUID_FULL_VERSION] + KeyMaterial(suite, identity, m, theirs)
                                 + SharedBytes(suite, m, content));
      r.Ok? && r.value.V2?
  {
    hide KeyMaterial;
  }

  // ------------------------------------------------------- when encoding succeeds

  /** The first destination of a run of one name. */
  predicate Starts(d: seq<ProtocolAddress>, i: nat)
    requires i < |d|
  {
    i == 0 || d[i].name != d[i - 1].name
  }

  lemma {:induction false} GroupsSucceedIff(known: map<ProtocolAddress, Key>, d: seq<ProtocolAddress>, start: nat)
    requires start <= |d| && (start < |d| ==> Starts(d, start))
    ensures Groups(known, d, start).Ok? <==> forall i :: start <= i < |d| && Starts(d, i) ==> d[i] in known
    decreases |d| - start
  {
    if start < |d| {
      var end := GroupEnd(d, start, start + 1);
      forall i | start <= i < end
        ensures d[i].name == d[start].name
      {
        GroupEndIs(d, start, start + 1, i);
      }
      GroupEndIs(d, start, start + 1, start);
      assert forall i :: start < i < end ==> !Starts(d, i);
      if end < |d| {
        assert d[end - 1].name == d[start].name;
      }
      GroupsSucceedIff(known, d, end);
    }
  }

  /** A destination that can be encoded: its name is a service id and its session names a 14-bit
      registration id. */
  predicate Encodable(suite: Suite, address: ProtocolAddress, session: Option<u32>) {
    suite.parseName(address.name).Some? && ValidSession(session)
  }

  lemma {:induction false} PassSucceedsIff(suite: Suite, sender: Sender, d: seq<ProtocolAddress>,
                                           sessions: seq<Option<u32>>, start: nat)
    requires start <= |d| == |sessions| && Groups(sender.known, d, start).Ok?
    ensures ValidGroups(d, Groups(sender.known, d, start).value)
    ensures GroupsBytes(suite, sender, d, sessions, Groups(sender.known, d, start).value).Ok?
      <==> forall i :: start <= i < |d| ==> Encodable(suite, d[i], sessions[i])
    decreases |d| - start
  {
    hide KeyMaterial, DeviceList;
    GroupsAreValid(sender.known, d, start);
    if start < |d| {
      var end := GroupEnd(d, start, start + 1);
      forall i | start <= i < end
        ensures d[i].name == d[start].name
      {
        GroupEndIs(d, start, start + 1, i);
      }
      GroupDevicesAre(d, sessions, start, end);
      PassSucceedsIff(suite, sender, d, sessions, end);
      var g := Groups(sender.known, d, start).value[0];
      assert GroupBytes(suite, sender, d, sessions, g).Ok? <==> forall i :: start <= i < end ==>
               Encodable(suite, d[i], sessions[i]) by {
        assert Encodable(suite, d[start], sessions[start]) ==> suite.parseName(d[start].name).Some?;
      }
    }
  }

  /** Encoding succeeds exactly when there is a session for each destination, the first destination
      of every run of one name has a known identity, every name is a service id, and every session
      names a 14-bit registration id. */
  lemma EncodesIff(suite: Suite, sender: Sender, d: seq<ProtocolAddress>, sessions: seq<Option<u32>>,
                   excluded: seq<ServiceId>, content: Bytes)
    ensures Encoded(suite, sender, d, sessions, excluded, content).Ok?
      <==> |d| == |sessions|
           && (forall i :: 0 <= i < |d| && Starts(d, i) ==> d[i] in sender.known)
           && forall i :: 0 <= i < |d| ==> Encodable(suite, d[i], sessions[i])
  {
    hide GroupsBytes, Groups, Encodable, Starts, EncodeVarint, Excluded, SharedBytes;
    if |d| == |sessions| {
      StartStarts(d);
      GroupsSucceedIff(sender.known, d, 0);
      if Groups(sender.known, d, 0).Ok? {
        PassSucceedsIff(suite, sender, d, sessions, 0);
      }
    }
  }

  lemma StartStarts(d: seq<ProtocolAddress>)
    ensures |d| > 0 ==> Starts(d, 0)
  {
  }
}
