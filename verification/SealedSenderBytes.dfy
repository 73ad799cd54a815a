/** The sent message of Sealed Sender v2 byte by byte: what the parser reads at each offset and what the
    encoder writes there (libsignal/rust/protocol/src/sealed_sender.rs:1481-1530, 1640-1750). */
module SealedSenderBytes {
  import opened Wrappers
  import opened Bytes
  import opened Arithmetic
  import opened SealedSenderFormat
  import opened SealedSenderKem
  import opened SealedSenderEncoder

  // ------------------------------------------------------------- devices

  /** At `p` stands an entry of three bytes: the device id, then the registration id, the high byte first,
      with the top bit of the high byte saying that more entries follow. The next bit is unused. */
  predicate DeviceAt(data: Bytes, p: nat, device: Device, more: bool)
    requires p + 3 <= |data|
  {
    && 1 <= data[p] <= 127 && device.id == data[p]
    && device.registrationId == (data[p + 1] % 0x40) as int * 256 + data[p + 2] as int
    && (data[p + 1] >= 0x80 <==> more)
  }

  /** From `pos` to `end` stand the entries of the devices, all but the last announcing more. */
  predicate EntriesAt(data: Bytes, pos: nat, devices: seq<Device>, end: nat) {
    && end == pos + 3 * |devices| <= |data|
    && forall i :: 0 <= i < |devices| ==> DeviceAt(data, pos + 3 * i, devices[i], i < |devices| - 1)
  }

  /** Likewise, where a single zero byte stands for no devices. */
  predicate DevicesAt(data: Bytes, pos: nat, devices: seq<Device>, end: nat) {
    if devices == [] then end == pos + 1 <= |data| && data[pos] == 0 else EntriesAt(data, pos, devices, end)
  }

  lemma EntriesSplit(data: Bytes, pos: nat, devices: seq<Device>, end: nat)
    requires |devices| > 1 && pos + 3 <= |data|
    ensures EntriesAt(data, pos, devices, end)
      <==> DeviceAt(data, pos, devices[0], true) && EntriesAt(data, pos + 3, devices[1..], end)
  {
    hide DeviceAt;
    var rest := devices[1..];
    if EntriesAt(data, pos, devices, end) {
      assert DeviceAt(data, pos + 3 * 0, devices[0], true);
      forall i | 0 <= i < |rest|
        ensures DeviceAt(data, pos + 3 + 3 * i, rest[i], i < |rest| - 1)
      {
        assert DeviceAt(data, pos + 3 * (i + 1), devices[i + 1], i + 1 < |devices| - 1);
      }
    }
    if DeviceAt(data, pos, devices[0], true) && EntriesAt(data, pos + 3, rest, end) {
      forall i | 0 <= i < |devices|
        ensures DeviceAt(data, pos + 3 * i, devices[i], i < |devices| - 1)
      {
        if i > 0 {
          assert DeviceAt(data, pos + 3 + 3 * (i - 1), rest[i - 1], i - 1 < |rest| - 1);
        }
      }
    }
  }

  /** Entries are parsed exactly where they stand. */
  lemma {:induction false} EntriesParse(data: Bytes, pos: nat, devices: seq<Device>, before: seq<Device>, end: nat)
    requires devices != [] && EntriesAt(data, pos, devices, end)
    ensures ParseDevices(data, pos, before) == Ok((before + devices, end))
    decreases |devices|
  {
    assert DeviceAt(data, pos + 3 * 0, devices[0], 0 < |devices| - 1);
    var first := DeviceRead(data, pos);
    if |devices| > 1 {
      EntriesSplit(data, pos, devices, end);
      EntriesParse(data, pos + 3, devices[1..], before + [devices[0]], end);
      assert before + [devices[0]] + devices[1..] == before + devices;
    } else {
      assert devices == [devices[0]];
    }
  }

  /** One step of the device loop, on the bytes. */
  lemma DeviceRead(data: Bytes, pos: nat) returns (device: Device)
    requires pos + 3 <= |data| && 1 <= data[pos] <= 127
    ensures DeviceAt(data, pos, device, data[pos + 1] >= 0x80)
    ensures forall before :: ParseDevices(data, pos, before)
              == if data[pos + 1] >= 0x80 then ParseDevices(data, pos + 3, before + [device])
                 else Ok((before + [device], pos + 3))
  {
    device := Device(data[pos], (data[pos + 1] % 0x40) as int * 256 + data[pos + 2] as int);
    var registration := FromBigEndian16(data[pos + 1], data[pos + 2]);
    assert registration % 0x4000 == device.registrationId;
  }

  lemma {:induction false} ParsedEntries(data: Bytes, pos: nat, before: seq<Device>)
    requires ParseDevices(data, pos, before).Ok? && (before != [] || data[pos] != 0)
    ensures var (all, end) := ParseDevices(data, pos, before).value;
      |before| < |all| && all[..|before|] == before && EntriesAt(data, pos, all[|before|..], end)
    decreases |data| - pos
  {
    var device := DeviceRead(data, pos);
    var (all, end) := ParseDevices(data, pos, before).value;
    if data[pos + 1] >= 0x80 {
      var longer := before + [device];
      ParsedEntries(data, pos + 3, longer);
      assert all[|before|] == all[..|longer|][|before|] == device;
      assert all[|before|..][1..] == all[|longer|..];
      assert all[..|before|] == all[..|longer|][..|before|] == before;
      EntriesSplit(data, pos, all[|before|..], end);
    } else {
      assert all[|before|..] == [device];
    }
  }

  /** The parser accepts a device list at an offset exactly when one stands there, and reads that one. */
  lemma DevicesParseIff(data: Bytes, pos: nat, devices: seq<Device>, end: nat)
    ensures ParseDevices(data, pos, []) == Ok((devices, end)) <==> DevicesAt(data, pos, devices, end)
    ensures ParseDevices(data, pos, []).Err? ==> ParseDevices(data, pos, []).error == InvalidProtobufEncoding
  {
    hide EntriesAt;
    OnlyProtobufError(data, pos, []);
    if ParseDevices(data, pos, []) == Ok((devices, end)) && data[pos] != 0 {
      ParsedEntries(data, pos, []);
      assert devices[0..] == devices;
    }
    if DevicesAt(data, pos, devices, end) && devices != [] {
      EntriesParse(data, pos, devices, [], end);
      assert [] + devices == devices;
    }
  }

  lemma {:induction false} OnlyProtobufError(data: Bytes, pos: nat, before: seq<Device>)
    ensures ParseDevices(data, pos, before).Err? ==> ParseDevices(data, pos, before).error == InvalidProtobufEncoding
    decreases |data| - pos
  {
    if Fits(data, pos, 3) && 1 <= data[pos] <= 127 {
      var device := DeviceRead(data, pos);
      OnlyProtobufError(data, pos + 3, before + [device]);
    }
  }

  // ------------------------------------------------------------- service ids and entries

  /** From `pos` to `end` stands a service id: sixteen bytes of an ACI under the older version, a kind byte and
      sixteen bytes under the newer, 0 for an ACI and 1 for a PNI. */
  predicate ServiceIdAt(data: Bytes, version: byte, pos: nat, id: ServiceId, end: nat) {
    if version == 0x22 then end == pos + 16 <= |data| && id == Aci(data[pos..end])
    else
      && end == pos + 17 <= |data|
      && match data[pos]
         case 0 => id == Aci(data[pos + 1..end])
         case 1 => id == Pni(data[pos + 1..end])
         case _ => false
  }

  lemma ServiceIdParsesIff(data: Bytes, version: byte, pos: nat, id: ServiceId, end: nat)
    ensures ParseServiceId(data, version, pos) == Ok((id, end)) <==> ServiceIdAt(data, version, pos, id, end)
    ensures ParseServiceId(data, version, pos).Err? ==>
      ParseServiceId(data, version, pos).error == InvalidProtobufEncoding
  {
    if pos + 17 <= |data| {
      assert data[pos..pos + 17][1..] == data[pos + 1..pos + 17];
    }
  }

  /** From `pos` to `end` stands an entry: a service id, its devices, and 48 bytes of keys if there are any
      devices. */
  predicate EntryAt(data: Bytes, version: byte, pos: nat, id: ServiceId, recipient: Recipient, end: nat) {
    var afterId := pos + if version == 0x22 then 16 else 17;
    ServiceIdAt(data, version, pos, id, afterId)
    && if recipient.devices == [] then
         DevicesAt(data, afterId, [], end) && recipient.keys == Slice(0, 0)
       else
         DevicesAt(data, afterId, recipient.devices, afterId + 3 * |recipient.devices|)
         && recipient.keys == Slice(afterId + 3 * |recipient.devices|, 48)
         && end == recipient.keys.offset + 48 <= |data|
  }

  /** The parser accepts an entry exactly when one stands there, and reads that one. */
  lemma EntryParsesIff(data: Bytes, version: byte, pos: nat, id: ServiceId, recipient: Recipient, end: nat)
    ensures ParseRecipient(data, version, pos) == Ok((id, recipient, end))
      <==> EntryAt(data, version, pos, id, recipient, end)
    ensures ParseRecipient(data, version, pos).Err? ==>
      ParseRecipient(data, version, pos).error == InvalidProtobufEncoding
  {
    hide ParseServiceId, ParseDevices, ServiceIdAt, EntriesAt;
    var parsedId := ParseServiceId(data, version, pos);
    ServiceIdParsesIff(data, version, pos, id, pos + if version == 0x22 then 16 else 17);
    if parsedId.Ok? {
      ServiceIdParsesIff(data, version, pos, parsedId.value.0, parsedId.value.1);
      IdWidth(data, version, pos, parsedId.value.0, parsedId.value.1);
      var parsed := ParseDevices(data, parsedId.value.1, []);
      DevicesParseIff(data, parsedId.value.1, recipient.devices, end);
      DevicesParseIff(data, parsedId.value.1, recipient.devices, parsedId.value.1 + 3 * |recipient.devices|);
      if parsed.Ok? {
        DevicesParseIff(data, parsedId.value.1, parsed.value.0, parsed.value.1);
        DevicesWidth(data, parsedId.value.1, parsed.value.0, parsed.value.1);
      }
    }
  }

  lemma IdWidth(data: Bytes, version: byte, pos: nat, id: ServiceId, end: nat)
    requires ServiceIdAt(data, version, pos, id, end)
    ensures end == pos + if version == 0x22 then 16 else 17
  {
  }

  lemma DevicesWidth(data: Bytes, pos: nat, devices: seq<Device>, end: nat)
    requires DevicesAt(data, pos, devices, end)
    ensures end == pos + if devices == [] then 1 else 3 * |devices|
  {
  }

  // ------------------------------------------------------------- what the encoder writes

  lemma DeviceWritten(before: Bytes, device: Device, more: bool, after: Bytes)
    ensures DeviceAt(before + DeviceEntry(device, more) + after, |before|, device, more)
  {
    var data, entry := before + DeviceEntry(device, more) + after, DeviceEntry(device, more);
    assert data[|before|] == entry[0] && data[|before| + 1] == entry[1] && data[|before| + 2] == entry[2];
    var v := if more then device.registrationId + 0x8000 else device.registrationId;
    assert entry[1] == v / 0x100 && entry[2] == v % 0x100;
  }

  lemma OneEntry(data: Bytes, pos: nat, device: Device)
    requires pos + 3 <= |data| && DeviceAt(data, pos, device, false)
    ensures EntriesAt(data, pos, [device], pos + 3)
  {
  }

  lemma Regroup(a: Bytes, b: Bytes, c: Bytes, d: Bytes)
    ensures a + (b + c) + d == a + b + (c + d) == a + b + c + d
  {
  }

  lemma FirstWritten(before: Bytes, device: Device, more: bool, rest: Bytes, after: Bytes)
    ensures DeviceAt(before + (DeviceEntry(device, more) + rest) + after, |before|, device, more)
  {
    hide DeviceAt, DeviceEntry;
    Regroup(before, DeviceEntry(device, more), rest, after);
    DeviceWritten(before, device, more, rest + after);
  }

  lemma ListIs(devices: seq<Device>)
    requires devices != []
    ensures DeviceList(devices) == DeviceEntry(devices[0], |devices| > 1) + DeviceList(devices[1..])
  {
  }

  /** The device list is written entry by entry as it is to be read. */
  lemma {:induction false} DevicesWritten(before: Bytes, devices: seq<Device>, after: Bytes)
    requires devices != []
    ensures EntriesAt(before + DeviceList(devices) + after, |before|, devices, |before| + 3 * |devices|)
    decreases |devices|
  {
    hide DeviceAt, EntriesAt, DeviceEntry, DeviceList;
    var data, rest := before + DeviceList(devices) + after, devices[1..];
    ListIs(devices);
    FirstWritten(before, devices[0], |devices| > 1, DeviceList(rest), after);
    if |devices| > 1 {
      var entry := DeviceEntry(devices[0], true);
      DevicesWritten(before + entry, rest, after);
      Regroup(before, entry, DeviceList(rest), after);
      EntriesSplit(data, |before|, devices, |before| + 3 * |devices|);
    } else {
      assert devices == [devices[0]];
      OneEntry(data, |before|, devices[0]);
    }
  }

  lemma IdWritten(before: Bytes, id: ServiceId, after: Bytes)
    ensures ServiceIdAt(before + FixedWidth(id) + after, 0x23, |before|, id, |before| + 17)
  {
    var data := before + FixedWidth(id) + after;
    assert data[|before|..|before| + 17] == FixedWidth(id);
    assert data[|before| + 1..|before| + 17] == FixedWidth(id)[1..] == id.uuid;
  }

  /** What the encoder appends for a group of destinations, at any place of a message: the service id, three
      bytes for each destination in order, and 48 bytes of keys made for the group's identity key. */
  lemma GroupWritten(suite: Suite, sender: Sender, d: seq<ProtocolAddress>, sessions: seq<Option<u32>>, g: Group,
                     before: Bytes, after: Bytes) returns (id: ServiceId, devices: seq<Device>)
    requires |d| == |sessions| && g.start < g.end <= |d| && GroupBytes(suite, sender, d, sessions, g).Ok?
    ensures suite.parseName(d[g.start].name) == Some(id) && |devices| == g.end - g.start
    ensures forall i :: 0 <= i < |devices| ==>
      devices[i].id == d[g.start + i].deviceId && sessions[g.start + i] == Some(devices[i].registrationId)
    ensures var data := before + GroupBytes(suite, sender, d, sessions, g).value + after;
      var keys := |before| + 17 + 3 * |devices|;
      EntryAt(data, 0x23, |before|, id, Recipient(devices, Slice(keys, 48)), keys + 48)
      && data[keys..keys + 48] == KeyMaterial(suite, sender.identity, sender.messageKey, g.identity)
      && data[keys + 48..] == after
  {
    hide KeyMaterial, FixedWidth, DeviceList, ServiceIdAt, EntriesAt;
    id := suite.parseName(d[g.start].name).value;
    devices := GroupDevices(d, sessions, g.start, g.end).value;
    DevicesOfGroup(d, sessions, g.start, g.end);
    var keys := KeyMaterial(suite, sender.identity, sender.messageKey, g.identity);
    var data := before + GroupBytes(suite, sender, d, sessions, g).value + after;
    assert data == before + FixedWidth(id) + (DeviceList(devices) + keys + after);
    IdWritten(before, id, DeviceList(devices) + keys + after);
    assert data == before + FixedWidth(id) + DeviceList(devices) + (keys + after);
    DevicesWritten(before + FixedWidth(id), devices, keys + after);
    assert data == before + FixedWidth(id) + DeviceList(devices) + keys + after;
  }

  /** The sent message starts with the byte 0x23 and the number of groups and excluded recipients, and ends with
      the shared bytes. */
  lemma EncodedIsFramed(suite: Suite, sender: Sender, d: seq<ProtocolAddress>, sessions: seq<Option<u32>>,
                        excluded: seq<ServiceId>, content: Bytes)
    requires Encoded(suite, sender, d, sessions, excluded, content).Ok?
    ensures var data := Encoded(suite, sender, d, sessions, excluded, content).value;
      var shared := SharedBytes(suite, sender.messageKey, content);
      Groups(sender.known, d, 0).Ok?
      && var count := EncodeVarint(|Groups(sender.known, d, 0).value| + |excluded|);
         [0x23] + count <= data && |shared| <= |data| && data[|data| - |shared|..] == shared
  {
    hide EncodeVarint, SharedBytes, GroupsBytes, Groups;
    GroupsAreValid(sender.known, d, 0);
    var (count, shared) := (EncodeVarint(|Groups(sender.known, d, 0).value| + |excluded|),
                            SharedBytes(suite, sender.messageKey, content));
    var recipients := GroupsBytes(suite, sender, d, sessions, Groups(sender.known, d, 0).value).value;
    var data := Encoded(suite, sender, d, sessions, excluded, content).value;
    assert data == [0x23] + count + (recipients + Excluded(excluded) + shared);
    assert data == ([0x23] + count + recipients + Excluded(excluded)) + shared;
  }

  lemma {:induction false} DevicesOfGroup(d: seq<ProtocolAddress>, sessions: seq<Option<u32>>, i: nat, end: nat)
    requires i <= end <= |d| == |sessions| && GroupDevices(d, sessions, i, end).Ok?
    ensures var devices := GroupDevices(d, sessions, i, end).value;
      forall k :: 0 <= k < |devices| ==>
        devices[k].id == d[i + k].deviceId && sessions[i + k] == Some(devices[k].registrationId)
    decreases end - i
  {
    if i < end {
      DevicesOfGroup(d, sessions, i + 1, end);
    }
  }

  // ------------------------------------------------------------- varints

  function Power128(k: nat): (p: nat)
    ensures p > 0
  {
    if k == 0 then 1 else 0x80 * Power128(k - 1)
  }

  /** The low seven bits come first, and the top bit of a byte says that more follow. */
  lemma {:induction false} VarintAt(n: nat, i: nat)
    requires i < |EncodeVarint(n)|
    ensures EncodeVarint(n)[i] % 0x80 == n / Power128(i) % 0x80
    ensures EncodeVarint(n)[i] >= 0x80 <==> i < |EncodeVarint(n)| - 1
  {
    if i > 0 {
      VarintAt(n / 0x80, i - 1);
      DivideTwice(n, 0x80, Power128(i - 1));
    }
  }
}
