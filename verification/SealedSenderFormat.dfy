/** The Sealed Sender v2 sent message: its pieces as bytes and the parser that takes it apart
    (libsignal/rust/protocol/src/sealed_sender.rs:1595-1825). A slice of the message is an offset
    and a length. */
module SealedSenderFormat {
  import opened Wrappers
  import opened Bytes

  const SEALED_SENDER_V2_UUID_FULL_VERSION: byte := 0x22
  const SEALED_SENDER_V2_SERVICE_ID_FULL_VERSION: byte := 0x23
  const MESSAGE_KEY_LEN := 32
  const AUTH_TAG_LEN := 16
  const PUBLIC_KEY_LEN := 32

  type Uuid = b: Bytes | |b| == 16 witness seq(16, _ => 0)

  datatype ServiceId = Aci(uuid: Uuid) | Pni(uuid: Uuid)

  type RegistrationId = x: int | 0 <= x < 0x4000

  datatype Device = Device(id: DeviceId, registrationId: RegistrationId)

  datatype Slice = Slice(offset: nat, length: nat)

  /** `c_and_at`; empty for a recipient without devices. */
  datatype Recipient = Recipient(devices: seq<Device>, keys: Slice)

  type Recipients = seq<(ServiceId, Recipient)>

  datatype SentMessage = SentMessage(fullMessage: Bytes, version: byte, recipients: Recipients, sharedOffset: nat)

  // ------------------------------------------------------------- pieces as bytes

  /** `service_id_fixed_width_binary` (libsignal/rust/core/src/address.rs:212-217). */
  function FixedWidth(id: ServiceId): (r: Bytes)
    ensures |r| == 17
  {
    [if id.Aci? then 0 else 1] + id.uuid
  }

  function FromFixedWidth(b: Bytes): Option<ServiceId>
    requires |b| == 17
  {
    if b[0] == 0 then Some(Aci(b[1..])) else if b[0] == 1 then Some(Pni(b[1..])) else None
  }

  /** A base-128 varint, the low seven bits first. */
  function EncodeVarint(n: nat): (r: Bytes)
    ensures |r| > 0
  {
    if n < 0x80 then [n] else [n % 0x80 + 0x80] + EncodeVarint(n / 0x80)
  }

  /** Read a varint of at most 64 bits, `count` of whose bytes were read before. */
  function DecodeVarint(b: Bytes, count: nat): Option<nat> {
    if count == 10 || b == [] then None
    else if b[0] < 0x80 then if count == 9 && b[0] >= 2 then None else Some(b[0])
    else
      match DecodeVarint(b[1..], count + 1)
      case None => None
      case Some(rest) => Some(b[0] - 0x80 + 0x80 * rest)
  }

  /** A device entry; the high bit of the registration id says that more devices follow. */
  function DeviceEntry(device: Device, hasMore: bool): (r: Bytes)
    ensures |r| == 3
  {
    [device.id] + BigEndian16(if hasMore then device.registrationId + 0x8000 else device.registrationId)
  }

  function DeviceList(devices: seq<Device>): (r: Bytes)
    ensures |r| == 3 * |devices|
  {
    if devices == [] then [] else DeviceEntry(devices[0], |devices| > 1) + DeviceList(devices[1..])
  }

  // ------------------------------------------------------------- the parser

  predicate Fits(data: Bytes, pos: nat, n: nat) {
    pos + n <= |data|
  }

  function ParseServiceId(data: Bytes, version: byte, pos: nat): (r: Result<(ServiceId, nat)>)
    ensures r.Ok? ==> pos < r.value.1 <= |data|
  {
    if version == SEALED_SENDER_V2_UUID_FULL_VERSION then
      if Fits(data, pos, 16) then Ok((Aci(data[pos..pos + 16]), pos + 16)) else Err(InvalidProtobufEncoding)
    else if !Fits(data, pos, 17) then Err(InvalidProtobufEncoding)
    else match FromFixedWidth(data[pos..pos + 17])
      case None => Err(InvalidProtobufEncoding)
      case Some(id) => Ok((id, pos + 17))
  }

  /** The device list at `pos`, after `devices`, and where it ends. */
  function ParseDevices(data: Bytes, pos: nat, devices: seq<Device>): (r: Result<(seq<Device>, nat)>)
    ensures r.Ok? ==> pos < r.value.1 <= |data|
    decreases |data| - pos
  {
    if !Fits(data, pos, 1) then Err(InvalidProtobufEncoding)
    else if data[pos] == 0 then if devices != [] then Err(InvalidProtobufEncoding) else Ok((devices, pos + 1))
    else if data[pos] > MAX_VALID_DEVICE_ID || !Fits(data, pos, 3) then Err(InvalidProtobufEncoding)
    else
      var registration := FromBigEndian16(data[pos + 1], data[pos + 2]);
      var longer := devices + [Device(data[pos], registration % 0x4000)];
      if registration >= 0x8000 then ParseDevices(data, pos + 3, longer) else Ok((longer, pos + 3))
  }

  /** One recipient entry at `pos` and where it ends. */
  function ParseRecipient(data: Bytes, version: byte, pos: nat): (r: Result<(ServiceId, Recipient, nat)>)
    ensures r.Ok? ==> pos < r.value.2 <= |data|
  {
    var (id, afterId) :- ParseServiceId(data, version, pos);
    var (devices, afterDevices) :- ParseDevices(data, afterId, []);
    if devices == [] then Ok((id, Recipient([], Slice(0, 0)), afterDevices))
    else if !Fits(data, afterDevices, MESSAGE_KEY_LEN + AUTH_TAG_LEN) then Err(InvalidProtobufEncoding)
    else Ok((id, Recipient(devices, Slice(afterDevices, MESSAGE_KEY_LEN + AUTH_TAG_LEN)),
             afterDevices + MESSAGE_KEY_LEN + AUTH_TAG_LEN))
  }

  /** Index of a service id in the map. */
  function Find(recipients: Recipients, id: ServiceId): (r: Option<nat>)
    ensures r.None? <==> forall k :: 0 <= k < |recipients| ==> recipients[k].0 != id
    ensures r.Some? ==> r.value < |recipients| && recipients[r.value].0 == id
                        && forall k :: 0 <= k < r.value ==> recipients[k].0 != id
  {
    if recipients == [] then None
    else if recipients[0].0 == id then Some(0)
    else match Find(recipients[1..], id)
      case None => None
      case Some(k) =>
        assert recipients[k + 1] == recipients[1..][k];
        Some(k + 1)
  }

  /** Merge an entry into the map: a repeated recipient gets more devices and keeps its first keys;
      one that is empty here or before may not repeat. */
  function Add(recipients: Recipients, id: ServiceId, r: Recipient): Result<Recipients> {
    match Find(recipients, id)
    case None => Ok(recipients + [(id, r)])
    case Some(k) =>
      var existing := recipients[k].1;
      if existing.devices == [] || r.devices == [] then Err(InvalidSealedSenderMessage)
      else Ok(recipients[k := (id, existing.(devices := existing.devices + r.devices))])
  }

  function ParseRecipients(data: Bytes, version: byte, pos: nat, count: nat,
                           recipients: Recipients): (r: Result<(Recipients, nat)>)
    requires pos <= |data|
    ensures r.Ok? ==> pos <= r.value.1 <= |data|
    decreases count
  {
    if count == 0 then Ok((recipients, pos))
    else
      var (id, recipient, next) :- ParseRecipient(data, version, pos);
      var merged :- Add(recipients, id, recipient);
      ParseRecipients(data, version, next, count - 1, merged)
  }

  /** The recipient count after the version byte. The parser goes on after the canonical encoding of
      the number it read. */
  function ParseCount(data: Bytes): (r: Result<(u32, nat)>)
    requires data != []
    ensures r.Ok? ==> 1 <= r.value.1 <= |data|
  {
    match DecodeVarint(data[1..], 0)
    case None => Err(InvalidProtobufEncoding)
    case Some(n) =>
      CanonicalIsShort(data[1..], 0, n);
      if n > U32_MAX then Err(InvalidProtobufEncoding) else Ok((n, 1 + |EncodeVarint(n)|))
  }

  lemma {:induction false} CanonicalIsShort(b: Bytes, count: nat, n: nat)
    requires DecodeVarint(b, count) == Some(n)
    ensures |EncodeVarint(n)| <= |b|
    decreases |b|
  {
    if b[0] >= 0x80 {
      var rest := DecodeVarint(b[1..], count + 1).value;
      CanonicalIsShort(b[1..], count + 1, rest);
      assert n / 0x80 == rest;
    }
  }

  /** `SealedSenderV2SentMessage::parse`. */
  function Parse(data: Bytes): Result<SentMessage> {
    if data == [] then Err(InvalidSealedSenderMessage)
    else if data[0] != SEALED_SENDER_V2_UUID_FULL_VERSION && data[0] != SEALED_SENDER_V2_SERVICE_ID_FULL_VERSION then
      Err(UnknownSealedSenderVersion)
    else
      var (count, start) :- ParseCount(data);
      var (recipients, end) :- ParseRecipients(data, data[0], start, count, []);
      if |data| - end < PUBLIC_KEY_LEN then Err(InvalidProtobufEncoding)
      else Ok(SentMessage(data, data[0], recipients, end))
  }

  // ------------------------------------------------------------- the parser as it runs

  class Cursor {
    const data: Bytes
    var pos: nat

    constructor (data: Bytes, pos: nat)
      requires pos <= |data|
      ensures this.data == data && this.pos == pos
    {
      this.data, this.pos := data, pos;
    }

    /** `advance::<N>`: the next `n` bytes. */
    method Advance(n: nat) returns (r: Result<Bytes>)
      requires pos <= |data|
      modifies this
      ensures pos <= |data|
      ensures if old(pos) + n <= |data| then r == Ok(data[old(pos)..old(pos) + n]) && pos == old(pos) + n
              else r == Err(InvalidProtobufEncoding) && pos == old(pos)
    {
      if |data| - pos < n {
        return Err(InvalidProtobufEncoding);
      }
      r := Ok(data[pos..pos + n]);
      pos := pos + n;
    }

    method NextServiceId(version: byte) returns (r: Result<ServiceId>)
      requires pos <= |data|
      modifies this
      ensures pos <= |data|
      ensures match ParseServiceId(data, version, old(pos))
        case Ok(p) => r == Ok(p.0) && pos == p.1
        case Err(e) => r == Err(e)
    {
      if version == SEALED_SENDER_V2_UUID_FULL_VERSION {
        var raw :- Advance(16);
        return Ok(Aci(raw));
      }
      var raw :- Advance(17);
      var id := FromFixedWidth(raw);
      return if id.Some? then Ok(id.value) else Err(InvalidProtobufEncoding);
    }

    method NextDevices() returns (r: Result<seq<Device>>)
      requires pos <= |data|
      modifies this
      ensures pos <= |data|
      ensures match ParseDevices(data, old(pos), [])
        case Ok(p) => r == Ok(p.0) && pos == p.1
        case Err(e) => r == Err(e)
    {
      var devices: seq<Device> := [];
      while true
        invariant pos <= |data|
        invariant ParseDevices(data, pos, devices) == ParseDevices(data, old(pos), [])
        decreases |data| - pos
      {
        var id :- Advance(1);
        if id[0] == 0 {
          if devices != [] {
            return Err(InvalidProtobufEncoding);
          }
          return Ok(devices);
        }
        if id[0] > MAX_VALID_DEVICE_ID {
          return Err(InvalidProtobufEncoding);
        }
        var raw :- Advance(2);
        var registration := FromBigEndian16(raw[0], raw[1]);
        devices := devices + [Device(id[0], registration % 0x4000)];
        if registration < 0x8000 {
          return Ok(devices);
        }
      }
    }

    method NextRecipient(version: byte) returns (r: Result<(ServiceId, Recipient)>)
      requires pos <= |data|
      modifies this
      ensures pos <= |data|
      ensures match ParseRecipient(data, version, old(pos))
        case Ok(p) => r == Ok((p.0, p.1)) && pos == p.2
        case Err(e) => r == Err(e)
    {
      hide ParseServiceId, ParseDevices;
      var id :- NextServiceId(version);
      var devices :- NextDevices();
      if devices == [] {
        return Ok((id, Recipient([], Slice(0, 0))));
      }
      var at := pos;
      var _ :- Advance(MESSAGE_KEY_LEN + AUTH_TAG_LEN);
      return Ok((id, Recipient(devices, Slice(at, MESSAGE_KEY_LEN + AUTH_TAG_LEN))));
    }
  }

  method ParseMessage(data: Bytes) returns (r: Result<SentMessage>)
    ensures r == Parse(data)
  {
    hide ParseRecipient, Add, ParseCount;
    if data == [] {
      return Err(InvalidSealedSenderMessage);
    }
    var version := data[0];
    if version != SEALED_SENDER_V2_UUID_FULL_VERSION && version != SEALED_SENDER_V2_SERVICE_ID_FULL_VERSION {
      return Err(UnknownSealedSenderVersion);
    }
    var counted := ParseCount(data);
    if counted.Err? {
      return Err(counted.error);
    }
    var (count, start) := counted.value;
    var cursor := new Cursor(data, start);
    var recipients: Recipients := [];
    for i := 0 to count
      invariant cursor.pos <= |data|
      invariant ParseRecipients(data, version, cursor.pos, count - i, recipients)
             == ParseRecipients(data, version, start, count, [])
    {
      var entry :- cursor.NextRecipient(version);
      recipients :- Add(recipients, entry.0, entry.1);
    }
    if |data| - cursor.pos < PUBLIC_KEY_LEN {
      return Err(InvalidProtobufEncoding);
    }
    return Ok(SentMessage(data, version, recipients, cursor.pos));
  }

  // ------------------------------------------------------------- extraction

  function At(data: Bytes, s: Slice): Bytes
    requires s.offset + s.length <= |data|
  {
    data[s.offset..s.offset + s.length]
  }

  /** `range_for_recipient_key_material`: start and end. */
  function RangeForRecipient(recipient: Recipient): (nat, nat) {
    if recipient.keys.length == 0 then (0, 0)
    else (recipient.keys.offset, recipient.keys.offset + recipient.keys.length)
  }

  /** `received_message_parts_for_recipient`, joined. */
  function ReceivedMessage(message: SentMessage, recipient: Recipient): Bytes
    requires recipient.keys.offset + recipient.keys.length <= |message.fullMessage|
    requires message.sharedOffset <= |message.fullMessage|
  {
    [SEALED_SENDER_V2_UUID_FULL_VERSION] + At(message.fullMessage, recipient.keys)
        + message.fullMessage[message.sharedOffset..]
  }

  // ------------------------------------------------------------- safety

  /** What an accepted entry owns, between the offsets `from` and `to`. */
  ghost predicate Owns(r: Recipient, from: nat, to: nat) {
    if r.devices == [] then r.keys == Slice(0, 0)
    else r.keys.length == MESSAGE_KEY_LEN + AUTH_TAG_LEN && from <= r.keys.offset && r.keys.offset + r.keys.length <= to
  }

  ghost predicate MapSafe(recipients: Recipients, from: nat, to: nat) {
    && (forall i :: 0 <= i < |recipients| ==> Owns(recipients[i].1, from, to))
    && (forall i, j :: 0 <= i < j < |recipients| ==> recipients[i].0 != recipients[j].0)
    && (forall i, j :: 0 <= i < j < |recipients| && recipients[i].1.devices != [] && recipients[j].1.devices != [] ==>
          recipients[i].1.keys.offset + recipients[i].1.keys.length <= recipients[j].1.keys.offset)
  }

  lemma AddIsSafe(recipients: Recipients, id: ServiceId, r: Recipient, from: nat, pos: nat, next: nat)
    requires MapSafe(recipients, from, pos) && Owns(r, pos, next) && from <= pos <= next && Add(recipients, id, r).Ok?
    ensures MapSafe(Add(recipients, id, r).value, from, next)
  {
    hide Find;
    var after := Add(recipients, id, r).value;
    if Find(recipients, id).None? {
      assert forall i :: 0 <= i < |recipients| ==> after[i] == recipients[i];
    }
  }

  lemma {:induction false} RecipientsAreSafe(data: Bytes, version: byte, from: nat, pos: nat, count: nat,
                                             recipients: Recipients)
    requires from <= pos <= |data| && MapSafe(recipients, from, pos)
    requires ParseRecipients(data, version, pos, count, recipients).Ok?
    ensures var p := ParseRecipients(data, version, pos, count, recipients).value;
      MapSafe(p.0, from, p.1) && |p.0| <= |recipients| + count
    decreases count
  {
    hide MapSafe, ParseRecipient, Owns;
    if count > 0 {
      var (id, recipient, next) := ParseRecipient(data, version, pos).value;
      RecipientIsOwned(data, version, pos);
      AddIsSafe(recipients, id, recipient, from, pos, next);
      RecipientsAreSafe(data, version, from, next, count - 1, Add(recipients, id, recipient).value);
    }
  }

  lemma RecipientIsOwned(data: Bytes, version: byte, pos: nat)
    requires ParseRecipient(data, version, pos).Ok?
    ensures Owns(ParseRecipient(data, version, pos).value.1, pos, ParseRecipient(data, version, pos).value.2)
  {
  }

  /** On any bytes: what the parser accepts has distinct recipients; one with devices owns exactly 48
      bytes that end before the shared bytes, no two the same ones and in order of appearance; one
      without owns none; the shared bytes hold at least a public key; and the ranges joined after
      the version byte are the received message. */
  lemma ParseIsSafe(data: Bytes, i: nat, j: nat)
    requires Parse(data).Ok? && i < j <= |Parse(data).value.recipients|
    ensures var m := Parse(data).value;
      var keys := m.recipients[i].1.keys;
      m.fullMessage == data && m.version == data[0] && (data[0] == 0x22 || data[0] == 0x23)
      && keys.offset + keys.length <= m.sharedOffset <= |data|
    ensures var m := Parse(data).value;
      var (id, r) := m.recipients[i];
      var (start, end) := RangeForRecipient(r);
      start <= end <= m.sharedOffset && m.sharedOffset + PUBLIC_KEY_LEN <= |data|
      && end - start == (if r.devices == [] then 0 else 48)
      && ReceivedMessage(m, r) == [0x22] + data[start..end] + data[m.sharedOffset..]
      && (j < |m.recipients| ==>
            id != m.recipients[j].0
            && (r.devices == [] || m.recipients[j].1.devices == [] || end <= RangeForRecipient(m.recipients[j].1).0))
  {
    hide ParseRecipients;
    var (count, start) := ParseCount(data).value;
    RecipientsAreSafe(data, data[0], start, start, count, []);
  }
}
