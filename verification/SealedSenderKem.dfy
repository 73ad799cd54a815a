/** Key encapsulation and decryption of Sealed Sender v2
    (libsignal/rust/protocol/src/sealed_sender.rs:615-685, 1012-1133, 1900-1950). */
module SealedSenderKem {
  import opened Wrappers
  import opened Bytes
  import opened SealedSenderFormat

  type Key = b: Bytes | |b| == 32 witness seq(32, _ => 0)
  type Tag = b: Bytes | |b| == 16 witness seq(16, _ => 0)

  /** The primitives. `dhKdf` and `tagKdf` are HKDF under the labels for the message key and the
      authentication tag, `deriveE` and `deriveK` those of `DerivedKeys`; `seal` and `unseal` are
      AES-GCM-SIV without nonce; `sender` is the identity key in the content's certificate, if
      the content deserializes; `parseName` reads a service id string. */
  datatype Suite = Suite(
    agree: (Key, Key) -> Key,
    publicKey: Key -> Key,
    dhKdf: Bytes -> Key,
    tagKdf: Bytes -> Tag,
    deriveE: Key -> Key,
    deriveK: Key -> Bytes,
    seal: (Bytes, Bytes) -> Bytes,
    unseal: (Bytes, Bytes) -> Option<Bytes>,
    sender: Bytes -> Option<Key>,
    parseName: string -> Option<ServiceId>)

  ghost predicate Lawful(suite: Suite) {
    && (forall a, b :: suite.agree(a, suite.publicKey(b)) == suite.agree(b, suite.publicKey(a)))
    && (forall k, p :: suite.unseal(k, suite.seal(k, p)) == Some(p))
  }

  datatype Direction = Sending | Receiving

  /** `PublicKey::serialize`: a type byte and the key. */
  function Serialize(k: Key): (r: Bytes)
    ensures |r| == 33
  {
    [0x05] + k
  }

  /** The public keys of both ends, the sender's first. */
  function Ends(suite: Suite, ours: Key, theirs: Key, direction: Direction): Bytes {
    match direction
    case Sending => Serialize(suite.publicKey(ours)) + Serialize(theirs)
    case Receiving => Serialize(theirs) + Serialize(suite.publicKey(ours))
  }

  /** What the message key's mask is derived from. */
  function AgreementInput(suite: Suite, ours: Key, theirs: Key, direction: Direction): Bytes {
    suite.agree(ours, theirs) + Ends(suite, ours, theirs, direction)
  }

  function ApplyAgreementXor(suite: Suite, ours: Key, theirs: Key, direction: Direction, input: Key): Key {
    XorBytes(suite.dhKdf(AgreementInput(suite, ours, theirs, direction)), input)
  }

  /** The public keys of sender and recipient. */
  function SenderAndRecipient(suite: Suite, ours: Key, theirs: Key, direction: Direction): (Key, Key) {
    if direction.Sending? then (suite.publicKey(ours), theirs) else (theirs, suite.publicKey(ours))
  }

  lemma TwoFields(a: Bytes, b: Bytes)
    ensures (a + b)[..|a|] == a && (a + b)[|a|..] == b
  {
  }

  /** The sender's public key comes first, each after the type byte 5. */
  lemma EndsAre(suite: Suite, ours: Key, theirs: Key, direction: Direction)
    ensures var (from, to') := SenderAndRecipient(suite, ours, theirs, direction);
      |Ends(suite, ours, theirs, direction)| == 66
      && Ends(suite, ours, theirs, direction)[..33] == [0x05] + from
      && Ends(suite, ours, theirs, direction)[33..] == [0x05] + to'
  {
    var (from, to') := SenderAndRecipient(suite, ours, theirs, direction);
    TwoFields(Serialize(from), Serialize(to'));
  }

  lemma EndsCommit(suite: Suite, ours: Key, theirs: Key, direction: Direction,
                   ours': Key, theirs': Key, direction': Direction)
    requires Ends(suite, ours, theirs, direction) == Ends(suite, ours', theirs', direction')
    ensures SenderAndRecipient(suite, ours, theirs, direction) == SenderAndRecipient(suite, ours', theirs', direction')
  {
    hide Ends, SenderAndRecipient;
    EndsAre(suite, ours, theirs, direction);
    EndsAre(suite, ours', theirs', direction');
    var (a, b) := (SenderAndRecipient(suite, ours, theirs, direction),
                   SenderAndRecipient(suite, ours', theirs', direction'));
    assert ([0x05] + a.0)[1..] == a.0 && ([0x05] + a.1)[1..] == a.1;
    assert ([0x05] + b.0)[1..] == b.0 && ([0x05] + b.1)[1..] == b.1;
  }

  /** The mask commits to the agreement and to both public keys, the sender's and the recipient's. */
  lemma AgreementCommits(suite: Suite, ours: Key, theirs: Key, direction: Direction,
                         ours': Key, theirs': Key, direction': Direction)
    requires AgreementInput(suite, ours, theirs, direction) == AgreementInput(suite, ours', theirs', direction')
    ensures suite.agree(ours, theirs) == suite.agree(ours', theirs')
    ensures SenderAndRecipient(suite, ours, theirs, direction) == SenderAndRecipient(suite, ours', theirs', direction')
  {
    hide Ends, SenderAndRecipient;
    TwoFields(suite.agree(ours, theirs), Ends(suite, ours, theirs, direction));
    TwoFields(suite.agree(ours', theirs'), Ends(suite, ours', theirs', direction'));
    EndsCommit(suite, ours, theirs, direction, ours', theirs', direction');
  }

  method AgreementXor(suite: Suite, ours: Key, theirs: Key, direction: Direction, input: Key) returns (r: Key)
    ensures r == ApplyAgreementXor(suite, ours, theirs, direction, input)
  {
    hide XorByte, Ends;
    var stream := suite.dhKdf(AgreementInput(suite, ours, theirs, direction));
    var result := new byte[32](i requires 0 <= i < 32 => stream[i]);
    for i := 0 to 32
      invariant forall j :: 0 <= j < i ==> result[j] == XorByte(stream[j], input[j])
      invariant forall j :: i <= j < 32 ==> result[j] == stream[j]
    {
      result[i] := XorByte(result[i], input[i]);
    }
    assert result[..] == XorBytes(stream, input);
    return result[..];
  }

  function TagInput(suite: Suite, ours: Key, theirs: Key, direction: Direction, ephemeral: Key,
                    messageKey: Key): Bytes {
    suite.agree(ours, theirs) + Serialize(ephemeral) + messageKey + Ends(suite, ours, theirs, direction)
  }

  /** The tag commits to the agreement, the ephemeral key, the masked message key, and both identities. */
  lemma TagCommits(suite: Suite, ours: Key, theirs: Key, direction: Direction, ephemeral: Key, messageKey: Key,
                   ours': Key, theirs': Key, direction': Direction, ephemeral': Key, messageKey': Key)
    requires TagInput(suite, ours, theirs, direction, ephemeral, messageKey)
          == TagInput(suite, ours', theirs', direction', ephemeral', messageKey')
    ensures suite.agree(ours, theirs) == suite.agree(ours', theirs') && ephemeral == ephemeral'
            && messageKey == messageKey'
    ensures SenderAndRecipient(suite, ours, theirs, direction) == SenderAndRecipient(suite, ours', theirs', direction')
  {
    var (a, b) := (suite.agree(ours, theirs), suite.agree(ours', theirs'));
    var (s, s') := (Serialize(ephemeral), Serialize(ephemeral'));
    assert s[1..] == ephemeral && s'[1..] == ephemeral';
    hide Ends, SenderAndRecipient, Serialize;
    TwoFields(a + s + messageKey, Ends(suite, ours, theirs, direction));
    TwoFields(b + s' + messageKey', Ends(suite, ours', theirs', direction'));
    TwoFields(a + s, messageKey);
    TwoFields(b + s', messageKey');
    TwoFields(a, s);
    TwoFields(b, s');
    EndsCommit(suite, ours, theirs, direction, ours', theirs', direction');
  }

  function AuthenticationTag(suite: Suite, ours: Key, theirs: Key, direction: Direction, ephemeral: Key,
                             messageKey: Key): Tag {
    suite.tagKdf(TagInput(suite, ours, theirs, direction, ephemeral, messageKey))
  }

  /** What one end encrypts with the other's public key, the other decrypts with the roles swapped. */
  lemma AgreementXorInverts(suite: Suite, a: Key, b: Key, input: Key)
    requires Lawful(suite)
    ensures ApplyAgreementXor(suite, b, suite.publicKey(a), Receiving,
                              ApplyAgreementXor(suite, a, suite.publicKey(b), Sending, input))
         == input
  {
    hide XorByte;
    var stream := suite.dhKdf(AgreementInput(suite, a, suite.publicKey(b), Sending));
    assert suite.agree(b, suite.publicKey(a)) == suite.agree(a, suite.publicKey(b));
    XorCommutes(stream, input);
    XorCommutes(stream, XorBytes(stream, input));
    XorBytesCancels(input, stream);
  }

  /** Both ends derive the tag from the same input exactly when the recipient takes it to be from the
      sender's own key. */
  lemma TagNamesSender(suite: Suite, a: Key, b: Key, claimed: Key, ephemeral: Key, messageKey: Key)
    requires Lawful(suite)
    ensures TagInput(suite, a, suite.publicKey(b), Sending, ephemeral, messageKey)
            == TagInput(suite, b, claimed, Receiving, ephemeral, messageKey)
      <==> claimed == suite.publicKey(a)
  {
    hide Serialize;
    var from, to := suite.publicKey(a), suite.publicKey(b);
    assert suite.agree(a, to) == suite.agree(b, from);
    SenderField(suite.agree(a, to) + Serialize(ephemeral) + messageKey, from, Serialize(to));
    SenderField(suite.agree(b, claimed) + Serialize(ephemeral) + messageKey, claimed, Serialize(to));
  }

  /** Where a tag's input holds the sender's key. */
  lemma SenderField(before: Bytes, sender: Key, after: Bytes)
    requires |before| == 97
    ensures (before + (Serialize(sender) + after))[98..130] == sender
  {
    var input := before + (Serialize(sender) + after);
    forall i | 0 <= i < 32
      ensures input[98..130][i] == sender[i]
    {
      assert input[98 + i] == (Serialize(sender) + after)[1 + i];
    }
  }

  // ------------------------------------------------------------- a received message

  /** `UnidentifiedSenderMessage`; the payload of the first version is not taken apart. */
  datatype Received = V1(payload: Bytes) | V2(ephemeral: Key, messageKey: Key, tag: Tag, ciphertext: Bytes)

  function Deserialize(data: Bytes): Result<Received> {
    if data == [] then Err(InvalidSealedSenderMessage)
    else
      var version := data[0] / 0x10;
      if version == 0 || version == 1 then Ok(V1(data[1..]))
      else if version != 2 then Err(UnknownSealedSenderVersion)
      else if |data| < 1 + MESSAGE_KEY_LEN + AUTH_TAG_LEN + PUBLIC_KEY_LEN then Err(InvalidProtobufEncoding)
      else Ok(V2(data[49..81], data[1..33], data[33..49], data[81..]))
  }

  /** `sealed_sender_decrypt_to_usmc` on a v2 message: the ephemeral key must be the one the message
      key determines, and the tag the one the certificate's key gives. */
  function Decrypted(suite: Suite, ours: Key, v: Received): Result<Bytes>
    requires v.V2?
  {
    var m := ApplyAgreementXor(suite, ours, v.ephemeral, Receiving, v.messageKey);
    if suite.publicKey(suite.deriveE(m)) != v.ephemeral then Err(InvalidSealedSenderMessage)
    else
      match suite.unseal(suite.deriveK(m), v.ciphertext)
      case None => Err(InvalidSealedSenderMessage)
      case Some(content) =>
        match suite.sender(content)
        case None => Err(InvalidProtobufEncoding)
        case Some(key) =>
          if AuthenticationTag(suite, ours, key, Receiving, v.ephemeral, v.messageKey) !=
                v.tag then Err(InvalidSealedSenderMessage)
          else Ok(content)
  }

  /** `C_i` and `AT_i` for a recipient. */
  function KeyMaterial(suite: Suite, identity: Key, m: Key, theirs: Key): (r: Bytes)
    ensures |r| == MESSAGE_KEY_LEN + AUTH_TAG_LEN
  {
    var e := suite.deriveE(m);
    var c := ApplyAgreementXor(suite, e, theirs, Sending, m);
    c + AuthenticationTag(suite, identity, theirs, Sending, suite.publicKey(e), c)
  }

  function SharedBytes(suite: Suite, m: Key, content: Bytes): Bytes {
    suite.publicKey(suite.deriveE(m)) + suite.seal(suite.deriveK(m), content)
  }

  /** The tag derivation collides on the sender's input and that for a key the content claims. */
  ghost predicate TagsCollide(suite: Suite, identity: Key, m: Key, ours: Key, claimed: Key) {
    var e := suite.deriveE(m);
    var c := ApplyAgreementXor(suite, e, suite.publicKey(ours), Sending, m);
    var sent := TagInput(suite, identity, suite.publicKey(ours), Sending, suite.publicKey(e), c);
    var received := TagInput(suite, ours, claimed, Receiving, suite.publicKey(e), c);
    sent != received && suite.tagKdf(sent) == suite.tagKdf(received)
  }

  /** A recipient's key material before the shared bytes decrypts to the content when the content's
      certificate carries the sender's own identity key, and, short of a collision of tags, only
      then. */
  lemma ReceivedDecrypts(suite: Suite, identity: Key, m: Key, content: Bytes, ours: Key)
    requires Lawful(suite)
    ensures var r := Deserialize([SEALED_SENDER_V2_UUID_FULL_VERSION]
                                 + KeyMaterial(suite, identity, m, suite.publicKey(ours))
                                 + SharedBytes(suite, m, content));
      r.Ok? && r.value.V2?
      && (Decrypted(suite, ours, r.value) == Ok(content) <==>
            suite.sender(content) == Some(suite.publicKey(identity))
            || (suite.sender(content).Some? && TagsCollide(suite, identity, m, ours, suite.sender(content).value)))
  {
    hide ApplyAgreementXor, TagInput;
    var theirs, e := suite.publicKey(ours), suite.deriveE(m);
    var c := ApplyAgreementXor(suite, e, theirs, Sending, m);
    var tag := AuthenticationTag(suite, identity, theirs, Sending, suite.publicKey(e), c);
    var data := [SEALED_SENDER_V2_UUID_FULL_VERSION] + KeyMaterial(suite, identity, m, theirs)
        + SharedBytes(suite, m, content);
    assert data[1..33] == c && data[33..49] == tag && data[49..81] == suite.publicKey(e);
    assert data[81..] == suite.seal(suite.deriveK(m), content);
    AgreementXorInverts(suite, e, ours, m);
    if suite.sender(content).Some? {
      TagNamesSender(suite, identity, ours, suite.sender(content).value, suite.publicKey(e), c);
    }
  }

  /** A received message of version 2 is read exactly as its fields follow each other: the masked message key,
      the tag, the ephemeral key, and the rest. */
  lemma DeserializesIff(data: Bytes, ephemeral: Key, messageKey: Key, tag: Tag, ciphertext: Bytes)
    ensures Deserialize(data) == Ok(V2(ephemeral, messageKey, tag, ciphertext))
      <==> data != [] && data[0] / 0x10 == 2 && data[1..] == messageKey + tag + ephemeral + ciphertext
  {
    if |data| >= 81 {
      assert data[1..] == data[1..33] + data[33..49] + data[49..81] + data[81..];
    }
    var fields := messageKey + tag + ephemeral + ciphertext;
    assert fields[..32] == messageKey && fields[32..48] == tag && fields[48..80] == ephemeral
           && fields[80..] == ciphertext;
    if data != [] && data[1..] == fields {
      assert data[1..33] == fields[..32] && data[33..49] == fields[32..48];
      assert data[49..81] == fields[48..80] && data[81..] == fields[80..];
    }
  }

  /** What is accepted was made for this recipient: the message key recovered determines the ephemeral key and
      masks to the bytes received, and the tag is the one that the claimed sender's key and this
      recipient's give for them. Any other ephemeral key, masked key or tag is refused. */
  lemma AcceptedIsMadeForUs(suite: Suite, ours: Key, v: Received, content: Bytes)
    requires Lawful(suite) && v.V2? && Decrypted(suite, ours, v) == Ok(content)
    ensures var m := XorBytes(suite.dhKdf(AgreementInput(suite, ours, v.ephemeral, Receiving)), v.messageKey);
      v.ephemeral == suite.publicKey(suite.deriveE(m))
      && v.messageKey == ApplyAgreementXor(suite, suite.deriveE(m), suite.publicKey(ours), Sending, m)
      && suite.unseal(suite.deriveK(m), v.ciphertext) == Some(content)
      && suite.sender(content).Some?
      && v.tag == suite.tagKdf(TagInput(suite, ours, suite.sender(content).value, Receiving, v.ephemeral, v.messageKey))
  {
    hide XorByte, AgreementInput;
    var stream := suite.dhKdf(AgreementInput(suite, ours, v.ephemeral, Receiving));
    var m := XorBytes(stream, v.messageKey);
    var e := suite.deriveE(m);
    SameInput(suite, e, ours);
    XorCommutes(stream, v.messageKey);
    XorBytesCancels(v.messageKey, stream);
    XorCommutes(stream, m);
  }

  /** Both ends derive the mask from one input. */
  lemma SameInput(suite: Suite, a: Key, b: Key)
    requires Lawful(suite)
    ensures AgreementInput(suite, a, suite.publicKey(b), Sending) ==
              AgreementInput(suite, b, suite.publicKey(a), Receiving)
  {
    assert suite.agree(a, suite.publicKey(b)) == suite.agree(b, suite.publicKey(a));
  }
}
