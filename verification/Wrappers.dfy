/** Result and option types: the source's `Result<T, SignalProtocolError>` and `Option<T>`. */
module Wrappers {

  datatype Option<+T> = None | Some(value: T)

  /** Device ids run from 1 to 127 (libsignal/rust/core/src/address.rs:685-711). */
  const MAX_VALID_DEVICE_ID := 127

  type DeviceId = x: int | 1 <= x <= MAX_VALID_DEVICE_ID witness 1

  datatype ProtocolAddress = ProtocolAddress(name: string, deviceId: DeviceId)

  /** The error classes the modelled functions return (libsignal/rust/protocol/src/error.rs);
      texts and payloads that only feed log lines are dropped. */
  datatype Error =
    | DuplicatedMessage
    | InvalidArgument
    | InvalidKeySize
    | InvalidKyberPreKeyId
    | InvalidMessage
    | InvalidNonceSize
    | InvalidPreKeyId
    | InvalidProtobufEncoding
    | InvalidRegistrationId
    | InvalidSealedSenderMessage
    | InvalidSenderKeySession
    | InvalidSessionStructure
    | InvalidSignedPreKeyId
    | InvalidState
    | InvalidTag
    | MacError
    | NoSenderKeyState
    | SessionNotFound
    | SignatureValidationFailed
    | UnknownSealedSenderVersion
    | UnrecognizedMessageVersion
    | UntrustedIdentity

  datatype Result<+T> = Ok(value: T) | Err(error: Error) {
    predicate IsFailure() { Err? }

    function PropagateFailure<U>(): Result<U>
      requires Err?
    {
      Err(error)
    }

    function Extract(): T
      requires Ok?
    {
      value
    }
  }
}
