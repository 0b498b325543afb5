/** Types shared by the model of the MQTT client engine. */
module MqttTypes {

  /** An unsigned 8-bit value. */
  type byte = b: int | 0 <= b < 0x100

  /** An unsigned 16-bit value: packet identifiers and string lengths on the wire. */
  type uint16 = n: int | 0 <= n < 0x1_0000

  const UINT16_MAX: uint16 := 0xFFFF

  datatype Option<+T> = None | Some(value: T)

  /** QoS 2 is not supported by the SDK. */
  datatype QoS = QoS0 | QoS1

  datatype MessageType =
    | Invalid | Connect | Connack | Publish | Puback | Pubrec | Pubrel | Pubcomp
    | Subscribe | Suback | Unsubscribe | Unsuback | Pingreq | Pingresp | Disconnect | Reserved

  /** The response codes the modelled code produces. */
  datatype ResponseCode =
    | Success
    | Failure
    | NullValueError
    | ThreadExiting
    | NothingToRead
    | NothingToWrite
    | NetworkDisconnected
    | NetworkError
    | ActionQueueFull
    | ActionNotRegistered
    | ConnectionAccepted
    | RequestTimeout
    | SubscribeFailed
    | SubscribePartiallyFailed
    | SubscriptionNotActive
    | NoSubscriptionFound
    | FrameReceiveError
    | ProtocolViolation
    | MaxLifetimeReached
    | DecodeRemainingLengthError
    | UnexpectedPacketFormat
    | UnacceptableProtocolVersion
    | IdentifierRejected
    | ServerUnavailable
    | BadUserdata
    | NotAuthorized

  /** OR-ing a one-bit mask into a byte. */
  function OrBit(b: byte, mask: byte): (r: int)
    requires mask in {1, 2, 4, 8, 16, 32, 64, 128}
    ensures 0 <= r < 0x100
  {
    if b / mask % 2 == 1 then b else b + mask
  }

  predicate BitSet(b: byte, mask: byte)
    requires mask > 0
  {
    b / mask % 2 == 1
  }

  /** The two bytes written for a length or identifier; larger values are cut as the casts in the source cut them. */
  function BigEndian16(n: nat): (s: seq<byte>)
    ensures |s| == 2
  {
    [n / 256 % 256, n % 256]
  }

  function FromBigEndian16(high: byte, low: byte): uint16 {
    256 * high + low
  }

  /** The high byte comes first, both ways. */
  lemma HighByteFirst(n: nat, high: byte, low: byte)
    ensures n < 0x1_0000 ==> BigEndian16(n)[0] == n / 256 && BigEndian16(n)[1] == n % 256
    ensures FromBigEndian16(high, low) / 256 == high && FromBigEndian16(high, low) % 256 == low
  {
  }

  /** A C string literal as bytes. */
  function Ascii(text: string): (s: seq<byte>)
    ensures |s| == |text| && forall i :: 0 <= i < |s| ==> s[i] == text[i] as int % 256
  {
    if text == [] then [] else [text[0] as int % 256] + Ascii(text[1..])
  }
}
