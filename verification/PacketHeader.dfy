/** The MQTT fixed header and its base-128 remaining length (src/mqtt/Packet.cpp). */
module PacketHeader {
  import opened MqttTypes

  const MAX_REMAINING_LENGTH: nat := 268435455

  /** The variable-length encoding of section 2.2.3 of MQTT 3.1.1: seven bits a byte, least significant group
      first, the top bit set on every byte but the last. */
  function EncodeLength(n: nat): (s: seq<byte>)
    ensures |s| >= 1
  {
    if n < 128 then [n] else [n % 128 + 128] + EncodeLength(n / 128)
  }

  /** Reads a remaining length of at most `budget` bytes off the front of `s`: the value and the bytes it took. */
  function DecodeLength(s: seq<byte>, budget: nat): Option<(nat, nat)>
    decreases budget
  {
    if budget == 0 || s == [] then None
    else if s[0] < 128 then Some((s[0], 1))
    else match DecodeLength(s[1..], budget - 1)
      case None => None
      case Some((v, used)) => Some((s[0] - 128 + 128 * v, used + 1))
  }

  /** How many bytes the length takes, group by group. */
  lemma {:induction false} EncodeLengthSize(n: nat)
    ensures n < 128 ==> |EncodeLength(n)| == 1
    ensures 128 <= n < 16384 ==> |EncodeLength(n)| == 2
    ensures 16384 <= n < 2097152 ==> |EncodeLength(n)| == 3
    ensures 2097152 <= n <= MAX_REMAINING_LENGTH ==> |EncodeLength(n)| == 4
  {
    if 128 <= n <= MAX_REMAINING_LENGTH {
      EncodeLengthSize(n / 128);
    }
  }

  /** Decoding undoes encoding and stops exactly at its end, whatever follows. */
  lemma {:induction false} LengthRoundTrip(n: nat, budget: nat, rest: seq<byte>)
    requires |EncodeLength(n)| <= budget
    ensures DecodeLength(EncodeLength(n) + rest, budget) == Some((n, |EncodeLength(n)|))
    decreases n
  {
    var s := EncodeLength(n) + rest;
    if n >= 128 {
      LengthRoundTrip(n / 128, budget - 1, rest);
      assert s[1..] == EncodeLength(n / 128) + rest;
    }
  }

  /** The round trip within the four bytes the reader allows, for every legal length. */
  lemma RemainingLengthRoundTrip(n: nat, rest: seq<byte>)
    requires n <= MAX_REMAINING_LENGTH
    ensures 1 <= |EncodeLength(n)| <= 4
    ensures DecodeLength(EncodeLength(n) + rest, 4) == Some((n, |EncodeLength(n)|))
  {
    EncodeLengthSize(n);
    LengthRoundTrip(n, 4, rest);
  }

  /** Seven bits to a byte, the low ones first, and the high bit set on all bytes but the last. */
  lemma EncodingMeaning(n: nat)
    requires n <= 268435455
    ensures var s := EncodeLength(n);
            && 1 <= |s| <= 4
            && (forall i :: 0 <= i < |s| - 1 ==> s[i] >= 128) && s[|s| - 1] < 128
            && n == s[0] % 128 + (if |s| > 1 then 128 * (s[1] as int % 128) else 0) +
                    (if |s| > 2 then 16384 * (s[2] as int % 128) else 0) +
                    (if |s| > 3 then 2097152 * (s[3] as int % 128) else 0)
  {
    EncodeLengthSize(n);
    if n >= 128 {
      EncodeLengthSize(n / 128);
      if n >= 16384 {
        EncodeLengthSize(n / 128 / 128);
      }
    }
  }

  /** However a length was written, the encoder would not have taken more bytes for it. */
  lemma {:induction false} EncodingIsShortest(s: seq<byte>, budget: nat)
    ensures DecodeLength(s, budget).Some? ==>
              |EncodeLength(DecodeLength(s, budget).value.0)| <= DecodeLength(s, budget).value.1 <= |s|
    decreases budget
  {
    if budget > 0 && s != [] && s[0] >= 128 {
      EncodingIsShortest(s[1..], budget - 1);
    }
  }

  /** No length is read from an input whose first `budget` bytes all carry the continuation bit. */
  lemma {:induction false} ContinuationRejected(s: seq<byte>, budget: nat)
    requires forall i :: 0 <= i < |s| && i < budget ==> s[i] >= 128
    ensures DecodeLength(s, budget) == None
    decreases budget
  {
    if budget > 0 && s != [] {
      ContinuationRejected(s[1..], budget - 1);
    }
  }

  /** The first byte of a packet. Only PUBLISH carries flags that vary. */
  function HeaderByte(messageType: MessageType, isDuplicate: bool, qos: QoS, isRetained: bool): byte {
    match messageType
    case Connect => 0x10
    case Connack => 0x20
    case Publish =>
      0x30 + (if qos.QoS1? then 0x02 else 0) + (if isDuplicate then 0x08 else 0) + (if isRetained then 0x01 else 0)
    case Puback => 0x40
    case Pubrec => 0x50
    case Pubrel => 0x62
    case Pubcomp => 0x70
    case Subscribe => 0x82
    case Suback => 0x90
    case Unsubscribe => 0xA2
    case Unsuback => 0xB0
    case Pingreq => 0xC0
    case Pingresp => 0xD0
    case Disconnect => 0xE0
    case _ => 0
  }

  /** The type codes of section 2.2.1 of MQTT 3.1.1. */
  function TypeCode(messageType: MessageType): byte {
    match messageType
    case Invalid => 0
    case Connect => 1
    case Connack => 2
    case Publish => 3
    case Puback => 4
    case Pubrec => 5
    case Pubrel => 6
    case Pubcomp => 7
    case Subscribe => 8
    case Suback => 9
    case Unsubscribe => 10
    case Unsuback => 11
    case Pingreq => 12
    case Pingresp => 13
    case Disconnect => 14
    case Reserved => 15
  }

  /** The header byte of every usable type is the one the standard asks for: its type code above the flags of section
      2.2.2, which are DUP, QoS and RETAIN for PUBLISH, and fixed otherwise. */
  lemma HeaderByteStandard(messageType: MessageType, isDuplicate: bool, qos: QoS, isRetained: bool)
    requires !messageType.Invalid? && !messageType.Reserved?
    ensures var header := HeaderByte(messageType, isDuplicate, qos, isRetained);
            && header / 16 == TypeCode(messageType)
            && (!messageType.Publish? ==>
                  header % 16 == if messageType.Pubrel? || messageType.Subscribe? || messageType.Unsubscribe? then 2 else 0)
            && (messageType.Publish? ==>
                  && (BitSet(header, 0x08) <==> isDuplicate)
                  && header / 2 % 4 == (if qos.QoS1? then 1 else 0)
                  && (BitSet(header, 0x01) <==> isRetained))
  {
    match messageType
    case Publish =>
      if qos.QoS1? {
        assert HeaderByte(messageType, isDuplicate, qos, isRetained) ==
               50 + (if isDuplicate then 8 else 0) + (if isRetained then 1 else 0);
      } else {
        assert HeaderByte(messageType, isDuplicate, qos, isRetained) ==
               48 + (if isDuplicate then 8 else 0) + (if isRetained then 1 else 0);
      }
    case _ =>
  }

  class PacketFixedHeader {
    var messageType: MessageType
    var headerByte: byte
    var remainingLength: nat
    var isValid: bool

    constructor ()
      ensures messageType == MessageType.Invalid && headerByte == 0 && remainingLength == 0 && !isValid
    {
      messageType, headerByte, remainingLength, isValid := MessageType.Invalid, 0, 0, false;
    }

    /** Refuses an over-long packet before touching any field; an unusable type leaves the header invalid. */
    method Initialize(messageType: MessageType, isDuplicate: bool, qos: QoS, isRetained: bool, remLen: nat)
      returns (rc: ResponseCode)
      modifies this
      ensures rc.Success? <==> remLen <= MAX_REMAINING_LENGTH && !messageType.Invalid? && !messageType.Reserved?
      ensures remLen > MAX_REMAINING_LENGTH ==> unchanged(this)
      ensures remLen <= MAX_REMAINING_LENGTH ==>
                && remainingLength == remLen
                && this.messageType == messageType
                && isValid == rc.Success?
                && headerByte == HeaderByte(messageType, isDuplicate, qos, isRetained)
    {
      if MAX_REMAINING_LENGTH < remLen {
        return Failure;
      }
      isValid := true;
      remainingLength := remLen;
      this.messageType := messageType;
      headerByte := 0;
      match messageType {
        case Connect => headerByte := 0x10;
        case Connack => headerByte := 0x20;
        case Publish =>
          headerByte := 0x30;
          match qos {
            case QoS0 =>
            case QoS1 => headerByte := OrBit(headerByte, 0x02);
          }
          if isDuplicate {
            headerByte := OrBit(headerByte, 0x08);
          }
          if isRetained {
            headerByte := OrBit(headerByte, 0x01);
          }
        case Puback => headerByte := 0x40;
        case Pubrec => headerByte := 0x50;
        case Pubrel => headerByte := 0x62;
        case Pubcomp => headerByte := 0x70;
        case Subscribe => headerByte := 0x82;
        case Suback => headerByte := 0x90;
        case Unsubscribe => headerByte := 0xA2;
        case Unsuback => headerByte := 0xB0;
        case Pingreq => headerByte := 0xC0;
        case Pingresp => headerByte := 0xD0;
        case Disconnect => headerByte := 0xE0;
        case _ => isValid := false;
      }
      rc := if isValid then Success else Failure;
    }

    /** The byte count predicted from the size thresholds is the length of what the encoder loop emits. */
    function RemainingLengthByteCount(): (count: nat)
      reads this
      ensures 1 <= count <= 4
      ensures remainingLength <= MAX_REMAINING_LENGTH ==> count == |EncodeLength(remainingLength)|
    {
      EncodeLengthSize(remainingLength);
      if remainingLength < 128 then 1
      else if remainingLength < 16384 then 2
      else if remainingLength < 2097152 then 3
      else 4
    }

    function Length(): nat
      reads this
    {
      RemainingLengthByteCount() + 1
    }

    /** Appends the header byte and the encoded remaining length. */
    method AppendToBuffer(buf: seq<byte>) returns (out: seq<byte>)
      ensures out == buf + [headerByte] + EncodeLength(remainingLength)
    {
      var length := remainingLength;
      out := buf + [headerByte];
      if 0 < remainingLength {
        ghost var start := out;
        while true
          invariant out + EncodeLength(length) == start + EncodeLength(remainingLength)
          decreases length
        {
          var encodedByte := length % 128;
          ghost var before := length;
          length := length / 128;
          if length > 0 {
            encodedByte := OrBit(encodedByte, 0x80);
          }
          out := out + [encodedByte];
          if length == 0 {
            break;
          }
        }
      } else {
        out := out + [0];
      }
    }
  }
}
