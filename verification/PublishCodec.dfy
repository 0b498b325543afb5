/** PUBLISH and PUBACK, both ways (src/mqtt/Publish.cpp, src/mqtt/NetworkRead.cpp:145-150, 232-274). */
module PublishCodec {
  import opened MqttTypes
  import opened PacketHeader
  import opened Strings

  /** What a caller publishes. */
  datatype Message = Message(topic: seq<byte>, isRetained: bool, isDuplicate: bool, qos: QoS, payload: seq<byte>)

  // ---------- what the packets write ----------

  function OptionalId(qos: QoS, packetId: uint16): seq<byte> {
    if qos.QoS1? then BigEndian16(packetId) else []
  }

  function PublishBody(m: Message, packetId: uint16): seq<byte> {
    Utf8Bytes(m.topic) + (OptionalId(m.qos, packetId) + m.payload)
  }

  /** The size the sending constructor adds up. */
  function PublishSize(m: Message): nat {
    |m.topic| + 2 + |m.payload| + if m.qos.QoS1? then 2 else 0
  }

  class PublishPacket {
    const topicName: seq<byte>
    const payload: seq<byte>
    const isRetained: bool
    const isDuplicate: bool
    const qos: QoS
    const packetSize: nat
    const header: PacketFixedHeader
    var packetId: uint16

    /** A packet to send. The DUP field is cleared for QoS 0, but the header is given the flag as it came. */
    constructor (m: Message)
      ensures topicName == m.topic && payload == m.payload && isRetained == m.isRetained && qos == m.qos
      ensures isDuplicate == (m.isDuplicate && m.qos.QoS1?)
      ensures packetSize == PublishSize(m) && packetId == 0 && fresh(header)
      ensures packetSize <= MAX_REMAINING_LENGTH ==>
                && header.isValid && header.remainingLength == packetSize
                && header.headerByte == HeaderByte(MessageType.Publish, m.isDuplicate, m.qos, m.isRetained)
    {
      hide HeaderByte, EncodeLength;
      var size := |m.topic| + 2 + |m.payload|;
      if m.qos != QoS0 {
        size := size + 2;
      }
      packetSize := size;
      topicName, payload, isRetained, qos := m.topic, m.payload, m.isRetained, m.qos;
      isDuplicate := m.isDuplicate;
      if m.qos == QoS0 {
        isDuplicate := false;
      }
      packetId := 0;
      header := new PacketFixedHeader();
      new;
      var _ := header.Initialize(MessageType.Publish, m.isDuplicate, m.qos, m.isRetained, packetSize);
    }

    /** A received packet. The size it records leaves out the two bytes of a packet id. */
    constructor FromBuffer(buf: seq<byte>, isRetained: bool, isDuplicate: bool, qos: QoS)
      requires Readable(buf, qos)
      ensures this.isRetained == isRetained && this.isDuplicate == isDuplicate && this.qos == qos
      ensures ParseBody(buf, qos) == Some(Parsed(topicName, packetId, payload)) && topicName != []
      ensures packetSize == |topicName| + 2 + |payload|
    {
      hide HeaderByte, EncodeLength, FromBigEndian16;
      var topic, extractIndex := ReadUtf8StringFromBuffer(buf, 0);
      assert buf[0..] == buf;
      var id: uint16 := 0;
      if qos != QoS0 {
        id, extractIndex := ReadUInt16FromBuffer(buf, extractIndex);
      }
      packetId, topicName := id, topic.value;
      if extractIndex == |buf| {
        payload := [];
      } else {
        payload := buf[extractIndex..];
      }
      this.isRetained, this.isDuplicate, this.qos := isRetained, isDuplicate, qos;
      packetSize := |topic.value| + 2 + |buf[extractIndex..]|;
      header := new PacketFixedHeader();
      new;
      var _ := header.Initialize(MessageType.Publish, isDuplicate, qos, isRetained, packetSize);
    }

    method SetPacketId(id: uint16)
      modifies this`packetId
      ensures packetId == id
    {
      packetId := id;
    }

    method ToString() returns (buf: seq<byte>)
      ensures buf == [header.headerByte] + EncodeLength(header.remainingLength) +
                     PublishBody(Message(topicName, isRetained, isDuplicate, qos, payload), packetId)
    {
      hide EncodeLength, Utf8Bytes, BigEndian16;
      buf := header.AppendToBuffer([]);
      buf := AppendUtf8StringToBuffer(buf, topicName);
      if qos != QoS0 {
        buf := AppendUInt16ToBuffer(buf, packetId);
      }
      buf := buf + payload;
    }
  }

  /** The length the header declares is right exactly when the topic is not empty. */
  lemma PublishLength(m: Message, packetId: uint16)
    ensures |PublishBody(m, packetId)| == PublishSize(m) <==> m.topic != []
  {
    Utf8Length(m.topic);
  }

  // ---------- a decoder from section 3.3 of MQTT 3.1.1 ----------

  datatype Parsed = Parsed(topic: seq<byte>, packetId: uint16, payload: seq<byte>)

  function ParseBody(body: seq<byte>, qos: QoS): Option<Parsed> {
    match TakeString(body)
    case None => None
    case Some((topic, rest)) =>
      if qos.QoS0? then Some(Parsed(topic, 0, rest))
      else match TakeUInt16(rest)
        case None => None
        case Some((packetId, payload)) => Some(Parsed(topic, packetId, payload))
  }

  /** The QoS bits of the header. */
  function HeaderQos(header: byte): Option<QoS> {
    match header / 2 % 4
    case 0 => Some(QoS0)
    case 1 => Some(QoS1)
    case _ => None
  }

  /** The header's flags and the body; DUP must be clear when the QoS is 0. */
  function DecodePublish(header: byte, body: seq<byte>): Option<(Message, uint16)> {
    if header / 16 != 3 || HeaderQos(header).None? then None
    else
      var qos := HeaderQos(header).value;
      if qos.QoS0? && BitSet(header, 0x08) then None
      else match ParseBody(body, qos)
        case None => None
        case Some(p) => Some((Message(p.topic, BitSet(header, 0x01), BitSet(header, 0x08), qos, p.payload), p.packetId))
  }

  lemma PublishHeader(m: Message)
    ensures var header := HeaderByte(MessageType.Publish, m.isDuplicate, m.qos, m.isRetained);
            && header / 16 == 3 && HeaderQos(header) == Some(m.qos)
            && (BitSet(header, 0x08) <==> m.isDuplicate) && (BitSet(header, 0x01) <==> m.isRetained)
  {
    if m.qos.QoS1? {
    } else {
    }
  }

  lemma BodyRoundTrip(m: Message, packetId: uint16)
    requires 1 <= |m.topic| <= MAX_STRING
    ensures ParseBody(PublishBody(m, packetId), m.qos) ==
            Some(Parsed(m.topic, if m.qos.QoS1? then packetId else 0, m.payload))
  {
    StringRoundTrip(m.topic, OptionalId(m.qos, packetId) + m.payload);
    UInt16RoundTrip(packetId, m.payload);
    hide Utf8Bytes, BigEndian16, TakeString, TakeUInt16;
    if m.qos.QoS0? {
      assert [] + m.payload == m.payload;
    }
  }

  /** The standard's decoder recovers every field of a PUBLISH, packet id included for QoS 1; exactly those sent with
      QoS 0 and DUP are refused, since the header keeps the flag the packet's own field drops. */
  lemma PublishRoundTrip(m: Message, packetId: uint16)
    requires 1 <= |m.topic| <= MAX_STRING
    ensures var decoded := DecodePublish(HeaderByte(MessageType.Publish, m.isDuplicate, m.qos, m.isRetained),
                                         PublishBody(m, packetId));
            && (decoded.None? <==> m.qos.QoS0? && m.isDuplicate)
            && (decoded.Some? ==> decoded.value == (m, if m.qos.QoS1? then packetId else 0))
  {
    PublishHeader(m);
    BodyRoundTrip(m, packetId);
    hide PublishBody, HeaderByte, BitSet, HeaderQos, ParseBody;
  }

  // ---------- receiving ----------

  /** The bodies a received PUBLISH can be built from: a non-empty topic, and an id when there should be one. Others
      send the client past the end of the buffer or through a null topic. */
  predicate Readable(buf: seq<byte>, qos: QoS) {
    |buf| >= 3 && ParseBody(buf, qos).Some? && ParseBody(buf, qos).value.topic != []
  }

  /** The factory refuses bodies too short for a topic. */
  method CreateFromBuffer(buf: seq<byte>, isRetained: bool, isDuplicate: bool, qos: QoS) returns (p: PublishPacket?)
    requires |buf| >= 3 ==> Readable(buf, qos)
    ensures p == null <==> |buf| < 3
    ensures p != null ==>
              && fresh(p) && p.isRetained == isRetained && p.isDuplicate == isDuplicate && p.qos == qos
              && ParseBody(buf, qos) == Some(Parsed(p.topicName, p.packetId, p.payload))
              && p.packetSize == |p.topicName| + 2 + |p.payload|
  {
    if 3 > |buf| {
      return null;
    }
    hide *;
    p := new PublishPacket.FromBuffer(buf, isRetained, isDuplicate, qos);
  }

  /** How a handler that takes (retained, duplicate) opens the packet. */
  method OpenPublish(readBuf: seq<byte>, isRetained: bool, isDuplicate: bool, qos: QoS) returns (p: PublishPacket)
    requires Readable(readBuf, qos)
    ensures fresh(p) && p.isRetained == isRetained && p.isDuplicate == isDuplicate && p.qos == qos
    ensures ParseBody(readBuf, qos) == Some(Parsed(p.topicName, p.packetId, p.payload))
    ensures p.packetSize == |p.topicName| + 2 + |p.payload|
  {
    hide ParseBody;
    p := CreateFromBuffer(readBuf, isRetained, isDuplicate, qos);
  }

  /** The QoS the reader takes from the header: one bit of it only. */
  function ReceivedQos(header: byte): QoS {
    if BitSet(header, 0x02) then QoS1 else QoS0
  }

  /** The dispatcher hands over (duplicate, retained) where (retained, duplicate) is taken. */
  method ReceivePublish(header: byte, readBuf: seq<byte>) returns (p: PublishPacket)
    requires Readable(readBuf, ReceivedQos(header))
    ensures fresh(p) && p.qos == ReceivedQos(header)
    ensures p.isRetained == BitSet(header, 0x08) && p.isDuplicate == BitSet(header, 0x01)
    ensures ParseBody(readBuf, p.qos) == Some(Parsed(p.topicName, p.packetId, p.payload))
    ensures p.packetSize == |p.topicName| + 2 + |p.payload|
  {
    hide ParseBody, Readable;
    var isRetained := BitSet(header, 0x01);
    var isDuplicate := BitSet(header, 0x08);
    var qos := ReceivedQos(header);
    p := OpenPublish(readBuf, isDuplicate, isRetained, qos);
  }

  /** What the client sends, the client receives: topic, payload, QoS and packet id always. The two flags come back as
      they were sent exactly when they were equal, and the recorded size is the true one exactly for QoS 0. */
  method SendAndReceive(m: Message, packetId: uint16) returns (p: PublishPacket)
    requires 1 <= |m.topic| <= MAX_STRING
    ensures p.topicName == m.topic && p.payload == m.payload && p.qos == m.qos
    ensures m.qos.QoS1? ==> p.packetId == packetId
    ensures p.isRetained == m.isRetained && p.isDuplicate == m.isDuplicate <==> m.isRetained == m.isDuplicate
    ensures p.packetSize == |PublishBody(m, packetId)| <==> m.qos.QoS0?
  {
    hide *;
    var header := HeaderByte(MessageType.Publish, m.isDuplicate, m.qos, m.isRetained);
    SentIsReadable(m, packetId);
    p := ReceivePublish(header, PublishBody(m, packetId));
  }

  lemma SentIsReadable(m: Message, packetId: uint16)
    requires 1 <= |m.topic| <= MAX_STRING
    ensures var header, body := HeaderByte(MessageType.Publish, m.isDuplicate, m.qos, m.isRetained),
                                PublishBody(m, packetId);
            && ReceivedQos(header) == m.qos && Readable(body, m.qos)
            && BitSet(header, 0x08) == m.isDuplicate && BitSet(header, 0x01) == m.isRetained
            && ParseBody(body, m.qos) == Some(Parsed(m.topic, if m.qos.QoS1? then packetId else 0, m.payload))
            && |body| == |m.topic| + 2 + |m.payload| + (if m.qos.QoS1? then 2 else 0)
  {
    PublishHeader(m);
    BodyRoundTrip(m, packetId);
    Utf8Length(m.topic);
    hide ParseBody, Utf8Bytes;
  }

  // ---------- PUBACK ----------

  class PubackPacket {
    const publishPacketId: uint16
    const header: PacketFixedHeader
    var packetId: uint16

    constructor (publishPacketId: uint16)
      ensures this.publishPacketId == publishPacketId && fresh(header)
      ensures Wellformed()
    {
      this.publishPacketId := publishPacketId;
      header := new PacketFixedHeader();
      new;
      var _ := header.Initialize(MessageType.Puback, false, QoS0, false, 2);
    }

    ghost predicate Wellformed()
      reads header
    {
      header.isValid && header.headerByte == 0x40 && header.remainingLength == 2
    }

    /** Enqueueing gives the packet an action id of its own. */
    method SetActionId(actionId: uint16)
      modifies this`packetId
      ensures packetId == actionId
    {
      packetId := actionId;
    }

    /** Whatever action id it was given since, the packet carries the id of the PUBLISH. */
    method ToString() returns (buf: seq<byte>)
      ensures buf == [header.headerByte] + EncodeLength(header.remainingLength) + BigEndian16(publishPacketId)
      ensures Wellformed() ==> |buf| == 4 && buf[1] == 2 && DecodePuback(buf[0], buf[2..]) == Some(publishPacketId)
    {
      PubackRoundTrip(publishPacketId);
      hide EncodeLength, BigEndian16, DecodePuback;
      buf := header.AppendToBuffer([]);
      buf := AppendUInt16ToBuffer(buf, publishPacketId);
      assert Wellformed() ==> buf[2..] == BigEndian16(publishPacketId);
    }
  }

  /** Section 3.4 of MQTT 3.1.1. */
  function DecodePuback(header: byte, body: seq<byte>): Option<uint16> {
    match TakeUInt16(body)
    case None => None
    case Some((packetId, rest)) => if header == 0x40 && rest == [] then Some(packetId) else None
  }

  lemma PubackRoundTrip(packetId: uint16)
    ensures DecodePuback(0x40, BigEndian16(packetId)) == Some(packetId)
    ensures EncodeLength(2) == [2] && |BigEndian16(packetId)| == 2
  {
    UInt16RoundTrip(packetId, []);
    assert BigEndian16(packetId) + [] == BigEndian16(packetId);
  }
}
