/** Everything the client sends, through one stream: serialised, concatenated, read back in pieces and decoded. */
module PacketStream {
  import opened MqttTypes
  import opened KeyOrder
  import opened PacketHeader
  import opened Strings
  import opened Framing
  import opened Recovery
  import opened ConnectCodec
  import opened PublishCodec
  import opened SubscribeCodec
  import opened SubscriptionProtocol
  import opened Subscriptions

  datatype Packet =
    | ConnectPacketOf(request: ConnectRequest)
    | PublishPacketOf(message: Message, packetId: uint16)
    | PubackPacketOf(packetId: uint16)
    | SubscribePacketOf(packetId: uint16, requests: seq<TopicRequest>)
    | UnsubscribePacketOf(packetId: uint16, topics: seq<Key>)

  function HeaderOf(p: Packet): byte {
    match p
    case ConnectPacketOf(_) => 0x10
    case PublishPacketOf(m, _) => HeaderByte(MessageType.Publish, m.isDuplicate, m.qos, m.isRetained)
    case PubackPacketOf(_) => 0x40
    case SubscribePacketOf(_, _) => 0x82
    case UnsubscribePacketOf(_, _) => 0xA2
  }

  function BodyOf(p: Packet): seq<byte> {
    match p
    case ConnectPacketOf(r) => ConnectBody(r)
    case PublishPacketOf(m, packetId) => PublishBody(m, packetId)
    case PubackPacketOf(packetId) => BigEndian16(packetId)
    case SubscribePacketOf(packetId, rs) => SubscribeBody(packetId, rs)
    case UnsubscribePacketOf(packetId, topics) => UnsubscribeBody(packetId, topics)
  }

  /** The size the packet's constructor declares. */
  function DeclaredSize(p: Packet): nat {
    match p
    case ConnectPacketOf(r) => ConnectSize(r)
    case PublishPacketOf(m, _) => PublishSize(m)
    case PubackPacketOf(_) => 2
    case SubscribePacketOf(_, rs) => SubscribeSize(RequestTopics(rs))
    case UnsubscribePacketOf(_, topics) => UnsubscribeSize(topics)
  }

  /** What ToString returns for a packet whose header was set up by its constructor. */
  function WireBytes(p: Packet): seq<byte> {
    [HeaderOf(p)] + EncodeLength(DeclaredSize(p)) + BodyOf(p)
  }

  function Wire(ps: seq<Packet>): seq<byte> {
    if ps == [] then [] else WireBytes(ps[0]) + Wire(ps[1..])
  }

  function FrameOf(p: Packet): Frame {
    Frame(HeaderOf(p), BodyOf(p))
  }

  function FramesOf(ps: seq<Packet>): (fs: seq<Frame>)
    ensures |fs| == |ps| && forall i :: 0 <= i < |ps| ==> fs[i] == FrameOf(ps[i])
  {
    if ps == [] then [] else [FrameOf(ps[0])] + FramesOf(ps[1..])
  }

  /** Non-empty strings of at most 65535 bytes, within the size limit. */
  ghost predicate Sendable(p: Packet) {
    DeclaredSize(p) <= MAX_REMAINING_LENGTH &&
    match p
    case ConnectPacketOf(r) => CarriableRequest(r)
    case PublishPacketOf(m, _) => 1 <= |m.topic| <= MAX_STRING
    case PubackPacketOf(_) => true
    case SubscribePacketOf(_, rs) => rs != [] && AllCarriable(RequestTopics(rs))
    case UnsubscribePacketOf(_, topics) => topics != [] && AllCarriable(topics)
  }

  ghost predicate AllSendable(ps: seq<Packet>) {
    forall i :: 0 <= i < |ps| ==> Sendable(ps[i])
  }

  // ---------- what a broker makes of a frame ----------

  datatype Decoded =
    | DecodedConnect(fields: ConnectFields)
    | DecodedPublish(message: Message, publishId: uint16)
    | DecodedPuback(pubackId: uint16)
    | DecodedSubscribe(subscribeId: uint16, requests: seq<TopicRequest>)
    | DecodedUnsubscribe(unsubscribeId: uint16, topics: seq<Key>)
    | Malformed

  function Decode(f: Frame): Decoded {
    match f.header / 16
    case 1 =>
      (match DecodeConnect(f.body)
       case Some(fields) => if f.header == 0x10 then DecodedConnect(fields) else Malformed
       case None => Malformed)
    case 3 =>
      (match DecodePublish(f.header, f.body)
       case Some((message, id)) => DecodedPublish(message, id)
       case None => Malformed)
    case 4 =>
      (match DecodePuback(f.header, f.body)
       case Some(id) => DecodedPuback(id)
       case None => Malformed)
    case 8 =>
      (match DecodeSubscribe(f.header, f.body)
       case Some((id, requests)) => DecodedSubscribe(id, requests)
       case None => Malformed)
    case 10 =>
      (match DecodeUnsubscribe(f.header, f.body)
       case Some((id, topics)) => DecodedUnsubscribe(id, topics)
       case None => Malformed)
    case _ => Malformed
  }

  /** What it should make of a packet. A PUBLISH sent with QoS 0 and DUP is one the standard forbids. */
  function Meant(p: Packet): Decoded {
    match p
    case ConnectPacketOf(r) => DecodedConnect(ConnectView(r))
    case PublishPacketOf(m, packetId) =>
      if m.qos.QoS0? && m.isDuplicate then Malformed else DecodedPublish(m, if m.qos.QoS1? then packetId else 0)
    case PubackPacketOf(packetId) => DecodedPuback(packetId)
    case SubscribePacketOf(packetId, rs) => DecodedSubscribe(packetId, rs)
    case UnsubscribePacketOf(packetId, topics) => DecodedUnsubscribe(packetId, topics)
  }

  // ---------- one packet ----------

  /** The declared length is the length of the body. */
  lemma DeclaredIsActual(p: Packet)
    requires Sendable(p)
    ensures |BodyOf(p)| == DeclaredSize(p) <= MAX_REMAINING_LENGTH
    ensures WireBytes(p) == FrameBytes(FrameOf(p))
  {
    hide ConnectBody, ConnectSize, PublishBody, SubscribeBody, UnsubscribeBody, SubscribeSize, UnsubscribeSize,
      EncodeLength, HeaderByte, RequestTopics;
    match p
    case ConnectPacketOf(r) => ConnectRoundTrip(r);
    case PublishPacketOf(m, packetId) => PublishLength(m, packetId);
    case PubackPacketOf(_) =>
    case SubscribePacketOf(packetId, rs) => SubscribeRoundTrip(packetId, rs);
    case UnsubscribePacketOf(packetId, topics) => UnsubscribeRoundTrip(packetId, topics);
  }

  lemma PacketRoundTrip(p: Packet)
    requires Sendable(p)
    ensures Decode(FrameOf(p)) == Meant(p)
  {
    hide ConnectBody, ConnectSize, PublishBody, SubscribeBody, UnsubscribeBody, SubscribeSize, UnsubscribeSize,
      HeaderByte, RequestTopics, DecodeConnect, DecodePublish, DecodeSubscribe, DecodeUnsubscribe, ConnectView,
      TakeUInt16;
    match p
    case ConnectPacketOf(r) => ConnectRoundTrip(r);
    case PublishPacketOf(m, packetId) =>
      PublishRoundTrip(m, packetId);
      PublishHeader(m);
    case PubackPacketOf(packetId) =>
      UInt16RoundTrip(packetId, []);
      assert BigEndian16(packetId) + [] == BigEndian16(packetId);
    case SubscribePacketOf(packetId, rs) => SubscribeRoundTrip(packetId, rs);
    case UnsubscribePacketOf(packetId, topics) => UnsubscribeRoundTrip(packetId, topics);
  }

  // ---------- the stream ----------

  lemma {:induction false} WireIsFrames(ps: seq<Packet>)
    requires AllSendable(ps)
    ensures Wire(ps) == StreamOf(FramesOf(ps)) && WellSized(FramesOf(ps))
    decreases |ps|
  {
    hide WireBytes, FrameBytes, FrameOf, Sendable;
    if ps != [] {
      DeclaredIsActual(ps[0]);
      WireIsFrames(ps[1..]);
      assert FramesOf(ps)[1..] == FramesOf(ps[1..]);
    }
    forall i | 0 <= i < |ps|
      ensures |FramesOf(ps)[i].body| <= MAX_REMAINING_LENGTH
    {
      BodyFits(ps[i]);
    }
  }

  lemma BodyFits(p: Packet)
    requires Sendable(p)
    ensures |FrameOf(p).body| <= MAX_REMAINING_LENGTH
  {
    hide Sendable, BodyOf, DeclaredSize, EncodeLength;
    DeclaredIsActual(p);
  }

  /** Every packet sent means to the standard's decoders what it should. */
  ghost predicate MeansWhatWasSent(frames: seq<Frame>, ps: seq<Packet>) {
    |frames| == |ps| && forall i :: 0 <= i < |ps| ==> Decode(frames[i]) == Meant(ps[i])
  }

  lemma FramesMean(ps: seq<Packet>)
    requires AllSendable(ps)
    ensures MeansWhatWasSent(FramesOf(ps), ps)
  {
    hide FramesOf, Sendable, Decode, Meant, FrameOf;
    forall i | 0 <= i < |ps|
      ensures Decode(FramesOf(ps)[i]) == Meant(ps[i])
    {
      PacketRoundTrip(ps[i]);
    }
  }

  /** The end-to-end theorem: any packets the client can send, serialised one after the other and read back under any
      schedule of successful partial reads long enough to carry them, come out one by one and in order, mean what was
      sent, and leave nothing over. */
  lemma PacketsRecovered(l: Link, ps: seq<Packet>)
    requires l.Valid() && AllSendable(ps) && l.stream[l.pos..] == Wire(ps)
    requires Steady(l) && |Wire(ps)| <= TurnsLeft(l)
    ensures MeansWhatWasSent(ReadOn(l).frames, ps) && ReadOn(l).link.pos == |l.stream|
  {
    hide Wire, StreamOf, FramesOf, ReadOn, Steady, MeansWhatWasSent, AllSendable;
    WireIsFrames(ps);
    FramesMean(ps);
    StreamRecovered(l, FramesOf(ps));
  }

  /** Under any other schedule they do as long as no failed read takes a byte and the stream is read to its end. */
  lemma PacketsRecoveredIf(l: Link, ps: seq<Packet>)
    requires l.Valid() && AllSendable(ps) && l.stream[l.pos..] == Wire(ps)
    ensures var r := ReadOn(l);
            r.lost == 0 && r.link.pos == |l.stream| ==> MeansWhatWasSent(r.frames, ps)
  {
    hide Wire, StreamOf, FramesOf, ReadOn, MeansWhatWasSent, AllSendable;
    WireIsFrames(ps);
    FramesMean(ps);
    RecoveredExactly(l, FramesOf(ps));
  }

  /** Put on the schedule: they do whenever no read fails inside a packet and the reads last. */
  lemma PacketsCarried(l: Link, ps: seq<Packet>)
    requires l.Valid() && AllSendable(ps) && l.stream[l.pos..] == Wire(ps)
    ensures Carries(l.schedule, l.turn, FramesOf(ps), 0) ==> MeansWhatWasSent(ReadOn(l).frames, ps)
  {
    hide Wire, StreamOf, FramesOf, ReadOn, MeansWhatWasSent, AllSendable, Carries;
    WireIsFrames(ps);
    FramesMean(ps);
    CarriedExactly(l, FramesOf(ps));
  }

  /** And whatever the schedule does, what is read before the first byte is lost is a prefix of what was sent. */
  lemma PacketsPrefix(l: Link, ps: seq<Packet>)
    requires l.Valid() && AllSendable(ps) && l.stream[l.pos..] == Wire(ps)
    ensures var r := ReadOn(l);
            r.clean <= |ps| && MeansWhatWasSent(r.frames[..r.clean], ps[..r.clean])
  {
    hide Wire, StreamOf, FramesOf, ReadOn, Decode, Meant, AllSendable;
    WireIsFrames(ps);
    FramesMean(ps);
    StreamPrefix(l, FramesOf(ps));
    var r := ReadOn(l);
    forall i | 0 <= i < r.clean
      ensures Decode(r.frames[..r.clean][i]) == Meant(ps[..r.clean][i])
    {
      assert r.frames[..r.clean][i] == FramesOf(ps)[i];
    }
  }

  // ---------- what the packets' own code writes ----------

  /** Constructing a packet and serialising it gives the bytes the theorems are about. */
  method SerialiseConnect(r: ConnectRequest) returns (buf: seq<byte>)
    requires ConnectSize(r) <= MAX_REMAINING_LENGTH
    ensures buf == WireBytes(ConnectPacketOf(r))
  {
    hide ConnectBody, ConnectSize, ConnectFlags, EncodeLength;
    var p := new ConnectPacket(r);
    buf := p.ToString();
  }

  method SerialisePublish(m: Message, packetId: uint16) returns (buf: seq<byte>)
    requires PublishSize(m) <= MAX_REMAINING_LENGTH
    ensures buf == WireBytes(PublishPacketOf(m, packetId))
  {
    hide HeaderByte, EncodeLength, Utf8Bytes, BigEndian16;
    var p := new PublishPacket(m);
    p.SetPacketId(packetId);
    buf := p.ToString();
  }

  method SerialisePuback(publishPacketId: uint16) returns (buf: seq<byte>)
    ensures buf == WireBytes(PubackPacketOf(publishPacketId))
  {
    hide EncodeLength, BigEndian16;
    var p := new PubackPacket(publishPacketId);
    buf := p.ToString();
  }

  method SerialiseSubscribe(list: seq<Subscription>, packetId: uint16) returns (buf: seq<byte>)
    requires |list| <= MAX_TOPICS_IN_ONE_SUBSCRIBE_PACKET
    requires SubscribeSize(NamesOf(list)) <= MAX_REMAINING_LENGTH
    modifies ObjectsIn(list)`packetId, ObjectsIn(list)`indexInPacket
    ensures buf == WireBytes(SubscribePacketOf(packetId, RequestsOf(list)))
  {
    hide SubscribeSize, NamesOf, RequestsOf, RequestTopics, SubscribeBody, EncodeLength, IsLastPlace;
    var p := new SubscribePacket(list);
    p.SetPacketId(packetId);
    buf := p.ToString();
    assert RequestTopics(RequestsOf(list)) == NamesOf(list);
  }

  method SerialiseUnsubscribe(topics: seq<Key>, packetId: uint16) returns (buf: seq<byte>)
    requires UnsubscribeSize(topics) <= MAX_REMAINING_LENGTH
    ensures buf == WireBytes(UnsubscribePacketOf(packetId, topics))
  {
    hide UnsubscribeSize, UnsubscribeBody, EncodeLength;
    var p := new UnsubscribePacket(topics);
    p.SetPacketId(packetId);
    buf := p.ToString();
  }
}
