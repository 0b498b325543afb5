/** The CONNECT packet (src/mqtt/Connect.cpp:48-220, src/mqtt/Common.cpp:33-103). */
module ConnectCodec {
  import opened Bits
  import opened MqttTypes
  import opened PacketHeader
  import opened Strings

  datatype Will = Will(isRetained: bool, qos: QoS, topic: seq<byte>, message: seq<byte>)

  /** What a caller asks for. */
  datatype ConnectRequest = ConnectRequest(isCleanSession: bool, keepAlive: nat, clientId: Option<seq<byte>>,
                                           will: Option<Will>, isMetricsEnabled: bool)

  const PROTOCOL_ID: seq<byte> := Ascii("MQTT")
  const PROTOCOL_LEVEL: byte := 4

  /** The user name that carries the SDK version. */
  const METRICS_USERNAME: seq<byte> := Ascii("?SDK=CPP&Version=1.4.0")

  // ---------- what the packet writes ----------

  function WillFlags(flags: byte, w: Will): byte {
    var f1 := if w.isRetained then OrBit(flags, 0x20) else flags;
    var f2 := if w.qos.QoS1? then OrBit(f1, 0x08) else f1;
    OrBit(f2, 0x04)
  }

  function ConnectFlags(r: ConnectRequest): byte {
    var f1 := if r.isCleanSession then OrBit(0, 0x02) else 0;
    var f2 := if r.isMetricsEnabled then OrBit(f1, 0x80) else f1;
    match r.will
    case None => f2
    case Some(w) => WillFlags(f2, w)
  }

  function WillBytes(w: Will): seq<byte> {
    Utf8Bytes(w.topic) + Utf8Bytes(w.message)
  }

  function KeepAliveOnWire(seconds: nat): uint16 {
    if UINT16_MAX < seconds then UINT16_MAX else seconds
  }

  function ClientIdBytes(clientId: Option<seq<byte>>): seq<byte> {
    match clientId
    case None => BigEndian16(0)
    case Some(id) => Utf8Bytes(id)
  }

  function OptionalWill(will: Option<Will>): seq<byte> {
    if will.Some? then WillBytes(will.value) else []
  }

  function OptionalUser(isMetricsEnabled: bool): seq<byte> {
    if isMetricsEnabled then Utf8Bytes(METRICS_USERNAME) else []
  }

  function ConnectPayload(r: ConnectRequest): seq<byte> {
    ClientIdBytes(r.clientId) + (OptionalWill(r.will) + OptionalUser(r.isMetricsEnabled))
  }

  function ConnectBody(r: ConnectRequest): seq<byte> {
    Utf8Bytes(PROTOCOL_ID) +
    ([PROTOCOL_LEVEL, ConnectFlags(r)] + (BigEndian16(KeepAliveOnWire(r.keepAlive)) + ConnectPayload(r)))
  }

  /** The size the constructor adds up. */
  function ConnectSize(r: ConnectRequest): nat {
    10 + (if r.clientId.Some? then |r.clientId.value| else 0) + 2 +
    (if r.isMetricsEnabled then |METRICS_USERNAME| + 2 else 0) +
    (if r.will.Some? then WillLength(r.will.value) + 4 else 0)
  }

  function WillLength(w: Will): nat {
    |w.topic| + |w.message|
  }

  /** The will bit is set, the retain bit and the QoS 1 bit as the will asks, and every other bit is as it was. */
  method SetConnectFlags(flags: byte, w: Will) returns (out: byte)
    ensures out == WillFlags(flags, w)
    ensures forall m :: m in MASKS ==>
                          (BitSet(out, m) <==>
                           BitSet(flags, m) || m == 0x04 || (m == 0x20 && w.isRetained) || (m == 0x08 && w.qos.QoS1?))
  {
    hide OrBit, BitSet;
    forall m | m in MASKS
      ensures BitSet(WillFlags(flags, w), m) <==>
              BitSet(flags, m) || m == 0x04 || (m == 0x20 && w.isRetained) || (m == 0x08 && w.qos.QoS1?)
    {
      WillBits(flags, w, m);
    }
    out := flags;
    if w.isRetained {
      out := OrBit(out, 0x20);
    }
    match w.qos {
      case QoS0 =>
      case QoS1 => out := OrBit(out, 0x08);
    }
    out := OrBit(out, 0x04);
  }

  lemma WillBits(flags: byte, w: Will, m: byte)
    requires m in MASKS
    ensures BitSet(WillFlags(flags, w), m) <==>
            BitSet(flags, m) || m == 0x04 || (m == 0x20 && w.isRetained) || (m == 0x08 && w.qos.QoS1?)
  {
    hide OrBit, BitSet;
    var f1 := if w.isRetained then OrBit(flags, 0x20) else flags;
    var f2 := if w.qos.QoS1? then OrBit(f1, 0x08) else f1;
    OrBitEffect(flags, 0x20, m);
    OrBitEffect(f1, 0x08, m);
    OrBitEffect(f2, 0x04, m);
  }

  /** The flag byte, bit by bit. */
  method AllConnectFlags(r: ConnectRequest) returns (flags: byte)
    ensures flags == ConnectFlags(r)
  {
    hide OrBit, WillFlags;
    flags := 0;
    if r.isCleanSession {
      flags := OrBit(flags, 0x02);
    }
    if r.isMetricsEnabled {
      flags := OrBit(flags, 0x80);
    }
    if r.will.Some? {
      flags := SetConnectFlags(flags, r.will.value);
    }
  }

  method WriteWill(buf: seq<byte>, w: Will) returns (out: seq<byte>)
    ensures out == buf + WillBytes(w)
  {
    hide Utf8Bytes;
    out := AppendUtf8StringToBuffer(buf, w.topic);
    out := AppendUtf8StringToBuffer(out, w.message);
  }

  /** Client id, will and user name, in this order. */
  method WritePayload(buf: seq<byte>, r: ConnectRequest) returns (out: seq<byte>)
    ensures out == buf + ConnectPayload(r)
  {
    hide Utf8Bytes, BigEndian16, Ascii, WillBytes;
    if r.clientId.None? {
      out := AppendUInt16ToBuffer(buf, 0);
    } else {
      out := AppendUtf8StringToBuffer(buf, r.clientId.value);
    }
    if r.will.Some? {
      out := WriteWill(out, r.will.value);
    }
    assert out == buf + (ClientIdBytes(r.clientId) + OptionalWill(r.will));
    if r.isMetricsEnabled {
      out := AppendUtf8StringToBuffer(out, METRICS_USERNAME);
    }
  }

  class ConnectPacket {
    const request: ConnectRequest
    const header: PacketFixedHeader
    var isCleanSession: bool
    var connectFlags: byte
    var packetSize: nat

    constructor (r: ConnectRequest)
      ensures request == r && fresh(header)
      ensures isCleanSession == (r.isCleanSession || r.clientId.None?)
      ensures connectFlags == ConnectFlags(r) && packetSize == ConnectSize(r)
      ensures ConnectSize(r) <= MAX_REMAINING_LENGTH ==>
                header.isValid && header.headerByte == 0x10 && header.remainingLength == ConnectSize(r)
    {
      hide OrBit, Ascii, WillFlags, EncodeLength, ConnectFlags;
      var size := 10;
      if r.clientId.Some? {
        size := size + |r.clientId.value|;
      }
      size := size + 2;
      if r.isMetricsEnabled {
        size := size + |METRICS_USERNAME| + 2;
      }
      if r.will.Some? {
        size := size + WillLength(r.will.value) + 4;
      }
      var flags := AllConnectFlags(r);
      request, packetSize, connectFlags := r, size, flags;
      isCleanSession := r.isCleanSession || r.clientId.None?;
      assert size == ConnectSize(r) && HeaderByte(MessageType.Connect, false, QoS0, false) == 0x10;
      header := new PacketFixedHeader();
      new;
      hide *;
      var _ := header.Initialize(MessageType.Connect, false, QoS0, false, packetSize);
    }

    /** The factory refuses a keep-alive that does not fit and a lasting session without a client id. */
    static method Create(r: ConnectRequest) returns (p: ConnectPacket?)
      ensures p == null <==> r.keepAlive > UINT16_MAX || (r.clientId.None? && !r.isCleanSession)
      ensures p != null ==> fresh(p) && p.request == r && p.connectFlags == ConnectFlags(r)
    {
      if UINT16_MAX < r.keepAlive || (r.clientId.None? && !r.isCleanSession) {
        return null;
      }
      p := new ConnectPacket(r);
    }

    method ToString() returns (buf: seq<byte>)
      requires connectFlags == ConnectFlags(request)
      ensures buf == [header.headerByte] + EncodeLength(header.remainingLength) + ConnectBody(request)
    {
      hide ConnectFlags, Utf8Bytes, BigEndian16, Ascii, EncodeLength, ConnectPayload;
      buf := header.AppendToBuffer([]);
      ghost var start := buf;
      buf := AppendUtf8StringToBuffer(buf, PROTOCOL_ID);
      buf := buf + [PROTOCOL_LEVEL];
      buf := buf + [connectFlags];
      if UINT16_MAX < request.keepAlive {
        buf := AppendUInt16ToBuffer(buf, UINT16_MAX);
      } else {
        buf := AppendUInt16ToBuffer(buf, request.keepAlive);
      }
      buf := WritePayload(buf, request);
      Regroup(start, Utf8Bytes(PROTOCOL_ID), PROTOCOL_LEVEL, connectFlags,
              BigEndian16(KeepAliveOnWire(request.keepAlive)), ConnectPayload(request));
    }
  }

  lemma Regroup(start: seq<byte>, protocol: seq<byte>, level: byte, flags: byte, keepAlive: seq<byte>, rest: seq<byte>)
    ensures start + protocol + [level] + [flags] + keepAlive + rest ==
            start + (protocol + ([level, flags] + (keepAlive + rest)))
  {
  }

  // ---------- declared length ----------

  /** How many of the strings the packet should carry are empty. */
  function EmptyStrings(r: ConnectRequest): nat {
    (if r.clientId == Some([]) then 1 else 0) +
    (if r.will.Some? && r.will.value.topic == [] then 1 else 0) +
    (if r.will.Some? && r.will.value.message == [] then 1 else 0)
  }

  /** Each empty string is declared with two bytes that are never written; so the declared length is right exactly
      when no string is empty. */
  lemma ConnectLength(r: ConnectRequest)
    ensures |ConnectBody(r)| + 2 * EmptyStrings(r) == ConnectSize(r)
    ensures |ConnectBody(r)| == ConnectSize(r) <==> EmptyStrings(r) == 0
  {
    hide ConnectFlags, Utf8Bytes, Ascii;
    Utf8Length(PROTOCOL_ID);
    Utf8Length(METRICS_USERNAME);
    if r.clientId.Some? {
      Utf8Length(r.clientId.value);
    }
    if r.will.Some? {
      Utf8Length(r.will.value.topic);
      Utf8Length(r.will.value.message);
    }
    assert |ConnectPayload(r)| ==
           |ClientIdBytes(r.clientId)| + |OptionalWill(r.will)| + |OptionalUser(r.isMetricsEnabled)|;
  }

  // ---------- a decoder from section 3.1 of MQTT 3.1.1 ----------

  datatype WillFields = WillFields(isRetained: bool, qos: nat, topic: seq<byte>, message: seq<byte>)

  datatype ConnectFields = ConnectFields(cleanSession: bool, keepAlive: uint16, clientId: seq<byte>,
                                         will: Option<WillFields>, username: Option<seq<byte>>,
                                         password: Option<seq<byte>>)

  function TakeOptional(s: seq<byte>, present: bool): Option<(Option<seq<byte>>, seq<byte>)> {
    if !present then Some((None, s))
    else match TakeString(s)
      case None => None
      case Some((text, rest)) => Some((Some(text), rest))
  }

  /** Bits 3 and 4 of the flag byte. */
  function WillQosBits(flags: byte): nat {
    flags / 8 % 4
  }

  /** The combinations of flag bits that section 3.1.2 allows. */
  predicate FlagsAllowed(flags: byte) {
    && !BitSet(flags, 0x01)
    && WillQosBits(flags) != 3
    && (!BitSet(flags, 0x04) ==> WillQosBits(flags) == 0 && !BitSet(flags, 0x20))
    && (!BitSet(flags, 0x80) ==> !BitSet(flags, 0x40))
  }

  function WillOf(flags: byte, topic: Option<seq<byte>>, message: Option<seq<byte>>): Option<WillFields> {
    if topic.Some? && message.Some?
    then Some(WillFields(BitSet(flags, 0x20), WillQosBits(flags), topic.value, message.value))
    else None
  }

  function DecodePayload(flags: byte, keepAlive: uint16, payload: seq<byte>): Option<ConnectFields> {
    match TakeString(payload)
    case None => None
    case Some((clientId, s1)) =>
      match TakeOptional(s1, BitSet(flags, 0x04))
      case None => None
      case Some((willTopic, s2)) =>
        match TakeOptional(s2, BitSet(flags, 0x04))
        case None => None
        case Some((willMessage, s3)) =>
          match TakeOptional(s3, BitSet(flags, 0x80))
          case None => None
          case Some((username, s4)) =>
            match TakeOptional(s4, BitSet(flags, 0x40))
            case None => None
            case Some((password, s5)) =>
              if s5 != [] then None
              else
                Some(ConnectFields(BitSet(flags, 0x02), keepAlive, clientId, WillOf(flags, willTopic, willMessage),
                                   username, password))
  }

  /** Protocol name and level byte by byte, then flags, keep-alive and payload. */
  function DecodeConnect(body: seq<byte>): Option<ConnectFields> {
    if |body| < 10 || body[..7] != [0x00, 0x04, 0x4D, 0x51, 0x54, 0x54, 0x04] || !FlagsAllowed(body[7]) then None
    else DecodePayload(body[7], FromBigEndian16(body[8], body[9]), body[10..])
  }

  // ---------- round trip ----------

  function WillView(w: Option<Will>): Option<WillFields> {
    match w
    case None => None
    case Some(w) => Some(WillFields(w.isRetained, if w.qos.QoS1? then 1 else 0, w.topic, w.message))
  }

  /** Strings the packet can carry. */
  predicate Carriable(s: seq<byte>) {
    1 <= |s| <= MAX_STRING
  }

  predicate CarriableRequest(r: ConnectRequest) {
    && (r.clientId.Some? ==> Carriable(r.clientId.value))
    && (r.will.Some? ==> Carriable(r.will.value.topic) && Carriable(r.will.value.message))
  }

  /** The flag bits never overlap, so OR-ing them in is adding them up. */
  lemma FlagsAddUp(r: ConnectRequest)
    ensures ConnectFlags(r) ==
            (if r.isCleanSession then 2 else 0) + (if r.isMetricsEnabled then 128 else 0) +
            (match r.will
             case None => 0
             case Some(w) => 4 + (if w.isRetained then 32 else 0) + (if w.qos.QoS1? then 8 else 0))
  {
    var f1 := if r.isCleanSession then OrBit(0, 0x02) else 0;
    var f2 := if r.isMetricsEnabled then OrBit(f1, 0x80) else f1;
  }

  /** The flag byte announces the user name and the will exactly when the payload carries them. */
  lemma FlagsAgreeWithPayload(r: ConnectRequest)
    ensures FlagsAllowed(ConnectFlags(r))
    ensures BitSet(ConnectFlags(r), 0x02) <==> r.isCleanSession
    ensures BitSet(ConnectFlags(r), 0x04) <==> r.will.Some?
    ensures BitSet(ConnectFlags(r), 0x80) <==> r.isMetricsEnabled
    ensures !BitSet(ConnectFlags(r), 0x40)
    ensures r.will.Some? ==> (BitSet(ConnectFlags(r), 0x20) <==> r.will.value.isRetained)
    ensures r.will.Some? ==> WillQosBits(ConnectFlags(r)) == if r.will.value.qos.QoS1? then 1 else 0
  {
    FlagsAddUp(r);
    hide ConnectFlags;
    var base := (if r.isCleanSession then 2 else 0) + (if r.isMetricsEnabled then 128 else 0);
    if r.will.Some? {
      if r.will.value.isRetained {
        if r.will.value.qos.QoS1? {
          assert ConnectFlags(r) == base + 44;
        } else {
          assert ConnectFlags(r) == base + 36;
        }
      } else if r.will.value.qos.QoS1? {
        assert ConnectFlags(r) == base + 12;
      } else {
        assert ConnectFlags(r) == base + 4;
      }
    } else {
      assert ConnectFlags(r) == base;
    }
  }

  lemma ClientIdRoundTrip(clientId: Option<seq<byte>>, rest: seq<byte>)
    requires clientId.Some? ==> Carriable(clientId.value)
    ensures TakeString(ClientIdBytes(clientId) + rest) ==
            Some((if clientId.Some? then clientId.value else [], rest))
  {
    if clientId.Some? {
      StringRoundTrip(clientId.value, rest);
    } else {
      var s := BigEndian16(0) + rest;
      assert s[2..] == rest && s[2..2] == [];
    }
  }

  /** What the standard's decoder should make of the request. */
  function ConnectView(r: ConnectRequest): ConnectFields {
    ConnectFields(r.isCleanSession, KeepAliveOnWire(r.keepAlive), if r.clientId.Some? then r.clientId.value else [],
                  WillView(r.will), if r.isMetricsEnabled then Some(METRICS_USERNAME) else None, None)
  }

  /** The payload decoder, field by field. */
  lemma PayloadFields(flags: byte, keepAlive: uint16, payload: seq<byte>, clientId: seq<byte>, s1: seq<byte>,
                      topic: Option<seq<byte>>, s2: seq<byte>, message: Option<seq<byte>>, s3: seq<byte>,
                      username: Option<seq<byte>>)
    requires TakeString(payload) == Some((clientId, s1))
    requires TakeOptional(s1, BitSet(flags, 0x04)) == Some((topic, s2))
    requires TakeOptional(s2, BitSet(flags, 0x04)) == Some((message, s3))
    requires TakeOptional(s3, BitSet(flags, 0x80)) == Some((username, []))
    requires !BitSet(flags, 0x40)
    ensures DecodePayload(flags, keepAlive, payload) ==
            Some(ConnectFields(BitSet(flags, 0x02), keepAlive, clientId, WillOf(flags, topic, message), username, None))
  {
    assert TakeOptional([], false) == Some((None, []));
    hide TakeString, TakeOptional, BitSet, WillQosBits;
  }

  /** What the flag byte has to say of the payload. */
  predicate FlagsSay(flags: byte, r: ConnectRequest) {
    && (BitSet(flags, 0x02) <==> r.isCleanSession)
    && (BitSet(flags, 0x04) <==> r.will.Some?)
    && (BitSet(flags, 0x80) <==> r.isMetricsEnabled)
    && !BitSet(flags, 0x40)
    && (r.will.Some? ==> (BitSet(flags, 0x20) <==> r.will.value.isRetained))
    && (r.will.Some? ==> WillQosBits(flags) == if r.will.value.qos.QoS1? then 1 else 0)
  }

  /** The strings of a will, if there is one, are read before what follows. */
  lemma WillRoundTrip(will: Option<Will>, rest: seq<byte>)
    requires will.Some? ==> Carriable(will.value.topic) && Carriable(will.value.message)
    ensures var topic := TakeOptional(OptionalWill(will) + rest, will.Some?);
            && topic.Some? && topic.value.0 == (if will.Some? then Some(will.value.topic) else None)
            && TakeOptional(topic.value.1, will.Some?) ==
               Some((if will.Some? then Some(will.value.message) else None, rest))
  {
    if will.Some? {
      var w := will.value;
      assert OptionalWill(will) + rest == Utf8Bytes(w.topic) + (Utf8Bytes(w.message) + rest);
      StringRoundTrip(w.topic, Utf8Bytes(w.message) + rest);
      StringRoundTrip(w.message, rest);
      hide TakeString, Utf8Bytes;
    } else {
      assert OptionalWill(will) + rest == rest;
    }
  }

  /** The user name, if there is one, ends the payload. */
  lemma UserRoundTrip(isMetricsEnabled: bool)
    ensures TakeOptional(OptionalUser(isMetricsEnabled), isMetricsEnabled) ==
            Some((if isMetricsEnabled then Some(METRICS_USERNAME) else None, []))
    ensures TakeOptional([], false) == Some((None, []))
  {
    hide TakeString, Utf8Bytes, Ascii;
    if isMetricsEnabled {
      LastText(METRICS_USERNAME);
    }
  }

  lemma LastText(s: seq<byte>)
    requires Carriable(s)
    ensures TakeOptional(Utf8Bytes(s), true) == Some((Some(s), []))
  {
    hide TakeString, Utf8Bytes;
    StringRoundTrip(s, []);
    assert Utf8Bytes(s) + [] == Utf8Bytes(s);
  }

  /** The fixed part of the packet is read off and the rest handed to the payload decoder. */
  lemma HeaderDecodes(start: seq<byte>, flags: byte, high: byte, low: byte, payload: seq<byte>)
    requires start == [0x00, 0x04, 0x4D, 0x51, 0x54, 0x54, 0x04]
    ensures DecodeConnect(start + ([flags, high, low] + payload)) ==
            if FlagsAllowed(flags) then DecodePayload(flags, FromBigEndian16(high, low), payload) else None
  {
    hide FlagsAllowed, DecodePayload, FromBigEndian16;
    var body := start + ([flags, high, low] + payload);
    assert body[..7] == start && body[10..] == payload;
  }

  lemma ProtocolBytes()
    ensures Utf8Bytes(PROTOCOL_ID) + [PROTOCOL_LEVEL] == [0x00, 0x04, 0x4D, 0x51, 0x54, 0x54, 0x04]
  {
  }

  /** The user name, byte for byte. */
  lemma MetricsBytes()
    ensures METRICS_USERNAME == [0x3F, 0x53, 0x44, 0x4B, 0x3D, 0x43, 0x50, 0x50, 0x26, 0x56, 0x65,
                                 0x72, 0x73, 0x69, 0x6F, 0x6E, 0x3D, 0x31, 0x2E, 0x34, 0x2E, 0x30]
  {
    hide Ascii;
    var text := "?SDK=CPP&Version=1.4.0";
    assert METRICS_USERNAME == Ascii(text);
    assert forall i :: 0 <= i < 22 ==> Ascii(text)[i] == text[i] as int % 256;
  }

  /** A CONNECT built from strings it can carry has its declared length, and the standard's decoder recovers what it was
      built from, with the keep-alive in seconds, or 65535 where there are more, and the user name of the SDK where
      metrics are enabled. */
  lemma ConnectRoundTrip(r: ConnectRequest)
    requires CarriableRequest(r)
    ensures |ConnectBody(r)| == ConnectSize(r) <= MAX_REMAINING_LENGTH
    ensures DecodeConnect(ConnectBody(r)) == Some(ConnectView(r))
    ensures var c := DecodeConnect(ConnectBody(r)).value;
            && c.cleanSession == r.isCleanSession
            && c.keepAlive == (if r.keepAlive <= 65535 then r.keepAlive else 65535)
            && c.clientId == (if r.clientId.Some? then r.clientId.value else [])
            && (c.will.Some? <==> r.will.Some?)
            && (r.will.Some? ==>
                  && c.will.value.isRetained == r.will.value.isRetained
                  && c.will.value.qos == (match r.will.value.qos case QoS0 => 0 case QoS1 => 1)
                  && c.will.value.topic == r.will.value.topic && c.will.value.message == r.will.value.message)
            && (c.username.Some? <==> r.isMetricsEnabled) && c.password.None?
            && (r.isMetricsEnabled ==>
                  c.username.value == [0x3F, 0x53, 0x44, 0x4B, 0x3D, 0x43, 0x50, 0x50, 0x26, 0x56, 0x65,
                                       0x72, 0x73, 0x69, 0x6F, 0x6E, 0x3D, 0x31, 0x2E, 0x34, 0x2E, 0x30])
  {
    hide ConnectFlags, FlagsAllowed, DecodeConnect, ConnectPayload, ConnectBody, Utf8Bytes, BigEndian16, BitSet,
      WillQosBits;
    ConnectLength(r);
    FlagsAgreeWithPayload(r);
    BodyInOrder(r);
    ConnectRecovered(r, ConnectFlags(r), BigEndian16(KeepAliveOnWire(r.keepAlive)));
    BigEndianRoundTrip(KeepAliveOnWire(r.keepAlive));
    MetricsBytes();
  }

  lemma ConnectRecovered(r: ConnectRequest, flags: byte, keepAlive: seq<byte>)
    requires CarriableRequest(r) && FlagsSay(flags, r) && FlagsAllowed(flags) && |keepAlive| == 2
    ensures DecodeConnect([0x00, 0x04, 0x4D, 0x51, 0x54, 0x54, 0x04] +
                          ([flags, keepAlive[0], keepAlive[1]] + ConnectPayload(r))) ==
            Some(ConnectView(r).(keepAlive := FromBigEndian16(keepAlive[0], keepAlive[1])))
  {
    hide FlagsAllowed, TakeString, TakeOptional, ClientIdBytes, OptionalWill, OptionalUser, BitSet, WillQosBits, Ascii,
      DecodeConnect, DecodePayload, KeepAliveOnWire, FromBigEndian16;
    var user, payload := OptionalUser(r.isMetricsEnabled), ConnectPayload(r);
    WillRoundTrip(r.will, user);
    UserRoundTrip(r.isMetricsEnabled);
    ClientIdRoundTrip(r.clientId, OptionalWill(r.will) + user);
    var client := TakeString(payload).value;
    var topic := TakeOptional(client.1, r.will.Some?).value;
    var message := TakeOptional(topic.1, r.will.Some?).value;
    PayloadFields(flags, FromBigEndian16(keepAlive[0], keepAlive[1]), payload, client.0, client.1, topic.0, topic.1,
                  message.0, user, if r.isMetricsEnabled then Some(METRICS_USERNAME) else None);
    assert WillOf(flags, topic.0, message.0) == WillView(r.will);
    HeaderDecodes([0x00, 0x04, 0x4D, 0x51, 0x54, 0x54, 0x04], flags, keepAlive[0], keepAlive[1], payload);
  }

  lemma BodyInOrder(r: ConnectRequest)
    ensures var keepAlive := BigEndian16(KeepAliveOnWire(r.keepAlive));
            && ConnectBody(r) == (Utf8Bytes(PROTOCOL_ID) + [PROTOCOL_LEVEL]) +
                                 ([ConnectFlags(r), keepAlive[0], keepAlive[1]] + ConnectPayload(r))
            && Utf8Bytes(PROTOCOL_ID) + [PROTOCOL_LEVEL] == [0x00, 0x04, 0x4D, 0x51, 0x54, 0x54, 0x04]
  {
    ProtocolBytes();
    hide ConnectFlags, ConnectPayload, Utf8Bytes, Ascii, KeepAliveOnWire, BigEndian16;
    var keepAlive := BigEndian16(KeepAliveOnWire(r.keepAlive));
    assert keepAlive == [keepAlive[0], keepAlive[1]];
  }

  /** The packet forces a clean session when it has no client id, but only in its own record: the flag it sends follows
      the caller. They agree exactly when the caller gave an id or asked for a clean session, which the factory
      demands and the constructor does not. */
  lemma CleanSessionFlag(r: ConnectRequest)
    ensures BitSet(ConnectFlags(r), 0x02) == (r.isCleanSession || r.clientId.None?) <==>
            r.clientId.Some? || r.isCleanSession
  {
    FlagsAgreeWithPayload(r);
  }
}
