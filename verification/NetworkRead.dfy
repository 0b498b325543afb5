/** The handlers of received packets, on the client's shared state (src/mqtt/NetworkRead.cpp:192-327). */
module NetworkRead {
  import opened MqttTypes
  import opened KeyOrder
  import opened TopicFilter
  import opened SubscriptionProtocol
  import opened Subscriptions
  import opened OutboundQueue
  import opened ClientCore
  import opened ClientState
  import opened Delivery
  import opened PublishCodec
  import opened NetworkWrite

  const CONNACK_RESERVED_PACKET_ID: uint16 := 0

  function PacketIdOf(readBuf: seq<byte>): uint16
    requires |readBuf| >= 2
  {
    FromBigEndian16(readBuf[0], readBuf[1])
  }

  lemma CodesOnce(subs: SubMap, pid: uint16, codes: seq<byte>, i: nat)
    requires i < |codes|
    ensures ApplyCodes(subs, pid, codes, i) == ApplyCodes(ApplyCode(subs, pid, i, codes[i]), pid, codes, i + 1)
  {
    hide ApplyCode;
  }

  /** The eight-bit counter that starts from zero. */
  function Narrow(i: nat): byte {
    i % 256
  }

  lemma CounterStep(i: nat)
    ensures Narrow(0) == 0
    ensures (Narrow(i) + 1) % 256 == Narrow(i + 1) == AckIndex(i)
  {
  }

  lemma CodesDone(subs: SubMap, pid: uint16, codes: seq<byte>)
    ensures ApplyCodes(subs, pid, codes, |codes|) == subs
  {
  }

  /** The result reported for a CONNACK. */
  function ConnackResult(readBuf: seq<byte>): ResponseCode {
    if |readBuf| != 2 then DecodeRemainingLengthError
    else match readBuf[1]
      case 0 => Success
      case 1 => UnacceptableProtocolVersion
      case 2 => IdentifierRejected
      case 3 => ServerUnavailable
      case 4 => BadUserdata
      case 5 => NotAuthorized
      case _ => UnexpectedPacketFormat
  }

  /** The callback made for a message, if one is. */
  ghost function Deliveries(subs: SubMap, topic: seq<byte>, payload: seq<byte>): seq<(Key, seq<byte>, seq<byte>)> {
    if PublishResult(subs, topic).Success? then [(SubscriptionFor(subs, topic).value, topic, payload)] else []
  }

  /** At most one callback was called, with the topic and payload, and that of an active subscription. */
  ghost predicate Called(subs: SubMap, before: seq<(Key, seq<byte>, seq<byte>)>,
                         after: seq<(Key, seq<byte>, seq<byte>)>, topic: seq<byte>, payload: seq<byte>) {
    after == before || exists k :: k in subs && subs[k].isActive && after == before + [(k, topic, payload)]
  }

  function AfterPuback(c: Core, limit: nat, queued: bool): Core {
    if queued then EnqueueStep(c, limit, PubackAction, None) else c
  }

  /** The packets the handlers can take apart. */
  predicate Handleable(header: byte, readBuf: seq<byte>) {
    match header / 16
    case 3 => Readable(readBuf, ReceivedQos(header))
    case 4 => |readBuf| >= 2
    case 9 => |readBuf| >= 2
    case 11 => |readBuf| >= 2
    case _ => true
  }

  /** The protocol step a received packet is. */
  ghost function StepOf(s: Engine, header: byte, readBuf: seq<byte>): Engine {
    match header / 16
    case 2 => if |readBuf| == 2 then SubscriptionProtocol.Step(s, SubscriptionProtocol.Event.Connack(readBuf[1])) else s
    case 9 =>
      if |readBuf| >= 2
      then SubscriptionProtocol.Step(s, SubscriptionProtocol.Event.Suback(PacketIdOf(readBuf), readBuf[2..])) else s
    case 11 =>
      if |readBuf| >= 2
      then SubscriptionProtocol.Step(s, SubscriptionProtocol.Event.Unsuback(PacketIdOf(readBuf))) else s
    case _ => s
  }

  /** What a received packet does to the queue and the pending acknowledgements: CONNACK, PUBACK, SUBACK and UNSUBACK
      are forwarded, and a QoS 1 message that was delivered is acknowledged. */
  ghost function CoreStepOf(c: Core, limit: nat, header: byte, readBuf: seq<byte>, delivered: bool): Core {
    match header / 16
    case 2 =>
      if ConnackResult(readBuf).Success? then AckStep(c, CONNACK_RESERVED_PACKET_ID, ConnectionAccepted) else c
    case 3 => AfterPuback(c, limit, delivered && ReceivedQos(header).QoS1?)
    case 4 => if |readBuf| >= 2 then AckStep(c, PacketIdOf(readBuf), Success) else c
    case 9 => if |readBuf| >= 2 then AckStep(c, PacketIdOf(readBuf), SubackResult(readBuf[2..])) else c
    case 11 => if |readBuf| >= 2 then AckStep(c, PacketIdOf(readBuf), Success) else c
    case _ => c
  }

  class NetworkReadActionRunner {
    const clientState: ClientState

    /** The calls made to subscription callbacks: whose, and with what. */
    var delivered: seq<(Key, seq<byte>, seq<byte>)>

    constructor (clientState: ClientState)
      ensures this.clientState == clientState && delivered == []
    {
      this.clientState := clientState;
      delivered := [];
    }

    /** The client as the protocol sees it. */
    ghost function EngineView(): Engine
      reads this, clientState, clientState.core, clientState.Objects()
    {
      Engine(clientState.View(), clientState.isConnected, clientState.core.lastSentPacketId)
    }

    /** Connected now, and whoever waits under the id kept for CONNACK is told. */
    method AcceptConnection()
      requires clientState.Valid()
      modifies clientState`isConnected, clientState`isAutoReconnectRequired
      modifies clientState.core`pendingAckMap, clientState.core`notes
      ensures clientState.Valid() && EngineView() == old(EngineView()).(connected := true)
      ensures !clientState.isAutoReconnectRequired && clientState.isConnected
      ensures clientState.core.View() ==
              AckStep(old(clientState.core.View()), CONNACK_RESERVED_PACKET_ID, ConnectionAccepted)
      ensures clientState.core.Told(old(clientState.core.pendingAckMap), old(clientState.core.notes), 0,
                                    ConnectionAccepted)
    {
      hide RegexText, AckStep, ClientCoreState.Told;
      clientState.SetConnected(true);
      assert clientState.core.View() == old(clientState.core.View());
      clientState.core.ForwardReceivedAck(CONNACK_RESERVED_PACKET_ID, ConnectionAccepted);
      assert clientState.View() == old(clientState.View());
    }

    method HandleConnack(readBuf: seq<byte>) returns (rc: ResponseCode)
      requires clientState.Valid()
      modifies clientState`isConnected, clientState`isAutoReconnectRequired, clientState`isSessionPresent
      modifies clientState.core`pendingAckMap, clientState.core`notes
      ensures clientState.Valid() && rc == ConnackResult(readBuf)
      ensures |readBuf| == 2 ==>
                EngineView() ==
                SubscriptionProtocol.Step(old(EngineView()), SubscriptionProtocol.Event.Connack(readBuf[1]))
      ensures |readBuf| != 2 ==> EngineView() == old(EngineView())
      ensures clientState.isSessionPresent == if |readBuf| == 2 then readBuf[0] == 1 else old(clientState.isSessionPresent)
      ensures rc.Success? ==> !clientState.isAutoReconnectRequired
      ensures !rc.Success? ==> clientState.isAutoReconnectRequired == old(clientState.isAutoReconnectRequired)
      ensures clientState.core.View() ==
              if rc.Success? then AckStep(old(clientState.core.View()), CONNACK_RESERVED_PACKET_ID, ConnectionAccepted)
              else old(clientState.core.View())
      ensures if rc.Success?
              then clientState.core.Told(old(clientState.core.pendingAckMap), old(clientState.core.notes), 0,
                                         ConnectionAccepted)
              else clientState.core.notes == old(clientState.core.notes) &&
                   clientState.core.pendingAckMap == old(clientState.core.pendingAckMap)
    {
      hide RegexText, AckStep, ClientCoreState.Told;
      rc := Success;
      if 2 != |readBuf| {
        rc := DecodeRemainingLengthError;
      } else {
        clientState.isSessionPresent := readBuf[0] == 1;
        assert clientState.core.View() == old(clientState.core.View()) && EngineView() == old(EngineView());
        var connackRcByte := readBuf[1];
        if connackRcByte > 5 {
          return UnexpectedPacketFormat;
        }
        if connackRcByte == 0 {
          AcceptConnection();
        } else if connackRcByte == 1 {
          rc := UnacceptableProtocolVersion;
        } else if connackRcByte == 2 {
          rc := IdentifierRejected;
        } else if connackRcByte == 3 {
          rc := ServerUnavailable;
        } else if connackRcByte == 4 {
          rc := BadUserdata;
        } else {
          rc := NotAuthorized;
        }
      }
    }

    method HandlePuback(readBuf: seq<byte>) returns (rc: ResponseCode)
      requires |readBuf| >= 2
      modifies clientState.core`pendingAckMap, clientState.core`notes
      ensures rc == Success
      ensures clientState.core.View() == AckStep(old(clientState.core.View()), PacketIdOf(readBuf), Success)
      ensures clientState.core.Told(old(clientState.core.pendingAckMap), old(clientState.core.notes),
                                    readBuf[0] as int * 256 + readBuf[1] as int, Success)
    {
      clientState.core.ForwardReceivedAck(PacketIdOf(readBuf), Success);
      rc := Success;
    }

    /** Code by code, then the result to whoever waits for it. The position counter is eight bits wide. */
    method HandleSuback(readBuf: seq<byte>) returns (rc: ResponseCode)
      requires clientState.Valid() && |readBuf| >= 2
      modifies clientState`subscriptionMap, clientState.Objects()
      modifies clientState.core`pendingAckMap, clientState.core`notes
      ensures clientState.Valid()
      ensures EngineView() ==
              SubscriptionProtocol.Step(old(EngineView()),
                                        SubscriptionProtocol.Event.Suback(PacketIdOf(readBuf), readBuf[2..]))
      ensures rc == SubackResult(readBuf[2..])
      ensures clientState.core.View() == AckStep(old(clientState.core.View()), PacketIdOf(readBuf), rc)
      ensures clientState.core.Told(old(clientState.core.pendingAckMap), old(clientState.core.notes),
                                    readBuf[0] as int * 256 + readBuf[1] as int, SubackResult(readBuf[2..]))
    {
      hide RegexText, AckStep, ApplyCodes, SubackResult;
      var packetId, codes := PacketIdOf(readBuf), readBuf[2..];
      rc := ApplySuback(packetId, codes);
      assert clientState.core.View() == old(clientState.core.View());
      ghost var subs := clientState.View();
      clientState.core.ForwardReceivedAck(packetId, rc);
      assert clientState.View() == subs;
    }

    method ApplySuback(packetId: uint16, codes: seq<byte>) returns (rc: ResponseCode)
      requires clientState.Valid()
      modifies clientState`subscriptionMap, clientState.Objects()
      ensures clientState.Valid()
      ensures clientState.View() == ApplyCodes(old(clientState.View()), packetId, codes, 0)
      ensures rc == SubackResult(codes)
    {
      hide ApplyCodes, ApplyCode, AckTarget, RegexText, Narrow, AckIndex;
      CounterStep(0);
      var itr: byte := 0;
      var hasSuccess, hasFailure := false, false;
      var i := 0;
      ghost var whole := ApplyCodes(clientState.View(), packetId, codes, 0);
      while i < |codes|
        invariant 0 <= i <= |codes| && itr == Narrow(i)
        invariant clientState.Valid() && clientState.Objects() <= old(clientState.Objects())
        invariant whole == ApplyCodes(clientState.View(), packetId, codes, i)
        invariant hasSuccess <==> 0 in codes[..i] || 1 in codes[..i]
        invariant hasFailure <==> 128 in codes[..i]
      {
        CodesOnce(clientState.View(), packetId, codes, i);
        CounterStep(i);
        assert codes[..i + 1] == codes[..i] + [codes[i]];
        itr := (itr + 1) % 256;
        ApplyOne(packetId, codes[i], itr, i);
        hasFailure := hasFailure || 128 == codes[i];
        hasSuccess := hasSuccess || 0 == codes[i] || 1 == codes[i];
        i := i + 1;
      }
      CodesDone(clientState.View(), packetId, codes);
      assert codes[..i] == codes;
      rc := SubscribeFailed;
      if hasSuccess && hasFailure {
        rc := SubscribePartiallyFailed;
      } else if hasSuccess {
        rc := Success;
      }
    }

    /** One code of a SUBACK. */
    method ApplyOne(packetId: uint16, code: byte, index: byte, ghost position: nat)
      requires clientState.Valid() && index == AckIndex(position)
      modifies clientState`subscriptionMap, clientState.Objects()
      ensures clientState.Valid() && clientState.Objects() <= old(clientState.Objects())
      ensures clientState.View() == ApplyCode(old(clientState.View()), packetId, position, code)
    {
      hide SetActive, RemoveAck, AckTarget, RegexText, AckIndex;
      if 128 == code {
        var _ := clientState.RemoveSubscription(packetId, index);
      } else if 0 == code {
        var _ := clientState.SetSubscriptionActive(packetId, index, QoS0);
      } else if 1 == code {
        var _ := clientState.SetSubscriptionActive(packetId, index, QoS1);
      }
    }

    method HandleUnsuback(readBuf: seq<byte>) returns (rc: ResponseCode)
      requires clientState.Valid() && |readBuf| >= 2
      modifies clientState`subscriptionMap, clientState.core`pendingAckMap, clientState.core`notes
      ensures clientState.Valid() && rc == Success
      ensures EngineView() ==
              SubscriptionProtocol.Step(old(EngineView()), SubscriptionProtocol.Event.Unsuback(PacketIdOf(readBuf)))
      ensures clientState.core.View() == AckStep(old(clientState.core.View()), PacketIdOf(readBuf), Success)
      ensures clientState.core.Told(old(clientState.core.pendingAckMap), old(clientState.core.notes),
                                    readBuf[0] as int * 256 + readBuf[1] as int, Success)
    {
      hide RegexText, AckStep, RemovePacket;
      var packetId := PacketIdOf(readBuf);
      var _ := clientState.RemoveAllSubscriptionsForPacketId(packetId);
      assert clientState.core.View() == old(clientState.core.View());
      clientState.core.ForwardReceivedAck(packetId, Success);
      rc := Success;
    }

    /** Hands the message to the callback of the first subscription that accepts its topic, if that is active, and then
        queues the acknowledgement a QoS 1 message asks for. What is acknowledged is the id in the message; the
        acknowledgement's own id is the next action id. */
    method HandlePublish(readBuf: seq<byte>, isRetained: bool, isDuplicate: bool, qos: QoS) returns (rc: ResponseCode)
      requires clientState.Valid() && clientState.core.Valid() && Readable(readBuf, qos)
      modifies this`delivered, clientState.core`outboundActionQueue, clientState.core`lastSentPacketId
      ensures clientState.Valid() && clientState.core.Valid()
      ensures var p, subs := ParseBody(readBuf, qos).value, old(clientState.View());
              && Called(subs, old(delivered), delivered, p.topic, p.payload)
              && (AllTranslatable(subs) ==> delivered == old(delivered) + Deliveries(subs, p.topic, p.payload))
      ensures clientState.core.View() ==
              AfterPuback(old(clientState.core.View()), clientState.core.maxQueueSize,
                          delivered != old(delivered) && qos.QoS1?)
      ensures var full := |old(clientState.core.outboundActionQueue)| >= clientState.core.maxQueueSize;
              && (rc.Success? <==> delivered != old(delivered) && !(qos.QoS1? && full))
              && (AllTranslatable(old(clientState.View())) ==>
                    rc == if delivered != old(delivered) && qos.QoS1? && full then ActionQueueFull
                          else PublishResult(old(clientState.View()), ParseBody(readBuf, qos).value.topic))
      ensures rc.Success? && qos.QoS1? ==>
                Acknowledges(old(clientState.core.outboundActionQueue), ParseBody(readBuf, qos).value.packetId)
    {
      hide ParseBody, PublishResult, SubscriptionFor, Deliveries, EnqueueStep, RegexText, Readable, AllTranslatable,
        Called, Acknowledges;
      var packet := OpenPublish(readBuf, isRetained, isDuplicate, qos);
      assert clientState.View() == old(clientState.View()) && delivered == old(delivered);
      assert ParseBody(readBuf, qos).value == Parsed(packet.topicName, packet.packetId, packet.payload);
      rc := Deliver(packet.topicName, packet.payload);
      assert clientState.core.View() == old(clientState.core.View());
      assert clientState.core.outboundActionQueue == old(clientState.core.outboundActionQueue);
      if rc.Success? && qos != QoS0 {
        rc := QueuePuback(packet.packetId);
      }
    }

    /** The queue has grown by an acknowledgement of the packet id, which has an action id of its own. */
    ghost predicate Acknowledges(before: seq<QueueEntry>, publishId: uint16)
      reads clientState.core, set e | e in clientState.core.outboundActionQueue :: e.1
      reads set e | e in clientState.core.outboundActionQueue && e.1.puback != null :: e.1.puback.header
    {
      var queue := clientState.core.outboundActionQueue;
      && |queue| == |before| + 1 && queue[..|before|] == before
      && queue[|before|].0 == PubackAction
      && var data := queue[|before|].1;
      && data.handler.None? && data.actionId == clientState.core.lastSentPacketId
      && data.puback != null && data.puback.Wellformed() && data.puback.publishPacketId == publishId
    }

    method Deliver(topicName: seq<byte>, payload: seq<byte>) returns (rc: ResponseCode)
      requires clientState.Valid()
      modifies this`delivered
      ensures Called(old(clientState.View()), old(delivered), delivered, topicName, payload)
      ensures rc.Success? <==> delivered != old(delivered)
      ensures AllTranslatable(old(clientState.View())) ==>
                && delivered == old(delivered) + Deliveries(old(clientState.View()), topicName, payload)
                && rc == PublishResult(old(clientState.View()), topicName)
    {
      hide SubscriptionFor, RegexText, AllTranslatable;
      ghost var subs := clientState.View();
      ghost var found := SubscriptionFor(subs, topicName);
      var s := clientState.GetSubscription(topicName);
      assert clientState.View() == subs;
      if s != null {
        assert s.topicName in subs && subs[s.topicName] == s.View();
        if s.isActive {
          delivered := delivered + [(s.topicName, topicName, payload)];
          rc := Success;
        } else {
          rc := SubscriptionNotActive;
        }
      } else {
        rc := NoSubscriptionFound;
      }
    }

    method QueuePuback(publishId: uint16) returns (rc: ResponseCode)
      requires clientState.core.Valid()
      modifies clientState.core`outboundActionQueue, clientState.core`lastSentPacketId
      ensures clientState.core.Valid()
      ensures clientState.core.View() == AfterPuback(old(clientState.core.View()), clientState.core.maxQueueSize, true)
      ensures rc == if |old(clientState.core.outboundActionQueue)| >= clientState.core.maxQueueSize
                    then ActionQueueFull else Success
      ensures rc.Success? ==> Acknowledges(old(clientState.core.outboundActionQueue), publishId)
    {
      hide EnqueueStep;
      var packet := new PubackPacket(publishId);
      var data := new ActionData(None, packet);
      assert clientState.core.View() == old(clientState.core.View());
      var actionId;
      rc, actionId := clientState.core.EnqueueOutboundAction(PubackAction, data);
    }

    /** A QoS 1 message that is delivered while the queue has room is acknowledged by its own id: sending the queued
        acknowledgement writes a packet that a decoder of section 3.4 reads as an acknowledgement of that id, although
        queueing has given it another. */
    method AcknowledgePublish(readBuf: seq<byte>, isRetained: bool, isDuplicate: bool, steps: seq<WriteStep>)
      returns (rc: ResponseCode, sent: ResponseCode, written: seq<byte>)
      requires clientState.Valid() && clientState.core.Valid() && Readable(readBuf, QoS1)
      requires steps != [] && forall i :: 0 <= i < |steps| ==> steps[i].count <= 4
      modifies this`delivered, clientState.core`outboundActionQueue, clientState.core`lastSentPacketId
      ensures rc.Success? <==> delivered != old(delivered) &&
                               |old(clientState.core.outboundActionQueue)| < clientState.core.maxQueueSize
      ensures rc.Success? ==> (sent.Success? <==> steps[0].rc.Success? && steps[0].count == 4)
      ensures rc.Success? && sent.Success? ==>
                && |written| == 4 && written[1] == 2
                && DecodePuback(written[0], written[2..]) == Some(ParseBody(readBuf, QoS1).value.packetId)
    {
      hide ParseBody, DecodePuback, Called, Deliveries, PublishResult, AllTranslatable, AfterPuback, Readable,
        RegexText;
      sent, written := Failure, [];
      rc := HandlePublish(readBuf, isRetained, isDuplicate, QoS1);
      if rc.Success? {
        var queue := clientState.core.outboundActionQueue;
        sent, written := PerformPuback(queue[|queue| - 1].1, steps);
      }
    }

    /** What the reading loop does with a packet it has read, by the packet's type; other types are ignored. A PUBLISH
        hands its duplicate bit over as retained and its retain bit as duplicate. */
    method HandlePacket(header: byte, readBuf: seq<byte>) returns (rc: ResponseCode)
      requires clientState.Valid() && clientState.core.Valid() && Handleable(header, readBuf)
      modifies this`delivered, clientState, clientState.Objects()
      modifies clientState.core`pendingAckMap, clientState.core`notes
      modifies clientState.core`outboundActionQueue, clientState.core`lastSentPacketId
      ensures clientState.Valid()
      ensures clientState.View() == StepOf(old(EngineView()), header, readBuf).subs
      ensures clientState.isConnected == StepOf(old(EngineView()), header, readBuf).connected
      ensures header / 16 == 13 ==> !clientState.isPingreqPending
      ensures header / 16 != 13 ==> clientState.isPingreqPending == old(clientState.isPingreqPending)
      ensures header / 16 != 3 ==> delivered == old(delivered)
      ensures header / 16 == 3 ==>
                var p, subs := ParseBody(readBuf, ReceivedQos(header)).value, old(clientState.View());
                && Called(subs, old(delivered), delivered, p.topic, p.payload)
                && (AllTranslatable(subs) ==> delivered == old(delivered) + Deliveries(subs, p.topic, p.payload))
      ensures clientState.core.View() ==
              CoreStepOf(old(clientState.core.View()), clientState.core.maxQueueSize, header, readBuf,
                         delivered != old(delivered))
      ensures header / 16 == 3 && ReceivedQos(header).QoS1? && delivered != old(delivered) &&
              |old(clientState.core.outboundActionQueue)| < clientState.core.maxQueueSize ==>
                Acknowledges(old(clientState.core.outboundActionQueue), ParseBody(readBuf, QoS1).value.packetId)
    {
      hide Called, AllTranslatable, Acknowledges;
      hide RegexText, ApplyCodes, RemovePacket, ParseBody, Deliveries, PublishResult, AckStep, EnqueueStep, ConnackResult,
        SubackResult, BitSet;
      rc := Success;
      var messageType := header / 16;
      if messageType == 2 {
        rc := HandleConnack(readBuf);
      } else if messageType == 3 {
        var isRetained := BitSet(header, 0x01);
        var isDuplicate := BitSet(header, 0x08);
        rc := HandlePublish(readBuf, isDuplicate, isRetained, ReceivedQos(header));
        assert clientState.View() == old(clientState.View());
      } else if messageType == 4 {
        rc := HandlePuback(readBuf);
        assert clientState.View() == old(clientState.View());
      } else if messageType == 9 {
        rc := HandleSuback(readBuf);
      } else if messageType == 11 {
        rc := HandleUnsuback(readBuf);
      } else if messageType == 13 {
        clientState.isPingreqPending := false;
      }
    }
  }
}
