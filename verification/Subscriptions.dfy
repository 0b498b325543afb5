/** One subscription, shared between the client's map and the packets that name it (include/mqtt/Common.hpp). */
module Subscriptions {
  import opened MqttTypes
  import opened KeyOrder
  import opened TopicFilter
  import opened SubscriptionProtocol

  class Subscription {
    const topicName: Key
    const topicRegex: seq<byte>
    var isActive: bool
    var packetId: uint16
    var indexInPacket: byte
    var maxQos: QoS

    constructor (topicName: Key, maxQos: QoS)
      ensures this.topicName == topicName && topicRegex == RegexText(topicName)
      ensures View() == Sub(topicName, false, 0, 0, maxQos)
    {
      this.topicName, this.maxQos := topicName, maxQos;
      isActive, packetId, indexInPacket := false, 0, 0;
      var regex := BuildRegex(topicName);
      topicRegex := regex;
    }

    /** Invalid filters get no subscription. */
    static method Create(topicName: Key, maxQos: QoS) returns (s: Subscription?)
      ensures s != null <==> ValidFilter(topicName)
      ensures s != null ==> fresh(s) && s.topicRegex == RegexText(topicName)
                            && s.View() == Sub(topicName, false, 0, 0, maxQos)
    {
      var ok := IsValidTopicName(topicName);
      if !ok {
        return null;
      }
      s := new Subscription(topicName, maxQos);
    }

    function View(): Sub
      reads this
    {
      Sub(topicName, isActive, packetId, indexInPacket, maxQos)
    }

    method SetActive(value: bool)
      modifies this`isActive
      ensures View() == old(View()).(isActive := value)
    {
      isActive := value;
    }

    method SetAckIndex(packetId: uint16, indexInPacket: byte)
      modifies this`packetId, this`indexInPacket
      ensures View() == old(View()).(packetId := packetId, index := indexInPacket)
    {
      this.packetId := packetId;
      this.indexInPacket := indexInPacket;
    }

    method SetMaxQos(maxQos: QoS)
      modifies this`maxQos
      ensures View() == old(View()).(maxQos := maxQos)
    {
      this.maxQos := maxQos;
    }

    predicate IsInSuback(packetId: uint16, indexInPacket: byte)
      reads this
      ensures IsInSuback(packetId, indexInPacket) == View().IsInSuback(packetId, indexInPacket)
    {
      packetId == this.packetId && indexInPacket == this.indexInPacket
    }
  }
}
