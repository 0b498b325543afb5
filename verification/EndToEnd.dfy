/** From the bytes of the acknowledgements to the callbacks (src/mqtt/NetworkRead.cpp:136-327). */
module EndToEnd {
  import opened MqttTypes
  import opened KeyOrder
  import opened TopicFilter
  import opened SubscriptionProtocol
  import opened SubscriptionInvariants
  import opened Acknowledgements
  import opened OutboundQueue
  import opened Delivery
  import NetworkRead

  type SubEngine = SubscriptionProtocol.Engine

  lemma IdBytes(pid: uint16, codes: seq<byte>)
    ensures var body := [pid / 256, pid % 256] + codes;
            |body| >= 2 && NetworkRead.PacketIdOf(body) == pid && body[2..] == codes
  {
  }

  /** The client after a SUBSCRIBE went out and the bytes of a SUBACK came in. */
  ghost function AfterSuback(s: SubEngine, list: TopicList, pid: uint16, codes: seq<byte>): SubEngine {
    NetworkRead.StepOf(SubscriptionProtocol.Step(s, SubscriptionProtocol.Event.Subscribe(list, pid, true)), 0x90,
                       [pid / 256, pid % 256] + codes)
  }

  /** Subscribe to distinct inactive topics under a fresh id, receive the bytes of a SUBACK, then a message that a topic of
      the request accepts and no other entry does. The callback runs exactly when the topic's code is 0 or 1; for 128
      there is no subscription any more; for any other code it is there but not active, unless it was to begin with. */
  lemma SubscribeThenPublish(s: SubEngine, list: TopicList, pid: uint16, codes: seq<byte>, i: nat, topic: seq<byte>)
    requires CleanRequest(s.subs, list) && Unused(s.subs, pid) && pid != 0 && |codes| == |list| && i < |list|
    requires !list[i].isActive && Accepts(list[i].topic, topic)
    requires forall k :: k != list[i].topic && (k in s.subs || k in Topics(list)) ==> !Accepts(k, topic)
    ensures PublishResult(AfterSuback(s, list, pid, codes).subs, topic) ==
            if codes[i] <= 1 then Success else if codes[i] == 128 then NoSubscriptionFound else SubscriptionNotActive
  {
    SubscribeThenSuback(s.subs, list, pid, codes);
    hide SubscribeStep, ApplyCodes, Accepts, CleanRequest, Unused, PublishResult, AfterSuback;
    var k, after := list[i].topic, AfterSuback(s, list, pid, codes).subs;
    forall other | other in after && other != k
      ensures !Accepts(other, topic)
    {
      assert other !in Topics(list) ==> other in s.subs;
    }
  }

  /** The client after the bytes of an UNSUBACK came in. */
  ghost function AfterUnsuback(s: SubEngine, pid: uint16): SubEngine {
    NetworkRead.StepOf(s, 0xB0, [pid / 256, pid % 256])
  }

  /** And after an UNSUBSCRIBE under a fresh id and the bytes of its UNSUBACK no message reaches the topics it named;
      until the UNSUBACK comes, they get theirs. */
  lemma UnsubscribeThenPublish(s: SubEngine, topics: seq<Key>, pid: uint16, k: Key, topic: seq<byte>)
    requires Unused(s.subs, pid) && k in s.subs && k in topics && s.subs[k].isActive && Accepts(k, topic)
    requires forall other :: other in s.subs && other != k ==> !Accepts(other, topic)
    ensures var waiting := SubscriptionProtocol.Step(s, SubscriptionProtocol.Event.Unsubscribe(topics, pid));
            && PublishResult(waiting.subs, topic) == Success
            && PublishResult(AfterUnsuback(waiting, pid).subs, topic) == NoSubscriptionFound
  {
    IdBytes(pid, []);
    assert [pid / 256, pid % 256] + [] == [pid / 256, pid % 256];
    UnsubscribeThenUnsuback(s.subs, topics, pid);
    var waiting := SubscriptionProtocol.Step(s, SubscriptionProtocol.Event.Unsubscribe(topics, pid));
    assert waiting.subs == UnsubscribeStep(s.subs, topics, pid);
    assert k in waiting.subs && waiting.subs[k].isActive && forall other :: other in waiting.subs <==> other in s.subs;
    var after := AfterUnsuback(waiting, pid).subs;
    assert after == s.subs - KeySet(topics);
    hide Accepts, SubscriptionFor;
    FoundIsLeast(waiting.subs, topic);
    FoundIsLeast(after, topic);
  }

  /** After a disconnect no message reaches anyone, whatever the map holds. */
  lemma NothingAfterDisconnect(s: SubEngine, topic: seq<byte>)
    requires s.connected
    ensures PublishResult(SubscriptionProtocol.Step(s, SubscriptionProtocol.Event.Disconnect).subs, topic) ==
            if exists k :: k in s.subs && Accepts(k, topic) then SubscriptionNotActive else NoSubscriptionFound
  {
    hide Accepts, SubscriptionFor;
    var after := SubscriptionProtocol.Step(s, SubscriptionProtocol.Event.Disconnect).subs;
    assert forall k :: k in after <==> k in s.subs;
    FoundIsLeast(after, topic);
  }

  /** What the bytes of the acknowledgements do to the connection, and who is told. */
  lemma AcknowledgementBytes(s: SubEngine, c: Core, limit: nat, session: byte, code: byte, pid: uint16,
                             codes: seq<byte>)
    ensures NetworkRead.StepOf(s, 0x20, [session, code]) == if code == 0 then s.(connected := true) else s
    ensures var after := NetworkRead.CoreStepOf(c, limit, 0x20, [session, code], false);
            if code == 0 && 0 in c.pending
            then after == c.(pending := c.pending - {0}, notes := c.notes + [Note(c.pending[0], 0, ConnectionAccepted)])
            else after == c
    ensures var after := NetworkRead.CoreStepOf(c, limit, 0x40, [pid / 256, pid % 256], false);
            if pid in c.pending
            then after == c.(pending := c.pending - {pid}, notes := c.notes + [Note(c.pending[pid], pid, Success)])
            else after == c
    ensures var after := NetworkRead.CoreStepOf(c, limit, 0xB0, [pid / 256, pid % 256], false);
            if pid in c.pending
            then after == c.(pending := c.pending - {pid}, notes := c.notes + [Note(c.pending[pid], pid, Success)])
            else after == c
    ensures var after := NetworkRead.CoreStepOf(c, limit, 0x90, [pid / 256, pid % 256] + codes, false);
            if pid in c.pending
            then after == c.(pending := c.pending - {pid},
                             notes := c.notes + [Note(c.pending[pid], pid, SubackResult(codes))])
            else after == c
    ensures NetworkRead.StepOf(s, 0x40, [pid / 256, pid % 256]) == s
  {
    IdBytes(pid, codes);
    IdBytes(pid, []);
    assert [pid / 256, pid % 256] + [] == [pid / 256, pid % 256];
    hide SubackResult;
  }

  /** What each CONNACK code is reported as, by section 3.2.2.3 of MQTT 3.1.1. */
  lemma ConnackCodes(session: byte)
    ensures NetworkRead.ConnackResult([session, 0]) == Success
    ensures NetworkRead.ConnackResult([session, 1]) == UnacceptableProtocolVersion
    ensures NetworkRead.ConnackResult([session, 2]) == IdentifierRejected
    ensures NetworkRead.ConnackResult([session, 3]) == ServerUnavailable
    ensures NetworkRead.ConnackResult([session, 4]) == BadUserdata
    ensures NetworkRead.ConnackResult([session, 5]) == NotAuthorized
    ensures forall code: byte :: code > 5 ==> NetworkRead.ConnackResult([session, code]) == UnexpectedPacketFormat
  {
  }
}
