/** SUBSCRIBE and UNSUBSCRIBE (src/mqtt/Subscribe.cpp:42-92, 137-172). */
module SubscribeCodec {
  import opened MqttTypes
  import opened KeyOrder
  import opened PacketHeader
  import opened Strings
  import opened SubscriptionProtocol
  import opened Subscriptions

  datatype TopicRequest = TopicRequest(topic: seq<byte>, maxQos: QoS)

  // ---------- what the packets write ----------

  function QosByte(q: QoS): byte {
    if q.QoS1? then 1 else 0
  }

  function RequestBytes(r: TopicRequest): seq<byte> {
    Utf8Bytes(r.topic) + [QosByte(r.maxQos)]
  }

  function RequestsBytes(rs: seq<TopicRequest>): seq<byte> {
    if rs == [] then [] else RequestBytes(rs[0]) + RequestsBytes(rs[1..])
  }

  function SubscribeBody(packetId: uint16, rs: seq<TopicRequest>): seq<byte> {
    BigEndian16(packetId) + RequestsBytes(rs)
  }

  function TopicsBytes(topics: seq<Key>): seq<byte> {
    if topics == [] then [] else Utf8Bytes(topics[0]) + TopicsBytes(topics[1..])
  }

  function UnsubscribeBody(packetId: uint16, topics: seq<Key>): seq<byte> {
    BigEndian16(packetId) + TopicsBytes(topics)
  }

  /** The sizes the constructors add up. */
  function SubscribeSize(topics: seq<Key>): nat {
    if topics == [] then 2 else |topics[0]| + 3 + SubscribeSize(topics[1..])
  }

  function UnsubscribeSize(topics: seq<Key>): nat {
    if topics == [] then 2 else |topics[0]| + 2 + UnsubscribeSize(topics[1..])
  }

  lemma {:induction false} RequestsAppend(done: seq<TopicRequest>, r: TopicRequest)
    ensures RequestsBytes(done + [r]) == RequestsBytes(done) + RequestBytes(r)
    decreases |done|
  {
    hide RequestBytes;
    if done == [] {
      assert ([] + [r])[1..] == [] && RequestBytes(r) + [] == RequestBytes(r);
    } else {
      RequestsAppend(done[1..], r);
      assert (done + [r])[1..] == done[1..] + [r];
    }
  }

  lemma {:induction false} TopicsAppend(done: seq<Key>, t: Key)
    ensures TopicsBytes(done + [t]) == TopicsBytes(done) + Utf8Bytes(t)
    decreases |done|
  {
    hide Utf8Bytes;
    if done == [] {
      assert ([] + [t])[1..] == [] && Utf8Bytes(t) + [] == Utf8Bytes(t);
    } else {
      TopicsAppend(done[1..], t);
      assert (done + [t])[1..] == done[1..] + [t];
    }
  }

  // ---------- the packets ----------

  function NamesOf(list: seq<Subscription>): (names: seq<Key>)
    ensures |names| == |list| && forall i :: 0 <= i < |list| ==> names[i] == list[i].topicName
  {
    if list == [] then [] else [list[0].topicName] + NamesOf(list[1..])
  }

  function RequestsOf(list: seq<Subscription>): (rs: seq<TopicRequest>)
    reads list
    ensures |rs| == |list|
    ensures forall i :: 0 <= i < |list| ==> rs[i] == TopicRequest(list[i].topicName, list[i].maxQos)
  {
    if list == [] then [] else [TopicRequest(list[0].topicName, list[0].maxQos)] + RequestsOf(list[1..])
  }

  /** Counted from one, `place` is the last of the first `n` places that holds the object. */
  predicate IsLastPlace(list: seq<Subscription>, n: nat, s: Subscription, place: nat)
    requires n <= |list|
  {
    1 <= place <= n && list[place - 1] == s && forall k :: place <= k < n ==> list[k] != s
  }

  /** The request bytes written so far, after each request. */
  lemma {:induction false} Prefixes(rs: seq<TopicRequest>) returns (written: seq<seq<byte>>)
    ensures |written| == |rs| + 1 && written[0] == [] && written[|rs|] == RequestsBytes(rs)
    ensures forall i :: 0 <= i < |rs| ==> written[i + 1] == written[i] + RequestBytes(rs[i])
    decreases |rs|
  {
    hide RequestBytes;
    if rs == [] {
      written := [[]];
    } else {
      var most, last := rs[..|rs| - 1], rs[|rs| - 1];
      var before := Prefixes(most);
      RequestsAppend(most, last);
      assert rs == most + [last];
      written := before + [RequestsBytes(rs)];
    }
  }

  lemma SubscribeBodyAfter(start: seq<byte>, packetId: uint16, rs: seq<TopicRequest>)
    ensures start + BigEndian16(packetId) + RequestsBytes(rs) == start + SubscribeBody(packetId, rs)
  {
    hide BigEndian16, RequestsBytes;
  }

  function ObjectsIn(list: seq<Subscription>): set<Subscription> {
    set s | s in list
  }

  lemma SameRequests(list: seq<Subscription>, rs: seq<TopicRequest>)
    requires |rs| == |list| && forall i :: 0 <= i < |list| ==> rs[i] == TopicRequest(list[i].topicName, list[i].maxQos)
    ensures RequestsOf(list) == rs
  {
    hide RequestsOf;
  }

  class SubscribePacket {
    var subscriptionList: seq<Subscription>
    var packetId: uint16
    const header: PacketFixedHeader

    constructor (list: seq<Subscription>)
      ensures subscriptionList == list && packetId == 0 && fresh(header)
      ensures SubscribeSize(NamesOf(list)) <= MAX_REMAINING_LENGTH ==>
                header.isValid && header.headerByte == 0x82 && header.remainingLength == SubscribeSize(NamesOf(list))
    {
      hide EncodeLength;
      ghost var names := NamesOf(list);
      var packetSize := 2;
      var i := 0;
      assert names[0..] == names;
      while i < |list|
        invariant 0 <= i <= |list| == |names|
        invariant packetSize + SubscribeSize(names[i..]) == 2 + SubscribeSize(names)
      {
        assert names[i..][1..] == names[i + 1..];
        packetSize := packetSize + |list[i].topicName| + 2 + 1;
        i := i + 1;
      }
      subscriptionList, packetId := list, 0;
      header := new PacketFixedHeader();
      new;
      var _ := header.Initialize(MessageType.Subscribe, false, QoS0, false, packetSize);
    }

    /** An empty request and one of more than eight topics are refused. */
    static method Create(list: seq<Subscription>) returns (p: SubscribePacket?)
      ensures p == null <==> list == [] || |list| > 8
      ensures p != null ==> fresh(p) && p.subscriptionList == list && p.packetId == 0
    {
      if list == [] || MAX_TOPICS_IN_ONE_SUBSCRIBE_PACKET < |list| {
        return null;
      }
      p := new SubscribePacket(list);
    }

    method SetPacketId(id: uint16)
      modifies this`packetId
      ensures packetId == id
    {
      packetId := id;
    }

    /** Serialising is not innocent: it stamps every subscription named with the packet id and its place. */
    method ToString() returns (buf: seq<byte>)
      requires |subscriptionList| <= MAX_TOPICS_IN_ONE_SUBSCRIBE_PACKET
      modifies ObjectsIn(subscriptionList)`packetId, ObjectsIn(subscriptionList)`indexInPacket
      ensures buf == [header.headerByte] + EncodeLength(header.remainingLength) +
                     SubscribeBody(packetId, RequestsOf(subscriptionList))
      ensures forall s :: s in subscriptionList ==>
                            && s.packetId == packetId
                            && IsLastPlace(subscriptionList, |subscriptionList|, s, s.indexInPacket)
    {
      hide *;
      buf := header.AppendToBuffer([]);
      buf := AppendUInt16ToBuffer(buf, packetId);
      ghost var start, requests := buf, RequestsOf(subscriptionList);
      ghost var written := Prefixes(requests);
      buf := WriteRequests(buf, subscriptionList, packetId, requests, written);
      SubscribeBodyAfter([header.headerByte] + EncodeLength(header.remainingLength), packetId, requests);
      SameRequests(subscriptionList, requests);
    }

    /** The loop over the list. */
    static method WriteRequests(start: seq<byte>, list: seq<Subscription>, packetId: uint16,
                                ghost requests: seq<TopicRequest>, ghost written: seq<seq<byte>>)
      returns (buf: seq<byte>)
      requires |list| <= MAX_TOPICS_IN_ONE_SUBSCRIBE_PACKET && |requests| == |list| && |written| == |list| + 1
      requires forall i :: 0 <= i < |list| ==> requests[i] == TopicRequest(list[i].topicName, list[i].maxQos)
      requires written[0] == []
      requires forall i :: 0 <= i < |list| ==> written[i + 1] == written[i] + RequestBytes(requests[i])
      modifies ObjectsIn(list)`packetId, ObjectsIn(list)`indexInPacket
      ensures buf == start + written[|list|]
      ensures forall s :: s in list ==> s.packetId == packetId && IsLastPlace(list, |list|, s, s.indexInPacket)
    {
      assert MAX_TOPICS_IN_ONE_SUBSCRIBE_PACKET < 255;
      hide *;
      buf := start;
      var i := 0;
      while i < |list|
        invariant 0 <= i <= |list|
        invariant forall k :: 0 <= k < |list| ==> requests[k].maxQos == list[k].maxQos
        invariant buf == start + written[i]
        invariant forall k :: 0 <= k < i ==>
                                list[k].packetId == packetId && IsLastPlace(list, i, list[k], list[k].indexInPacket)
      {
        buf := WriteRequest(buf, list[i]);
        list[i].SetAckIndex(packetId, i + 1);
        i := i + 1;
      }
    }

    static method WriteRequest(buf: seq<byte>, s: Subscription) returns (out: seq<byte>)
      ensures out == buf + RequestBytes(TopicRequest(s.topicName, s.maxQos))
    {
      hide Utf8Bytes;
      out := AppendUtf8StringToBuffer(buf, s.topicName);
      var qosByte: byte := match s.maxQos { case QoS0 => 0x00 case QoS1 => 0x01 };
      out := out + [qosByte];
      assert qosByte == QosByte(s.maxQos);
      assert out == buf + (Utf8Bytes(s.topicName) + [qosByte]);
    }
  }

  class UnsubscribePacket {
    const topicList: seq<Key>
    var packetId: uint16
    const header: PacketFixedHeader

    constructor (topicList: seq<Key>)
      ensures this.topicList == topicList && packetId == 0 && fresh(header)
      ensures UnsubscribeSize(topicList) <= MAX_REMAINING_LENGTH ==>
                header.isValid && header.headerByte == 0xA2 && header.remainingLength == UnsubscribeSize(topicList)
    {
      hide EncodeLength;
      var packetSize := 2;
      var i := 0;
      assert topicList[0..] == topicList;
      while i < |topicList|
        invariant 0 <= i <= |topicList|
        invariant packetSize + UnsubscribeSize(topicList[i..]) == 2 + UnsubscribeSize(topicList)
      {
        assert topicList[i..][1..] == topicList[i + 1..];
        packetSize := packetSize + |topicList[i]| + 2;
        i := i + 1;
      }
      this.topicList, packetId := topicList, 0;
      header := new PacketFixedHeader();
      new;
      var _ := header.Initialize(MessageType.Unsubscribe, false, QoS0, false, packetSize);
    }

    /** The same limits as for SUBSCRIBE. */
    static method Create(topicList: seq<Key>) returns (p: UnsubscribePacket?)
      ensures p == null <==> topicList == [] || |topicList| > 8
      ensures p != null ==> fresh(p) && p.topicList == topicList && p.packetId == 0
    {
      if topicList == [] || MAX_TOPICS_IN_ONE_SUBSCRIBE_PACKET < |topicList| {
        return null;
      }
      p := new UnsubscribePacket(topicList);
    }

    method SetPacketId(id: uint16)
      modifies this`packetId
      ensures packetId == id
    {
      packetId := id;
    }

    method ToString() returns (buf: seq<byte>)
      ensures buf == [header.headerByte] + EncodeLength(header.remainingLength) + UnsubscribeBody(packetId, topicList)
    {
      hide EncodeLength, Utf8Bytes, BigEndian16;
      buf := header.AppendToBuffer([]);
      buf := AppendUInt16ToBuffer(buf, packetId);
      ghost var start := buf;
      var i := 0;
      while i < |topicList|
        invariant 0 <= i <= |topicList|
        invariant buf == start + TopicsBytes(topicList[..i])
      {
        TopicsAppend(topicList[..i], topicList[i]);
        assert topicList[..i + 1] == topicList[..i] + [topicList[i]];
        buf := AppendUtf8StringToBuffer(buf, topicList[i]);
        i := i + 1;
      }
      assert topicList[..i] == topicList;
    }
  }

  // ---------- declared length ----------

  function RequestTopics(rs: seq<TopicRequest>): (topics: seq<Key>)
    ensures |topics| == |rs| && forall i :: 0 <= i < |rs| ==> topics[i] == rs[i].topic
  {
    if rs == [] then [] else [rs[0].topic] + RequestTopics(rs[1..])
  }

  ghost predicate NoneEmpty(topics: seq<Key>) {
    forall i :: 0 <= i < |topics| ==> topics[i] != []
  }

  /** Each empty topic is declared with two bytes that are never written. */
  lemma {:induction false} RequestsLength(rs: seq<TopicRequest>)
    ensures |RequestsBytes(rs)| + 2 <= SubscribeSize(RequestTopics(rs))
    ensures |RequestsBytes(rs)| + 2 == SubscribeSize(RequestTopics(rs)) <==> NoneEmpty(RequestTopics(rs))
    decreases |rs|
  {
    if rs != [] {
      RequestsLength(rs[1..]);
      Utf8Length(rs[0].topic);
      NoneEmptyHead(RequestTopics(rs));
    }
  }

  lemma NoneEmptyHead(topics: seq<Key>)
    requires topics != []
    ensures NoneEmpty(topics) <==> topics[0] != [] && NoneEmpty(topics[1..])
  {
    if topics[0] != [] && NoneEmpty(topics[1..]) {
      forall i | 0 <= i < |topics|
        ensures topics[i] != []
      {
        assert i > 0 ==> topics[1..][i - 1] == topics[i];
      }
    }
  }

  lemma {:induction false} TopicsLength(topics: seq<Key>)
    ensures |TopicsBytes(topics)| + 2 <= UnsubscribeSize(topics)
    ensures |TopicsBytes(topics)| + 2 == UnsubscribeSize(topics) <==> NoneEmpty(topics)
    decreases |topics|
  {
    if topics != [] {
      TopicsLength(topics[1..]);
      Utf8Length(topics[0]);
      NoneEmptyHead(topics);
    }
  }

  /** The header was written for the whole list, and dropping the topics that are already active leaves it as it is. So
      the length it declares is right exactly when nothing was dropped, and too great by three bytes or more for each
      topic that was. */
  lemma {:induction false} DroppedTopicsStayDeclared(subs: SubMap, list: seq<Sub>)
    ensures var kept := InsertAll(subs, list).kept;
            && SubscribeSize(Topics(list)) >= SubscribeSize(Topics(kept)) + 3 * (|list| - |kept|)
            && (SubscribeSize(Topics(list)) == SubscribeSize(Topics(kept)) <==> kept == list)
    decreases |list|
  {
    if list != [] {
      var s, rest := list[0], list[1..];
      assert Topics(list) == [s.topic] + Topics(rest);
      SizeOfFirst(s.topic, Topics(rest));
      if s.topic in subs && subs[s.topic].isActive {
        DroppedTopicsStayDeclared(subs, rest);
      } else {
        DroppedTopicsStayDeclared(subs[s.topic := s], rest);
        var kept := InsertAll(subs[s.topic := s], rest).kept;
        assert Topics([s] + kept) == [s.topic] + Topics(kept);
        SizeOfFirst(s.topic, Topics(kept));
        assert [s] + kept == list <==> kept == rest by {
          assert ([s] + kept)[1..] == kept;
        }
      }
      hide SubscribeSize;
    }
  }

  lemma SizeOfFirst(t: Key, rest: seq<Key>)
    ensures SubscribeSize([t] + rest) == |t| + 3 + SubscribeSize(rest)
  {
    assert ([t] + rest)[1..] == rest;
  }

  // ---------- decoders from sections 3.8 and 3.10 of MQTT 3.1.1 ----------

  function DecodeRequests(s: seq<byte>): Option<seq<TopicRequest>>
    decreases |s|
  {
    if s == [] then Some([])
    else match TakeString(s)
      case None => None
      case Some((topic, rest)) =>
        if rest == [] || rest[0] > 1 then None
        else match DecodeRequests(rest[1..])
          case None => None
          case Some(more) => Some([TopicRequest(topic, if rest[0] == 1 then QoS1 else QoS0)] + more)
  }

  function DecodeTopics(s: seq<byte>): Option<seq<Key>>
    decreases |s|
  {
    if s == [] then Some([])
    else match TakeString(s)
      case None => None
      case Some((topic, rest)) =>
        match DecodeTopics(rest)
        case None => None
        case Some(more) => Some([topic] + more)
  }

  function DecodeSubscribe(header: byte, body: seq<byte>): Option<(uint16, seq<TopicRequest>)> {
    if header != 0x82 || |body| < 2 then None
    else match DecodeRequests(body[2..])
      case None => None
      case Some(rs) => if rs == [] then None else Some((FromBigEndian16(body[0], body[1]), rs))
  }

  function DecodeUnsubscribe(header: byte, body: seq<byte>): Option<(uint16, seq<Key>)> {
    if header != 0xA2 || |body| < 2 then None
    else match DecodeTopics(body[2..])
      case None => None
      case Some(topics) => if topics == [] then None else Some((FromBigEndian16(body[0], body[1]), topics))
  }

  ghost predicate AllCarriable(topics: seq<Key>) {
    forall i :: 0 <= i < |topics| ==> 1 <= |topics[i]| <= MAX_STRING
  }

  lemma {:induction false} RequestsRoundTrip(rs: seq<TopicRequest>)
    requires forall i :: 0 <= i < |rs| ==> 1 <= |rs[i].topic| <= MAX_STRING
    ensures DecodeRequests(RequestsBytes(rs)) == Some(rs)
    decreases |rs|
  {
    if rs != [] {
      var r, rest := rs[0], RequestsBytes(rs[1..]);
      RequestsRoundTrip(rs[1..]);
      StringRoundTrip(r.topic, [QosByte(r.maxQos)] + rest);
      assert RequestsBytes(rs) == Utf8Bytes(r.topic) + ([QosByte(r.maxQos)] + rest);
      assert ([QosByte(r.maxQos)] + rest)[1..] == rest && RequestsBytes(rs) != [];
      assert [r] + rs[1..] == rs;
      hide Utf8Bytes, TakeString, RequestsBytes;
    }
  }

  lemma {:induction false} TopicsRoundTrip(topics: seq<Key>)
    requires AllCarriable(topics)
    ensures DecodeTopics(TopicsBytes(topics)) == Some(topics)
    decreases |topics|
  {
    if topics != [] {
      TopicsRoundTrip(topics[1..]);
      Utf8Length(topics[0]);
      StringRoundTrip(topics[0], TopicsBytes(topics[1..]));
      assert [topics[0]] + topics[1..] == topics;
      hide Utf8Bytes, TakeString;
    }
  }

  /** A SUBSCRIBE none of whose topics has been dropped has its declared length, and the standard's decoder recovers
      the packet id and the requests in order. */
  lemma SubscribeRoundTrip(packetId: uint16, rs: seq<TopicRequest>)
    requires rs != [] && AllCarriable(RequestTopics(rs))
    ensures |SubscribeBody(packetId, rs)| == SubscribeSize(RequestTopics(rs))
    ensures DecodeSubscribe(0x82, SubscribeBody(packetId, rs)) == Some((packetId, rs))
  {
    RequestsLength(rs);
    RequestsRoundTrip(rs);
    BigEndianRoundTrip(packetId);
    hide RequestsBytes, DecodeRequests, FromBigEndian16;
    var body := SubscribeBody(packetId, rs);
    assert body[2..] == RequestsBytes(rs);
  }

  lemma UnsubscribeRoundTrip(packetId: uint16, topics: seq<Key>)
    requires topics != [] && AllCarriable(topics)
    ensures |UnsubscribeBody(packetId, topics)| == UnsubscribeSize(topics)
    ensures DecodeUnsubscribe(0xA2, UnsubscribeBody(packetId, topics)) == Some((packetId, topics))
  {
    TopicsLength(topics);
    TopicsRoundTrip(topics);
    BigEndianRoundTrip(packetId);
    hide TopicsBytes, DecodeTopics, FromBigEndian16;
    var body := UnsubscribeBody(packetId, topics);
    assert body[2..] == TopicsBytes(topics);
  }
}
