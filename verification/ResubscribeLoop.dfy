/** The resubscription the keepalive thread makes after a reconnect (src/mqtt/Connect.cpp:472-505). */
module ResubscribeLoop {
  import opened MqttTypes
  import opened KeyOrder
  import opened PacketHeader
  import opened TopicFilter
  import opened SubscriptionProtocol
  import opened Subscriptions
  import opened SubscribeCodec
  import opened ClientCore
  import opened ClientState

  /** The write outcomes not used up yet. */
  function Outcomes(writes: seq<bool>, turn: nat): seq<bool> {
    if turn <= |writes| then writes[turn..] else []
  }

  /** What the walk comes to when `sent` has gone out, `names` have been gathered and `rest` is still to be walked. */
  ghost function Onward(subs: SubMap, sent: seq<Request>, names: seq<Key>, rest: set<Key>, last: uint16,
                        writes: seq<bool>, turn: nat): Resubscribed {
    var r := Resubscribe(subs, names + SortedKeys(rest), last, Outcomes(writes, turn));
    r.(sent := sent + r.sent)
  }

  lemma OnwardStart(subs: SubMap, last: uint16, writes: seq<bool>)
    ensures Onward(subs, [], [], subs.Keys, last, writes, 0) == Resubscribe(subs, SortedKeys(subs.Keys), last, writes)
  {
    hide Resubscribe, SortedKeys;
    var keys := SortedKeys(subs.Keys);
    assert [] + keys == keys && Outcomes(writes, 0) == writes;
    assert [] + Resubscribe(subs, keys, last, writes).sent == Resubscribe(subs, keys, last, writes).sent;
  }

  lemma OnwardKey(subs: SubMap, sent: seq<Request>, names: seq<Key>, rest: set<Key>, last: uint16, writes: seq<bool>,
                  turn: nat)
    requires rest != {}
    ensures var k := Least(rest);
            Onward(subs, sent, names, rest, last, writes, turn) ==
            Onward(subs, sent, names + [k], rest - {k}, last, writes, turn)
  {
    WalkFrom(rest);
    assert names + SortedKeys(rest) == (names + [Least(rest)]) + SortedKeys(rest - {Least(rest)});
    hide Resubscribe, SortedKeys, Least;
  }

  /** One more packet: a full batch, or what is left at the end. */
  lemma OnwardBatch(subs: SubMap, sent: seq<Request>, names: seq<Key>, rest: set<Key>, last: uint16, writes: seq<bool>,
                    turn: nat)
    requires 1 <= |names| <= MAX_TOPICS_IN_ONE_SUBSCRIBE_PACKET
    requires rest == {} || |names| == MAX_TOPICS_IN_ONE_SUBSCRIBE_PACKET
    ensures var request := Request(NextId(last), names);
            var tagged := Tag(subs, names, request.pid, 0);
            Onward(subs, sent, names, rest, last, writes, turn) ==
            if turn < |writes| && !writes[turn] then Resubscribed(tagged, sent + [request], false, request.pid)
            else Onward(tagged, sent + [request], [], rest, request.pid, writes, turn + 1)
  {
    hide SortedKeys, Tag, Resubscribe, Outcomes;
    OutcomesOnce(writes, turn);
    var more, left := SortedKeys(rest), Outcomes(writes, turn);
    ResubscribeOnce(subs, names, more, last, left);
    var request := Request(NextId(last), names);
    var further := Resubscribe(Tag(subs, names, request.pid, 0), more, request.pid, Outcomes(writes, turn + 1));
    assert sent + ([request] + further.sent) == (sent + [request]) + further.sent;
    assert [] + more == more;
  }

  lemma OutcomesOnce(writes: seq<bool>, turn: nat)
    ensures var left := Outcomes(writes, turn);
            && (left != [] && !left[0] <==> turn < |writes| && !writes[turn])
            && Outcomes(writes, turn + 1) == if left == [] then [] else left[1..]
  {
  }

  lemma ResubscribeOnce(subs: SubMap, batch: seq<Key>, more: seq<Key>, last: uint16, writes: seq<bool>)
    requires 1 <= |batch| <= MAX_TOPICS_IN_ONE_SUBSCRIBE_PACKET
    requires more == [] || |batch| == MAX_TOPICS_IN_ONE_SUBSCRIBE_PACKET
    ensures var request := Request(NextId(last), batch);
            var tagged := Tag(subs, batch, request.pid, 0);
            Resubscribe(subs, batch + more, last, writes) ==
            if writes != [] && !writes[0] then Resubscribed(tagged, [request], false, request.pid)
            else
              var rest := Resubscribe(tagged, more, request.pid, if writes == [] then [] else writes[1..]);
              rest.(sent := [request] + rest.sent)
  {
    hide Tag;
    assert Batch(batch + more) == batch && (batch + more)[|batch|..] == more;
  }

  lemma OnwardEnd(subs: SubMap, sent: seq<Request>, last: uint16, writes: seq<bool>, turn: nat)
    ensures Onward(subs, sent, [], {}, last, writes, turn) == Resubscribed(subs, sent, true, last)
  {
    assert [] + SortedKeys({}) == [];
  }

  class KeepaliveActionRunner {
    const clientState: ClientState

    constructor (clientState: ClientState)
      ensures this.clientState == clientState
    {
      this.clientState := clientState;
    }

    /** The vector holds map entries, under different names. */
    ghost predicate FromMap(vector: seq<Subscription>)
      reads clientState
    {
      forall i :: 0 <= i < |vector| ==>
                    && vector[i].topicName in clientState.subscriptionMap
                    && clientState.subscriptionMap[vector[i].topicName] == vector[i]
    }

    ghost predicate Named(vector: seq<Subscription>, names: seq<Key>) {
      |names| == |vector| && forall i :: 0 <= i < |vector| ==> names[i] == vector[i].topicName
    }

    /** Makes a packet of the vector, gives it the next id and serialises it, which stamps the entries. */
    method SendBatch(vector: seq<Subscription>) returns (request: Request, packetData: seq<byte>)
      requires clientState.Valid() && clientState.core.Valid() && FromMap(vector)
      requires |vector| <= MAX_TOPICS_IN_ONE_SUBSCRIBE_PACKET
      modifies clientState.Objects(), clientState.core`lastSentPacketId
      ensures clientState.Valid()
      ensures request.pid == NextId(old(clientState.core.lastSentPacketId))
      ensures |request.topics| == |vector| && forall i :: 0 <= i < |vector| ==> request.topics[i] == vector[i].topicName
      ensures clientState.core.lastSentPacketId == request.pid
      ensures clientState.View() == Tag(old(clientState.View()), request.topics, request.pid, 0)
      ensures SubscribeSize(request.topics) <= MAX_REMAINING_LENGTH ==>
                packetData == [0x82] + EncodeLength(SubscribeSize(request.topics)) +
                              SubscribeBody(request.pid, RequestsOf(vector))
    {
      hide RegexText, Tag, NamesOf, SubscribeSize, EncodeLength, SubscribeBody, RequestsOf;
      ghost var before := clientState.View();
      var packet := new SubscribePacket(vector);
      var id := clientState.core.GetNextActionId();
      packet.SetPacketId(id);
      assert clientState.View() == before;
      assert ObjectsIn(vector) <= clientState.Objects();
      packetData := clientState.Serialise(packet);
      request := Request(id, NamesOf(vector));
    }

    /** Walks the map in key order and sends a packet whenever eight subscriptions have been gathered, and one more for
        those left over, until a write fails. `writes` says which writes succeed; those it does not mention do. */
    method ResubscribeAll(writes: seq<bool>) returns (complete: bool, sent: seq<Request>)
      requires clientState.Valid() && clientState.core.Valid()
      modifies clientState.Objects(), clientState.core`lastSentPacketId
      ensures clientState.Valid()
      ensures Resubscribed(clientState.View(), sent, complete, clientState.core.lastSentPacketId) ==
              Resubscribe(old(clientState.View()), SortedKeys(old(clientState.View()).Keys),
                          old(clientState.core.lastSentPacketId), writes)
    {
      OnwardStart(clientState.View(), clientState.core.lastSentPacketId, writes);
      assert clientState.View().Keys == clientState.subscriptionMap.Keys;
      hide RegexText, Resubscribe, Onward, SortedKeys;
      complete, sent := WalkMap(writes);
    }

    method WalkMap(writes: seq<bool>) returns (complete: bool, sent: seq<Request>)
      requires clientState.Valid() && clientState.core.Valid()
      modifies clientState.Objects(), clientState.core`lastSentPacketId
      ensures clientState.Valid()
      ensures Resubscribed(clientState.View(), sent, complete, clientState.core.lastSentPacketId) ==
              Onward(old(clientState.View()), [], [], old(clientState.subscriptionMap.Keys),
                     old(clientState.core.lastSentPacketId), writes, 0)
    {
      hide RegexText, Tag, Onward, IsLeast;
      complete, sent := true, [];
      var topicVector: seq<Subscription> := [];
      var rest := clientState.subscriptionMap.Keys;
      var turn := 0;
      ghost var names: seq<Key> := [];
      ghost var whole := Onward(clientState.View(), [], [], rest, clientState.core.lastSentPacketId, writes, 0);
      while rest != {}
        invariant clientState.Valid() && clientState.core.Valid() && rest <= clientState.subscriptionMap.Keys
        invariant FromMap(topicVector) && |topicVector| < MAX_TOPICS_IN_ONE_SUBSCRIBE_PACKET
        invariant Named(topicVector, names) && complete
        invariant whole == Onward(clientState.View(), sent, names, rest, clientState.core.lastSentPacketId, writes, turn)
        decreases |rest|
      {
        var k := Least(rest);
        OnwardKey(clientState.View(), sent, names, rest, clientState.core.lastSentPacketId, writes, turn);
        topicVector, names := topicVector + [clientState.subscriptionMap[k]], names + [k];
        rest := rest - {k};
        if |topicVector| == MAX_TOPICS_IN_ONE_SUBSCRIBE_PACKET {
          OnwardBatch(clientState.View(), sent, names, rest, clientState.core.lastSentPacketId, writes, turn);
          var request, packetData := SendBatch(topicVector);
          assert request.topics == names;
          sent := sent + [request];
          if turn < |writes| && !writes[turn] {
            return false, sent;
          }
          turn, topicVector, names := turn + 1, [], [];
        }
      }
      if topicVector != [] {
        OnwardBatch(clientState.View(), sent, names, {}, clientState.core.lastSentPacketId, writes, turn);
        var request, packetData := SendBatch(topicVector);
        assert request.topics == names;
        sent := sent + [request];
        if turn < |writes| && !writes[turn] {
          return false, sent;
        }
        turn, names := turn + 1, [];
      }
      assert names == [];
      OnwardEnd(clientState.View(), sent, clientState.core.lastSentPacketId, writes, turn);
    }
  }
}
