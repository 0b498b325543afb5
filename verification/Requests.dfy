/** What each request does to the map, entry by entry (src/mqtt/Subscribe.cpp:222-351, src/mqtt/Connect.cpp:353-390). */
module Requests {
  import opened MqttTypes
  import opened KeyOrder
  import opened SubscriptionProtocol
  import opened SubscriptionInvariants

  /** The subscriptions of a request whose topics are not active. */
  function NotActive(subs: SubMap, list: seq<Sub>): (r: seq<Sub>)
    ensures |r| <= |list|
  {
    if list == [] then []
    else if list[0].topic in subs && subs[list[0].topic].isActive then NotActive(subs, list[1..])
    else [list[0]] + NotActive(subs, list[1..])
  }

  lemma {:induction false} NotActiveSame(subs: SubMap, other: SubMap, list: seq<Sub>)
    requires forall k :: (k in subs && subs[k].isActive) <==> (k in other && other[k].isActive)
    ensures NotActive(subs, list) == NotActive(other, list)
    decreases |list|
  {
    if list != [] {
      NotActiveSame(subs, other, list[1..]);
    }
  }

  ghost predicate AllInactive(list: seq<Sub>) {
    forall i :: 0 <= i < |list| ==> !list[i].isActive
  }

  /** No later subscription of the list has the topic. */
  predicate LastOf(list: seq<Sub>, i: nat)
    requires i < |list|
  {
    forall j :: i < j < |list| ==> list[j].topic != list[i].topic
  }

  lemma {:induction false} Inserted(subs: SubMap, list: seq<Sub>)
    requires AllInactive(list)
    ensures var r := InsertAll(subs, list);
            && r.kept == NotActive(subs, list)
            && (forall k :: k in subs && (subs[k].isActive || k !in Topics(r.kept)) ==> k in r.subs && r.subs[k] == subs[k])
            && (forall k :: k in r.subs ==> k in subs || k in Topics(r.kept))
            && (forall k :: k in Topics(r.kept) ==> !(k in subs && subs[k].isActive))
    decreases |list|
  {
    if list != [] {
      var s, rest := list[0], list[1..];
      if s.topic in subs && subs[s.topic].isActive {
        Inserted(subs, rest);
      } else {
        Inserted(subs[s.topic := s], rest);
        NotActiveSame(subs, subs[s.topic := s], rest);
        var kept := InsertAll(subs[s.topic := s], rest).kept;
        assert Topics([s] + kept) == [s.topic] + Topics(kept);
      }
    }
  }

  lemma {:induction false} InsertedLast(subs: SubMap, list: seq<Sub>, i: nat)
    requires AllInactive(list) && i < |InsertAll(subs, list).kept| && LastOf(InsertAll(subs, list).kept, i)
    ensures var r := InsertAll(subs, list); r.kept[i].topic in r.subs && r.subs[r.kept[i].topic] == r.kept[i]
    decreases |list|
  {
    var s, rest := list[0], list[1..];
    if s.topic in subs && subs[s.topic].isActive {
      InsertedLast(subs, rest, i);
    } else {
      var next := subs[s.topic := s];
      var kept := InsertAll(next, rest).kept;
      if i > 0 {
        assert ([s] + kept)[i] == kept[i - 1];
        forall j | i - 1 < j < |kept|
          ensures kept[j].topic != kept[i - 1].topic
        {
          assert ([s] + kept)[j + 1] == kept[j];
        }
        InsertedLast(next, rest, i - 1);
      } else {
        Inserted(next, rest);
        forall j | 0 <= j < |kept|
          ensures kept[j].topic != s.topic
        {
          assert ([s] + kept)[j + 1] == kept[j];
        }
      }
    }
  }

  /** The SUBSCRIBE action on any list of fresh subscriptions, repeated topics included. An active entry stays exactly as
      it is, and so does whatever the list does not name. Of the other topics the last subscription stands in the map,
      inactive, with the packet id and its place in what is left of the list; unless the write failed, when they are all
      out of the map. */
  lemma SubscribeMeaning(subs: SubMap, list: TopicList, pid: uint16, written: bool)
    requires AllInactive(list)
    ensures var r, kept := SubscribeStep(subs, list, pid, written), NotActive(subs, list);
            && (forall k :: k in subs && subs[k].isActive ==> k in r && r[k] == subs[k])
            && (forall k :: k !in Topics(list) ==> (k in r <==> k in subs) && (k in subs ==> r[k] == subs[k]))
            && (forall i :: 0 <= i < |kept| && LastOf(kept, i) ==>
                  if written
                  then kept[i].topic in r && r[kept[i].topic] == Sub(kept[i].topic, false, pid, i + 1, kept[i].maxQos)
                  else kept[i].topic !in r)
  {
    Inserted(subs, list);
    var r := InsertAll(subs, list);
    var topics := Topics(r.kept);
    TagFrame(r.subs, topics, pid, 0);
    KeptFromList(subs, list);
    hide InsertAll, Tag, NotActive;
    forall i | 0 <= i < |r.kept| && LastOf(r.kept, i)
      ensures topics[i] in Tag(r.subs, topics, pid, 0)
      ensures Tag(r.subs, topics, pid, 0)[topics[i]] == Sub(topics[i], false, pid, i + 1, r.kept[i].maxQos)
    {
      InsertedLast(subs, list, i);
      TagLast(r.subs, topics, pid, 0, i);
      KeptInactive(subs, list, i);
    }
    assert forall i :: 0 <= i < |r.kept| ==> r.kept[i].topic == topics[i] && topics[i] in topics;
  }

  lemma {:induction false} KeptFromList(subs: SubMap, list: seq<Sub>)
    ensures forall k :: k in Topics(NotActive(subs, list)) ==> k in Topics(list)
    decreases |list|
  {
    if list != [] {
      KeptFromList(subs, list[1..]);
      assert Topics(list) == [list[0].topic] + Topics(list[1..]);
      assert Topics([list[0]] + NotActive(subs, list[1..])) == [list[0].topic] + Topics(NotActive(subs, list[1..]));
    }
  }

  lemma {:induction false} KeptInactive(subs: SubMap, list: seq<Sub>, i: nat)
    requires AllInactive(list) && i < |NotActive(subs, list)|
    ensures !NotActive(subs, list)[i].isActive
    decreases |list|
  {
    if list[0].topic in subs && subs[list[0].topic].isActive {
      KeptInactive(subs, list[1..], i);
    } else if i > 0 {
      KeptInactive(subs, list[1..], i - 1);
    }
  }

  /** UNSUBSCRIBE marks its topics with the packet id and the index no SUBACK asks for, and changes nothing else: they
      stay active until the UNSUBACK comes. */
  lemma UnsubscribeMeaning(subs: SubMap, topics: seq<Key>, pid: uint16)
    ensures var r := UnsubscribeStep(subs, topics, pid);
            && (forall k :: k in r <==> k in subs)
            && (forall k :: k in subs ==>
                  r[k] == if k in topics then Sub(subs[k].topic, subs[k].isActive, pid, 0, subs[k].maxQos) else subs[k])
  {
  }

  /** A disconnect deactivates every entry and changes nothing else; the entries stay to be requested again. */
  lemma DisconnectMeaning(s: Engine)
    ensures var r := Step(s, Event.Disconnect);
            && !r.connected && r.last == s.last && (forall k :: k in r.subs <==> k in s.subs)
            && forall k :: k in s.subs ==>
                 var e := s.subs[k];
                 r.subs[k] == if s.connected then Sub(e.topic, false, e.packetId, e.index, e.maxQos) else e
  {
  }
}
