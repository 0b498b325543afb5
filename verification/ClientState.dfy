/**
 The client's subscription map as the program keeps it: shared objects, changed in place (src/mqtt/ClientState.cpp,
 src/mqtt/Subscribe.cpp, src/mqtt/NetworkRead.cpp, src/mqtt/Connect.cpp). Each method is tied to the step of
 SubscriptionProtocol it carries out; packets and the map hold the same objects.
 */
module ClientState {
  import opened MqttTypes
  import opened KeyOrder
  import opened PacketHeader
  import opened TopicFilter
  import opened SubscriptionProtocol
  import opened SubscriptionInvariants
  import opened Subscriptions
  import opened SubscribeCodec
  import opened Delivery
  import opened OutboundQueue
  import opened ClientCore

  // ---------- the search for an acknowledgement ----------

  /** What the first-match search over the whole map finds. */
  ghost function AckTarget(subs: SubMap, pid: uint16, index: byte): (found: Option<Key>)
    ensures found.Some? ==> found.value in subs
  {
    FindAck(subs, SortedKeys(subs.Keys), pid, index)
  }

  lemma TargetRemoved(subs: SubMap, pid: uint16, index: byte, found: Option<Key>)
    requires found == AckTarget(subs, pid, index)
    ensures RemoveAck(subs, pid, index) == if found.None? then subs else subs - {found.value}
  {
    hide SortedKeys, FindAck;
  }

  lemma TargetGranted(subs: SubMap, pid: uint16, index: byte, qos: QoS, found: Option<Key>)
    requires found == AckTarget(subs, pid, index)
    ensures SetActive(subs, pid, index, qos) ==
            if found.None? then subs else subs[found.value := Granted(subs[found.value], qos)]
  {
    hide SortedKeys, FindAck;
  }

  /** It finds the least of the entries that wait for the acknowledgement. */
  lemma LeastIsTarget(subs: SubMap, k: Key, pid: uint16, index: byte)
    requires k in subs && subs[k].IsInSuback(pid, index)
    requires forall other :: other in subs && subs[other].IsInSuback(pid, index) ==> AtMost(k, other)
    ensures AckTarget(subs, pid, index) == Some(k)
  {
    assert k in SortedKeys(subs.Keys);
    FirstAckIsLeast(subs, SortedKeys(subs.Keys), pid, index);
    AtMostTotal(k, FindAck(subs, SortedKeys(subs.Keys), pid, index).value);
  }

  lemma {:induction false} FirstAckIsLeast(subs: SubMap, keys: seq<Key>, pid: uint16, index: byte)
    requires forall k :: k in keys ==> k in subs
    requires forall i, j :: 0 <= i < j < |keys| ==> AtMost(keys[i], keys[j])
    ensures var r := FindAck(subs, keys, pid, index);
            r.Some? ==> forall k :: k in keys && subs[k].IsInSuback(pid, index) ==> AtMost(r.value, k)
    decreases |keys|
  {
    if keys != [] {
      AtMostTotal(keys[0], keys[0]);
      FirstAckIsLeast(subs, keys[1..], pid, index);
    }
  }

  lemma NoTarget(subs: SubMap, pid: uint16, index: byte)
    requires forall k :: k in subs ==> !subs[k].IsInSuback(pid, index)
    ensures AckTarget(subs, pid, index) == None
  {
  }

  // ---------- removing a packet's entries ----------

  /** What is left while the entries still in `rest` have not been looked at. */
  ghost function Sieve(before: SubMap, pid: uint16, rest: set<Key>): SubMap {
    map k | k in before && (k in rest || before[k].packetId != pid) :: before[k]
  }

  lemma SieveStep(before: SubMap, pid: uint16, rest: set<Key>, k: Key)
    requires k in rest && rest <= before.Keys
    ensures k in Sieve(before, pid, rest) && Sieve(before, pid, rest)[k] == before[k]
    ensures Sieve(before, pid, rest - {k}) ==
            if before[k].packetId == pid then Sieve(before, pid, rest) - {k} else Sieve(before, pid, rest)
  {
  }

  // ---------- the search for a topic ----------

  lemma FindSubscriptionStep(rest: set<Key>, k: Key, topic: seq<byte>)
    requires rest != {} && k == Least(rest)
    ensures FindSubscription(SortedKeys(rest), topic) ==
            if Accepts(k, topic) then Some(k) else FindSubscription(SortedKeys(rest - {k}), topic)
  {
    WalkFrom(rest);
    LeastUnique(rest);
    assert SortedKeys(rest)[1..] == SortedKeys(rest - {k});
    hide SortedKeys, Accepts;
  }

  // ---------- stamping ----------

  /** No later place among the first `n` has the same topic. */
  ghost predicate LastNamed(list: seq<Subscription>, n: nat, i: nat)
    requires i < n <= |list|
  {
    forall m :: i < m < n ==> list[m].topicName != list[i].topicName
  }

  /** Map and list hold the same objects: for each topic among the first `n`, its last object is the map's. */
  ghost predicate LinkedIn(entries: map<Key, Subscription>, list: seq<Subscription>, n: nat)
    requires n <= |list|
  {
    forall i :: 0 <= i < n && LastNamed(list, n, i) ==>
                  list[i].topicName in entries && entries[list[i].topicName] == list[i]
  }

  lemma NothingLinked(entries: map<Key, Subscription>, list: seq<Subscription>)
    ensures LinkedIn(entries, list, 0)
  {
  }

  lemma LinkOne(entries: map<Key, Subscription>, list: seq<Subscription>, i: nat)
    requires i < |list| && LinkedIn(entries, list, i)
    ensures LinkedIn(entries[list[i].topicName := list[i]], list, i + 1)
  {
    forall j | 0 <= j < i && LastNamed(list, i + 1, j)
      ensures list[j].topicName in entries && entries[list[j].topicName] == list[j] &&
              list[j].topicName != list[i].topicName
    {
      assert LastNamed(list, i, j);
    }
  }

  lemma LinkWithout(entries: map<Key, Subscription>, list: seq<Subscription>, i: nat)
    requires i < |list| && LinkedIn(entries, list, i)
    ensures LinkedIn(entries, Without(list, i), i)
    ensures forall s :: s in Without(list, i) ==> s in list
  {
    var shorter := Without(list, i);
    forall j | 0 <= j < i && LastNamed(shorter, i, j)
      ensures LastNamed(list, i, j) && shorter[j] == list[j]
    {
      assert forall m :: j < m < i ==> shorter[m] == list[m];
    }
  }

  lemma ViewsWithout(list: seq<Subscription>, i: nat)
    requires i < |list|
    ensures ViewsOf(Without(list, i)) == Without(ViewsOf(list), i)
  {
    hide ViewsOf;
  }

  lemma NamesAreTopics(list: seq<Subscription>)
    ensures NamesOf(list) == Topics(ViewsOf(list))
  {
    hide NamesOf, ViewsOf;
  }

  lemma {:induction false} LastNamedExists(list: seq<Subscription>, k: Key, i: nat) returns (last: nat)
    requires i < |list| && list[i].topicName == k
    ensures last < |list| && list[last].topicName == k && LastNamed(list, |list|, last)
    decreases |list| - i
  {
    if LastNamed(list, |list|, i) {
      last := i;
    } else {
      var m :| i < m < |list| && list[m].topicName == list[i].topicName;
      last := LastNamedExists(list, k, m);
    }
  }

  /** A handler waits for its acknowledgement after the action when the action kept it. */
  function AcksAfter(pending: map<uint16, Handler>, id: uint16, handler: Option<int>, kept: bool): map<uint16, Handler> {
    match handler
    case None => pending
    case Some(h) => if kept then Register(pending, id, Async(h)) else Register(pending, id, Async(h)) - {id}
  }

  lemma SubscribeStepIs(subs: SubMap, list: TopicList, pid: uint16, written: bool, r: Inserted)
    requires r == InsertAll(subs, list)
    ensures var tagged := Tag(r.subs, Topics(r.kept), pid, 0);
            SubscribeStep(subs, list, pid, written) ==
            if r.kept != [] && !written then tagged - KeySet(Topics(r.kept)) else tagged
  {
  }

  lemma UnsubscribeNone(subs: SubMap, topics: seq<Key>, pid: uint16)
    ensures UnsubscribeStep(subs, topics[..0], pid) == subs
  {
  }

  lemma UnsubscribeOne(subs: SubMap, topics: seq<Key>, pid: uint16, i: nat)
    requires i < |topics|
    ensures var done, k := UnsubscribeStep(subs, topics[..i], pid), topics[i];
            UnsubscribeStep(subs, topics[..i + 1], pid) ==
            if k in done then done[k := done[k].(packetId := pid, index := 0)] else done
  {
    assert topics[..i + 1] == topics[..i] + [topics[i]];
  }

  /** Seen from the queue, which has registered the handler already, this is the outcome it takes for the action. */
  lemma AcksAreTheOutcome(c: Core, it: Item, rc: ResponseCode, dropped: bool)
    requires it.handler.Some?
    ensures PerformStep(c, it, Outcome(rc, dropped)).pending ==
            AcksAfter(Register(c.pending, it.id, Async(it.handler.value)), it.id, it.handler, !dropped && rc.Success?)
  {
  }

  // ---------- inserting a request ----------

  ghost function ViewsOf(list: seq<Subscription>): (vs: seq<Sub>)
    reads list
    ensures |vs| == |list| && forall i :: 0 <= i < |list| ==> vs[i] == list[i].View()
  {
    if list == [] then [] else [list[0].View()] + ViewsOf(list[1..])
  }

  function Without<T>(s: seq<T>, i: nat): (r: seq<T>)
    requires i < |s|
    ensures |r| == |s| - 1
    ensures forall j :: 0 <= j < |r| ==> r[j] == if j < i then s[j] else s[j + 1]
  {
    s[..i] + s[i + 1..]
  }

  /** What becomes of the request when its first `i` subscriptions have been dealt with and stand in it. */
  ghost function Underway(subs: SubMap, vs: seq<Sub>, i: nat): Inserted
    requires i <= |vs|
  {
    var r := InsertAll(subs, vs[i..]);
    Inserted(r.subs, vs[..i] + r.kept)
  }

  lemma UnderwayStart(subs: SubMap, vs: seq<Sub>)
    ensures Underway(subs, vs, 0) == InsertAll(subs, vs)
  {
    assert vs[0..] == vs && vs[..0] == [];
    hide InsertAll;
    assert [] + InsertAll(subs, vs).kept == InsertAll(subs, vs).kept;
  }

  lemma UnderwayEnd(subs: SubMap, vs: seq<Sub>)
    ensures Underway(subs, vs, |vs|) == Inserted(subs, vs)
  {
    assert vs[|vs|..] == [] && vs[..|vs|] == vs;
  }

  lemma UnderwayDrop(subs: SubMap, vs: seq<Sub>, i: nat)
    requires i < |vs| && vs[i].topic in subs && subs[vs[i].topic].isActive
    ensures Underway(subs, vs, i) == Underway(subs, Without(vs, i), i)
  {
    assert Without(vs, i)[i..] == vs[i..][1..] && Without(vs, i)[..i] == vs[..i];
  }

  lemma UnderwayKeep(subs: SubMap, vs: seq<Sub>, i: nat)
    requires i < |vs| && !(vs[i].topic in subs && subs[vs[i].topic].isActive)
    ensures Underway(subs, vs, i) == Underway(subs[vs[i].topic := vs[i]], vs, i + 1)
  {
    assert vs[i..][1..] == vs[i + 1..] && vs[..i + 1] == vs[..i] + [vs[i]];
    var rest := InsertAll(subs[vs[i].topic := vs[i]], vs[i + 1..]);
    assert InsertAll(subs, vs[i..]) == rest.(kept := [vs[i]] + rest.kept);
    hide InsertAll;
    assert vs[..i] + ([vs[i]] + rest.kept) == vs[..i + 1] + rest.kept;
  }

  class ClientState {
    var subscriptionMap: map<Key, Subscription>
    var isConnected: bool
    var isAutoReconnectRequired: bool
    var isSessionPresent: bool
    var isPingreqPending: bool
    const core: ClientCoreState

    constructor ()
      ensures Valid() && View() == map[] && !isConnected && !isAutoReconnectRequired && fresh(core)
    {
      subscriptionMap := map[];
      isConnected, isAutoReconnectRequired, isSessionPresent, isPingreqPending := false, false, false, false;
      core := new ClientCoreState();
    }

    /** Each entry is filed under its own topic, so no two entries are the same object. */
    ghost predicate Valid()
      reads this
    {
      forall k :: k in subscriptionMap ==>
                    subscriptionMap[k].topicName == k && subscriptionMap[k].topicRegex == RegexText(k)
    }

    ghost function Objects(): set<Subscription>
      reads this
    {
      set k | k in subscriptionMap :: subscriptionMap[k]
    }

    ghost function View(): SubMap
      reads this, Objects()
    {
      map k | k in subscriptionMap :: subscriptionMap[k].View()
    }

    lemma ViewAt(k: Key)
      ensures k in View() <==> k in subscriptionMap
      ensures k in subscriptionMap ==> subscriptionMap[k] in Objects() && View()[k] == subscriptionMap[k].View()
    {
    }

    // ---------- finding ----------

    /** The first entry, in the map's order, that waits for the acknowledgement. */
    method FindForAck(pid: uint16, index: byte) returns (found: Option<Key>)
      requires Valid()
      ensures found == AckTarget(View(), pid, index)
    {
      hide AckTarget;
      var rest := subscriptionMap.Keys;
      while rest != {}
        invariant rest <= subscriptionMap.Keys
        invariant forall k :: k in subscriptionMap && k !in rest ==> !subscriptionMap[k].IsInSuback(pid, index)
        decreases |rest|
      {
        var k := Least(rest);
        if subscriptionMap[k].IsInSuback(pid, index) {
          LeastIsTarget(View(), k, pid, index);
          return Some(k);
        }
        rest := rest - {k};
      }
      NoTarget(View(), pid, index);
      found := None;
    }

    /** What the first-match search finds, for filters whose regular expression is modelled. */
    method GetSubscription(topic: seq<byte>) returns (s: Subscription?)
      requires Valid()
      ensures s != null ==> s in Objects()
      ensures AllTranslatable(View()) ==>
                var found := SubscriptionFor(View(), topic);
                if found.None? then s == null
                else found.value in subscriptionMap && s == subscriptionMap[found.value]
      ensures AllTranslatable(View()) && s == null ==> forall k :: k in subscriptionMap ==> !Accepts(k, topic)
      ensures AllTranslatable(View()) && s != null ==>
                && Accepts(s.topicName, topic)
                && forall k :: k in subscriptionMap && Accepts(k, topic) ==> BytesAtMost(s.topicName, k)
    {
      FoundIsLeast(View(), topic);
      hide SortedKeys, FindSubscription, RegexMatch, RegexText, BytesAtMost;
      var rest := subscriptionMap.Keys;
      assert View().Keys == rest;
      ghost var target := SubscriptionFor(View(), topic);
      while rest != {}
        invariant rest <= subscriptionMap.Keys
        invariant target == FindSubscription(SortedKeys(rest), topic)
        decreases |rest|
      {
        var k := Least(rest);
        FindSubscriptionStep(rest, k, topic);
        if k == topic || (0 < |subscriptionMap[k].topicRegex| && RegexMatch(subscriptionMap[k].topicRegex, topic)) {
          return subscriptionMap[k];
        }
        rest := rest - {k};
      }
      NoSubscription(topic);
      s := null;
    }

    static lemma NoSubscription(topic: seq<byte>)
      ensures FindSubscription(SortedKeys({}), topic) == None
    {
    }

    // ---------- changing entries ----------

    method SetSubscriptionActive(pid: uint16, index: byte, qos: QoS) returns (rc: ResponseCode)
      requires Valid()
      modifies Objects()
      ensures Valid()
      ensures View() == SetActive(old(View()), pid, index, qos)
      ensures rc == if AckTarget(old(View()), pid, index).Some? then Success else Failure
    {
      hide AckTarget, SetActive, RegexText, Granted;
      var found := FindForAck(pid, index);
      assert View() == old(View());
      TargetGranted(View(), pid, index, qos, found);
      if found.None? {
        return Failure;
      }
      Grant(found.value, qos);
      rc := Success;
    }

    method Grant(k: Key, qos: QoS)
      requires Valid() && k in subscriptionMap
      modifies subscriptionMap[k]
      ensures Valid()
      ensures View() == old(View())[k := Granted(old(View())[k], qos)]
    {
      hide RegexText;
      var s := subscriptionMap[k];
      s.SetActive(true);
      s.SetMaxQos(qos);
      s.SetAckIndex(0, 0);
    }

    /** The first-match removal; its response code is Failure even when an entry was removed. */
    method RemoveSubscription(pid: uint16, index: byte) returns (rc: ResponseCode)
      requires Valid()
      modifies this`subscriptionMap
      ensures Valid() && rc == Failure
      ensures View() == RemoveAck(old(View()), pid, index)
      ensures Objects() <= old(Objects())
    {
      hide AckTarget, RemoveAck, RegexText;
      var found := FindForAck(pid, index);
      assert View() == old(View());
      TargetRemoved(View(), pid, index, found);
      if found.Some? {
        subscriptionMap := subscriptionMap - {found.value};
        assert View() == old(View()) - {found.value};
      }
      rc := Failure;
    }

    method RemoveSubscriptionByName(topic: Key) returns (rc: ResponseCode)
      requires Valid()
      modifies this`subscriptionMap
      ensures Valid() && rc == Success
      ensures View() == old(View()) - {topic}
      ensures Objects() <= old(Objects())
    {
      subscriptionMap := subscriptionMap - {topic};
      rc := Success;
    }

    method RemoveAllSubscriptionsForPacketId(pid: uint16) returns (rc: ResponseCode)
      requires Valid()
      modifies this`subscriptionMap
      ensures Valid() && rc == Failure
      ensures View() == RemovePacket(old(View()), pid)
      ensures Objects() <= old(Objects())
    {
      ghost var before := View();
      var rest := subscriptionMap.Keys;
      assert rest == before.Keys;
      hide SortedKeys, IsLeast, RegexText, RemovePacket, Sieve;
      while rest != {}
        invariant Valid() && Objects() <= old(Objects())
        invariant rest <= before.Keys
        invariant View() == Sieve(before, pid, rest)
        decreases |rest|
      {
        var k := Least(rest);
        SieveStep(before, pid, rest, k);
        ViewAt(k);
        if subscriptionMap[k].packetId == pid {
          var _ := RemoveSubscriptionByName(k);
        }
        rest := rest - {k};
      }
      rc := Failure;
    }

    method SetSubscriptionPacketInfo(topic: Key, pid: uint16, index: byte)
      requires Valid()
      modifies Objects()
      ensures Valid()
      ensures View() == if topic in old(View()) then old(View())[topic := old(View())[topic].(packetId := pid, index := index)]
                        else old(View())
    {
      if topic in subscriptionMap {
        subscriptionMap[topic].SetAckIndex(pid, index);
      }
    }

    // ---------- sending a SUBSCRIBE ----------

    ghost predicate Linked(list: seq<Subscription>)
      reads this
    {
      LinkedIn(subscriptionMap, list, |list|)
    }

    /** After serialising, the entry's object carries the id, and the last of its places in the list. */
    lemma StampedEntry(list: seq<Subscription>, before: SubMap, pid: uint16, k: Key)
      requires Valid() && Linked(list) && |list| <= MAX_TOPICS_IN_ONE_SUBSCRIBE_PACKET
      requires k in subscriptionMap && k in before && subscriptionMap[k].View().(packetId := 0, index := 0) ==
                                                      before[k].(packetId := 0, index := 0)
      requires subscriptionMap[k] !in list ==> subscriptionMap[k].View() == before[k]
      requires forall s :: s in list ==> s.packetId == pid && IsLastPlace(list, |list|, s, s.indexInPacket)
      ensures subscriptionMap[k].View() == Tag(before, NamesOf(list), pid, 0)[k]
    {
      var names, s := NamesOf(list), subscriptionMap[k];
      if k in names {
        var i :| 0 <= i < |names| && names[i] == k;
        var last := LastNamedExists(list, k, i);
        TagLast(before, names, pid, 0, last);
        assert s == list[last];
        hide Tag, NamesOf;
        assert s.indexInPacket == last + 1 by {
          assert IsLastPlace(list, |list|, s, s.indexInPacket);
          assert list[s.indexInPacket - 1].topicName == k;
        }
      } else {
        TagLeaves(before, names, pid, 0, k);
        assert forall i :: 0 <= i < |list| ==> names[i] != k && list[i] != s;
      }
    }

    /** Serialising a packet stamps the map's entries. */
    method Serialise(packet: SubscribePacket) returns (buf: seq<byte>)
      requires Valid() && Linked(packet.subscriptionList)
      requires |packet.subscriptionList| <= MAX_TOPICS_IN_ONE_SUBSCRIBE_PACKET
      modifies ObjectsIn(packet.subscriptionList)`packetId, ObjectsIn(packet.subscriptionList)`indexInPacket
      ensures Valid() && Linked(packet.subscriptionList)
      ensures buf == [packet.header.headerByte] + EncodeLength(packet.header.remainingLength) +
                     SubscribeBody(packet.packetId, RequestsOf(packet.subscriptionList))
      ensures View() == Tag(old(View()), NamesOf(packet.subscriptionList), packet.packetId, 0)
    {
      hide RegexText, Tag, NamesOf, LastNamed, IsLastPlace, EncodeLength, SubscribeBody;
      ghost var before := View();
      buf := packet.ToString();
      forall k | k in subscriptionMap
        ensures subscriptionMap[k].View() == Tag(before, NamesOf(packet.subscriptionList), packet.packetId, 0)[k]
      {
        StampedEntry(packet.subscriptionList, before, packet.packetId, k);
      }
    }

    ghost predicate Wellformed(list: seq<Subscription>) {
      |list| <= MAX_TOPICS_IN_ONE_SUBSCRIBE_PACKET &&
      forall s :: s in list ==> s.topicRegex == RegexText(s.topicName)
    }

    /** The loop over the request: topics already active are erased from the packet, the others put in the map. */
    method InsertSubscriptions(packet: SubscribePacket) returns (dropped: bool)
      requires Valid() && Wellformed(packet.subscriptionList)
      modifies this`subscriptionMap, packet`subscriptionList
      ensures Valid() && Linked(packet.subscriptionList)
      ensures Inserted(View(), ViewsOf(packet.subscriptionList)) ==
              InsertAll(old(View()), old(ViewsOf(packet.subscriptionList)))
      ensures |packet.subscriptionList| <= |old(packet.subscriptionList)|
      ensures dropped <==> |packet.subscriptionList| < |old(packet.subscriptionList)|
      ensures forall s :: s in packet.subscriptionList ==> s in old(packet.subscriptionList)
    {
      hide RegexText, InsertAll, Underway, ViewsOf, Without, LinkedIn;
      dropped := false;
      var i := 0;
      ghost var whole := Underway(View(), ViewsOf(packet.subscriptionList), 0);
      UnderwayStart(View(), ViewsOf(packet.subscriptionList));
      NothingLinked(subscriptionMap, packet.subscriptionList);
      while i < |packet.subscriptionList|
        invariant Valid() && 0 <= i <= |packet.subscriptionList| <= |old(packet.subscriptionList)|
        invariant forall s :: s in packet.subscriptionList ==> s in old(packet.subscriptionList)
        invariant dropped <==> |packet.subscriptionList| < |old(packet.subscriptionList)|
        invariant LinkedIn(subscriptionMap, packet.subscriptionList, i)
        invariant whole == Underway(View(), ViewsOf(packet.subscriptionList), i)
        decreases |packet.subscriptionList| - i
      {
        ghost var list, vs, subs := packet.subscriptionList, ViewsOf(packet.subscriptionList), View();
        var s := packet.subscriptionList[i];
        if s.topicName in subscriptionMap && subscriptionMap[s.topicName].isActive {
          UnderwayDrop(subs, vs, i);
          LinkWithout(subscriptionMap, list, i);
          EraseFrom(packet, i);
          dropped := true;
        } else {
          UnderwayKeep(subs, vs, i);
          LinkOne(subscriptionMap, list, i);
          InsertEntry(s, list);
          i := i + 1;
        }
      }
      UnderwayEnd(View(), ViewsOf(packet.subscriptionList));
    }

    method EraseFrom(packet: SubscribePacket, i: nat)
      requires i < |packet.subscriptionList|
      modifies packet`subscriptionList
      ensures packet.subscriptionList == Without(old(packet.subscriptionList), i)
      ensures ViewsOf(packet.subscriptionList) == Without(old(ViewsOf(packet.subscriptionList)), i)
      ensures View() == old(View())
    {
      hide ViewsOf, Without;
      ghost var list := packet.subscriptionList;
      packet.subscriptionList := Without(packet.subscriptionList, i);
      ViewsWithout(list, i);
      assert ViewsOf(list) == old(ViewsOf(packet.subscriptionList));
    }

    method InsertEntry(s: Subscription, ghost list: seq<Subscription>)
      requires Valid() && s.topicRegex == RegexText(s.topicName)
      modifies this`subscriptionMap
      ensures Valid() && subscriptionMap == old(subscriptionMap)[s.topicName := s]
      ensures View() == old(View())[s.topicName := s.View()]
      ensures ViewsOf(list) == old(ViewsOf(list))
    {
      hide RegexText, ViewsOf;
      subscriptionMap := subscriptionMap[s.topicName := s];
    }

    /** Takes the named topics out of the map again. */
    method RemoveNames(list: seq<Subscription>)
      requires Valid()
      modifies this`subscriptionMap
      ensures Valid()
      ensures View() == old(View()) - KeySet(NamesOf(list))
      ensures Objects() <= old(Objects())
    {
      hide RegexText, NamesOf;
      ghost var names := NamesOf(list);
      var i := 0;
      while i < |list|
        invariant 0 <= i <= |list|
        invariant Valid() && Objects() <= old(Objects())
        invariant View() == old(View()) - KeySet(names[..i])
      {
        assert names[..i + 1] == names[..i] + [names[i]];
        var _ := RemoveSubscriptionByName(list[i].topicName);
        i := i + 1;
      }
      assert names[..i] == names;
    }

    /** Inserts the request, stamps and writes it, and takes it out again if the write fails. */
    method SendRequest(packet: SubscribePacket, writeRc: ResponseCode)
      returns (rc: ResponseCode, dropped: bool, packetData: seq<byte>)
      requires Valid() && Wellformed(packet.subscriptionList)
      modifies this`subscriptionMap, packet`subscriptionList
      modifies ObjectsIn(packet.subscriptionList)`packetId, ObjectsIn(packet.subscriptionList)`indexInPacket
      ensures Valid()
      ensures View() == SubscribeStep(old(View()), old(ViewsOf(packet.subscriptionList)), packet.packetId,
                                      writeRc.Success?)
      ensures NamesOf(packet.subscriptionList) ==
              Topics(InsertAll(old(View()), old(ViewsOf(packet.subscriptionList))).kept)
      ensures |packet.subscriptionList| <= |old(packet.subscriptionList)|
      ensures dropped <==> |packet.subscriptionList| < |old(packet.subscriptionList)|
      ensures rc == if packet.subscriptionList == [] then Success else writeRc
      ensures packetData == [packet.header.headerByte] + EncodeLength(packet.header.remainingLength) +
                            SubscribeBody(packet.packetId, RequestsOf(packet.subscriptionList))
    {
      hide RegexText, InsertAll, ViewsOf, NamesOf, Tag, RequestsOf, LinkedIn, SubscribeStep, EncodeLength, SubscribeBody;
      ghost var before, request := View(), ViewsOf(packet.subscriptionList);
      dropped := InsertSubscriptions(packet);
      NamesAreTopics(packet.subscriptionList);
      ghost var inserted := Inserted(View(), ViewsOf(packet.subscriptionList));
      packetData := Serialise(packet);
      SubscribeStepIs(before, request, packet.packetId, writeRc.Success?, inserted);
      rc := Success;
      if |packet.subscriptionList| > 0 {
        rc := writeRc;
      }
      if !rc.Success? {
        RemoveNames(packet.subscriptionList);
      }
    }

    /** The SUBSCRIBE action. `writeRc` is what the network makes of the write, if there is one. */
    method PerformSubscribe(packet: SubscribePacket, handler: Option<int>, writeRc: ResponseCode)
      returns (rc: ResponseCode, packetData: seq<byte>)
      requires Valid() && Wellformed(packet.subscriptionList)
      modifies this`subscriptionMap, packet`subscriptionList, core`pendingAckMap
      modifies ObjectsIn(packet.subscriptionList)`packetId, ObjectsIn(packet.subscriptionList)`indexInPacket
      ensures Valid()
      ensures View() == SubscribeStep(old(View()), old(ViewsOf(packet.subscriptionList)), packet.packetId,
                                      writeRc.Success?)
      ensures NamesOf(packet.subscriptionList) ==
              Topics(InsertAll(old(View()), old(ViewsOf(packet.subscriptionList))).kept)
      ensures rc == if packet.subscriptionList == [] then Success else writeRc
      ensures packetData == [packet.header.headerByte] + EncodeLength(packet.header.remainingLength) +
                            SubscribeBody(packet.packetId, RequestsOf(packet.subscriptionList))
      ensures core.pendingAckMap ==
              AcksAfter(old(core.pendingAckMap), packet.packetId, handler,
                        |packet.subscriptionList| == |old(packet.subscriptionList)| && rc.Success?)
    {
      hide RegexText, InsertAll, ViewsOf, NamesOf, SubscribeStep, RequestsOf, SubscribeBody, EncodeLength;
      if handler.Some? {
        var _ := core.RegisterPendingAck(packet.packetId, Some(Async(handler.value)));
      }
      assert View() == old(View()) && ViewsOf(packet.subscriptionList) == old(ViewsOf(packet.subscriptionList));
      var dropped;
      rc, dropped, packetData := SendRequest(packet, writeRc);
      assert |packet.subscriptionList| <= |old(packet.subscriptionList)|;
      if handler.Some? && (dropped || !rc.Success?) {
        core.DeletePendingAck(packet.packetId);
      }
    }

    // ---------- other actions ----------

    /** The UNSUBSCRIBE action: its topics wait for the UNSUBACK from here on, whatever becomes of the write. */
    method PerformUnsubscribe(packet: UnsubscribePacket, handler: Option<int>, writeRc: ResponseCode)
      returns (rc: ResponseCode, packetData: seq<byte>)
      requires Valid()
      modifies Objects(), core`pendingAckMap
      ensures Valid() && rc == writeRc
      ensures View() == UnsubscribeStep(old(View()), packet.topicList, packet.packetId)
      ensures packetData == [packet.header.headerByte] + EncodeLength(packet.header.remainingLength) +
                            UnsubscribeBody(packet.packetId, packet.topicList)
      ensures core.pendingAckMap ==
              AcksAfter(old(core.pendingAckMap), packet.packetId, handler, rc.Success?)
    {
      hide RegexText, UnsubscribeStep, EncodeLength, UnsubscribeBody;
      if handler.Some? {
        var _ := core.RegisterPendingAck(packet.packetId, Some(Async(handler.value)));
      }
      MarkForUnsuback(packet.topicList, packet.packetId);
      packetData := packet.ToString();
      rc := writeRc;
      if !rc.Success? && handler.Some? {
        core.DeletePendingAck(packet.packetId);
      }
    }

    method MarkForUnsuback(topics: seq<Key>, pid: uint16)
      requires Valid()
      modifies Objects()
      ensures Valid()
      ensures View() == UnsubscribeStep(old(View()), topics, pid)
    {
      hide RegexText, UnsubscribeStep;
      ghost var before := View();
      UnsubscribeNone(before, topics, pid);
      var i := 0;
      while i < |topics|
        invariant 0 <= i <= |topics| && Valid()
        invariant View() == UnsubscribeStep(before, topics[..i], pid)
      {
        UnsubscribeOne(before, topics, pid, i);
        SetSubscriptionPacketInfo(topics[i], pid, 0);
        i := i + 1;
      }
      assert topics[..i] == topics;
    }

    /** The DISCONNECT action. What the network says of the packet and of the disconnect is ignored. */
    method PerformDisconnect() returns (rc: ResponseCode)
      requires Valid()
      modifies this`isConnected, this`isAutoReconnectRequired, Objects()
      ensures Valid() && !isConnected && isAutoReconnectRequired == old(isAutoReconnectRequired)
      ensures rc == if old(isConnected) then Success else NetworkDisconnected
      ensures View() == if old(isConnected) then DeactivateAll(old(View())) else old(View())
    {
      hide RegexText, DeactivateAll;
      if !isConnected {
        return NetworkDisconnected;
      }
      SetConnected(false);
      assert View() == old(View());
      DeactivateEntries();
      rc := Success;
    }

    method SetConnected(value: bool)
      modifies this`isConnected, this`isAutoReconnectRequired
      ensures isConnected == value
      ensures isAutoReconnectRequired == if value then false else old(isAutoReconnectRequired)
    {
      isConnected := value;
      if value {
        isAutoReconnectRequired := false;
      }
    }

    method DeactivateEntries()
      requires Valid()
      modifies Objects()
      ensures Valid()
      ensures View() == DeactivateAll(old(View()))
    {
      hide RegexText, IsLeast;
      var rest := subscriptionMap.Keys;
      while rest != {}
        invariant Valid() && rest <= subscriptionMap.Keys
        invariant forall k :: k in subscriptionMap ==>
                                subscriptionMap[k].View() == if k in rest then old(subscriptionMap[k].View())
                                                             else old(subscriptionMap[k].View()).(isActive := false)
        decreases |rest|
      {
        var k := Least(rest);
        subscriptionMap[k].SetActive(false);
        rest := rest - {k};
      }
    }
  }
}

