/**
 The subscription and acknowledgement protocol on values: what each step does to the map of subscriptions
 (src/mqtt/ClientState.cpp, src/mqtt/Subscribe.cpp, src/mqtt/NetworkRead.cpp, src/mqtt/Connect.cpp).
 */
module SubscriptionProtocol {
  import opened MqttTypes
  import opened KeyOrder

  /** The fields of a Subscription the protocol reads and writes. */
  datatype Sub = Sub(topic: Key, isActive: bool, packetId: uint16, index: byte, maxQos: QoS) {
    predicate IsInSuback(pid: uint16, indexInPacket: byte) {
      pid == packetId && indexInPacket == index
    }
  }

  type SubMap = map<Key, Sub>

  const MAX_TOPICS_IN_ONE_SUBSCRIBE_PACKET: nat := 8

  /** The subscriptions of one request; the client refuses longer ones. */
  type TopicList = list: seq<Sub> | |list| <= MAX_TOPICS_IN_ONE_SUBSCRIBE_PACKET witness []

  // ---------- acknowledgements ----------

  /** The first entry, in the order of `keys`, that waits for this acknowledgement. */
  function FindAck(subs: SubMap, keys: seq<Key>, pid: uint16, index: byte): (r: Option<Key>)
    requires forall k :: k in keys ==> k in subs
    ensures r.Some? ==> r.value in keys && subs[r.value].IsInSuback(pid, index)
    ensures r.None? ==> forall k :: k in keys ==> !subs[k].IsInSuback(pid, index)
  {
    if keys == [] then None
    else if subs[keys[0]].IsInSuback(pid, index) then Some(keys[0])
    else FindAck(subs, keys[1..], pid, index)
  }

  /** A granted entry: active, with the granted QoS, and waiting for nothing. */
  function Granted(s: Sub, qos: QoS): (r: Sub)
    ensures r.topic == s.topic && r.isActive && r.maxQos == qos && r.packetId == 0 && r.index == 0
  {
    s.(isActive := true, maxQos := qos, packetId := 0, index := 0)
  }

  ghost function SetActive(subs: SubMap, pid: uint16, index: byte, qos: QoS): SubMap {
    match FindAck(subs, SortedKeys(subs.Keys), pid, index)
    case None => subs
    case Some(k) => subs[k := Granted(subs[k], qos)]
  }

  ghost function RemoveAck(subs: SubMap, pid: uint16, index: byte): SubMap {
    match FindAck(subs, SortedKeys(subs.Keys), pid, index)
    case None => subs
    case Some(k) => subs - {k}
  }

  function RemovePacket(subs: SubMap, pid: uint16): SubMap {
    map k | k in subs && subs[k].packetId != pid :: subs[k]
  }

  /** The position counter of a SUBACK is eight bits wide, and so is the index looked up. */
  function AckIndex(position: nat): byte {
    (position + 1) % 256
  }

  ghost function ApplyCode(subs: SubMap, pid: uint16, position: nat, code: byte): SubMap {
    if code == 128 then RemoveAck(subs, pid, AckIndex(position))
    else if code == 0 then SetActive(subs, pid, AckIndex(position), QoS0)
    else if code == 1 then SetActive(subs, pid, AckIndex(position), QoS1)
    else subs
  }

  /** A whole SUBACK, from position `from` on. */
  ghost function ApplyCodes(subs: SubMap, pid: uint16, codes: seq<byte>, from: nat): SubMap
    requires from <= |codes|
    decreases |codes| - from
  {
    if from == |codes| then subs
    else ApplyCodes(ApplyCode(subs, pid, from, codes[from]), pid, codes, from + 1)
  }

  /** The response code a SUBACK is reported with. */
  function SubackResult(codes: seq<byte>): ResponseCode {
    if (0 in codes || 1 in codes) && 128 in codes then SubscribePartiallyFailed
    else if 0 in codes || 1 in codes then Success
    else SubscribeFailed
  }

  // ---------- requests ----------

  datatype Inserted = Inserted(subs: SubMap, kept: seq<Sub>)

  /** Puts the subscriptions of a request in the map, one by one; those whose topic is already active are dropped from
      the request. */
  function InsertAll(subs: SubMap, list: seq<Sub>): (r: Inserted)
    ensures |r.kept| <= |list|
    decreases |list|
  {
    if list == [] then Inserted(subs, [])
    else
      var s := list[0];
      if s.topic in subs && subs[s.topic].isActive then InsertAll(subs, list[1..])
      else
        var rest := InsertAll(subs[s.topic := s], list[1..]);
        rest.(kept := [s] + rest.kept)
  }

  /** Serialising the request stamps each of its topics with the packet id and its position. */
  function Tag(subs: SubMap, topics: seq<Key>, pid: uint16, from: nat): (r: SubMap)
    requires from + |topics| < 256
    ensures r.Keys == subs.Keys
    decreases |topics|
  {
    if topics == [] then subs
    else
      var stamped := if topics[0] in subs
                     then subs[topics[0] := subs[topics[0]].(packetId := pid, index := from + 1)] else subs;
      Tag(stamped, topics[1..], pid, from + 1)
  }

  function Topics(list: seq<Sub>): seq<Key> {
    seq(|list|, i requires 0 <= i < |list| => list[i].topic)
  }

  function KeySet(keys: seq<Key>): set<Key> {
    set k | k in keys
  }

  /** The SUBSCRIBE action. A failed write takes the request's topics out of the map again. */
  function SubscribeStep(subs: SubMap, list: TopicList, pid: uint16, written: bool): SubMap {
    var r := InsertAll(subs, list);
    var tagged := Tag(r.subs, Topics(r.kept), pid, 0);
    if r.kept != [] && !written then tagged - KeySet(Topics(r.kept)) else tagged
  }

  /** The UNSUBSCRIBE action: its topics wait for the UNSUBACK, whether or not the write goes out. */
  function UnsubscribeStep(subs: SubMap, topics: seq<Key>, pid: uint16): SubMap {
    map k | k in subs :: if k in topics then subs[k].(packetId := pid, index := 0) else subs[k]
  }

  function DeactivateAll(subs: SubMap): SubMap {
    map k | k in subs :: subs[k].(isActive := false)
  }

  // ---------- packet identifiers ----------

  function NextId(last: uint16): (id: uint16)
    ensures id != 0
  {
    if last == UINT16_MAX then 1 else last + 1
  }

  /** The `n`-th identifier issued after `last`. */
  function IdAfter(last: uint16, n: nat): uint16 {
    if n == 0 then last else NextId(IdAfter(last, n - 1))
  }

  // ---------- resubscription ----------

  datatype Request = Request(pid: uint16, topics: seq<Key>)

  datatype Resubscribed = Resubscribed(subs: SubMap, sent: seq<Request>, complete: bool, last: uint16)

  /** The next topics to go out in one packet. */
  function Batch(keys: seq<Key>): seq<Key> {
    if |keys| <= MAX_TOPICS_IN_ONE_SUBSCRIBE_PACKET then keys else keys[..MAX_TOPICS_IN_ONE_SUBSCRIBE_PACKET]
  }

  /** Walks the keys in batches of at most eight; a batch is stamped before it is written, and a failed write ends the
      walk. `writes` says which writes succeed; those it does not mention do. */
  function Resubscribe(subs: SubMap, keys: seq<Key>, last: uint16, writes: seq<bool>): (r: Resubscribed)
    ensures r.subs.Keys == subs.Keys
    decreases |keys|
  {
    if keys == [] then Resubscribed(subs, [], true, last)
    else
      var batch, pid := Batch(keys), NextId(last);
      var tagged := Tag(subs, batch, pid, 0);
      if writes != [] && !writes[0] then Resubscribed(tagged, [Request(pid, batch)], false, pid)
      else
        var more := Resubscribe(tagged, keys[|batch|..], pid, if writes == [] then [] else writes[1..]);
        more.(sent := [Request(pid, batch)] + more.sent)
  }

  // ---------- the client as a state machine ----------

  datatype Engine = Engine(subs: SubMap, connected: bool, last: uint16)

  datatype Event =
    | Subscribe(list: TopicList, pid: uint16, written: bool)
    | Suback(pid: uint16, codes: seq<byte>)
    | Unsubscribe(topics: seq<Key>, pid: uint16)
    | Unsuback(pid: uint16)
    | Connack(returnCode: byte)
    | Disconnect
    | Resubscribing(writes: seq<bool>)
    | IssueId

  /** One action or handler body, taken as one step. */
  ghost function Step(s: Engine, e: Event): Engine {
    match e
    case Subscribe(list, pid, written) => s.(subs := SubscribeStep(s.subs, list, pid, written))
    case Suback(pid, codes) => s.(subs := ApplyCodes(s.subs, pid, codes, 0))
    case Unsubscribe(topics, pid) => s.(subs := UnsubscribeStep(s.subs, topics, pid))
    case Unsuback(pid) => s.(subs := RemovePacket(s.subs, pid))
    case Connack(returnCode) => if returnCode == 0 then s.(connected := true) else s
    case Disconnect => if s.connected then s.(connected := false, subs := DeactivateAll(s.subs)) else s
    case Resubscribing(writes) =>
      var r := Resubscribe(s.subs, SortedKeys(s.subs.Keys), s.last, writes);
      s.(subs := r.subs, last := r.last)
    case IssueId => s.(last := NextId(s.last))
  }

  ghost function Run(s: Engine, es: seq<Event>): Engine
    decreases |es|
  {
    if es == [] then s else Run(Step(s, es[0]), es[1..])
  }
}
