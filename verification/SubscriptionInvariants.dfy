/** What every run of the subscription protocol keeps. */
module SubscriptionInvariants {
  import opened MqttTypes
  import opened KeyOrder
  import opened SubscriptionProtocol

  /** Each entry is filed under its own topic. */
  ghost predicate KeysAreTopics(subs: SubMap) {
    forall k :: k in subs ==> subs[k].topic == k
  }

  ghost predicate SameAck(a: Sub, b: Sub) {
    a.packetId == b.packetId != 0 && a.index == b.index != 0
  }

  /** No two entries outside `pending` wait for the same position of the same packet. */
  ghost predicate UniqueOutside(subs: SubMap, pending: set<Key>) {
    forall j, k :: j in subs && k in subs && j !in pending && k !in pending && SameAck(subs[j], subs[k]) ==> j == k
  }

  ghost predicate UniqueAcks(subs: SubMap) {
    forall j, k :: j in subs && k in subs && SameAck(subs[j], subs[k]) ==> j == k
  }

  ghost predicate Inv(subs: SubMap) {
    KeysAreTopics(subs) && UniqueAcks(subs)
  }

  /** No entry carries the packet id. */
  ghost predicate Unused(subs: SubMap, pid: uint16) {
    forall k :: k in subs ==> subs[k].packetId != pid
  }

  // ---------- the first-match search ----------

  /** When acknowledgements are unique, the entry found does not depend on the order of the search. */
  lemma SearchOrderIrrelevant(subs: SubMap, someOrder: seq<Key>, otherOrder: seq<Key>, pid: uint16, index: byte)
    requires UniqueAcks(subs) && pid != 0 && index != 0
    requires forall k :: k in someOrder <==> k in subs
    requires forall k :: k in otherOrder <==> k in subs
    ensures FindAck(subs, someOrder, pid, index) == FindAck(subs, otherOrder, pid, index)
  {
    var a, b := FindAck(subs, someOrder, pid, index), FindAck(subs, otherOrder, pid, index);
    if a.Some? && b.Some? {
      assert SameAck(subs[a.value], subs[b.value]);
    }
  }

  /** An order in which the map can be walked. */
  ghost predicate Lists(order: seq<Key>, subs: SubMap) {
    forall k :: k in order <==> k in subs
  }

  /** At most one entry waits for the acknowledgement. */
  ghost predicate OneWaits(subs: SubMap, pid: uint16, index: byte) {
    forall j, k :: j in subs && k in subs && subs[j].IsInSuback(pid, index) && subs[k].IsInSuback(pid, index) ==> j == k
  }

  lemma FoundInAnyOrder(subs: SubMap, a: seq<Key>, b: seq<Key>, pid: uint16, index: byte)
    requires OneWaits(subs, pid, index) && Lists(a, subs) && Lists(b, subs)
    ensures FindAck(subs, a, pid, index) == FindAck(subs, b, pid, index)
  {
    var found, other := FindAck(subs, a, pid, index), FindAck(subs, b, pid, index);
    hide FindAck;
  }

  lemma FoundFirst(subs: SubMap, order: seq<Key>, k: Key, pid: uint16, index: byte)
    requires Lists(order, subs) && k in subs && subs[k].IsInSuback(pid, index)
    ensures Lists([k] + order, subs) && FindAck(subs, [k] + order, pid, index) == Some(k)
  {
  }

  lemma TwoWait(subs: SubMap, pid: uint16, index: byte) returns (j: Key, k: Key)
    requires !OneWaits(subs, pid, index)
    ensures j in subs && k in subs && j != k && subs[j].IsInSuback(pid, index) && subs[k].IsInSuback(pid, index)
  {
    j, k :| j in subs && k in subs && j != k && subs[j].IsInSuback(pid, index) && subs[k].IsInSuback(pid, index);
  }

  ghost predicate SameFound(subs: SubMap, a: seq<Key>, b: seq<Key>, pid: uint16, index: byte)
    requires Lists(a, subs) && Lists(b, subs)
  {
    FindAck(subs, a, pid, index) == FindAck(subs, b, pid, index)
  }

  /** For any map and acknowledgement the order of the search is irrelevant if and only if at most one entry waits. */
  lemma OrderIrrelevantExactly(subs: SubMap, pid: uint16, index: byte)
    ensures OneWaits(subs, pid, index) <==>
            forall a, b :: Lists(a, subs) && Lists(b, subs) ==> SameFound(subs, a, b, pid, index)
  {
    hide FindAck, SortedKeys, OneWaits, Lists;
    if OneWaits(subs, pid, index) {
      forall a, b | Lists(a, subs) && Lists(b, subs)
        ensures SameFound(subs, a, b, pid, index)
      {
        FoundInAnyOrder(subs, a, b, pid, index);
      }
    } else {
      var j, k := TwoWait(subs, pid, index);
      var order := SortedKeys(subs.Keys);
      FoundFirst(subs, order, j, pid, index);
      FoundFirst(subs, order, k, pid, index);
      assert !SameFound(subs, [j] + order, [k] + order, pid, index);
    }
  }

  /** With a stale id the search does depend on order: two requests under one id, from the empty map, leave two entries
      that wait for the same position. */
  lemma StaleIdMakesOrderMatter(s: Engine, one: Sub, other: Sub, pid: uint16)
    requires s.subs == map[] && one.topic != other.topic && pid != 0
    ensures var subs := Run(s, [Event.Subscribe([one], pid, true), Event.Subscribe([other], pid, true)]).subs;
            && subs.Keys == {one.topic, other.topic}
            && KeysAreTopics(subs) && !UniqueAcks(subs)
            && FindAck(subs, [one.topic, other.topic], pid, 1) != FindAck(subs, [other.topic, one.topic], pid, 1)
  {
    var first, second := Event.Subscribe([one], pid, true), Event.Subscribe([other], pid, true);
    OneRequest(map[], one, pid);
    var s1 := Step(s, first);
    assert s1.subs == map[one.topic := one.(packetId := pid, index := 1)];
    OneRequest(s1.subs, other, pid);
    var s2 := Step(s1, second);
    hide SubscribeStep;
    assert [first, second][1..] == [second];
    assert Run(s, [first, second]) == Run(s1, [second]) == Run(s2, []) == s2;
    assert SameAck(s2.subs[one.topic], s2.subs[other.topic]);
  }

  /** A request of one subscription whose topic is not active. */
  lemma OneRequest(subs: SubMap, sub: Sub, pid: uint16)
    requires sub.topic in subs ==> !subs[sub.topic].isActive
    ensures SubscribeStep(subs, [sub], pid, true) == subs[sub.topic := sub.(packetId := pid, index := 1)]
  {
    var inserted := subs[sub.topic := sub];
    assert [sub][1..] == [];
    assert InsertAll(subs, [sub]) == Inserted(inserted, [sub] + InsertAll(inserted, []).kept);
    assert [sub] + [] == [sub];
    var topics := Topics([sub]);
    assert topics == [sub.topic] && topics[1..] == [];
    assert Tag(inserted, topics, pid, 0) == inserted[sub.topic := sub.(packetId := pid, index := 1)];
  }

  // ---------- stamping a request ----------

  ghost predicate StampedBelow(subs: SubMap, pending: set<Key>, pid: uint16, from: nat) {
    forall k :: k in subs && k !in pending && subs[k].packetId == pid ==> subs[k].index <= from
  }

  /** Stamping keeps acknowledgements unique: the positions used so far lie below the next one. */
  lemma {:induction false} TagKeepsUnique(subs: SubMap, topics: seq<Key>, pid: uint16, from: nat)
    requires from + |topics| < 256
    requires UniqueOutside(subs, KeySet(topics)) && StampedBelow(subs, KeySet(topics), pid, from)
    ensures UniqueAcks(Tag(subs, topics, pid, from))
    decreases |topics|
  {
    if topics != [] {
      var t, rest := topics[0], topics[1..];
      var stamped := if t in subs then subs[t := subs[t].(packetId := pid, index := from + 1)] else subs;
      assert KeySet(topics) == KeySet(rest) + {t};
      TagKeepsUnique(stamped, rest, pid, from + 1);
    }
  }

  /** Stamping touches nothing but the packet id and index of its topics. */
  lemma {:induction false} TagFrame(subs: SubMap, topics: seq<Key>, pid: uint16, from: nat)
    requires from + |topics| < 256
    ensures var r := Tag(subs, topics, pid, from);
            forall k :: k in subs ==>
                          && r[k].topic == subs[k].topic && r[k].isActive == subs[k].isActive
                          && r[k].maxQos == subs[k].maxQos && (k !in topics ==> r[k] == subs[k])
    decreases |topics|
  {
    if topics != [] {
      var t, rest := topics[0], topics[1..];
      var stamped := if t in subs then subs[t := subs[t].(packetId := pid, index := from + 1)] else subs;
      TagFrame(stamped, rest, pid, from + 1);
    }
  }

  /** Distinct topics are stamped with their positions. */
  lemma {:induction false} TagStamps(subs: SubMap, topics: seq<Key>, pid: uint16, from: nat)
    requires from + |topics| < 256
    requires forall i, j :: 0 <= i < j < |topics| ==> topics[i] != topics[j]
    requires forall i :: 0 <= i < |topics| ==> topics[i] in subs
    ensures var r := Tag(subs, topics, pid, from);
            forall i :: 0 <= i < |topics| ==>
                          r[topics[i]] == subs[topics[i]].(packetId := pid, index := from + i + 1)
    decreases |topics|
  {
    if topics != [] {
      var t, rest := topics[0], topics[1..];
      var stamped := subs[t := subs[t].(packetId := pid, index := from + 1)];
      TagStamps(stamped, rest, pid, from + 1);
      TagFrame(stamped, rest, pid, from + 1);
      var r := Tag(subs, topics, pid, from);
      forall i | 0 <= i < |topics|
        ensures r[topics[i]] == subs[topics[i]].(packetId := pid, index := from + i + 1)
      {
        if i > 0 {
          assert topics[i] == rest[i - 1];
        } else {
          assert t !in rest;
        }
      }
    }
  }

  /** The last position of a topic is the one it is stamped with. */
  lemma {:induction false} TagLast(subs: SubMap, topics: seq<Key>, pid: uint16, from: nat, i: nat)
    requires from + |topics| < 256 && i < |topics| && topics[i] in subs
    requires forall m :: i < m < |topics| ==> topics[m] != topics[i]
    ensures Tag(subs, topics, pid, from)[topics[i]] == subs[topics[i]].(packetId := pid, index := from + i + 1)
    decreases |topics|
  {
    var t, rest := topics[0], topics[1..];
    var stamped := if t in subs then subs[t := subs[t].(packetId := pid, index := from + 1)] else subs;
    if i > 0 {
      assert rest[i - 1] == topics[i];
      TagLast(stamped, rest, pid, from + 1, i - 1);
    } else {
      assert t !in rest;
      TagLeaves(stamped, rest, pid, from + 1, t);
    }
  }

  lemma {:induction false} TagLeaves(subs: SubMap, topics: seq<Key>, pid: uint16, from: nat, k: Key)
    requires from + |topics| < 256 && k in subs && k !in topics
    ensures Tag(subs, topics, pid, from)[k] == subs[k]
    decreases |topics|
  {
    if topics != [] {
      var t := topics[0];
      var stamped := if t in subs then subs[t := subs[t].(packetId := pid, index := from + 1)] else subs;
      TagLeaves(stamped, topics[1..], pid, from + 1, k);
    }
  }

  /** Inserting a request changes the map on the topics it keeps and nowhere else. */
  lemma {:induction false} InsertFrame(subs: SubMap, list: seq<Sub>)
    ensures var r := InsertAll(subs, list);
            && (forall k :: k in subs ==> k in r.subs)
            && (forall k :: k in r.subs && k !in Topics(r.kept) ==> k in subs && r.subs[k] == subs[k])
            && (forall k :: k in Topics(r.kept) ==> k in r.subs)
            && (KeysAreTopics(subs) ==> KeysAreTopics(r.subs))
    decreases |list|
  {
    if list != [] {
      var s := list[0];
      if s.topic in subs && subs[s.topic].isActive {
        InsertFrame(subs, list[1..]);
      } else {
        InsertFrame(subs[s.topic := s], list[1..]);
        var rest := InsertAll(subs[s.topic := s], list[1..]);
        assert Topics([s] + rest.kept) == [s.topic] + Topics(rest.kept);
      }
    }
  }

  lemma SubscribeKeepsInv(subs: SubMap, list: TopicList, pid: uint16, written: bool)
    requires Inv(subs) && Unused(subs, pid)
    ensures Inv(SubscribeStep(subs, list, pid, written))
  {
    InsertFrame(subs, list);
    var r := InsertAll(subs, list);
    var topics := Topics(r.kept);
    TagKeepsUnique(r.subs, topics, pid, 0);
    TagFrame(r.subs, topics, pid, 0);
  }

  // ---------- acknowledgements ----------

  lemma CodeKeepsInv(subs: SubMap, pid: uint16, position: nat, code: byte)
    requires Inv(subs)
    ensures Inv(ApplyCode(subs, pid, position, code))
  {
    hide SortedKeys;
  }

  lemma {:induction false} SubackKeepsInv(subs: SubMap, pid: uint16, codes: seq<byte>, from: nat)
    requires Inv(subs) && from <= |codes|
    ensures Inv(ApplyCodes(subs, pid, codes, from))
    decreases |codes| - from
  {
    hide Inv, ApplyCode;
    if from < |codes| {
      CodeKeepsInv(subs, pid, from, codes[from]);
      SubackKeepsInv(ApplyCode(subs, pid, from, codes[from]), pid, codes, from + 1);
    }
  }

  // ---------- resubscription ----------

  /** The ids the resubscription issues are unused when their turn comes. */
  ghost predicate FreshResubscribe(subs: SubMap, keys: seq<Key>, last: uint16, writes: seq<bool>)
    decreases |keys|
  {
    keys == [] ||
    (&& Unused(subs, NextId(last))
     && (writes == [] || writes[0] ==>
           FreshResubscribe(Tag(subs, Batch(keys), NextId(last), 0), keys[|Batch(keys)|..], NextId(last),
                            if writes == [] then [] else writes[1..])))
  }

  lemma {:induction false} ResubscribeKeepsInv(subs: SubMap, keys: seq<Key>, last: uint16, writes: seq<bool>)
    requires Inv(subs) && FreshResubscribe(subs, keys, last, writes)
    ensures Inv(Resubscribe(subs, keys, last, writes).subs)
    decreases |keys|
  {
    if keys != [] {
      var batch := Batch(keys);
      var tagged := Tag(subs, batch, NextId(last), 0);
      TagKeepsUnique(subs, batch, NextId(last), 0);
      TagFrame(subs, batch, NextId(last), 0);
      if writes == [] || writes[0] {
        ResubscribeKeepsInv(tagged, keys[|batch|..], NextId(last), if writes == [] then [] else writes[1..]);
      }
    }
  }

  // ---------- runs ----------

  /** A newly issued id that this event puts to use is carried by no entry. */
  ghost predicate Fresh(s: Engine, e: Event) {
    match e
    case Subscribe(_, pid, _) => Unused(s.subs, pid)
    case Resubscribing(writes) => FreshResubscribe(s.subs, SortedKeys(s.subs.Keys), s.last, writes)
    case _ => true
  }

  ghost predicate FreshRun(s: Engine, es: seq<Event>)
    decreases |es|
  {
    es == [] || (Fresh(s, es[0]) && FreshRun(Step(s, es[0]), es[1..]))
  }

  lemma StepKeepsInv(s: Engine, e: Event)
    requires Inv(s.subs) && Fresh(s, e)
    ensures Inv(Step(s, e).subs)
  {
    match e
    case Subscribe(list, pid, written) => SubscribeKeepsInv(s.subs, list, pid, written);
    case Suback(pid, codes) => SubackKeepsInv(s.subs, pid, codes, 0);
    case Resubscribing(writes) => ResubscribeKeepsInv(s.subs, SortedKeys(s.subs.Keys), s.last, writes);
    case _ =>
  }

  /** In every run whose new ids are fresh, every entry stays under its topic and no two entries wait for the same
      acknowledgement. */
  lemma {:induction false} RunKeepsInv(s: Engine, es: seq<Event>)
    requires Inv(s.subs) && FreshRun(s, es)
    ensures Inv(Run(s, es).subs)
    decreases |es|
  {
    if es != [] {
      StepKeepsInv(s, es[0]);
      RunKeepsInv(Step(s, es[0]), es[1..]);
    }
  }

  // ---------- nothing is active that was not granted ----------

  /** The SUBACK grants the entry: some position of it carries code 0 or 1 and is the one the entry waits for. */
  ghost predicate Grants(subs: SubMap, pid: uint16, codes: seq<byte>, k: Key) {
    k in subs &&
    exists i :: 0 <= i < |codes| && codes[i] <= 1 && subs[k].IsInSuback(pid, AckIndex(i))
  }

  /** The topics whose present entry a SUBACK has granted since the last disconnect, after one more event: a request
      makes new entries of the topics it keeps, and what has left the map is forgotten. */
  ghost function GrantStep(s: Engine, granted: set<Key>, e: Event): set<Key> {
    var so := match e
      case Subscribe(list, _, _) => granted - KeySet(Topics(InsertAll(s.subs, list).kept))
      case Suback(pid, codes) => granted + set k | k in s.subs && Grants(s.subs, pid, codes, k)
      case Disconnect => if s.connected then {} else granted
      case _ => granted;
    so * Step(s, e).subs.Keys
  }

  ghost function GrantedInRun(s: Engine, granted: set<Key>, es: seq<Event>): set<Key>
    decreases |es|
  {
    if es == [] then granted else GrantedInRun(Step(s, es[0]), GrantStep(s, granted, es[0]), es[1..])
  }

  ghost predicate ActiveOnlyIf(subs: SubMap, granted: set<Key>) {
    forall k :: k in subs && subs[k].isActive ==> k in granted
  }

  /** The event's assumptions: handed subscriptions are freshly created, hence inactive, and the broker acknowledges
      only on an accepted connection. */
  ghost predicate Polite(s: Engine, e: Event) {
    match e
    case Subscribe(list, _, _) => forall i :: 0 <= i < |list| ==> !list[i].isActive
    case Suback(_, _) => s.connected
    case _ => true
  }

  ghost predicate PoliteRun(s: Engine, es: seq<Event>)
    decreases |es|
  {
    es == [] || (Polite(s, es[0]) && PoliteRun(Step(s, es[0]), es[1..]))
  }

  ghost predicate GrantInv(s: Engine, granted: set<Key>) {
    ActiveOnlyIf(s.subs, granted) && (!s.connected ==> ActiveOnlyIf(s.subs, {}))
  }

  /** The entries a request of inactive subscriptions makes are inactive, and the others are as they were. */
  lemma {:induction false} InsertActivatesNothing(subs: SubMap, list: seq<Sub>, granted: set<Key>)
    requires ActiveOnlyIf(subs, granted)
    requires forall i :: 0 <= i < |list| ==> !list[i].isActive
    ensures ActiveOnlyIf(InsertAll(subs, list).subs, granted - KeySet(Topics(InsertAll(subs, list).kept)))
    decreases |list|
  {
    if list != [] {
      var s := list[0];
      if s.topic in subs && subs[s.topic].isActive {
        InsertActivatesNothing(subs, list[1..], granted);
      } else {
        var inserted := subs[s.topic := s];
        assert ActiveOnlyIf(inserted, granted - {s.topic});
        InsertActivatesNothing(inserted, list[1..], granted - {s.topic});
        var rest := InsertAll(inserted, list[1..]);
        assert Topics([s] + rest.kept) == [s.topic] + Topics(rest.kept);
        assert KeySet([s.topic] + Topics(rest.kept)) == {s.topic} + KeySet(Topics(rest.kept));
        hide InsertAll, Topics, KeySet;
      }
    }
  }

  /** Every entry of the map is as it was when the SUBACK came, or the SUBACK has granted it. */
  ghost predicate AsBeforeOrGranted(before: SubMap, now: SubMap, pid: uint16, codes: seq<byte>) {
    forall k :: k in now ==> k in before && (now[k] == before[k] || Grants(before, pid, codes, k))
  }

  lemma CodeGrants(before: SubMap, now: SubMap, pid: uint16, codes: seq<byte>, i: nat)
    requires i < |codes| && AsBeforeOrGranted(before, now, pid, codes)
    ensures AsBeforeOrGranted(before, ApplyCode(now, pid, i, codes[i]), pid, codes)
  {
    hide SortedKeys;
    var found := FindAck(now, SortedKeys(now.Keys), pid, AckIndex(i));
    if found.Some? && codes[i] <= 1 && now[found.value] == before[found.value] {
      assert Grants(before, pid, codes, found.value);
    }
  }

  lemma {:induction false} SubackGrants(before: SubMap, now: SubMap, pid: uint16, codes: seq<byte>, from: nat)
    requires from <= |codes| && AsBeforeOrGranted(before, now, pid, codes)
    ensures AsBeforeOrGranted(before, ApplyCodes(now, pid, codes, from), pid, codes)
    decreases |codes| - from
  {
    hide AsBeforeOrGranted, ApplyCode;
    if from < |codes| {
      CodeGrants(before, now, pid, codes, from);
      SubackGrants(before, ApplyCode(now, pid, from, codes[from]), pid, codes, from + 1);
    }
  }

  lemma {:induction false} ResubscribeActivatesNothing(subs: SubMap, keys: seq<Key>, last: uint16, writes: seq<bool>,
                                                       granted: set<Key>)
    requires ActiveOnlyIf(subs, granted)
    ensures ActiveOnlyIf(Resubscribe(subs, keys, last, writes).subs, granted)
    decreases |keys|
  {
    if keys != [] {
      var batch := Batch(keys);
      TagFrame(subs, batch, NextId(last), 0);
      if writes == [] || writes[0] {
        ResubscribeActivatesNothing(Tag(subs, batch, NextId(last), 0), keys[|batch|..], NextId(last),
                                    if writes == [] then [] else writes[1..], granted);
      }
    }
  }

  lemma SubscribeActivatesNothing(subs: SubMap, list: TopicList, pid: uint16, written: bool, granted: set<Key>)
    requires ActiveOnlyIf(subs, granted)
    requires forall i :: 0 <= i < |list| ==> !list[i].isActive
    ensures ActiveOnlyIf(SubscribeStep(subs, list, pid, written),
                         granted - KeySet(Topics(InsertAll(subs, list).kept)))
  {
    hide InsertAll, Tag;
    InsertActivatesNothing(subs, list, granted);
    var r := InsertAll(subs, list);
    TagFrame(r.subs, Topics(r.kept), pid, 0);
  }

  lemma StepKeepsGrants(s: Engine, granted: set<Key>, e: Event)
    requires GrantInv(s, granted) && Polite(s, e)
    ensures GrantInv(Step(s, e), GrantStep(s, granted, e))
  {
    match e
    case Subscribe(list, pid, written) =>
      SubscribeActivatesNothing(s.subs, list, pid, written, granted);
      if !s.connected {
        SubscribeActivatesNothing(s.subs, list, pid, written, {});
      }
    case Suback(pid, codes) => SubackGrants(s.subs, s.subs, pid, codes, 0);
    case Resubscribing(writes) =>
      var keys := SortedKeys(s.subs.Keys);
      ResubscribeActivatesNothing(s.subs, keys, s.last, writes, granted);
      if !s.connected {
        ResubscribeActivatesNothing(s.subs, keys, s.last, writes, {});
      }
    case _ =>
  }

  /** In every run with fresh subscription objects and a broker that acknowledges only on accepted connections, an
      entry is active only if a SUBACK granted that very entry since the last disconnect. */
  lemma {:induction false} ActiveMeansGranted(s: Engine, granted: set<Key>, es: seq<Event>)
    requires GrantInv(s, granted) && PoliteRun(s, es)
    ensures GrantInv(Run(s, es), GrantedInRun(s, granted, es))
    decreases |es|
  {
    if es != [] {
      StepKeepsGrants(s, granted, es[0]);
      ActiveMeansGranted(Step(s, es[0]), GrantStep(s, granted, es[0]), es[1..]);
    }
  }
}
