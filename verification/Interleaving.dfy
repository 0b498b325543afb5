/** Acknowledgements that come late: what a SUBACK or an UNSUBACK does after other things have happened in between. */
module Interleaving {
  import opened MqttTypes
  import opened KeyOrder
  import opened SubscriptionProtocol
  import opened SubscriptionInvariants
  import opened Acknowledgements
  import opened Resubscription

  predicate Carries(subs: SubMap, k: Key, pid: uint16) {
    k in subs && subs[k].packetId == pid
  }

  /** The event has nothing to do with the packet id. */
  ghost predicate Avoids(s: Engine, e: Event, pid: uint16) {
    match e
    case Subscribe(_, other, _) => other != pid
    case Suback(other, _) => other != pid
    case Unsubscribe(_, other) => other != pid
    case Unsuback(other) => other != pid
    case Resubscribing(writes) =>
      var sent := Resubscribe(s.subs, SortedKeys(s.subs.Keys), s.last, writes).sent;
      forall j :: 0 <= j < |sent| ==> sent[j].pid != pid
    case _ => true
  }

  /** The topics whose entries the event makes anew or stamps with another id. */
  ghost function Restamped(s: Engine, e: Event): set<Key> {
    match e
    case Subscribe(list, _, _) => KeySet(Topics(InsertAll(s.subs, list).kept))
    case Unsubscribe(topics, _) => KeySet(topics)
    case Resubscribing(writes) => KeySet(AllTopics(Resubscribe(s.subs, SortedKeys(s.subs.Keys), s.last, writes).sent))
    case _ => {}
  }

  /** The same entry, but perhaps deactivated. */
  predicate SameButActive(a: Sub, b: Sub) {
    a.(isActive := false) == b.(isActive := false)
  }

  /** The entry still carries the id exactly if it did and was not restamped, and then it is the same. */
  ghost predicate Kept(before: SubMap, after: SubMap, k: Key, pid: uint16, restamped: bool) {
    && (Carries(after, k, pid) <==> Carries(before, k, pid) && !restamped)
    && (Carries(after, k, pid) ==> SameButActive(after[k], before[k]))
  }

  // ---------- one event ----------

  lemma {:induction false} TagRestamps(subs: SubMap, topics: seq<Key>, pid: uint16, from: nat)
    requires from + |topics| < 256
    ensures forall k :: k in topics && k in subs ==> Tag(subs, topics, pid, from)[k].packetId == pid
    decreases |topics|
  {
    if topics != [] {
      var t, rest := topics[0], topics[1..];
      var stamped := if t in subs then subs[t := subs[t].(packetId := pid, index := from + 1)] else subs;
      TagRestamps(stamped, rest, pid, from + 1);
      TagFrame(stamped, rest, pid, from + 1);
    }
  }

  lemma SubscribeCarries(subs: SubMap, list: TopicList, other: uint16, written: bool, k: Key, pid: uint16)
    requires other != pid
    ensures Kept(subs, SubscribeStep(subs, list, other, written), k, pid, k in Topics(InsertAll(subs, list).kept))
  {
    hide InsertAll, Tag;
    InsertFrame(subs, list);
    var r := InsertAll(subs, list);
    TagFrame(r.subs, Topics(r.kept), other, 0);
    TagRestamps(r.subs, Topics(r.kept), other, 0);
  }

  lemma CodeCarries(subs: SubMap, other: uint16, position: nat, code: byte, k: Key, pid: uint16)
    requires other != pid && pid != 0
    ensures Kept(subs, ApplyCode(subs, other, position, code), k, pid, false)
  {
    hide SortedKeys;
  }

  lemma {:induction false} SubackCarries(subs: SubMap, other: uint16, codes: seq<byte>, from: nat, k: Key, pid: uint16)
    requires other != pid && pid != 0 && from <= |codes|
    ensures Kept(subs, ApplyCodes(subs, other, codes, from), k, pid, false)
    decreases |codes| - from
  {
    hide ApplyCode;
    if from < |codes| {
      CodeCarries(subs, other, from, codes[from], k, pid);
      SubackCarries(ApplyCode(subs, other, from, codes[from]), other, codes, from + 1, k, pid);
    }
  }

  lemma {:induction false} ResubscribeCarries(subs: SubMap, keys: seq<Key>, last: uint16, writes: seq<bool>, k: Key,
                                              pid: uint16)
    requires var sent := Resubscribe(subs, keys, last, writes).sent; forall j :: 0 <= j < |sent| ==> sent[j].pid != pid
    ensures var r := Resubscribe(subs, keys, last, writes); Kept(subs, r.subs, k, pid, k in AllTopics(r.sent))
    decreases |keys|
  {
    hide Tag;
    if keys != [] {
      var batch, other := Batch(keys), NextId(last);
      var tagged := Tag(subs, batch, other, 0);
      TagFrame(subs, batch, other, 0);
      TagRestamps(subs, batch, other, 0);
      var sent := Resubscribe(subs, keys, last, writes).sent;
      assert sent[0] == Request(other, batch);
      if writes != [] && !writes[0] {
        assert AllTopics(sent) == batch + AllTopics([]) == batch;
      } else {
        var rest := if writes == [] then [] else writes[1..];
        var more := Resubscribe(tagged, keys[|batch|..], other, rest);
        assert sent[1..] == more.sent;
        assert forall j :: 0 <= j < |more.sent| ==> more.sent[j] == sent[j + 1];
        ResubscribeCarries(tagged, keys[|batch|..], other, rest, k, pid);
      }
    }
  }

  lemma StepCarries(s: Engine, e: Event, k: Key, pid: uint16)
    requires pid != 0 && Avoids(s, e, pid)
    ensures Kept(s.subs, Step(s, e).subs, k, pid, k in Restamped(s, e))
  {
    match e
    case Subscribe(list, other, written) => SubscribeCarries(s.subs, list, other, written, k, pid);
    case Suback(other, codes) => SubackCarries(s.subs, other, codes, 0, k, pid);
    case Resubscribing(writes) =>
      ResubscribeCarries(s.subs, SortedKeys(s.subs.Keys), s.last, writes, k, pid);
    case _ =>
  }

  // ---------- many events ----------

  ghost predicate AvoidsAll(s: Engine, es: seq<Event>, pid: uint16)
    decreases |es|
  {
    es == [] || (Avoids(s, es[0], pid) && AvoidsAll(Step(s, es[0]), es[1..], pid))
  }

  ghost function RestampedIn(s: Engine, es: seq<Event>): set<Key>
    decreases |es|
  {
    if es == [] then {} else Restamped(s, es[0]) + RestampedIn(Step(s, es[0]), es[1..])
  }

  lemma {:induction false} RunCarries(s: Engine, es: seq<Event>, k: Key, pid: uint16)
    requires pid != 0 && AvoidsAll(s, es, pid)
    ensures Kept(s.subs, Run(s, es).subs, k, pid, k in RestampedIn(s, es))
    decreases |es|
  {
    hide Step, Restamped, Avoids;
    if es != [] {
      StepCarries(s, es[0], k, pid);
      RunCarries(Step(s, es[0]), es[1..], k, pid);
    }
  }

  // ---------- UNSUBSCRIBE, other events, UNSUBACK ----------

  /** Whatever happens in between that does not use the id, the UNSUBACK removes exactly the topics the UNSUBSCRIBE
      found in the map, less those requested, unsubscribed or resubscribed again since. */
  lemma UnsubscribeThenLaterUnsuback(s: Engine, topics: seq<Key>, pid: uint16, es: seq<Event>)
    requires pid != 0 && Unused(s.subs, pid)
    requires AvoidsAll(Step(s, Event.Unsubscribe(topics, pid)), es, pid)
    ensures var waiting := Step(s, Event.Unsubscribe(topics, pid));
            var later := Run(waiting, es);
            Step(later, Event.Unsuback(pid)).subs ==
            later.subs - (KeySet(topics) * s.subs.Keys - RestampedIn(waiting, es))
  {
    hide Run, AvoidsAll, RestampedIn;
    var waiting := Step(s, Event.Unsubscribe(topics, pid));
    var later := Run(waiting, es);
    forall k
      ensures Carries(later.subs, k, pid) <==> k in KeySet(topics) * s.subs.Keys - RestampedIn(waiting, es)
    {
      RunCarries(waiting, es, k, pid);
    }
    assert forall k :: k in RemovePacket(later.subs, pid) <==> k in later.subs && !Carries(later.subs, k, pid);
  }

  // ---------- SUBSCRIBE, other events, SUBACK ----------

  /** What carries the packet id is one of the topics, at its own position. */
  ghost predicate AtPlaces(subs: SubMap, pid: uint16, topics: seq<Key>) {
    forall k :: Carries(subs, k, pid) ==>
                  exists i :: 0 <= i < |topics| && topics[i] == k && subs[k].index == AckIndex(i)
  }

  lemma FindsIfCarried(subs: SubMap, keys: seq<Key>, pid: uint16, topics: seq<Key>, i: nat)
    requires |topics| < 255 && i < |topics| && Distinct(topics) && AtPlaces(subs, pid, topics)
    requires forall k :: k in keys <==> k in subs
    ensures FindAck(subs, keys, pid, AckIndex(i)) == if Carries(subs, topics[i], pid) then Some(topics[i]) else None
  {
    hide FindAck;
    var found := FindAck(subs, keys, pid, AckIndex(i));
    if found.Some? {
      assert Carries(subs, found.value, pid);
    }
    if Carries(subs, topics[i], pid) {
      assert topics[i] in keys && subs[topics[i]].IsInSuback(pid, AckIndex(i));
    }
  }

  /** From position `from` on each topic that carries the id is decided by its code, and nothing else changes. */
  ghost predicate DecidedIfCarried(before: SubMap, after: SubMap, pid: uint16, topics: seq<Key>, codes: seq<byte>,
                                   from: nat)
    requires |codes| == |topics|
  {
    && (forall i :: from <= i < |topics| && Carries(before, topics[i], pid) ==>
                      Lookup(after, topics[i]) == Outcome(before[topics[i]], codes[i]))
    && (forall k :: !Carries(before, k, pid) || k !in topics[if from <= |topics| then from else |topics|..] ==>
                      Lookup(after, k) == Lookup(before, k))
  }

  lemma OneCodeIfCarried(subs: SubMap, pid: uint16, topics: seq<Key>, i: nat, code: byte)
    requires pid != 0 && |topics| < 255 && i < |topics| && Distinct(topics) && AtPlaces(subs, pid, topics)
    ensures var r := ApplyCode(subs, pid, i, code);
            && AtPlaces(r, pid, topics)
            && (Carries(subs, topics[i], pid) ==> Lookup(r, topics[i]) == Outcome(subs[topics[i]], code))
            && (!Carries(subs, topics[i], pid) ==> Lookup(r, topics[i]) == Lookup(subs, topics[i]))
            && (forall k :: k != topics[i] ==> Lookup(r, k) == Lookup(subs, k))
  {
    hide SortedKeys, FindAck;
    FindsIfCarried(subs, SortedKeys(subs.Keys), pid, topics, i);
  }

  lemma {:induction false} AckCarried(subs: SubMap, pid: uint16, topics: seq<Key>, codes: seq<byte>, from: nat)
    requires pid != 0 && |codes| == |topics| < 255 && from <= |topics|
    requires Distinct(topics) && AtPlaces(subs, pid, topics)
    ensures DecidedIfCarried(subs, ApplyCodes(subs, pid, codes, from), pid, topics, codes, from)
    decreases |topics| - from
  {
    hide AtPlaces, ApplyCode, Outcome;
    if from < |topics| {
      OneCodeIfCarried(subs, pid, topics, from, codes[from]);
      var next := ApplyCode(subs, pid, from, codes[from]);
      AckCarried(next, pid, topics, codes, from + 1);
      var after := ApplyCodes(next, pid, codes, from + 1);
      assert topics[from..] == [topics[from]] + topics[from + 1..];
      assert topics[from] !in topics[from + 1..];
      forall i | from < i < |topics| && Carries(subs, topics[i], pid)
        ensures Lookup(after, topics[i]) == Outcome(subs[topics[i]], codes[i])
      {
        assert topics[i] != topics[from] && Lookup(next, topics[i]) == Lookup(subs, topics[i]);
      }
    }
  }

  /** Whatever happens in between that does not use the id, a SUBACK of the request's length decides position by
      position the topics not requested, unsubscribed or resubscribed again since, and touches no other entry. */
  lemma SubscribeThenLaterSuback(s: Engine, list: TopicList, pid: uint16, es: seq<Event>, codes: seq<byte>)
    requires CleanRequest(s.subs, list) && Unused(s.subs, pid) && pid != 0 && |codes| == |list|
    requires AvoidsAll(Step(s, Event.Subscribe(list, pid, true)), es, pid)
    ensures var waiting := Step(s, Event.Subscribe(list, pid, true));
            var before := Run(waiting, es).subs;
            var after := ApplyCodes(before, pid, codes, 0);
            && (forall i :: 0 <= i < |list| && list[i].topic !in RestampedIn(waiting, es) ==>
                  && list[i].topic in before
                  && SameButActive(before[list[i].topic], list[i].(packetId := pid, index := i + 1))
                  && if codes[i] == 128 then list[i].topic !in after
                     else
                       list[i].topic in after &&
                       var s := after[list[i].topic];
                       if codes[i] <= 1 then s.isActive && s.maxQos == (if codes[i] == 1 then QoS1 else QoS0)
                                             && s.packetId == 0 && s.index == 0
                       else s == before[list[i].topic])
            && (forall k :: k !in Topics(list) || k in RestampedIn(waiting, es) ==>
                              Lookup(after, k) == Lookup(before, k))
  {
    RequestWaits(s.subs, list, pid);
    InsertedAndTagged(s.subs, list, pid);
    hide Run, AvoidsAll, RestampedIn, SubscribeStep, ApplyCodes, Outcome, Unused, CleanRequest;
    var waiting := Step(s, Event.Subscribe(list, pid, true));
    var before, topics := Run(waiting, es).subs, Topics(list);
    forall k
      ensures Kept(waiting.subs, before, k, pid, k in RestampedIn(waiting, es))
      ensures Carries(before, k, pid) ==> Carries(waiting.subs, k, pid) && SameButActive(before[k], waiting.subs[k])
    {
      RunCarries(waiting, es, k, pid);
    }
    AckCarried(before, pid, topics, codes, 0);
    assert topics[0..] == topics;
    forall i | 0 <= i < |list| && list[i].topic !in RestampedIn(waiting, es)
      ensures Carries(before, list[i].topic, pid) && SameButActive(before[list[i].topic], Stamped(list, pid, i))
    {
      assert Lookup(waiting.subs, list[i].topic) == Some(Stamped(list, pid, i));
      assert Kept(waiting.subs, before, list[i].topic, pid, false);
    }
    forall k | k in RestampedIn(waiting, es)
      ensures !Carries(before, k, pid)
    {
      assert Kept(waiting.subs, before, k, pid, true);
    }
    forall i | 0 <= i < |list| && list[i].topic !in RestampedIn(waiting, es)
      ensures Lookup(ApplyCodes(before, pid, codes, 0), list[i].topic) == Outcome(before[list[i].topic], codes[i])
    {
      assert topics[i] == list[i].topic;
    }
  }

}
