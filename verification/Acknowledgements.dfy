/** Acknowledgements act on exactly the topics that were requested. */
module Acknowledgements {
  import opened MqttTypes
  import opened KeyOrder
  import opened SubscriptionProtocol
  import opened SubscriptionInvariants

  ghost predicate Distinct(keys: seq<Key>) {
    forall i, j :: 0 <= i < j < |keys| ==> keys[i] != keys[j]
  }

  /** From position `from` on, the topics wait for their acknowledgements; whatever carries the packet id is one of
      the topics, at its own position. */
  ghost predicate Waiting(subs: SubMap, pid: uint16, topics: seq<Key>, from: nat) {
    && (forall i :: from <= i < |topics| ==> topics[i] in subs && subs[topics[i]].IsInSuback(pid, AckIndex(i)))
    && (forall k :: k in subs && subs[k].packetId == pid ==>
          exists i :: 0 <= i < |topics| && topics[i] == k && subs[k].index == AckIndex(i))
  }

  /** What an entry becomes under a return code; None stands for removed. */
  function Outcome(s: Sub, code: byte): Option<Sub> {
    if code == 128 then None
    else if code == 0 then Some(Granted(s, QoS0))
    else if code == 1 then Some(Granted(s, QoS1))
    else Some(s)
  }

  function Lookup(subs: SubMap, k: Key): Option<Sub> {
    if k in subs then Some(subs[k]) else None
  }

  lemma OneCode(subs: SubMap, pid: uint16, topics: seq<Key>, i: nat, code: byte)
    requires pid != 0 && |topics| < 255 && i < |topics| && Distinct(topics)
    requires Waiting(subs, pid, topics, i)
    ensures var r := ApplyCode(subs, pid, i, code);
            && Waiting(r, pid, topics, i + 1)
            && Lookup(r, topics[i]) == Outcome(subs[topics[i]], code)
            && (forall k :: k != topics[i] ==> Lookup(r, k) == Lookup(subs, k))
  {
    hide SortedKeys, FindAck;
  }

  /** From position `from` on the codes have decided the topics; every other entry is as it was. */
  ghost predicate Decided(before: SubMap, after: SubMap, topics: seq<Key>, codes: seq<byte>, from: nat)
    requires |codes| == |topics|
  {
    && (forall i :: from <= i < |topics| ==>
                      topics[i] in before && Lookup(after, topics[i]) == Outcome(before[topics[i]], codes[i]))
    && (forall i :: 0 <= i < from && i < |topics| ==> Lookup(after, topics[i]) == Lookup(before, topics[i]))
    && (forall k :: k !in topics ==> Lookup(after, k) == Lookup(before, k))
  }

  lemma DecidedStep(before: SubMap, next: SubMap, after: SubMap, topics: seq<Key>, codes: seq<byte>, from: nat)
    requires |codes| == |topics| && from < |topics| && Distinct(topics) && topics[from] in before
    requires Lookup(next, topics[from]) == Outcome(before[topics[from]], codes[from])
    requires forall k :: k != topics[from] ==> Lookup(next, k) == Lookup(before, k)
    requires Decided(next, after, topics, codes, from + 1)
    ensures Decided(before, after, topics, codes, from)
  {
    hide Outcome;
    forall i | from < i < |topics|
      ensures topics[i] in before && Lookup(after, topics[i]) == Outcome(before[topics[i]], codes[i])
    {
      assert topics[i] != topics[from];
      assert Lookup(next, topics[i]) == Lookup(before, topics[i]);
    }
  }

  /** A SUBACK as long as the request, code by code: position i decides the i-th topic, and every other entry stays as
      it is. */
  lemma {:induction false} AckBatch(subs: SubMap, pid: uint16, topics: seq<Key>, codes: seq<byte>, from: nat)
    requires pid != 0 && |codes| == |topics| < 255 && from <= |topics| && Distinct(topics)
    requires Waiting(subs, pid, topics, from)
    ensures Decided(subs, ApplyCodes(subs, pid, codes, from), topics, codes, from)
    decreases |topics| - from
  {
    hide Waiting, Outcome, ApplyCode, Decided, Lookup;
    if from < |topics| {
      WaitsThere(subs, pid, topics, from);
      OneCode(subs, pid, topics, from, codes[from]);
      var next := ApplyCode(subs, pid, from, codes[from]);
      AckBatch(next, pid, topics, codes, from + 1);
      DecidedStep(subs, next, ApplyCodes(next, pid, codes, from + 1), topics, codes, from);
    } else {
      NothingDecided(subs, topics, codes);
    }
  }

  lemma WaitsThere(subs: SubMap, pid: uint16, topics: seq<Key>, from: nat)
    requires from < |topics| && Waiting(subs, pid, topics, from)
    ensures topics[from] in subs
  {
  }

  lemma NothingDecided(subs: SubMap, topics: seq<Key>, codes: seq<byte>)
    requires |codes| == |topics|
    ensures Decided(subs, subs, topics, codes, |topics|)
  {
  }

  // ---------- subscribe, then SUBACK ----------

  /** A request of distinct topics, none of them active, all kept. */
  ghost predicate CleanRequest(subs: SubMap, list: TopicList) {
    && Distinct(Topics(list))
    && forall i :: 0 <= i < |list| ==> list[i].topic in subs ==> !subs[list[i].topic].isActive
  }

  lemma {:induction false} CleanInsert(subs: SubMap, list: seq<Sub>)
    requires Distinct(Topics(list))
    requires forall i :: 0 <= i < |list| ==> list[i].topic in subs ==> !subs[list[i].topic].isActive
    ensures InsertAll(subs, list).kept == list
    ensures forall i :: 0 <= i < |list| ==> Lookup(InsertAll(subs, list).subs, list[i].topic) == Some(list[i])
    ensures forall k :: k !in Topics(list) ==> Lookup(InsertAll(subs, list).subs, k) == Lookup(subs, k)
    decreases |list|
  {
    if list != [] {
      var s, rest := list[0], list[1..];
      assert Topics(list) == [s.topic] + Topics(rest);
      forall i | 0 <= i < |rest|
        ensures rest[i].topic != s.topic && (rest[i].topic in subs ==> !subs[rest[i].topic].isActive)
      {
        assert rest[i] == list[i + 1] && Topics(list)[0] == s.topic && Topics(list)[i + 1] == rest[i].topic;
      }
      assert Distinct(Topics(rest)) by {
        assert forall i :: 0 <= i < |rest| ==> Topics(rest)[i] == Topics(list)[i + 1];
      }
      CleanInsert(subs[s.topic := s], rest);
    }
  }

  /** The entry for the i-th topic of a request that waits for its SUBACK. */
  function Stamped(list: TopicList, pid: uint16, i: nat): Sub
    requires i < |list|
  {
    list[i].(packetId := pid, index := i + 1)
  }

  lemma InsertedAndTagged(subs: SubMap, list: TopicList, pid: uint16)
    requires CleanRequest(subs, list)
    ensures forall i :: 0 <= i < |list| ==>
                          Lookup(SubscribeStep(subs, list, pid, true), list[i].topic) == Some(Stamped(list, pid, i))
    ensures forall k :: k !in Topics(list) ==> Lookup(SubscribeStep(subs, list, pid, true), k) == Lookup(subs, k)
  {
    CleanInsert(subs, list);
    hide InsertAll, Tag;
    var inserted := InsertAll(subs, list).subs;
    var topics := Topics(list);
    forall i | 0 <= i < |topics|
      ensures topics[i] in inserted && inserted[topics[i]] == list[i]
    {
      assert Lookup(inserted, list[i].topic) == Some(list[i]);
    }
    TagStamps(inserted, topics, pid, 0);
    TagFrame(inserted, topics, pid, 0);
    forall k | k !in topics
      ensures Lookup(Tag(inserted, topics, pid, 0), k) == Lookup(subs, k)
    {
      assert Lookup(inserted, k) == Lookup(subs, k);
    }
  }

  /** After a clean request has gone out under an unused id, its topics wait, each at its position. */
  lemma RequestWaits(subs: SubMap, list: TopicList, pid: uint16)
    requires CleanRequest(subs, list) && Unused(subs, pid)
    ensures Waiting(SubscribeStep(subs, list, pid, true), pid, Topics(list), 0)
  {
    InsertedAndTagged(subs, list, pid);
    hide SubscribeStep;
    var r := SubscribeStep(subs, list, pid, true);
    var topics := Topics(list);
    forall i | 0 <= i < |topics|
      ensures topics[i] in r && r[topics[i]] == Stamped(list, pid, i)
    {
      assert Lookup(r, list[i].topic) == Some(Stamped(list, pid, i));
    }
    forall k | k in r && r[k].packetId == pid
      ensures exists i :: 0 <= i < |topics| && topics[i] == k && r[k].index == AckIndex(i)
    {
      assert k !in topics ==> Lookup(r, k) == Lookup(subs, k);
    }
  }

  /** The acknowledgement theorem: subscribe to distinct inactive topics under a fresh id, and a SUBACK of the same
      length makes topic i active with QoS 0 for code 0 and QoS 1 for code 1, waiting for nothing; removes it for 128;
      leaves it waiting for its position otherwise; and touches no other entry. */
  lemma SubscribeThenSuback(subs: SubMap, list: TopicList, pid: uint16, codes: seq<byte>)
    requires CleanRequest(subs, list) && Unused(subs, pid) && pid != 0 && |codes| == |list|
    ensures var r := ApplyCodes(SubscribeStep(subs, list, pid, true), pid, codes, 0);
            && (forall i :: 0 <= i < |list| ==>
                  (if codes[i] == 128 then list[i].topic !in r
                   else
                     list[i].topic in r &&
                     var s := r[list[i].topic];
                     s.topic == list[i].topic &&
                     if codes[i] <= 1
                     then
                       && s.isActive && s.maxQos == (if codes[i] == 1 then QoS1 else QoS0)
                       && s.packetId == 0 && s.index == 0
                     else
                       && s.isActive == list[i].isActive && s.maxQos == list[i].maxQos
                       && s.packetId == pid && s.index == i + 1))
            && (forall k :: k !in Topics(list) ==> (k in r <==> k in subs) && (k in subs ==> r[k] == subs[k]))
  {
    CodesDecide(subs, list, pid, codes);
    var r := ApplyCodes(SubscribeStep(subs, list, pid, true), pid, codes, 0);
    hide ApplyCodes, SubscribeStep;
    forall i | 0 <= i < |list|
      ensures Lookup(r, list[i].topic) == Outcome(list[i].(packetId := pid, index := i + 1), codes[i])
    {
    }
    forall k | k !in Topics(list)
      ensures Lookup(r, k) == Lookup(subs, k)
    {
    }
  }

  lemma CodesDecide(subs: SubMap, list: TopicList, pid: uint16, codes: seq<byte>)
    requires CleanRequest(subs, list) && Unused(subs, pid) && pid != 0 && |codes| == |list|
    ensures var r := ApplyCodes(SubscribeStep(subs, list, pid, true), pid, codes, 0);
            && (forall i :: 0 <= i < |list| ==> Lookup(r, list[i].topic) == Outcome(Stamped(list, pid, i), codes[i]))
            && (forall k :: k !in Topics(list) ==> Lookup(r, k) == Lookup(subs, k))
  {
    RequestWaits(subs, list, pid);
    InsertedAndTagged(subs, list, pid);
    hide Waiting, SubscribeStep, Outcome, ApplyCodes;
    var requested := SubscribeStep(subs, list, pid, true);
    AckBatch(requested, pid, Topics(list), codes, 0);
    var r := ApplyCodes(requested, pid, codes, 0);
    forall i | 0 <= i < |list|
      ensures Lookup(r, list[i].topic) == Outcome(Stamped(list, pid, i), codes[i])
    {
      assert Topics(list)[i] == list[i].topic;
      assert Lookup(requested, list[i].topic) == Some(Stamped(list, pid, i));
    }
    forall k | k !in Topics(list)
      ensures Lookup(r, k) == Lookup(subs, k)
    {
      assert Lookup(requested, k) == Lookup(subs, k);
    }
  }

  /** The reported result says whether anything was granted and whether anything was refused. */
  lemma SubackResultMeaning(codes: seq<byte>)
    ensures SubackResult(codes).Success? <==>
            (exists i :: 0 <= i < |codes| && codes[i] <= 1) && (forall i :: 0 <= i < |codes| ==> codes[i] != 128)
    ensures SubackResult(codes).SubscribePartiallyFailed? <==>
            (exists i :: 0 <= i < |codes| && codes[i] <= 1) && (exists i :: 0 <= i < |codes| && codes[i] == 128)
    ensures SubackResult(codes).SubscribeFailed? <==> (forall i :: 0 <= i < |codes| ==> codes[i] > 1)
  {
    assert (0 in codes || 1 in codes) <==> exists i :: 0 <= i < |codes| && codes[i] <= 1;
  }

  // ---------- unsubscribe, then UNSUBACK ----------

  /** An UNSUBACK removes the entries carrying its id and no others: right after an UNSUBSCRIBE under a fresh id those
      are the topics it named. */
  lemma UnsubscribeThenUnsuback(subs: SubMap, topics: seq<Key>, pid: uint16)
    requires Unused(subs, pid)
    ensures RemovePacket(UnsubscribeStep(subs, topics, pid), pid) == subs - KeySet(topics)
  {
  }

  /** A topic asked for again before the UNSUBACK comes, inactive at the time, survives it. */
  lemma ResubscribedSurvivesUnsuback(subs: SubMap, topics: seq<Key>, pid: uint16, list: TopicList, newer: uint16)
    requires pid != newer
    requires CleanRequest(subs, list)
    ensures forall i :: 0 <= i < |list| ==>
                          Lookup(RemovePacket(SubscribeStep(UnsubscribeStep(subs, topics, pid), list, newer, true), pid),
                                 list[i].topic) == Some(Stamped(list, newer, i))
  {
    var waiting := UnsubscribeStep(subs, topics, pid);
    assert CleanRequest(waiting, list);
    InsertedAndTagged(waiting, list, newer);
    hide SubscribeStep;
    var r := SubscribeStep(waiting, list, newer, true);
    forall i | 0 <= i < |list|
      ensures Lookup(RemovePacket(r, pid), list[i].topic) == Some(Stamped(list, newer, i))
    {
      assert Lookup(r, list[i].topic) == Some(Stamped(list, newer, i));
    }
  }
}
