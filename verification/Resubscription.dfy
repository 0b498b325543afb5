/** Batched resubscription after a reconnect (src/mqtt/Connect.cpp:474-505). */
module Resubscription {
  import opened MqttTypes
  import opened KeyOrder
  import opened SubscriptionProtocol
  import opened SubscriptionInvariants
  import opened Acknowledgements
  import opened PacketIds

  function AllTopics(sent: seq<Request>): seq<Key> {
    if sent == [] then [] else sent[0].topics + AllTopics(sent[1..])
  }

  // ---------- what is sent ----------

  /** The requests name a prefix of the keys, in order, one to eight at a time, under consecutive ids; when no write
      fails they name all of them, in as few packets as the limit allows. */
  lemma {:induction false} RequestsCoverKeys(subs: SubMap, keys: seq<Key>, last: uint16, writes: seq<bool>)
    ensures var r := Resubscribe(subs, keys, last, writes);
            && AllTopics(r.sent) <= keys
            && (r.complete ==> AllTopics(r.sent) == keys && |r.sent| == (|keys| + 7) / 8)
            && (forall j :: 0 <= j < |r.sent| ==>
                              && 1 <= |r.sent[j].topics| <= 8
                              && r.sent[j].pid == IdAfter(last, j + 1))
    decreases |keys|
  {
    if keys != [] {
      var batch, pid := Batch(keys), NextId(last);
      var tagged := Tag(subs, batch, pid, 0);
      assert keys == batch + keys[|batch|..];
      assert IdAfter(last, 1) == pid;
      if writes != [] && !writes[0] {
        assert AllTopics([Request(pid, batch)]) == batch;
      } else {
        var rest := if writes == [] then [] else writes[1..];
        RequestsCoverKeys(tagged, keys[|batch|..], pid, rest);
        var more := Resubscribe(tagged, keys[|batch|..], pid, rest);
        var sent := [Request(pid, batch)] + more.sent;
        assert AllTopics(sent) == batch + AllTopics(more.sent);
        forall j | 0 <= j < |sent|
          ensures && 1 <= |sent[j].topics| <= MAX_TOPICS_IN_ONE_SUBSCRIBE_PACKET
                  && sent[j].pid == IdAfter(last, j + 1)
        {
          if j > 0 {
            IdAfterShift(last, j);
          }
        }
      }
    }
  }

  lemma {:induction false} IdAfterShift(last: uint16, n: nat)
    ensures IdAfter(NextId(last), n) == IdAfter(last, n + 1)
    decreases n
  {
    if n > 0 {
      IdAfterShift(last, n - 1);
    }
  }

  /** A walk whose writes all succeed is complete. */
  lemma {:induction false} UnhinderedIsComplete(subs: SubMap, keys: seq<Key>, last: uint16, writes: seq<bool>)
    requires forall i :: 0 <= i < |writes| ==> writes[i]
    ensures Resubscribe(subs, keys, last, writes).complete
    decreases |keys|
  {
    if keys != [] {
      var batch, pid := Batch(keys), NextId(last);
      UnhinderedIsComplete(Tag(subs, batch, pid, 0), keys[|batch|..], pid, if writes == [] then [] else writes[1..]);
    }
  }

  /** The first failed write ends the walk: the packet of that write is the last, and the walk is not complete. Only when
      all the writes it takes succeed is it. */
  lemma {:induction false} FirstFailureEnds(subs: SubMap, keys: seq<Key>, last: uint16, writes: seq<bool>, n: nat)
    requires forall i :: 0 <= i < n && i < |writes| ==> writes[i]
    ensures var r := Resubscribe(subs, keys, last, writes);
            && (n < |writes| && !writes[n] && n < (|keys| + 7) / 8 ==> !r.complete && |r.sent| == n + 1)
            && (n >= (|keys| + 7) / 8 ==> r.complete)
            && r.last == IdAfter(last, |r.sent|)
    decreases |keys|
  {
    if keys != [] {
      var batch, pid := Batch(keys), NextId(last);
      var tagged := Tag(subs, batch, pid, 0);
      assert n >= (|keys| + 7) / 8 ==> n > 0;
      assert IdAfter(last, 1) == pid && IdAfter(last, 0) == last;
      if writes == [] || writes[0] {
        var rest := if writes == [] then [] else writes[1..];
        assert (|keys[|batch|..]| + 7) / 8 == (|keys| + 7) / 8 - 1;
        FirstFailureEnds(tagged, keys[|batch|..], pid, rest, if n > 0 then n - 1 else 0);
        IdAfterShift(last, |Resubscribe(tagged, keys[|batch|..], pid, rest).sent|);
      }
    }
  }

  // ---------- what the map waits for ----------

  /** Keys not walked keep their entries, and a packet id that one of them carries is given to no other entry. */
  lemma {:induction false} ResubscribeFrame(subs: SubMap, keys: seq<Key>, last: uint16, writes: seq<bool>, k: Key)
    requires FreshResubscribe(subs, keys, last, writes)
    requires k in subs && k !in keys
    ensures var r := Resubscribe(subs, keys, last, writes).subs;
            && r[k] == subs[k]
            && forall other :: other in r && r[other].packetId == subs[k].packetId ==> r[other] == subs[other]
    decreases |keys|
  {
    if keys != [] {
      var batch, pid := Batch(keys), NextId(last);
      var tagged := Tag(subs, batch, pid, 0);
      TagFrame(subs, batch, pid, 0);
      TagIds(subs, batch, pid, 0);
      if writes == [] || writes[0] {
        ResubscribeFrame(tagged, keys[|batch|..], pid, if writes == [] then [] else writes[1..], k);
      }
    }
  }

  lemma {:induction false} TagIds(subs: SubMap, topics: seq<Key>, pid: uint16, from: nat)
    requires from + |topics| < 256
    ensures var r := Tag(subs, topics, pid, from); forall k :: k in r ==> r[k] == subs[k] || r[k].packetId == pid
    decreases |topics|
  {
    if topics != [] {
      var t := topics[0];
      var stamped := if t in subs then subs[t := subs[t].(packetId := pid, index := from + 1)] else subs;
      TagIds(stamped, topics[1..], pid, from + 1);
    }
  }

  ghost predicate AllWaiting(subs: SubMap, sent: seq<Request>) {
    forall j :: 0 <= j < |sent| ==> sent[j].pid != 0 && Waiting(subs, sent[j].pid, sent[j].topics, 0)
  }

  lemma BatchWaits(subs: SubMap, batch: seq<Key>, pid: uint16)
    requires |batch| <= MAX_TOPICS_IN_ONE_SUBSCRIBE_PACKET && Distinct(batch) && Unused(subs, pid)
    requires forall i :: 0 <= i < |batch| ==> batch[i] in subs
    ensures Waiting(Tag(subs, batch, pid, 0), pid, batch, 0)
  {
    TagStamps(subs, batch, pid, 0);
    TagFrame(subs, batch, pid, 0);
    hide Tag;
    var tagged := Tag(subs, batch, pid, 0);
    forall k | k in tagged && tagged[k].packetId == pid
      ensures exists i :: 0 <= i < |batch| && batch[i] == k && tagged[k].index == AckIndex(i)
    {
      assert k in batch;
    }
  }

  lemma OneMoreWaits(subs: SubMap, r: Request, more: seq<Request>)
    requires r.pid != 0 && Waiting(subs, r.pid, r.topics, 0) && AllWaiting(subs, more)
    ensures AllWaiting(subs, [r] + more)
  {
    hide Waiting;
  }

  /** After the walk every request sent waits for its own SUBACK. */
  lemma {:induction false} RequestsWait(subs: SubMap, keys: seq<Key>, last: uint16, writes: seq<bool>)
    requires Distinct(keys) && FreshResubscribe(subs, keys, last, writes)
    requires forall i :: 0 <= i < |keys| ==> keys[i] in subs
    ensures AllWaiting(Resubscribe(subs, keys, last, writes).subs, Resubscribe(subs, keys, last, writes).sent)
    decreases |keys|
  {
    if keys != [] {
      var batch, pid := Batch(keys), NextId(last);
      var tagged := Tag(subs, batch, pid, 0);
      BatchWaits(subs, batch, pid);
      hide Tag, Waiting, AllWaiting;
      if writes == [] || writes[0] {
        var rest, further := keys[|batch|..], if writes == [] then [] else writes[1..];
        RequestsWait(tagged, rest, pid, further);
        StillWaits(tagged, batch, rest, pid, further);
        var more := Resubscribe(tagged, rest, pid, further);
        OneMoreWaits(more.subs, Request(pid, batch), more.sent);
      } else {
        OneMoreWaits(tagged, Request(pid, batch), []);
      }
    }
  }

  /** A request that waits goes on waiting while the rest of the map is walked. */
  lemma StillWaits(subs: SubMap, batch: seq<Key>, rest: seq<Key>, pid: uint16, writes: seq<bool>)
    requires batch != [] && Waiting(subs, pid, batch, 0) && FreshResubscribe(subs, rest, pid, writes)
    requires forall i :: 0 <= i < |batch| ==> batch[i] !in rest
    ensures Waiting(Resubscribe(subs, rest, pid, writes).subs, pid, batch, 0)
  {
    var r := Resubscribe(subs, rest, pid, writes).subs;
    hide Resubscribe, FreshResubscribe;
    forall i | 0 <= i < |batch|
      ensures batch[i] in r && r[batch[i]] == subs[batch[i]]
    {
      ResubscribeFrame(subs, rest, pid, writes, batch[i]);
    }
    ResubscribeFrame(subs, rest, pid, writes, batch[0]);
    assert subs[batch[0]].packetId == pid;
  }

  // ---------- the SUBACKs, in any order ----------

  ghost predicate Disjoint(sent: seq<Request>) {
    && (forall j :: 0 <= j < |sent| ==> Distinct(sent[j].topics) && 1 <= |sent[j].topics| < 255)
    && (forall j, l, t :: 0 <= j < l < |sent| && t in sent[j].topics ==> t !in sent[l].topics)
  }

  /** Every code grants, and every SUBACK answers all the topics of its request. */
  ghost predicate AllGranted(sent: seq<Request>, codes: seq<seq<byte>>) {
    && |codes| == |sent|
    && forall j :: 0 <= j < |sent| ==>
                     |codes[j]| == |sent[j].topics| && forall i :: 0 <= i < |codes[j]| ==> codes[j][i] <= 1
  }

  ghost function ReceiveSubacks(subs: SubMap, sent: seq<Request>, codes: seq<seq<byte>>, order: seq<nat>): SubMap
    requires |codes| == |sent| && forall n :: 0 <= n < |order| ==> order[n] < |sent|
    decreases |order|
  {
    if order == [] then subs
    else ReceiveSubacks(ApplyCodes(subs, sent[order[0]].pid, codes[order[0]], 0), sent, codes, order[1..])
  }

  function QosOf(code: byte): QoS {
    if code == 0 then QoS0 else QoS1
  }

  /** The request's entries have been granted. */
  ghost predicate Settled(start: SubMap, now: SubMap, topics: seq<Key>, codes: seq<byte>)
    requires |codes| == |topics|
  {
    forall i :: 0 <= i < |topics| ==>
                  topics[i] in start && Lookup(now, topics[i]) == Some(Granted(start[topics[i]], QosOf(codes[i])))
  }

  ghost predicate Untouched(start: SubMap, now: SubMap, topics: seq<Key>) {
    forall i :: 0 <= i < |topics| ==> Lookup(now, topics[i]) == Lookup(start, topics[i])
  }

  /** Where a request stands: settled by its SUBACK, or waiting for it. */
  ghost predicate Standing(start: SubMap, now: SubMap, r: Request, codes: seq<byte>, settled: bool)
    requires |codes| == |r.topics|
  {
    if settled then Settled(start, now, r.topics, codes)
    else Waiting(now, r.pid, r.topics, 0) && Untouched(start, now, r.topics)
  }

  ghost predicate Progress(start: SubMap, now: SubMap, sent: seq<Request>, codes: seq<seq<byte>>, done: set<nat>)
    requires AllGranted(sent, codes)
  {
    forall j :: 0 <= j < |sent| ==> Standing(start, now, sent[j], codes[j], j in done)
  }

  /** One SUBACK settles its own request. */
  lemma SettlesOwn(start: SubMap, now: SubMap, r: Request, codes: seq<byte>)
    requires r.pid != 0 && |codes| == |r.topics| < 255 && Distinct(r.topics)
    requires forall i :: 0 <= i < |codes| ==> codes[i] <= 1
    requires Standing(start, now, r, codes, false)
    ensures Standing(start, ApplyCodes(now, r.pid, codes, 0), r, codes, true)
    ensures Decided(now, ApplyCodes(now, r.pid, codes, 0), r.topics, codes, 0)
  {
    AckBatch(now, r.pid, r.topics, codes, 0);
  }

  /** And leaves a request with other topics where it stands. */
  lemma LeavesOthers(start: SubMap, now: SubMap, next: SubMap, own: seq<Key>, ownCodes: seq<byte>, r: Request,
                     codes: seq<byte>, settled: bool)
    requires |codes| == |r.topics| && |ownCodes| == |own| && r.pid != 0
    requires forall i :: 0 <= i < |ownCodes| ==> ownCodes[i] <= 1
    requires forall i :: 0 <= i < |r.topics| ==> r.topics[i] !in own
    requires Decided(now, next, own, ownCodes, 0)
    requires Standing(start, now, r, codes, settled)
    ensures Standing(start, next, r, codes, settled)
  {
    assert forall i :: 0 <= i < |r.topics| ==> Lookup(next, r.topics[i]) == Lookup(now, r.topics[i]);
    if !settled {
      OthersWait(now, next, own, ownCodes, r);
    }
    hide Waiting, Decided;
  }

  lemma OthersWait(now: SubMap, next: SubMap, own: seq<Key>, ownCodes: seq<byte>, r: Request)
    requires |ownCodes| == |own| && r.pid != 0
    requires forall i :: 0 <= i < |ownCodes| ==> ownCodes[i] <= 1
    requires forall i :: 0 <= i < |r.topics| ==> r.topics[i] !in own
    requires Decided(now, next, own, ownCodes, 0) && Waiting(now, r.pid, r.topics, 0)
    ensures Waiting(next, r.pid, r.topics, 0)
  {
    forall i | 0 <= i < |r.topics|
      ensures r.topics[i] in next && next[r.topics[i]].IsInSuback(r.pid, AckIndex(i))
    {
      assert Lookup(next, r.topics[i]) == Lookup(now, r.topics[i]);
    }
    forall k | k in next && next[k].packetId == r.pid
      ensures exists i :: 0 <= i < |r.topics| && r.topics[i] == k && next[k].index == AckIndex(i)
    {
      assert k !in own by {
        assert forall i :: 0 <= i < |own| ==> Lookup(next, own[i]).value.packetId == 0;
      }
      assert Lookup(next, k) == Lookup(now, k);
    }
  }

  lemma Apart(sent: seq<Request>, j: nat, l: nat)
    requires Disjoint(sent) && j < |sent| && l < |sent| && j != l
    ensures forall i :: 0 <= i < |sent[l].topics| ==> sent[l].topics[i] !in sent[j].topics
  {
  }

  lemma CodesFit(sent: seq<Request>, codes: seq<seq<byte>>, j: nat)
    requires AllGranted(sent, codes) && Disjoint(sent) && j < |sent|
    ensures |codes[j]| == |sent[j].topics| < 255 && Distinct(sent[j].topics)
    ensures forall i :: 0 <= i < |codes[j]| ==> codes[j][i] <= 1
  {
  }

  lemma OneSuback(start: SubMap, now: SubMap, sent: seq<Request>, codes: seq<seq<byte>>, done: set<nat>, j: nat)
    requires AllGranted(sent, codes) && Disjoint(sent) && Progress(start, now, sent, codes, done)
    requires j < |sent| && j !in done
    requires forall l :: 0 <= l < |sent| ==> sent[l].pid != 0
    ensures Progress(start, ApplyCodes(now, sent[j].pid, codes[j], 0), sent, codes, done + {j})
  {
    hide ApplyCodes, Standing, Decided, Disjoint, Distinct;
    CodesFit(sent, codes, j);
    SettlesOwn(start, now, sent[j], codes[j]);
    var next := ApplyCodes(now, sent[j].pid, codes[j], 0);
    forall l | 0 <= l < |sent|
      ensures |codes[l]| == |sent[l].topics| && Standing(start, next, sent[l], codes[l], l in done + {j})
    {
      CodesFit(sent, codes, l);
      if l != j {
        Apart(sent, j, l);
        assert Standing(start, now, sent[l], codes[l], l in done);
        LeavesOthers(start, now, next, sent[j].topics, codes[j], sent[l], codes[l], l in done);
      }
    }
  }

  lemma {:induction false} AnyOrder(start: SubMap, now: SubMap, sent: seq<Request>, codes: seq<seq<byte>>,
                                    done: set<nat>, order: seq<nat>)
    requires AllGranted(sent, codes) && Disjoint(sent) && Progress(start, now, sent, codes, done)
    requires forall l :: 0 <= l < |sent| ==> sent[l].pid != 0
    requires forall n :: 0 <= n < |order| ==> order[n] < |sent| && order[n] !in done
    requires forall m, n :: 0 <= m < n < |order| ==> order[m] != order[n]
    ensures Progress(start, ReceiveSubacks(now, sent, codes, order), sent, codes, done + set n | n in order)
    decreases |order|
  {
    if order == [] {
      hide *;
      assert done + (set n | n in order) == done;
    } else {
      hide Progress, Disjoint, ApplyCodes;
      OneSuback(start, now, sent, codes, done, order[0]);
      AnyOrder(start, ApplyCodes(now, sent[order[0]].pid, codes[order[0]], 0), sent, codes, done + {order[0]},
               order[1..]);
      assert order == [order[0]] + order[1..];
      assert done + (set n | n in order) == (done + {order[0]}) + set n | n in order[1..];
    }
  }

  /** No topic is in two requests when the keys are distinct. */
  lemma SplitDistinct(first: seq<Key>, rest: seq<Key>)
    requires Distinct(first + rest)
    ensures Distinct(first) && Distinct(rest) && forall t :: t in first ==> t !in rest
  {
    assert forall i :: 0 <= i < |first| ==> (first + rest)[i] == first[i];
    assert forall i :: 0 <= i < |rest| ==> (first + rest)[|first| + i] == rest[i];
  }

  lemma {:induction false} CoverIsDisjoint(sent: seq<Request>)
    requires Distinct(AllTopics(sent))
    requires forall j :: 0 <= j < |sent| ==> 1 <= |sent[j].topics| <= MAX_TOPICS_IN_ONE_SUBSCRIBE_PACKET
    ensures Disjoint(sent)
    ensures forall t :: t in AllTopics(sent) <==> exists j :: 0 <= j < |sent| && t in sent[j].topics
    decreases |sent|
  {
    if sent != [] {
      var first, rest := sent[0].topics, AllTopics(sent[1..]);
      var all := AllTopics(sent);
      SplitDistinct(first, rest);
      hide Distinct;
      CoverIsDisjoint(sent[1..]);
      assert forall j :: 1 <= j < |sent| ==> sent[j] == sent[1..][j - 1];
      forall t | t in all
        ensures exists j :: 0 <= j < |sent| && t in sent[j].topics
      {
        if t !in first {
          var j :| 0 <= j < |sent[1..]| && t in sent[1..][j].topics;
          assert t in sent[j + 1].topics;
        }
      }
    }
  }

  /** The ids of one resubscription differ as long as it takes no more packets than there are ids. */
  lemma RequestIdsDiffer(subs: SubMap, keys: seq<Key>, last: uint16, writes: seq<bool>, i: nat, j: nat)
    requires i < j < |Resubscribe(subs, keys, last, writes).sent| <= 65535
    ensures Resubscribe(subs, keys, last, writes).sent[i].pid != Resubscribe(subs, keys, last, writes).sent[j].pid
  {
    hide Resubscribe, AllTopics, IdAfter;
    RequestsCoverKeys(subs, keys, last, writes);
    ConsecutiveIdsDistinct(last, i + 1, j + 1);
  }

  /** The subscription named at place i of request j has been granted with the QoS its code says. */
  ghost predicate GrantedAt(before: SubMap, final: SubMap, sent: seq<Request>, codes: seq<seq<byte>>, k: Key, j: nat,
                            i: nat)
    requires AllGranted(sent, codes)
  {
    && j < |sent| && i < |sent[j].topics| && sent[j].topics[i] == k && k in before && k in final
    && final[k].isActive && final[k].maxQos == (if codes[j][i] == 1 then QoS1 else QoS0)
    && final[k].packetId == 0 && final[k].index == 0 && final[k].topic == before[k].topic
  }

  ghost predicate AllGrantedAt(keys: set<Key>, before: SubMap, final: SubMap, sent: seq<Request>,
                               codes: seq<seq<byte>>)
    requires AllGranted(sent, codes)
  {
    forall k :: k in keys ==> exists j, i :: GrantedAt(before, final, sent, codes, k, j, i)
  }

  /** The walk over the whole map, all of whose writes succeed. */
  ghost function Walk(subs: SubMap, last: uint16): Resubscribed {
    Resubscribe(subs, SortedKeys(subs.Keys), last, [])
  }

  lemma WalkSendsEverything(subs: SubMap, last: uint16)
    ensures Disjoint(Walk(subs, last).sent)
    ensures forall k :: k in subs ==> exists j :: 0 <= j < |Walk(subs, last).sent| && k in Walk(subs, last).sent[j].topics
  {
    var keys := SortedKeys(subs.Keys);
    RequestsCoverKeys(subs, keys, last, []);
    UnhinderedIsComplete(subs, keys, last, []);
    hide Resubscribe;
    CoverIsDisjoint(Resubscribe(subs, keys, last, []).sent);
  }

  lemma WalkStart(subs: SubMap, last: uint16, codes: seq<seq<byte>>)
    requires FreshResubscribe(subs, SortedKeys(subs.Keys), last, [])
    requires AllGranted(Walk(subs, last).sent, codes)
    ensures Progress(Walk(subs, last).subs, Walk(subs, last).subs, Walk(subs, last).sent, codes, {})
    ensures forall l :: 0 <= l < |Walk(subs, last).sent| ==> Walk(subs, last).sent[l].pid != 0
  {
    hide Resubscribe, FreshResubscribe, Waiting;
    RequestsWait(subs, SortedKeys(subs.Keys), last, []);
  }

  /** The resubscription theorem. All writes succeed, the ids are fresh, and every SUBACK grants all the topics of its
      request: then, whatever order the SUBACKs come in, every subscription in the map ends active with its granted
      QoS, waiting for nothing. */
  lemma ResubscribedInAnyOrder(subs: SubMap, last: uint16, codes: seq<seq<byte>>, order: seq<nat>)
    requires FreshResubscribe(subs, SortedKeys(subs.Keys), last, [])
    requires AllGranted(Walk(subs, last).sent, codes)
    requires Ordering(order, |codes|)
    ensures var w := Walk(subs, last);
            var final := ReceiveSubacks(w.subs, w.sent, codes, order);
            && AllGrantedAt(subs.Keys, w.subs, final, w.sent, codes)
            && forall k :: k in subs ==> k in final && final[k].isActive && final[k].packetId == 0 && final[k].index == 0
  {
    WalkSendsEverything(subs, last);
    WalkStart(subs, last, codes);
    var w := Walk(subs, last);
    hide Walk, FreshResubscribe, Progress, Disjoint, ReceiveSubacks, AllGrantedAt;
    SettledInAnyOrder(w.subs, w.sent, codes, order, subs.Keys);
  }

  /** Every SUBACK comes once. */
  ghost predicate Ordering(order: seq<nat>, n: nat) {
    && (forall m :: 0 <= m < |order| ==> order[m] < n)
    && (forall j :: 0 <= j < n ==> j in order)
    && (forall l, m :: 0 <= l < m < |order| ==> order[l] != order[m])
  }

  lemma SettledInAnyOrder(start: SubMap, sent: seq<Request>, codes: seq<seq<byte>>, order: seq<nat>, keys: set<Key>)
    requires AllGranted(sent, codes) && Disjoint(sent) && Progress(start, start, sent, codes, {})
    requires forall l :: 0 <= l < |sent| ==> sent[l].pid != 0
    requires Ordering(order, |codes|)
    requires forall k :: k in keys ==> exists j :: 0 <= j < |sent| && k in sent[j].topics
    ensures AllGrantedAt(keys, start, ReceiveSubacks(start, sent, codes, order), sent, codes)
  {
    hide Progress, Disjoint, ReceiveSubacks, GrantedAt;
    AnyOrder(start, start, sent, codes, {}, order);
    var final := ReceiveSubacks(start, sent, codes, order);
    var done := {} + set n | n in order;
    forall k | k in keys
      ensures exists j, i :: GrantedAt(start, final, sent, codes, k, j, i)
    {
      SettledSomewhere(start, final, sent, codes, done, k);
    }
  }

  lemma SettledSomewhere(start: SubMap, final: SubMap, sent: seq<Request>, codes: seq<seq<byte>>, done: set<nat>, k: Key)
    requires AllGranted(sent, codes) && Progress(start, final, sent, codes, done)
    requires forall j :: 0 <= j < |codes| ==> j in done
    requires exists j :: 0 <= j < |sent| && k in sent[j].topics
    ensures exists j, i :: GrantedAt(start, final, sent, codes, k, j, i)
  {
    hide Progress;
    var j :| 0 <= j < |sent| && k in sent[j].topics;
    var i :| 0 <= i < |sent[j].topics| && sent[j].topics[i] == k;
    SettledAt(start, final, sent, codes, done, j, i);
  }

  lemma SettledAt(start: SubMap, final: SubMap, sent: seq<Request>, codes: seq<seq<byte>>, done: set<nat>, j: nat, i: nat)
    requires AllGranted(sent, codes) && Progress(start, final, sent, codes, done)
    requires j < |sent| && j in done && i < |sent[j].topics|
    ensures GrantedAt(start, final, sent, codes, sent[j].topics[i], j, i)
  {
    assert Standing(start, final, sent[j], codes[j], true);
  }
}
