/** Which subscription an incoming PUBLISH goes to (src/mqtt/ClientState.cpp:57-79, src/mqtt/NetworkRead.cpp:232-264). */
module Delivery {
  import opened MqttTypes
  import opened KeyOrder
  import opened TopicFilter
  import opened SubscriptionProtocol
  import opened SubscriptionInvariants

  /** The test of the first-match search: the very topic, or the filter's regular expression. */
  predicate Accepts(filter: Key, topic: seq<byte>) {
    filter == topic || (RegexText(filter) != [] && RegexMatch(RegexText(filter), topic))
  }

  /** What acceptance means for the filters the client lets through. */
  lemma AcceptsMeaning(filter: Key, topic: seq<byte>)
    requires ValidFilter(filter) && Translatable(filter) && AsciiTopic(topic)
    ensures Accepts(filter, topic) <==> filter == topic || (HasWildcard(filter) && LevelMatch(Split(filter), Split(topic)))
  {
    if HasWildcard(filter) {
      TranslationPreservesMatching(filter, topic);
    }
  }

  /** The first key, in the order of `keys`, that accepts the topic. */
  function FindSubscription(keys: seq<Key>, topic: seq<byte>): (r: Option<Key>)
    ensures r.Some? ==> r.value in keys && Accepts(r.value, topic)
    ensures r.None? ==> forall k :: k in keys ==> !Accepts(k, topic)
  {
    if keys == [] then None
    else if Accepts(keys[0], topic) then Some(keys[0])
    else FindSubscription(keys[1..], topic)
  }

  ghost function SubscriptionFor(subs: SubMap, topic: seq<byte>): (r: Option<Key>)
    ensures r.Some? ==> r.value in subs && Accepts(r.value, topic)
  {
    FindSubscription(SortedKeys(subs.Keys), topic)
  }

  /** The response code of an incoming PUBLISH, before its acknowledgement is queued: Success means that the callback
      of the subscription found was called. */
  ghost function PublishResult(subs: SubMap, topic: seq<byte>): ResponseCode {
    match SubscriptionFor(subs, topic)
    case None => NoSubscriptionFound
    case Some(k) => if subs[k].isActive then Success else SubscriptionNotActive
  }

  /** All filters in the map are ones whose regular expression the model gives its meaning. */
  ghost predicate AllTranslatable(subs: SubMap) {
    forall k :: k in subs ==> Translatable(k)
  }

  /** No callback runs for a subscription unless a SUBACK granted that very entry since the last disconnect: a grant of
      an older entry for the same topic does not count. */
  lemma DeliveredOnlyIfGranted(s: Engine, granted: set<Key>, es: seq<Event>, topic: seq<byte>)
    requires GrantInv(s, granted) && PoliteRun(s, es)
    requires PublishResult(Run(s, es).subs, topic).Success?
    ensures var k := SubscriptionFor(Run(s, es).subs, topic);
            k.Some? && Accepts(k.value, topic) && k.value in GrantedInRun(s, granted, es)
  {
    ActiveMeansGranted(s, granted, es);
  }

  /** When a single subscription accepts the topic, the message reaches its callback exactly when it is active. */
  lemma DeliveredIfUnambiguous(subs: SubMap, topic: seq<byte>, k: Key)
    requires k in subs && Accepts(k, topic)
    requires forall other :: other in subs && Accepts(other, topic) ==> other == k
    ensures PublishResult(subs, topic).Success? <==> subs[k].isActive
  {
    assert k in SortedKeys(subs.Keys);
  }

  /** With several, only the least in the order of its bytes decides: the message is delivered exactly when that one is
      active. */
  lemma LeastAcceptingDecides(subs: SubMap, topic: seq<byte>, k: Key)
    requires k in subs && Accepts(k, topic)
    requires forall other :: other in subs && Accepts(other, topic) ==> BytesAtMost(k, other)
    ensures SubscriptionFor(subs, topic) == Some(k)
    ensures PublishResult(subs, topic) == if subs[k].isActive then Success else SubscriptionNotActive
  {
    hide AtMost, BytesAtMost, Accepts;
    assert k in SortedKeys(subs.Keys);
    FirstIsLeast(SortedKeys(subs.Keys), topic);
    var found := SubscriptionFor(subs, topic).value;
    AtMostMeaning(k, found);
    AtMostTotal(k, found);
  }

  /** And whatever is found is the least. */
  lemma FoundIsLeast(subs: SubMap, topic: seq<byte>)
    ensures var found := SubscriptionFor(subs, topic);
            && (found.None? <==> forall k :: k in subs ==> !Accepts(k, topic))
            && (found.Some? ==>
                  && found.value in subs && Accepts(found.value, topic)
                  && forall k :: k in subs && Accepts(k, topic) ==> BytesAtMost(found.value, k))
  {
    hide AtMost, BytesAtMost, Accepts;
    FirstIsLeast(SortedKeys(subs.Keys), topic);
    var found := SubscriptionFor(subs, topic);
    if found.Some? {
      forall k | k in subs && Accepts(k, topic)
        ensures BytesAtMost(found.value, k)
      {
        assert k in SortedKeys(subs.Keys);
        AtMostMeaning(found.value, k);
      }
    }
  }

  lemma {:induction false} FirstIsLeast(keys: seq<Key>, topic: seq<byte>)
    requires forall i, j :: 0 <= i < j < |keys| ==> AtMost(keys[i], keys[j])
    ensures var r := FindSubscription(keys, topic);
            r.Some? ==> forall k :: k in keys && Accepts(k, topic) ==> AtMost(r.value, k)
    decreases |keys|
  {
    if keys != [] {
      AtMostTotal(keys[0], keys[0]);
      FirstIsLeast(keys[1..], topic);
    }
  }

  /** So an active subscription can miss a message it accepts: `#`, still waiting for its SUBACK, comes before the
      topic itself and swallows the PUBLISH. */
  lemma PendingWildcardShadows()
    ensures var topic: seq<byte> := ['a' as int];
            var subs := map[[HASH] := Sub([HASH], false, 1, 1, QoS0), topic := Sub(topic, true, 0, 0, QoS0)];
            && Accepts(topic, topic) && subs[topic].isActive
            && PublishResult(subs, topic).SubscriptionNotActive?
  {
    var topic: seq<byte> := ['a' as int];
    var subs := map[[HASH] := Sub([HASH], false, 1, 1, QoS0), topic := Sub(topic, true, 0, 0, QoS0)];
    HashOutsideAscii(topic);
    assert HASH in [HASH];
    assert Pieces([HASH]) == MULTI_LEVEL_REGEX by {
      assert [HASH][1..] == [] && MULTI_LEVEL_REGEX + [] == MULTI_LEVEL_REGEX;
    }
    assert Accepts([HASH], topic);
    var plain: seq<byte> := [HASH];
    assert DecidedAt(plain, plain, 1) && DecidedAt(plain, topic, 0);
    LeastAcceptingDecides(subs, topic, [HASH]);
  }
}
