/** The packet identifier generator (src/mqtt/ClientState.cpp:47-55). */
module PacketIds {
  import opened MqttTypes
  import opened SubscriptionProtocol

  /** The identifiers run through 1 to 65535 and round again. */
  lemma {:induction false} IdAfterClosedForm(last: uint16, n: nat)
    requires n >= 1
    ensures IdAfter(last, n) == (last + n - 1) % 65535 + 1
    decreases n
  {
    if n > 1 {
      IdAfterClosedForm(last, n - 1);
      var m := last + n - 2;
      assert (m + 1) % 65535 == if m % 65535 == 65534 then 0 else m % 65535 + 1;
    }
  }

  /** Any 65535 consecutive identifiers differ from each other and from 0, the id kept for CONNACK. */
  lemma ConsecutiveIdsDistinct(last: uint16, i: nat, j: nat)
    requires 1 <= i < j < i + 65535
    ensures IdAfter(last, i) != 0 && IdAfter(last, j) != 0 && IdAfter(last, i) != IdAfter(last, j)
  {
    IdAfterClosedForm(last, i);
    IdAfterClosedForm(last, j);
    hide *;
  }

  /** And the one after them is the first again, so the bound is exact. */
  lemma IdsRecur(last: uint16, i: nat)
    requires 1 <= i
    ensures IdAfter(last, i) == IdAfter(last, i + 65535)
  {
    hide IdAfter;
    IdAfterClosedForm(last, i);
    IdAfterClosedForm(last, i + 65535);
  }

}
