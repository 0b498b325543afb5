/** The order in which the client walks its subscription map: a sorted map of byte strings. */
module KeyOrder {
  import opened MqttTypes

  type Key = seq<byte>

  /** Lexicographic order on byte strings. */
  predicate AtMost(a: Key, b: Key) {
    a == [] || (b != [] && (a[0] < b[0] || (a[0] == b[0] && AtMost(a[1..], b[1..]))))
  }

  lemma {:induction false} AtMostTotal(a: Key, b: Key)
    ensures AtMost(a, b) || AtMost(b, a)
    ensures AtMost(a, b) && AtMost(b, a) ==> a == b
    decreases |a|
  {
    if a != [] && b != [] {
      AtMostTotal(a[1..], b[1..]);
      assert a == [a[0]] + a[1..] && b == [b[0]] + b[1..];
    }
  }

  lemma {:induction false} AtMostTransitive(a: Key, b: Key, c: Key)
    requires AtMost(a, b) && AtMost(b, c)
    ensures AtMost(a, c)
    decreases |a|
  {
    if a != [] && a[0] == b[0] == c[0] {
      AtMostTransitive(a[1..], b[1..], c[1..]);
    }
  }

  /** The first `i` bytes agree, and there `a` ends or has the smaller byte. */
  predicate DecidedAt(a: Key, b: Key, i: nat) {
    i <= |a| && i <= |b| && a[..i] == b[..i] && (i == |a| || (i < |b| && a[i] < b[i]))
  }

  /** The comparison of byte strings, said of their positions. */
  ghost predicate BytesAtMost(a: Key, b: Key) {
    exists i :: DecidedAt(a, b, i)
  }

  lemma DecidedLater(a: Key, b: Key, i: nat)
    requires a != [] && b != [] && a[0] == b[0]
    ensures DecidedAt(a[1..], b[1..], i) <==> DecidedAt(a, b, i + 1)
  {
    if i < |a| && i < |b| {
      assert a[..i + 1] == [a[0]] + a[1..][..i] && b[..i + 1] == [b[0]] + b[1..][..i];
      assert a[1..][..i] == a[..i + 1][1..] && b[1..][..i] == b[..i + 1][1..];
    }
  }

  lemma {:induction false} AtMostMeaning(a: Key, b: Key)
    ensures AtMost(a, b) <==> BytesAtMost(a, b)
    decreases |a|
  {
    if a == [] {
      assert DecidedAt(a, b, 0);
    } else if b != [] {
      if a[0] == b[0] {
        AtMostMeaning(a[1..], b[1..]);
        forall i: nat
          ensures DecidedAt(a[1..], b[1..], i) <==> DecidedAt(a, b, i + 1)
        {
          DecidedLater(a, b, i);
        }
        assert !DecidedAt(a, b, 0);
        if BytesAtMost(a, b) {
          var i: nat :| DecidedAt(a, b, i);
          assert DecidedAt(a[1..], b[1..], i - 1);
        }
      } else {
        assert DecidedAt(a, b, 0) <==> a[0] < b[0];
        forall i: nat | i > 0
          ensures !DecidedAt(a, b, i)
        {
          assert i <= |a| && i <= |b| ==> a[..i][0] != b[..i][0];
        }
      }
    }
  }

  /** The keys are walked in the order of their bytes. */
  lemma WalkedInByteOrder(keys: set<Key>)
    ensures var s := SortedKeys(keys); forall i, j :: 0 <= i < j < |s| ==> BytesAtMost(s[i], s[j])
  {
    var s := SortedKeys(keys);
    hide SortedKeys, AtMost, BytesAtMost;
    forall i, j | 0 <= i < j < |s|
      ensures BytesAtMost(s[i], s[j])
    {
      AtMostMeaning(s[i], s[j]);
    }
  }

  predicate IsLeast(k: Key, keys: set<Key>) {
    k in keys && forall other :: other in keys ==> AtMost(k, other)
  }

  lemma {:induction false} LeastExists(keys: set<Key>)
    requires keys != {}
    ensures exists k :: IsLeast(k, keys)
    decreases |keys|
  {
    var k :| k in keys;
    AtMostTotal(k, k);
    if keys == {k} {
      assert IsLeast(k, keys);
    } else {
      var others := keys - {k};
      LeastExists(others);
      var least :| IsLeast(least, others);
      AtMostTotal(k, least);
      if AtMost(k, least) {
        forall other | other in keys
          ensures AtMost(k, other)
        {
          if other != k {
            AtMostTransitive(k, least, other);
          }
        }
        assert IsLeast(k, keys);
      } else {
        assert IsLeast(least, keys);
      }
    }
  }

  lemma LeastUnique(keys: set<Key>)
    ensures forall j, k :: IsLeast(j, keys) && IsLeast(k, keys) ==> j == k
  {
    forall j, k | IsLeast(j, keys) && IsLeast(k, keys)
      ensures j == k
    {
      AtMostTotal(j, k);
    }
  }

  /** Where a walk over the map begins, or goes on when `keys` are those not yet visited. */
  function Least(keys: set<Key>): (k: Key)
    requires keys != {}
    ensures IsLeast(k, keys)
  {
    LeastExists(keys);
    LeastUnique(keys);
    var k :| k in keys && IsLeast(k, keys);
    k
  }

  ghost predicate InOrder(s: seq<Key>, keys: set<Key>) {
    && |s| == |keys|
    && (forall k :: k in s <==> k in keys)
    && (forall i, j :: 0 <= i < j < |s| ==> s[i] != s[j])
    && (forall i, j :: 0 <= i < j < |s| ==> AtMost(s[i], s[j]))
  }

  lemma InOrderFrom(k: Key, rest: seq<Key>, keys: set<Key>)
    requires IsLeast(k, keys) && InOrder(rest, keys - {k})
    ensures InOrder([k] + rest, keys)
  {
    hide AtMost;
    var s := [k] + rest;
    assert forall i :: 1 <= i < |s| ==> s[i] == rest[i - 1] && s[i] in rest;
    forall other
      ensures other in s <==> other in keys
    {
      assert other in s <==> other == k || other in rest;
    }
  }

  lemma {:induction false} OrderExists(keys: set<Key>) returns (s: seq<Key>)
    ensures InOrder(s, keys)
    decreases |keys|
  {
    if keys == {} {
      s := [];
    } else {
      hide AtMost;
      var k := Least(keys);
      var rest := OrderExists(keys - {k});
      s := [k] + rest;
      InOrderFrom(k, rest, keys);
    }
  }

  lemma SomeOrder(keys: set<Key>)
    ensures exists s :: InOrder(s, keys)
  {
    var s := OrderExists(keys);
  }

  /** There is only one. */
  lemma {:induction false} OrderUnique(s: seq<Key>, t: seq<Key>, keys: set<Key>)
    requires InOrder(s, keys) && InOrder(t, keys)
    ensures s == t
    decreases |keys|
  {
    hide AtMost;
    if keys != {} {
      AtMostTotal(s[0], t[0]);
      assert s[0] in t && t[0] in s;
      assert s[0] == t[0];
      OrderUnique(s[1..], t[1..], keys - {s[0]});
      assert s == [s[0]] + s[1..] && t == [t[0]] + t[1..];
    }
  }

  /** The keys of the map from begin to end. */
  ghost function SortedKeys(keys: set<Key>): (s: seq<Key>)
    ensures |s| == |keys|
    ensures forall k :: k in s <==> k in keys
    ensures forall i, j :: 0 <= i < j < |s| ==> s[i] != s[j]
    ensures forall i, j :: 0 <= i < j < |s| ==> AtMost(s[i], s[j])
  {
    SomeOrder(keys);
    var s :| InOrder(s, keys);
    s
  }

  /** A walk begins with the least key and goes on with the others. */
  lemma WalkFrom(keys: set<Key>)
    ensures SortedKeys(keys) ==
            if keys == {} then [] else [Least(keys)] + SortedKeys(keys - {Least(keys)})
  {
    hide AtMost, SortedKeys;
    if keys != {} {
      var k := Least(keys);
      var rest := SortedKeys(keys - {k});
      assert InOrder(rest, keys - {k}) && InOrder(SortedKeys(keys), keys);
      InOrderFrom(k, rest, keys);
      OrderUnique(SortedKeys(keys), [k] + rest, keys);
    }
  }
}
