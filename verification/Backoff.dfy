/** How long the keepalive loop sleeps between reconnect attempts (src/mqtt/Connect.cpp:429-461, 528-541). */
module Backoff {

  const MIN_RECONNECT_BACKOFF_DEFAULT_SEC: nat := 1
  const MAX_RECONNECT_BACKOFF_DEFAULT_SEC: nat := 128

  function Pow2(k: nat): (p: nat)
    ensures p >= 1
  {
    if k == 0 then 1 else 2 * Pow2(k - 1)
  }

  /** How often `min` is doubled before it is no longer below `max`. */
  function Doublings(min: nat, max: nat): nat
    requires min > 0
    decreases max - min
  {
    if min >= max then 0 else 1 + Doublings(2 * min, max)
  }

  function Lesser(a: nat, b: nat): nat {
    if a <= b then a else b
  }

  /** The sleep after the `k`-th failed attempt of an outage; before the first, what the timer starts from. */
  function Sleep(min: nat, max: nat, k: nat): nat {
    if min == 0 then 0 else min * Pow2(Lesser(k, Doublings(min, max)))
  }

  /** It is the least such number. */
  lemma {:induction false} DoublingsLeast(min: nat, max: nat, j: nat)
    requires min > 0
    ensures min * Pow2(j) >= max <==> j >= Doublings(min, max)
    decreases j
  {
    if min >= max {
      assert min * Pow2(j) >= min by { Grows(min, Pow2(j)); }
    } else if j > 0 {
      DoublingsLeast(2 * min, max, j - 1);
    }
  }

  lemma Grows(m: nat, p: nat)
    requires p >= 1
    ensures m * p >= m
  {
  }

  /** While the timer is below the maximum the next sleep is twice the last; from then on it stays. */
  lemma SleepStep(min: nat, max: nat, k: nat)
    ensures Sleep(min, max, k + 1) == if Sleep(min, max, k) < max then 2 * Sleep(min, max, k) else Sleep(min, max, k)
  {
    if min > 0 {
      DoublingsLeast(min, max, Lesser(k, Doublings(min, max)));
    }
  }

  /** The sleeps never get shorter, and never exceed the larger of the minimum and one doubling short of twice the
      maximum. */
  lemma {:induction false} SleepBounds(min: nat, max: nat, j: nat, k: nat)
    requires j <= k
    ensures Sleep(min, max, j) <= Sleep(min, max, k)
    ensures Sleep(min, max, k) <= if min >= 2 * max - 2 then min else 2 * max - 2
    decreases k
  {
    if k > 0 {
      SleepStep(min, max, k - 1);
      SleepBounds(min, max, if j < k then j else k - 1, k - 1);
    }
  }

  /** After enough failures the sleep stays the same: the first doubling of the minimum that reaches the maximum. */
  lemma SleepSettles(min: nat, max: nat, k: nat)
    requires min > 0 && k >= Doublings(min, max)
    ensures Sleep(min, max, k) == Sleep(min, max, Doublings(min, max)) >= max
  {
    DoublingsLeast(min, max, Doublings(min, max));
  }

  /** It settles at the maximum itself exactly when that is the minimum doubled some number of times. */
  lemma SettlesAtMaximum(min: nat, max: nat)
    requires min > 0
    ensures Sleep(min, max, Doublings(min, max)) == max <==> exists j: nat :: min * Pow2(j) == max
  {
    var settled := Doublings(min, max);
    forall j: nat | min * Pow2(j) == max
      ensures j == settled
    {
      DoublingsLeast(min, max, j);
      if j > settled {
        DoublingsLeast(min, max, settled);
        PowersIncrease(settled, j);
      }
    }
    if min * Pow2(settled) == max {
      assert exists j: nat :: min * Pow2(j) == max;
    }
  }

  lemma {:induction false} PowersIncrease(j: nat, k: nat)
    requires j < k
    ensures Pow2(j) < Pow2(k)
    decreases k
  {
    if j < k - 1 {
      PowersIncrease(j, k - 1);
    }
  }

  /** With the default settings: 2, 4, 8 and on to 128 seconds. */
  lemma DefaultSleeps(k: nat)
    ensures Sleep(MIN_RECONNECT_BACKOFF_DEFAULT_SEC, MAX_RECONNECT_BACKOFF_DEFAULT_SEC, k) == Pow2(Lesser(k, 7))
  {
    assert Doublings(64, 128) == 1 && Doublings(16, 128) == 3 && Doublings(4, 128) == 5 && Doublings(1, 128) == 7;
  }

  // ---------- the loop ----------

  /** One reconnect attempt: whether the CONNECT was written, and whether it was accepted. */
  datatype Attempt = Attempt(written: bool, accepted: bool)

  /** The sleeps of a series of attempts: an accepted one ends the outage and the count starts over. */
  function Sleeps(min: nat, max: nat, attempts: seq<Attempt>, failures: nat): seq<nat> {
    if attempts == [] then []
    else if attempts[0].accepted then Sleeps(min, max, attempts[1..], 0)
    else [Sleep(min, max, failures + 1)] + Sleeps(min, max, attempts[1..], failures + 1)
  }

  /** Series of attempts follow one another across a success as if each began afresh. */
  lemma {:induction false} OutagesBeginAfresh(min: nat, max: nat, before: seq<Attempt>, success: Attempt,
                                              after: seq<Attempt>, failures: nat)
    requires success.accepted
    ensures Sleeps(min, max, before + [success] + after, failures) ==
            Sleeps(min, max, before, failures) + Sleeps(min, max, after, 0)
    decreases |before|
  {
    hide Sleep;
    var all := before + [success] + after;
    if before == [] {
      assert all[1..] == after;
    } else {
      assert all[1..] == before[1..] + [success] + after;
      OutagesBeginAfresh(min, max, before[1..], success, after, if before[0].accepted then 0 else failures + 1);
    }
  }

  /** In an outage of failures only, the sleeps are the minimum doubled once, twice and so on, as often as it takes to
      reach the maximum. */
  lemma {:induction false} OutageSleeps(min: nat, max: nat, attempts: seq<Attempt>, failures: nat, k: nat)
    requires min > 0 && k < |attempts| && forall i :: 0 <= i < |attempts| ==> !attempts[i].accepted
    ensures var s := Sleeps(min, max, attempts, failures);
            |s| == |attempts| && s[k] == min * Pow2(Lesser(failures + k + 1, Doublings(min, max)))
    decreases |attempts|
  {
    if |attempts| > 1 {
      OutageSleeps(min, max, attempts[1..], failures + 1, if k > 0 then k - 1 else 0);
    }
  }

  /** The reconnect branch of the keepalive loop, attempt after attempt. The timer is set back while the disconnect
      callback is still due, which is once an outage: a written CONNECT makes it due again, a failed attempt settles
      it. */
  method ReconnectAttempts(min: nat, max: nat, attempts: seq<Attempt>) returns (sleeps: seq<nat>)
    requires forall i :: 0 <= i < |attempts| ==> attempts[i].accepted ==> attempts[i].written
    ensures sleeps == Sleeps(min, max, attempts, 0)
  {
    assert Sleep(min, max, 0) == min && attempts[0..] == attempts;
    hide Sleep, Sleeps;
    sleeps := [];
    var disconnectCallbackPending := true;
    var reconnectBackoffTimer, maxBackoffValue := min, max;
    var i := 0;
    ghost var failures := 0;
    while i < |attempts|
      invariant 0 <= i <= |attempts|
      invariant maxBackoffValue == max && (disconnectCallbackPending <==> failures == 0)
      invariant failures > 0 ==> reconnectBackoffTimer == Sleep(min, max, failures)
      invariant Sleeps(min, max, attempts, 0) == sleeps + Sleeps(min, max, attempts[i..], failures)
    {
      if disconnectCallbackPending {
        reconnectBackoffTimer := min;
        maxBackoffValue := max;
      }
      SleepStep(min, max, failures);
      if attempts[i].written {
        disconnectCallbackPending := true;
      }
      if attempts[i].accepted {
        failures := 0;
      } else {
        disconnectCallbackPending := false;
        if maxBackoffValue > reconnectBackoffTimer {
          reconnectBackoffTimer := reconnectBackoffTimer + reconnectBackoffTimer;
        }
        sleeps := sleeps + [reconnectBackoffTimer];
        failures := failures + 1;
      }
      i := i + 1;
    }
  }
}
