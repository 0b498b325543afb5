/**
 What one pass of the keepalive loop comes to when no other thread takes a step and the lock is free, case by case
 (src/mqtt/Connect.cpp:434-595).
 */
module KeepalivePasses {
  import opened Keepalive

  datatype Walked = Walked(flags: Flags, at: Place, seen: seq<Seen>)

  /** `n` steps of one thread, at each of which the network call, the timer or the acknowledgement turns out well, save at
      one place. */
  function Walk(f: Flags, at: Place, n: nat, fails: Place): Walked
    decreases n
  {
    if n == 0 then Walked(f, at, [])
    else
      var choice := at != fails;
      var (f', at') := Turn(f, at, true, true, choice);
      var rest := Walk(f', at', n - 1, fails);
      rest.(seen := TurnShows(at, true, choice) + rest.seen)
  }

  /** The callback fires in a pass that asks for a reconnect exactly if it is due. */
  function Due(f: Flags): seq<Seen> {
    if f.callbackPending then [CallbackFired] else []
  }

  function Extra(f: Flags): nat {
    if f.callbackPending then 1 else 0
  }

  lemma WalkOn(f: Flags, at: Place, n: nat, fails: Place)
    requires n > 0
    ensures var (f', at') := Turn(f, at, true, true, at != fails);
            Walk(f, at, n, fails) ==
            Walk(f', at', n - 1, fails).(seen := TurnShows(at, true, at != fails) + Walk(f', at', n - 1, fails).seen)
  {
  }

  /** From the top to the attempt: the ping is forgotten and a callback that is due fires. */
  lemma ReachesAttempt(f: Flags, n: nat, fails: Place)
    requires f.enabled && f.required && fails in {Off, Connecting, AwaitConnack, Resubscribing}
    ensures var rest := Walk(f.(pingPending := false), AttemptConnect, n, fails);
            Walk(f, Top, n + 3 + Extra(f), fails) == rest.(seen := Due(f) + rest.seen)
  {
    hide Walk;
    var f' := f.(pingPending := false);
    WalkOn(f, Top, n + 3 + Extra(f), fails);
    WalkOn(f, ClearPing, n + 2 + Extra(f), fails);
    WalkOn(f', CheckCallback, n + 1 + Extra(f), fails);
    if f.callbackPending {
      WalkOn(f', FireCallback, n + 1, fails);
    }
  }

  /** From the attempt to waiting for the CONNACK. */
  lemma ReachesAwait(f: Flags, n: nat, fails: Place)
    requires fails in {Off, AwaitConnack, Resubscribing}
    ensures var rest := Walk(f.(callbackPending := true, unanswered := f.unanswered + 1), AwaitConnack, n, fails);
            Walk(f, AttemptConnect, n + 3, fails) == rest.(seen := [ReconnectTried, ConnectWritten] + rest.seen)
  {
    hide Walk;
    WalkOn(f, AttemptConnect, n + 3, fails);
    WalkOn(f, Connecting, n + 2, fails);
    WalkOn(f.(unanswered := f.unanswered + 1), MarkConnect, n + 1, fails);
  }

  lemma WalkEnds(f: Flags, fails: Place)
    ensures Walk(f, Top, 0, fails) == Walked(f, Top, [])
  {
  }

  lemma IsAccepted(f: Flags)
    ensures Walk(f, AwaitConnack, 3, Off) == Walked(f.(required := false), Top, [])
  {
    hide Walk;
    WalkOn(f, AwaitConnack, 3, Off);
    WalkOn(f, Accepted, 2, Off);
    WalkOn(f.(required := false), Resubscribing, 1, Off);
    WalkEnds(f.(required := false), Off);
  }

  /** A reconnect is asked for and succeeds. It is no longer asked for, and the callback is due for the new connection. */
  lemma Reconnects(f: Flags)
    requires f.enabled && f.required
    ensures Walk(f, Top, 9 + Extra(f), Off) ==
            Walked(f.(required := false, pingPending := false, callbackPending := true, unanswered := f.unanswered + 1),
                   Top, Due(f) + [ReconnectTried, ConnectWritten])
  {
    hide Walk, Turn;
    var f1 := f.(pingPending := false);
    ReachesAttempt(f, 6, Off);
    ReachesAwait(f1, 3, Off);
    IsAccepted(f1.(callbackPending := true, unanswered := f.unanswered + 1));
  }

  /** The CONNECT cannot be written: the reconnect is still asked for, and the callback is settled. */
  lemma ConnectFails(f: Flags)
    requires f.enabled && f.required
    ensures Walk(f, Top, 6 + Extra(f), Connecting) ==
            Walked(f.(pingPending := false, callbackPending := false), Top, Due(f) + [ReconnectTried])
  {
    hide Walk;
    var f1 := f.(pingPending := false);
    ReachesAttempt(f, 3, Connecting);
    WalkOn(f1, AttemptConnect, 3, Connecting);
    WalkOn(f1, Connecting, 2, Connecting);
    WalkOn(f1, ReconnectFailed, 1, Connecting);
    WalkEnds(f1.(callbackPending := false), Connecting);
  }

  /** The CONNECT is written but not accepted. */
  lemma ConnackFails(f: Flags)
    requires f.enabled && f.required
    ensures Walk(f, Top, 8 + Extra(f), AwaitConnack) ==
            Walked(f.(pingPending := false, callbackPending := false, unanswered := f.unanswered + 1), Top,
                   Due(f) + [ReconnectTried, ConnectWritten])
  {
    hide Walk;
    var f1 := f.(pingPending := false);
    var f2 := f1.(callbackPending := true, unanswered := f.unanswered + 1);
    ReachesAttempt(f, 5, AwaitConnack);
    ReachesAwait(f1, 2, AwaitConnack);
    WalkOn(f2, AwaitConnack, 2, AwaitConnack);
    WalkOn(f2, ReconnectFailed, 1, AwaitConnack);
    WalkEnds(f2.(callbackPending := false), AwaitConnack);
  }

  lemma GivesUp(f: Flags)
    ensures Walk(f, ResubscribeFailed, 2, Resubscribing) == Walked(f.(connected := false, required := true), Top, [])
  {
    hide Walk;
    WalkOn(f, ResubscribeFailed, 2, Resubscribing);
    WalkOn(f.(connected := false), RequireReconnect, 1, Resubscribing);
    WalkEnds(f.(connected := false, required := true), Resubscribing);
  }

  lemma LostWhileResubscribing(f: Flags)
    ensures Walk(f, Accepted, 4, Resubscribing) == Walked(f.(connected := false, required := true), Top, [])
  {
    hide Walk;
    var f1 := f.(required := false);
    WalkOn(f, Accepted, 4, Resubscribing);
    WalkOn(f1, Resubscribing, 3, Resubscribing);
    GivesUp(f1);
  }

  /** The connection is lost again while resubscribing: the client disconnects and asks for another reconnect. */
  lemma ResubscribeFails(f: Flags)
    requires f.enabled && f.required
    ensures Walk(f, Top, 11 + Extra(f), Resubscribing) ==
            Walked(f.(connected := false, pingPending := false, callbackPending := true, unanswered := f.unanswered + 1),
                   Top, Due(f) + [ReconnectTried, ConnectWritten])
  {
    hide Walk;
    var f1 := f.(pingPending := false);
    var f2 := f1.(callbackPending := true, unanswered := f.unanswered + 1);
    ReachesAttempt(f, 8, Resubscribing);
    ReachesAwait(f1, 5, Resubscribing);
    WalkOn(f2, AwaitConnack, 5, Resubscribing);
    LostWhileResubscribing(f2);
  }

  lemma PassEnds(f: Flags)
    ensures Walk(f, CheckTime, 1, CheckTime) == Walked(f, Top, [])
  {
  }

  lemma Settles(f: Flags)
    ensures Walk(f, ClearOtherCallback, 2, CheckTime) == Walked(f.(callbackPending := false), Top, [])
  {
    hide Walk;
    WalkOn(f, ClearOtherCallback, 2, CheckTime);
    PassEnds(f.(callbackPending := false));
  }

  lemma Tells(f: Flags)
    requires f.callbackPending
    ensures Walk(f, CheckOtherCallback, 4, CheckTime) == Walked(f.(callbackPending := false), Top, [CallbackFired])
  {
    hide Walk;
    WalkOn(f, CheckOtherCallback, 4, CheckTime);
    WalkOn(f, FireOtherCallback, 3, CheckTime);
    Settles(f);
  }

  lemma ToldAlready(f: Flags)
    requires !f.callbackPending
    ensures Walk(f, CheckOtherCallback, 2, CheckTime) == Walked(f, Top, [])
  {
    hide Walk;
    WalkOn(f, CheckOtherCallback, 2, CheckTime);
    PassEnds(f);
  }

  /** With reconnecting switched off, a callback that is due fires and is settled, and nothing else happens. */
  lemma OnlyTells(f: Flags)
    requires !f.enabled && f.required
    ensures Walk(f, Top, 4 + 2 * Extra(f), CheckTime) == Walked(f.(callbackPending := false), Top, Due(f))
  {
    hide Walk;
    WalkOn(f, Top, 4 + 2 * Extra(f), CheckTime);
    WalkOn(f, CheckRequired, 3 + 2 * Extra(f), CheckTime);
    if f.callbackPending {
      Tells(f);
    } else {
      ToldAlready(f);
      assert f.(callbackPending := false) == f;
    }
  }

  /** Nothing is asked for and the timer has not run out. */
  lemma NothingToDo(f: Flags)
    requires !f.required
    ensures Walk(f, Top, 3, CheckTime) == Walked(f, Top, [])
  {
  }

  /** It has, and no ping is outstanding: a ping goes out and is outstanding. */
  lemma Pings(f: Flags)
    requires f.connected && !f.required && !f.pingPending
    ensures Walk(f, Top, 7, Off) == Walked(f.(pingPending := true), Top, [PingWritten])
  {
  }

  /** The ping cannot be written: the client disconnects and asks for a reconnect. */
  lemma PingFails(f: Flags)
    requires f.connected && !f.required && !f.pingPending
    ensures Walk(f, Top, 8, WritePing) == Walked(f.(connected := false, required := true), Top, [])
  {
  }

  /** The last ping is still outstanding: the same, connected or not. */
  lemma PingUnanswered(f: Flags)
    requires !f.required && f.pingPending
    ensures Walk(f, Top, 6, Off) == Walked(f.(connected := false, required := true), Top, [])
  {
  }

  /** Without a connection there is nothing to ping. */
  lemma NoPingWhenDown(f: Flags)
    requires !f.connected && !f.required && !f.pingPending
    ensures Walk(f, Top, 5, Off) == Walked(f, Top, [])
  {
  }

  /** A thread waits for the first connection, and then marks the callback due before its first pass. */
  lemma WaitsForConnection(f: Flags, n: nat)
    ensures !f.connected ==> Walk(f, Waiting, n, Off) == Walked(f, Waiting, [])
    ensures f.connected ==> Walk(f, Waiting, 2, Off) == Walked(f.(callbackPending := true), Top, [])
  {
    if n > 0 && !f.connected {
      WaitsForConnection(f, n - 1);
    }
  }

  /** A read that fails under a read thread that watches: disconnected, and a reconnect asked for; but only the first, and
      only if the client was connected. */
  lemma ReadFails(s: State)
    requires Free(s) && s.reader == Reading(true)
    ensures var s1 := Step(s, ReadRunner);
            var s3 := Step(Step(s1, ReadRunner), ReadRunner);
            if s.flags.connected
            then s3 == s.(flags := s.flags.(connected := false, required := true), reader := Reading(false))
            else s1 == s.(reader := Reading(false))
    ensures Step(s.(reader := Reading(false)), ReadRunner) == s.(reader := Reading(false))
  {
  }

  /** The application's own calls: disconnecting takes the lock, switching reconnects on and off does not. */
  lemma ApplicationCalls(s: State, value: bool)
    ensures Step(s, UserDisconnects) == if Free(s) then s.(flags := s.flags.(connected := false)) else s
    ensures Step(s, UserEnables(value)) == s.(flags := s.flags.(enabled := value))
    ensures Free(s) <==> !s.caller.UserConnecting? && !s.caller.UserMarking? && !s.caller.UserAwaiting? &&
                         s.main !in {Connecting, MarkConnect, AwaitConnack} &&
                         s.runner !in {Connecting, MarkConnect, AwaitConnack}
  {
  }

  /** An accepted CONNACK connects and ends the request for a reconnect; a refused one does neither. */
  lemma ConnackArrives(s: State)
    requires s.flags.unanswered > 0
    ensures Step(s, Connack(true)).flags ==
            s.flags.(connected := true, required := false, unanswered := s.flags.unanswered - 1)
    ensures Step(s, Connack(false)).flags == s.flags.(unanswered := s.flags.unanswered - 1)
  {
  }
}
