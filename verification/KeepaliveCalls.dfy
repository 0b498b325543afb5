/**
 The conditions on connect calls are exact: a later call that does not begin quietly or silently can end in two pings
 without an answer, or two disconnect callbacks without a CONNECT, between them.
 */
module KeepaliveCalls {
  import opened Keepalive

  // ---------- what a run leads to ----------

  /** No connect call begins. */
  ghost predicate Plain(t: Trace, es: seq<Event>)
    decreases |es|
  {
    es == [] || (Polite(t.state, es[0]) && !Begins(t.state, es[0]) && Plain(Next(t, es[0]), es[1..]))
  }

  lemma {:induction false} PlainIsSilent(t: Trace, es: seq<Event>)
    requires Plain(t, es)
    ensures CallsSilent(t, es) && CallsQuiet(t, es)
    decreases |es|
  {
    hide Next, Quiet, Silent;
    if es != [] {
      PlainIsSilent(Next(t, es[0]), es[1..]);
    }
  }

  ghost predicate Leads(t: Trace, u: Trace) {
    exists es :: Plain(t, es) && Run(t, es) == u
  }

  lemma LeadsHere(t: Trace)
    ensures Leads(t, t)
  {
    assert Plain(t, []) && Run(t, []) == t;
  }

  lemma {:induction false} OneMore(t: Trace, es: seq<Event>, e: Event)
    requires Plain(t, es) && Polite(Run(t, es).state, e) && !Begins(Run(t, es).state, e)
    ensures Plain(t, es + [e]) && Run(t, es + [e]) == Next(Run(t, es), e)
    decreases |es|
  {
    hide Next, Polite, Begins;
    if es != [] {
      OneMore(Next(t, es[0]), es[1..], e);
      assert (es + [e])[1..] == es[1..] + [e];
    } else {
      assert [] + [e] == [e] && [e][1..] == [];
      assert Plain(Next(t, e), []) && Run(Next(t, e), []) == Next(t, e);
    }
  }

  lemma LeadsOn(t: Trace, u: Trace, e: Event) returns (v: Trace)
    requires Leads(t, u) && Polite(u.state, e) && !Begins(u.state, e)
    ensures v == Next(u, e) && Leads(t, v)
  {
    hide Next, Polite, Begins, Plain, Run;
    var es :| Plain(t, es) && Run(t, es) == u;
    OneMore(t, es, e);
    v := Next(u, e);
  }

  lemma TwoInARow(seen: seq<Seen>, what: Seen, between: set<Seen>)
    ensures !Separated(seen + [what] + [what], what, between)
  {
    var more := seen + [what] + [what];
    assert more[|seen|] == more[|seen| + 1] == what;
  }

  // ---------- paths of one thread ----------

  /** With these flags a thread walks on to the place named without changing them or showing anything: to the ping of a
      live connection, or to the callback of a lost one. */
  predicate Paves(f: Flags, fire: bool) {
    if fire then f.required && !f.enabled && f.callbackPending else f.connected && !f.required && !f.pingPending
  }

  predicate OnPath(at: Place, fire: bool) {
    if fire then at.Top? || at.CheckRequired? || FiresAt(at)
    else
      || at.Top? || at.CheckRequired? || at.CheckTime? || at.CheckPing? || at.CheckConnected? || at.WritePing?
  }

  function PathEnd(fire: bool): Place {
    if fire then FireOtherCallback else WritePing
  }

  function ToGo(at: Place): nat {
    match at
    case Top => 5
    case CheckRequired => 4
    case CheckTime | CheckOtherCallback => 3
    case CheckPing => 2
    case CheckConnected => 1
    case _ => 0
  }

  lemma {:induction false} MainWalks(t: Trace, u: Trace, fire: bool) returns (v: Trace)
    requires Leads(t, u) && Paves(u.state.flags, fire) && OnPath(u.state.main, fire)
    ensures Leads(t, v) && v == u.(state := u.state.(main := PathEnd(fire)))
    decreases ToGo(u.state.main)
  {
    if u.state.main == PathEnd(fire) {
      v := u;
    } else {
      hide Leads, Turn, TurnShows, ToGo, OnPath, Paves;
      var next := LeadsOn(t, u, Main(true));
      assert u.seen + [] == u.seen;
      v := MainWalks(t, next, fire);
    }
  }

  lemma {:induction false} RunnerWalks(t: Trace, u: Trace, fire: bool) returns (v: Trace)
    requires Leads(t, u) && Paves(u.state.flags, fire) && OnPath(u.state.runner, fire) && !u.state.stopped
    ensures Leads(t, v) && v == u.(state := u.state.(runner := PathEnd(fire)))
    decreases ToGo(u.state.runner)
  {
    if u.state.runner == PathEnd(fire) {
      v := u;
    } else {
      hide Leads, Turn, TurnShows, ToGo, OnPath, Paves;
      var next := LeadsOn(t, u, Runner(true));
      assert u.seen + [] == u.seen;
      v := RunnerWalks(t, next, fire);
    }
  }

  /** A ping that cannot be written, and reconnecting switched off: the thread comes back to the top asking for one. */
  lemma PingIsLost(t: Trace, u: Trace) returns (v: Trace)
    requires Leads(t, u) && u.state.main.WritePing? && FreeForMain(u.state)
    ensures Leads(t, v)
    ensures v == u.(state := u.state.(main := Top, flags := u.state.flags.(connected := false, required := true,
                                                                         enabled := false)))
  {
    hide Leads;
    var u1 := LeadsOn(t, u, Main(false));
    var u2 := LeadsOn(t, u1, Main(true));
    var u3 := LeadsOn(t, u2, Main(true));
    v := LeadsOn(t, u3, UserEnables(false));
    assert u.seen + [] == u.seen;
  }

  // ---------- a later call begins ----------

  /** The runner has been started beside the keepalive thread. */
  predicate RunnerWaits(s: State) {
    s.caller.WithRunner? && s.runner.Waiting? && !s.stopped && s.reader.NoReader?
  }

  lemma CallBegins(t: Trace, choice: bool) returns (u: Trace)
    requires t.state.caller.Idle? && t.state.runner.Off? && t.state.reader.NoReader? && !t.state.main.Off?
    ensures Leads(Next(t, Caller(choice)), u)
    ensures u == t.(state := t.state.(runner := Waiting, stopped := false, caller := WithRunner))
  {
    hide Leads;
    var t0 := Next(t, Caller(choice));
    LeadsHere(t0);
    var t1 := LeadsOn(t0, t0, ReadRunner);
    u := LeadsOn(t0, t1, Caller(choice));
    assert t.seen + [] == t.seen;
  }

  // ---------- the client comes up again ----------

  /** The way the keepalive thread is driven: back to the top, there to a CONNECT if a reconnect is asked for, and to the
      CONNACK. */
  function Choice(f: Flags, at: Place): bool {
    match at
    case CheckTime => !f.connected && !f.required && f.unanswered == 0
    case AwaitConnack => f.unanswered == 0
    case Resubscribing | WritePing => false
    case _ => true
  }

  function Plan(s: State): Event {
    if s.main.Top? && s.flags.unanswered > 0 then Connack(true)
    else if s.main.Top? && s.flags.required && !s.flags.enabled then UserEnables(true)
    else Main(Choice(s.flags, s.main))
  }

  /** Steps at most to the top, once a CONNACK is to come. */
  function RankAnswered(at: Place): nat {
    match at
    case Off => 0
    case Top => 1
    case ReconnectFailed | RequireReconnect | Starting | MarkPing | CheckTime => 2
    case Overdue | PingFailed | ResubscribeFailed | ClearOtherCallback | Waiting | AwaitConnack => 3
    case Resubscribing | WritePing | FireOtherCallback | MarkConnect => 4
    case Accepted | CheckOtherCallback | Connecting | CheckConnected => 5
    case CheckRequired | AttemptConnect | CheckPing => 6
    case FireCallback => 7
    case CheckCallback => 8
    case ClearPing => 9
  }

  /** And before that. */
  function RankUnanswered(f: Flags, at: Place): nat {
    match at
    case Off => 0
    case Connecting => 20
    case AttemptConnect => 21
    case FireCallback => 22
    case CheckCallback => 23
    case ClearPing => 24
    case Top => if f.required then (if f.enabled then 25 else 26) else if f.connected then 10 else 36
    case RequireReconnect => 27
    case Overdue | PingFailed | ResubscribeFailed => 28
    case Resubscribing | WritePing => 29
    case Accepted | CheckTime => 30
    case AwaitConnack | ClearOtherCallback => 31
    case MarkConnect | FireOtherCallback => 32
    case CheckOtherCallback => 33
    case CheckRequired => 35
    case CheckConnected => if f.connected || f.required then 30 else 41
    case CheckPing => if f.pingPending then 29 else 31
    case MarkPing | Starting | ReconnectFailed => 37
    case Waiting => 38
  }

  function Rank(f: Flags, at: Place): nat {
    if f.unanswered > 0 then RankAnswered(at) else RankUnanswered(f, at)
  }

  predicate Loud(f: Flags, at: Place) {
    !at.Off? && !(FlagsQuiet(f) && QuietAt(at)) && (at.Waiting? ==> f.connected)
  }

  predicate Up(f: Flags, at: Place) {
    at.Top? && f.connected && !f.required
  }

  predicate Nearer(f: Flags, at: Place, f': Flags, at': Place) {
    Loud(f', at') && Rank(f', at') < Rank(f, at)
  }

  lemma WatchNearer(f: Flags, at: Place)
    requires Loud(f, at) && !(at.Top? && (f.unanswered > 0 || (f.required && !f.enabled) || Up(f, at)))
    requires at.Waiting? || at.Starting? || at.Top? || at.CheckRequired? || FiresAt(at) || at.ClearOtherCallback?
    ensures var (f', at') := Watch(f, at, true); Nearer(f, at, f', at')
  {
  }

  lemma ReconnectNearer(f: Flags, at: Place)
    requires Loud(f, at) && (at.ClearPing? || at.CheckCallback? || at.FireCallback? || at.AttemptConnect?)
    ensures var (f', at') := Reconnect(f, at, true, true, Choice(f, at)); Nearer(f, at, f', at')
  {
  }

  lemma ConnectNearer(f: Flags, at: Place)
    requires Loud(f, at) && (at.Connecting? || at.MarkConnect? || at.AwaitConnack? || at.ReconnectFailed?)
    ensures var (f', at') := Reconnect(f, at, true, true, Choice(f, at)); Nearer(f, at, f', at')
  {
  }

  lemma PingNearer(f: Flags, at: Place)
    requires Loud(f, at) && (at.CheckTime? || at.CheckPing? || at.CheckConnected? || at.WritePing? || at.MarkPing?)
    ensures var (f', at') := Ping(f, at, true, Choice(f, at)); Nearer(f, at, f', at')
  {
  }

  lemma ResubscribeNearer(f: Flags, at: Place)
    requires Loud(f, at) && (at.Accepted? || at.Resubscribing?)
    ensures var (f', at') := Resubscribe(f, at, true, Choice(f, at)); Nearer(f, at, f', at')
  {
  }

  lemma GiveUpNearer(f: Flags, at: Place)
    requires Loud(f, at) && (at.Overdue? || at.PingFailed? || at.ResubscribeFailed? || at.RequireReconnect?)
    ensures var (f', at') := GiveUp(f, at, true, true); Nearer(f, at, f', at')
  {
  }

  lemma TurnNearer(f: Flags, at: Place)
    requires Loud(f, at) && !(at.Top? && (f.unanswered > 0 || (f.required && !f.enabled) || Up(f, at)))
    ensures var (f', at') := Turn(f, at, true, true, Choice(f, at)); Nearer(f, at, f', at')
  {
    hide Nearer, Watch, Reconnect, Ping, Resubscribe, GiveUp, Choice;
    match at
    case Waiting | Starting | Top | CheckRequired | CheckOtherCallback | FireOtherCallback | ClearOtherCallback =>
      WatchNearer(f, at);
    case CheckTime | CheckPing | CheckConnected | WritePing | MarkPing => PingNearer(f, at);
    case Accepted | Resubscribing => ResubscribeNearer(f, at);
    case Overdue | PingFailed | ResubscribeFailed | RequireReconnect => GiveUpNearer(f, at);
    case Connecting | MarkConnect | AwaitConnack | ReconnectFailed => ConnectNearer(f, at);
    case _ => ReconnectNearer(f, at);
  }

  lemma {:induction false} Rises(t: Trace, u: Trace) returns (v: Trace)
    requires Leads(t, u) && RunnerWaits(u.state) && Loud(u.state.flags, u.state.main)
    ensures Leads(t, v) && RunnerWaits(v.state) && Up(v.state.flags, v.state.main)
    decreases Rank(u.state.flags, u.state.main)
  {
    var f, at := u.state.flags, u.state.main;
    if Up(f, at) {
      v := u;
    } else if at.Top? && f.unanswered > 0 {
      hide Leads;
      v := LeadsOn(t, u, Connack(true));
    } else if at.Top? && f.required && !f.enabled {
      hide Leads;
      var next := LeadsOn(t, u, UserEnables(true));
      v := Rises(t, next);
    } else {
      TurnNearer(f, at);
      hide Leads, Turn, Rank, Loud, Choice, Up;
      var next := LeadsOn(t, u, Main(Choice(f, at)));
      v := Rises(t, next);
    }
  }

  /** Both keepalive threads are at the top of a live connection. */
  lemma ThreadsMeet(t: Trace, u: Trace) returns (v: Trace)
    requires Leads(t, u) && RunnerWaits(u.state) && Loud(u.state.flags, u.state.main)
    ensures Leads(t, v)
    ensures var s := v.state;
            && s.main.Top? && s.runner.Top? && !s.stopped && s.caller.WithRunner?
            && Paves(s.flags, false) && s.flags.callbackPending
  {
    var u1 := Rises(t, u);
    hide Leads;
    var u2 := LeadsOn(t, u1, Pingresp);
    var u3 := LeadsOn(t, u2, Runner(true));
    v := LeadsOn(t, u3, Runner(true));
  }

  /** A loud call, underway with a runner of its own, can end in two pings with no answer between them. */
  lemma BothPing(t: Trace, u: Trace) returns (v: Trace)
    requires Leads(t, u) && RunnerWaits(u.state) && Loud(u.state.flags, u.state.main)
    ensures Leads(t, v) && !Separated(v.seen, PingWritten, ANSWERS)
  {
    hide Leads, Loud, Separated;
    var u1 := ThreadsMeet(t, u);
    var u2 := MainWalks(t, u1, false);
    var u3 := RunnerWalks(t, u2, false);
    var u4 := LeadsOn(t, u3, Main(true));
    v := LeadsOn(t, u4, Runner(true));
    TwoInARow(u3.seen, PingWritten, ANSWERS);
  }

  /** Or in two callbacks with no CONNECT between them: both threads find the callback due. */
  lemma BothFire(t: Trace, u: Trace) returns (v: Trace)
    requires Leads(t, u) && RunnerWaits(u.state) && Loud(u.state.flags, u.state.main)
    ensures Leads(t, v) && !Separated(v.seen, CallbackFired, CONNECTS)
  {
    hide Leads, Loud, Separated;
    var u1 := ThreadsMeet(t, u);
    var u2 := MainWalks(t, u1, false);
    var u3 := PingIsLost(t, u2);
    var u4 := MainWalks(t, u3, true);
    var u5 := RunnerWalks(t, u4, true);
    var u6 := LeadsOn(t, u5, Main(true));
    v := LeadsOn(t, u6, Runner(true));
    TwoInARow(u5.seen, CallbackFired, CONNECTS);
  }

  // ---------- quiet, but about to fire ----------

  /** A runner told to stop at once makes one pass and is gone. */
  lemma RunnerPasses(t: Trace, u: Trace) returns (v: Trace)
    requires Leads(t, u) && RunnerWaits(u.state) && FlagsQuiet(u.state.flags)
    ensures Leads(t, v)
    ensures v.state == u.state.(flags := u.state.flags.(callbackPending := true), runner := Off, stopped := true,
                            caller := Joining)
  {
    hide Leads;
    var u1 := LeadsOn(t, u, Caller(true));
    var u2 := LeadsOn(t, u1, Runner(true));
    var u3 := LeadsOn(t, u2, Runner(true));
    var u4 := LeadsOn(t, u3, Runner(true));
    var u5 := LeadsOn(t, u4, Runner(true));
    v := LeadsOn(t, u5, Runner(false));
  }

  /** Then the call writes its CONNECT and has yet to mark. */
  lemma CallWrites(t: Trace, u: Trace) returns (v: Trace)
    requires Leads(t, u) && RunnerWaits(u.state) && Quiet(u.state)
    ensures Leads(t, v)
    ensures var f := u.state.flags.(callbackPending := true, unanswered := 1);
            v.state == u.state.(flags := f, runner := Off, stopped := true, caller := UserMarking)
  {
    hide Leads;
    var u1 := RunnerPasses(t, u);
    var u2 := LeadsOn(t, u1, Caller(true));
    var u3 := LeadsOn(t, u2, Caller(true));
    v := LeadsOn(t, u3, Caller(true));
  }

  /** The keepalive thread fires and settles the callback, and only then the call marks it due. */
  lemma FiresBeforeMark(t: Trace, u: Trace) returns (v: Trace)
    requires Leads(t, u) && u.state.caller.UserMarking? && u.state.runner.Off? && FiresAt(u.state.main)
    requires u.state.flags.callbackPending && !u.state.flags.pingPending && u.state.flags.unanswered > 0
    ensures Leads(t, v) && v.seen == u.seen + [CallbackFired]
    ensures v.state.caller.Idle? && v.state.runner.Off? && v.state.main.CheckTime?
    ensures Paves(v.state.flags, false) && v.state.flags.callbackPending
  {
    hide Leads;
    var u1 := u;
    if u.state.main.CheckOtherCallback? {
      u1 := LeadsOn(t, u, Main(true));
    }
    assert u1.seen == u.seen;
    var u2 := LeadsOn(t, u1, Main(true));
    var u3 := LeadsOn(t, u2, Main(true));
    var u4 := LeadsOn(t, u3, Caller(true));
    var u5 := LeadsOn(t, u4, Caller(true));
    v := LeadsOn(t, u5, Connack(true));
  }

  lemma LateMark(t: Trace, u: Trace) returns (v: Trace)
    requires Leads(t, u) && RunnerWaits(u.state) && Quiet(u.state) && FiresAt(u.state.main)
    ensures Leads(t, v) && !Separated(v.seen, CallbackFired, CONNECTS)
  {
    hide Leads, Separated;
    var u1 := CallWrites(t, u);
    var u2 := FiresBeforeMark(t, u1);
    var u3 := MainWalks(t, u2, false);
    var u4 := PingIsLost(t, u3);
    var u5 := MainWalks(t, u4, true);
    v := LeadsOn(t, u5, Main(true));
    TwoInARow(u1.seen, CallbackFired, CONNECTS);
  }

  // ---------- the conditions are exact ----------

  /** The first CONNACK wakes a keepalive thread that is still waiting. */
  lemma Wakes(t: Trace, u: Trace) returns (v: Trace)
    requires Leads(t, u) && RunnerWaits(u.state) && !Quiet(u.state) && !u.state.main.Off?
    requires u.state.main.Waiting? ==> !u.state.flags.required && !u.state.flags.pingPending
    ensures Leads(t, v) && RunnerWaits(v.state) && Loud(v.state.flags, v.state.main)
  {
    hide Leads;
    if u.state.main.Waiting? && !u.state.flags.connected {
      v := LeadsOn(t, u, Connack(true));
    } else {
      v := u;
    }
  }

  lemma LoudCallPingsTwice(t: Trace, choice: bool) returns (es: seq<Event>)
    requires CallInv(t.state) && t.state.caller.Idle? && !Quiet(t.state)
    ensures CallsQuiet(Next(t, Caller(choice)), es)
    ensures !Separated(Run(Next(t, Caller(choice)), es).seen, PingWritten, ANSWERS)
  {
    var t0 := Next(t, Caller(choice));
    hide Next, Separated, QuietAt, RunnerAt;
    var u := CallBegins(t, choice);
    var u1 := Wakes(t0, u);
    var v := BothPing(t0, u1);
    es :| Plain(t0, es) && Run(t0, es) == v;
    PlainIsSilent(t0, es);
  }

  lemma LoudCallFiresTwice(t: Trace, choice: bool) returns (es: seq<Event>)
    requires CallInv(t.state) && t.state.caller.Idle? && !Silent(t.state)
    ensures CallsSilent(Next(t, Caller(choice)), es)
    ensures !Separated(Run(Next(t, Caller(choice)), es).seen, CallbackFired, CONNECTS)
  {
    var t0 := Next(t, Caller(choice));
    assert t.state.main.Off? ==> Silent(t.state);
    hide Next, Separated, QuietAt, RunnerAt, FiresAt;
    var u := CallBegins(t, choice);
    var v;
    if Quiet(u.state) {
      v := LateMark(t0, u);
    } else {
      var u1 := Wakes(t0, u);
      v := BothFire(t0, u1);
    }
    es :| Plain(t0, es) && Run(t0, es) == v;
    PlainIsSilent(t0, es);
  }

  /** A call that begins quietly is harmless to the pings, and no other: after it, all that goes on in quiet calls keeps
      the pings apart exactly if it began quietly. */
  lemma PingsExactly(t: Trace, choice: bool)
    requires PingInv(t) && t.state.caller.Idle?
    ensures Quiet(t.state) <==>
            forall es :: CallsQuiet(Next(t, Caller(choice)), es) ==>
                           Separated(Run(Next(t, Caller(choice)), es).seen, PingWritten, ANSWERS)
  {
    var t0 := Next(t, Caller(choice));
    if Quiet(t.state) {
      NextKeepsPing(t, Caller(choice));
      forall es | CallsQuiet(t0, es)
        ensures Separated(Run(t0, es).seen, PingWritten, ANSWERS)
      {
        PingRun(t0, es);
      }
    } else {
      var es := LoudCallPingsTwice(t, choice);
    }
    hide *;
  }

  /** A call that begins silently is harmless to the disconnect callbacks, and no other. */
  lemma CallbacksExactly(t: Trace, choice: bool)
    requires CallbackInv(t) && t.state.caller.Idle?
    ensures Silent(t.state) <==>
            forall es :: CallsSilent(Next(t, Caller(choice)), es) ==>
                           Separated(Run(Next(t, Caller(choice)), es).seen, CallbackFired, CONNECTS)
  {
    var t0 := Next(t, Caller(choice));
    if Silent(t.state) {
      NextKeepsCallback(t, Caller(choice));
      forall es | CallsSilent(t0, es)
        ensures Separated(Run(t0, es).seen, CallbackFired, CONNECTS)
      {
        CallbackRun(t0, es);
      }
    } else {
      var es := LoudCallFiresTwice(t, choice);
    }
    hide *;
  }

  // ---------- one call after another ----------

  /** A run in which the keepalive thread takes no step. */
  ghost predicate LeadsAlone(t: Trace, u: Trace) {
    exists es :: Plain(t, es) && MainRests(es) && Run(t, es) == u
  }

  ghost predicate MainRests(es: seq<Event>) {
    forall i :: 0 <= i < |es| ==> !es[i].Main?
  }

  lemma LeadsAloneOn(t: Trace, u: Trace, e: Event) returns (v: Trace)
    requires LeadsAlone(t, u) && Polite(u.state, e) && !Begins(u.state, e) && !e.Main?
    ensures v == Next(u, e) && LeadsAlone(t, v)
  {
    hide Next, Polite, Begins, Plain, Run;
    var es :| Plain(t, es) && MainRests(es) && Run(t, es) == u;
    OneMore(t, es, e);
    assert MainRests(es + [e]);
    v := Next(u, e);
  }

  /** The connection was lost with reconnecting switched off, and the callback has been fired and settled. */
  predicate LostAndSettled(s: State) {
    && s.caller.Idle? && s.runner.Off? && s.reader.NoReader? && s.main.CheckTime?
    && !s.flags.connected && !s.flags.enabled && s.flags.required && !s.flags.callbackPending
  }

  /** Up to the runner's start. */
  lemma CallAlone(t: Trace) returns (u: Trace)
    requires LostAndSettled(t.state)
    ensures LeadsAlone(Next(t, Caller(true)), u)
    ensures u == t.(state := t.state.(runner := Waiting, stopped := true, caller := Joining))
  {
    var t0 := Next(t, Caller(true));
    assert LeadsAlone(t0, t0) by { assert Plain(t0, []) && MainRests([]) && Run(t0, []) == t0; }
    hide LeadsAlone;
    var t1 := LeadsAloneOn(t0, t0, ReadRunner);
    var t2 := LeadsAloneOn(t0, t1, Caller(true));
    u := LeadsAloneOn(t0, t2, Caller(true));
    assert t.seen + [] == t.seen;
  }

  lemma RunnerAlone(t0: Trace, u: Trace) returns (v: Trace)
    requires LeadsAlone(t0, u) && u.state.runner.Waiting? && u.state.stopped
    requires !u.state.flags.enabled && u.state.flags.required
    ensures LeadsAlone(t0, v) && v.seen == u.seen + [CallbackFired]
  {
    hide LeadsAlone;
    var u1 := LeadsAloneOn(t0, u, Runner(true));
    var u2 := LeadsAloneOn(t0, u1, Runner(true));
    var u3 := LeadsAloneOn(t0, u2, Runner(true));
    var u4 := LeadsAloneOn(t0, u3, Runner(true));
    var u5 := LeadsAloneOn(t0, u4, Runner(true));
    assert u5.seen == u.seen;
    v := LeadsAloneOn(t0, u5, Runner(true));
  }

  /** Connecting again then fires it once more, before any CONNECT, though the keepalive thread takes no step: it is the
      call's own runner that marks the callback due and fires it. */
  lemma NextCallFires(t: Trace) returns (es: seq<Event>)
    requires LostAndSettled(t.state)
    ensures MainRests(es) && Plain(Next(t, Caller(true)), es)
    ensures Run(Next(t, Caller(true)), es).seen == t.seen + [CallbackFired]
  {
    var t0 := Next(t, Caller(true));
    hide Next, Plain, Run;
    var u := CallAlone(t);
    var v := RunnerAlone(t0, u);
    es :| Plain(t0, es) && MainRests(es) && Run(t0, es) == v;
  }

  /** The first connect call, up to its return. */
  lemma FirstCall() returns (u: Trace)
    ensures Leads(Next(START, Caller(true)), u) && u.seen == [ConnectWritten]
    ensures u.state == State(Flags(true, true, false, false, true, 0), Waiting, Off, false, Idle, NoReader)
  {
    var t0 := Next(START, Caller(true));
    LeadsHere(t0);
    hide Leads;
    var t1 := LeadsOn(t0, t0, Caller(true));
    var t2 := LeadsOn(t0, t1, Caller(true));
    var t3 := LeadsOn(t0, t2, Caller(true));
    var t4 := LeadsOn(t0, t3, Connack(true));
    u := LeadsOn(t0, t4, Caller(true));
  }

  lemma ConnectionLost() returns (v: Trace)
    ensures Leads(Next(START, Caller(true)), v) && LostAndSettled(v.state) && v.seen == [ConnectWritten, CallbackFired]
  {
    var t0 := Next(START, Caller(true));
    hide Leads;
    var u := FirstCall();
    var u1 := LeadsOn(t0, u, Main(true));
    var u2 := LeadsOn(t0, u1, Main(true));
    var u3 := MainWalks(t0, u2, false);
    var u4 := PingIsLost(t0, u3);
    var u5 := MainWalks(t0, u4, true);
    var u6 := LeadsOn(t0, u5, Main(true));
    v := LeadsOn(t0, u6, Main(true));
  }

  /** From the start, with no two calls at a time and nothing else going on during the second: connect, lose the
      connection with reconnecting switched off, hear of it, and connect again. The callback fires a second time before
      the second CONNECT. */
  lemma SecondConnectFiresTwice() returns (first: seq<Event>, second: seq<Event>)
    ensures var lost := Run(Next(START, Caller(true)), first);
            && Plain(Next(START, Caller(true)), first) && lost.state.caller.Idle?
            && Plain(Next(lost, Caller(true)), second) && MainRests(second)
            && Run(Next(lost, Caller(true)), second).seen == [ConnectWritten, CallbackFired, CallbackFired]
  {
    var t0 := Next(START, Caller(true));
    var v := ConnectionLost();
    hide Next, Plain, Run;
    first :| Plain(t0, first) && Run(t0, first) == v;
    second := NextCallFires(v);
  }
}
