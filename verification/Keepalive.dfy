/**
 The keepalive threads among the others, step by step (src/mqtt/Connect.cpp:297-595, src/mqtt/NetworkRead.cpp:105-187,
 src/mqtt/Client.cpp:128-156, src/ClientCore.cpp:68-93, include/mqtt/ClientState.hpp). Every read or write of a shared
 flag is a step of its own; a step whose turn has not come changes nothing.

 The first connect call starts the keepalive thread and the read thread, which stay. Every later call starts one of each
 as well; the map of threads keeps the old ones, so the call stops and joins the new ones, first the reader and then the
 keepalive thread, before it asks for the lock. Such a keepalive thread is called a runner here.
 */
module Keepalive {

  /** Where a keepalive thread stands; Off if there is none. */
  datatype Place =
    | Off | Waiting | Starting | Top
    | ClearPing | CheckCallback | FireCallback | AttemptConnect | Connecting | MarkConnect | AwaitConnack
    | Accepted | Resubscribing | ResubscribeFailed | ReconnectFailed
    | CheckRequired | CheckOtherCallback | FireOtherCallback | ClearOtherCallback
    | CheckTime | CheckPing | Overdue | RequireReconnect | CheckConnected | WritePing | PingFailed | MarkPing

  /** Where the thread that calls connect stands. Calls come one after another. */
  datatype CallPlace =
    | Idle | WithReader | WithRunner | Joining | Ready | UserConnecting | UserMarking | UserAwaiting

  /** Where the read thread of a later call stands. It watches for errors if it finds the client connected, until its
      first failed read. The read thread of the first call never watches. */
  datatype Reader = NoReader | Fresh | Reading(watching: bool) | Disconnecting | Requiring

  /** What an observer of the network and the callbacks sees. */
  datatype Seen = PingWritten | PingrespRead | ReconnectTried | CallbackFired | ConnectWritten

  /** What the threads share. `unanswered` counts the CONNECTs whose CONNACK may still come. */
  datatype Flags = Flags(
    connected: bool, enabled: bool, required: bool, pingPending: bool, callbackPending: bool, unanswered: nat)

  datatype State = State(flags: Flags, main: Place, runner: Place, stopped: bool, caller: CallPlace, reader: Reader)

  datatype Event =
    | Main(choice: bool)     // the choice says how a network call, a timer or an acknowledgement came out
    | Runner(choice: bool)
    | Caller(choice: bool)
    | ReadRunner
    | Pingresp
    | Connack(accepted: bool)
    | Dropped                // no CONNACK will come any more
    | UserDisconnects
    | UserEnables(value: bool)

  // ---------- one keepalive thread ----------

  /** A thread that is told to stop leaves at the end of its pass. */
  function Again(going: bool): Place {
    if going then Top else Off
  }

  /** Looking for work, and waiting for the first connection before that. */
  function Watch(f: Flags, at: Place, going: bool): (Flags, Place) {
    match at
    case Waiting => (f, if f.connected || !going then Starting else Waiting)
    case Starting => (f.(callbackPending := true), Top)
    case Top => (f, if f.enabled && f.required then ClearPing else CheckRequired)
    case CheckRequired => (f, if f.required then CheckOtherCallback else CheckTime)
    case CheckOtherCallback => (f, if f.callbackPending then FireOtherCallback else CheckTime)
    case FireOtherCallback => (f, ClearOtherCallback)
    case ClearOtherCallback => (f.(callbackPending := false), CheckTime)
    case _ => (f, at)
  }

  /** Reconnecting. */
  function Reconnect(f: Flags, at: Place, free: bool, going: bool, choice: bool): (Flags, Place) {
    match at
    case ClearPing => (f.(pingPending := false), CheckCallback)
    case CheckCallback => (f, if f.callbackPending then FireCallback else AttemptConnect)
    case FireCallback => (f, AttemptConnect)
    case AttemptConnect => (f, if free then Connecting else at)
    case Connecting => if choice then (f.(unanswered := f.unanswered + 1), MarkConnect) else (f, ReconnectFailed)
    case MarkConnect => (f.(callbackPending := true), AwaitConnack)
    case AwaitConnack => (f, if choice then Accepted else ReconnectFailed)
    case ReconnectFailed => (f.(callbackPending := false), Again(going))
    case _ => (f, at)
  }

  /** Resubscribing after a reconnect. */
  function Resubscribe(f: Flags, at: Place, going: bool, choice: bool): (Flags, Place) {
    match at
    case Accepted => (f.(required := false), Resubscribing)
    case Resubscribing => if choice then (f.(required := false), Again(going)) else (f, ResubscribeFailed)
    case _ => (f, at)
  }

  /** Pinging. */
  function Ping(f: Flags, at: Place, going: bool, choice: bool): (Flags, Place) {
    match at
    case CheckTime => (f, if choice then CheckPing else Again(going))
    case CheckPing => (f, if f.pingPending then Overdue else CheckConnected)
    case CheckConnected => (f, if f.connected then WritePing else Again(going))
    case WritePing => (f, if choice then MarkPing else PingFailed)
    case MarkPing => (f.(pingPending := true), Again(going))
    case _ => (f, at)
  }

  /** Giving up a connection: the thread disconnects, for which it needs the lock, and asks for a reconnect. */
  function GiveUp(f: Flags, at: Place, free: bool, going: bool): (Flags, Place) {
    match at
    case Overdue => if f.connected && !free then (f, at) else (f.(connected := false), RequireReconnect)
    case PingFailed | ResubscribeFailed => if free then (f.(connected := false), RequireReconnect) else (f, at)
    case RequireReconnect => (f.(required := true), Again(going))
    case _ => (f, at)
  }

  /** One step of a keepalive thread; `free` says that no one else holds the lock. */
  function Turn(f: Flags, at: Place, free: bool, going: bool, choice: bool): (Flags, Place) {
    match at
    case Off => (f, at)
    case Waiting | Starting | Top | CheckRequired | CheckOtherCallback | FireOtherCallback | ClearOtherCallback =>
      Watch(f, at, going)
    case Accepted | Resubscribing => Resubscribe(f, at, going, choice)
    case CheckTime | CheckPing | CheckConnected | WritePing | MarkPing => Ping(f, at, going, choice)
    case Overdue | PingFailed | ResubscribeFailed | RequireReconnect => GiveUp(f, at, free, going)
    case _ => Reconnect(f, at, free, going, choice)
  }

  /** What the step shows. */
  function TurnShows(at: Place, free: bool, choice: bool): seq<Seen> {
    match at
    case FireCallback | FireOtherCallback => [CallbackFired]
    case AttemptConnect => if free then [ReconnectTried] else []
    case Connecting => if choice then [ConnectWritten] else []
    case WritePing => if choice then [PingWritten] else []
    case _ => []
  }

  // ---------- all threads ----------

  /** Blocking actions exclude one another. */
  predicate Holds(at: Place) {
    at.Connecting? || at.MarkConnect? || at.AwaitConnack?
  }

  predicate CallerHolds(s: State) {
    s.caller.UserConnecting? || s.caller.UserMarking? || s.caller.UserAwaiting?
  }

  predicate FreeForMain(s: State) {
    !Holds(s.runner) && !CallerHolds(s)
  }

  predicate FreeForRunner(s: State) {
    !Holds(s.main) && !CallerHolds(s)
  }

  predicate Free(s: State) {
    FreeForMain(s) && FreeForRunner(s)
  }

  function CallerStep(s: State, choice: bool): State {
    match s.caller
    case Idle => if s.main.Off? then s.(main := Waiting, caller := Ready) else s.(reader := Fresh, caller := WithReader)
    case WithReader =>
      if s.reader.Reading? then s.(reader := NoReader, runner := Waiting, stopped := false, caller := WithRunner) else s
    case WithRunner => s.(stopped := true, caller := Joining)
    case Joining => if s.runner.Off? then s.(caller := Ready) else s
    case Ready => if Free(s) then s.(caller := UserConnecting) else s
    case UserConnecting =>
      if choice then s.(flags := s.flags.(unanswered := s.flags.unanswered + 1), caller := UserMarking)
      else s.(caller := Idle)
    case UserMarking => s.(flags := s.flags.(callbackPending := true), caller := UserAwaiting)
    case UserAwaiting => s.(caller := Idle)
  }

  /** What the read thread of a later call does about reads that fail: it disconnects, for which it needs the lock, and
      asks for a reconnect. */
  function ReaderStep(s: State): State {
    match s.reader
    case NoReader => s
    case Fresh => s.(reader := Reading(s.flags.connected))
    case Reading(watching) =>
      if watching then s.(reader := if s.flags.connected then Disconnecting else Reading(false)) else s
    case Disconnecting => if Free(s) then s.(flags := s.flags.(connected := false), reader := Requiring) else s
    case Requiring => s.(flags := s.flags.(required := true), reader := Reading(false))
  }

  function ConnackStep(f: Flags, accepted: bool): Flags {
    var f' := f.(unanswered := if f.unanswered > 0 then f.unanswered - 1 else 0);
    if accepted then f'.(connected := true, required := false) else f'
  }

  function Step(s: State, e: Event): State {
    match e
    case Main(choice) =>
      var (f, at) := Turn(s.flags, s.main, FreeForMain(s), true, choice);
      s.(flags := f, main := at)
    case Runner(choice) =>
      var (f, at) := Turn(s.flags, s.runner, FreeForRunner(s), !s.stopped, choice);
      s.(flags := f, runner := at)
    case Caller(choice) => CallerStep(s, choice)
    case ReadRunner => ReaderStep(s)
    case Pingresp => s.(flags := s.flags.(pingPending := false))
    case Connack(accepted) => s.(flags := ConnackStep(s.flags, accepted))
    case Dropped => s.(flags := s.flags.(unanswered := 0))
    case UserDisconnects => if Free(s) then s.(flags := s.flags.(connected := false)) else s
    case UserEnables(value) => s.(flags := s.flags.(enabled := value))
  }

  function Shows(s: State, e: Event): seq<Seen> {
    match e
    case Main(choice) => TurnShows(s.main, FreeForMain(s), choice)
    case Runner(choice) => TurnShows(s.runner, FreeForRunner(s), choice)
    case Caller(choice) => if s.caller.UserConnecting? && choice then [ConnectWritten] else []
    case Pingresp => [PingrespRead]
    case _ => []
  }

  datatype Trace = Trace(state: State, seen: seq<Seen>)

  function Next(t: Trace, e: Event): Trace {
    Trace(Step(t.state, e), t.seen + Shows(t.state, e))
  }

  function Run(t: Trace, es: seq<Event>): Trace
    decreases |es|
  {
    if es == [] then t else Run(Next(t, es[0]), es[1..])
  }

  const START := Trace(State(Flags(false, true, false, false, false, 0), Off, Off, false, Idle, NoReader), [])

  /** The event begins a connect call. */
  predicate Begins(s: State, e: Event) {
    e.Caller? && s.caller.Idle?
  }

  /** A CONNACK comes only where a CONNECT has been written. */
  predicate Polite(s: State, e: Event) {
    e.Connack? ==> s.flags.unanswered > 0
  }

  // ---------- what observers see ----------

  /** Between any two of `what`, one of `between` is seen. */
  ghost predicate Separated(seen: seq<Seen>, what: Seen, between: set<Seen>) {
    forall i, j :: 0 <= i < j < |seen| && seen[i] == seen[j] == what ==> exists m :: i < m < j && seen[m] in between
  }

  /** The last of `what`, if any was seen, has been followed by none of `between`. */
  ghost predicate Open(seen: seq<Seen>, what: Seen, between: set<Seen>) {
    exists i :: 0 <= i < |seen| && seen[i] == what && forall m :: i < m < |seen| ==> seen[m] !in between
  }

  lemma SeeMore(seen: seq<Seen>, shown: seq<Seen>, what: Seen, between: set<Seen>)
    requires |shown| <= 1 && Separated(seen, what, between) && what !in between
    requires shown == [what] ==> !Open(seen, what, between)
    ensures Separated(seen + shown, what, between)
    ensures Open(seen + shown, what, between) ==> shown == [what] || Open(seen, what, between)
    ensures shown != [] && shown[0] in between ==> !Open(seen + shown, what, between)
  {
    if shown == [] {
      assert seen + shown == seen;
    } else {
      SeeOneMore(seen, shown[0], what, between);
      assert shown == [shown[0]];
    }
  }

  lemma SeeOneMore(seen: seq<Seen>, one: Seen, what: Seen, between: set<Seen>)
    requires Separated(seen, what, between) && what !in between
    requires one == what ==> !Open(seen, what, between)
    ensures Separated(seen + [one], what, between)
    ensures Open(seen + [one], what, between) ==> one == what || (one !in between && Open(seen, what, between))
  {
    var more := seen + [one];
    forall i, j | 0 <= i < j < |more| && more[i] == more[j] == what
      ensures exists m :: i < m < j && more[m] in between
    {
      if j < |seen| {
        assert seen[i] == seen[j] == what;
        var m :| i < m < j && seen[m] in between;
        assert more[m] == seen[m];
      } else {
        assert seen[i] == what;
        var m :| i < m < |seen| && seen[m] in between;
        assert more[m] == seen[m];
      }
    }
    if Open(more, what, between) && one != what {
      var i :| 0 <= i < |more| && more[i] == what && forall m :: i < m < |more| ==> more[m] !in between;
      assert more[|seen|] == one;
      assert seen[i] == what && forall m :: i < m < |seen| ==> seen[m] == more[m];
    }
  }

  // ---------- calls that begin when the connection is down for good ----------

  /** Nothing is connected, asked for or to come. */
  predicate FlagsQuiet(f: Flags) {
    !f.connected && !f.required && !f.pingPending && f.unanswered == 0
  }

  /** From here the thread asks for no reconnect and writes nothing unless the flags make it. */
  predicate QuietAt(at: Place) {
    || at.Off? || at.Waiting? || at.Starting? || at.Top? || at.ReconnectFailed?
    || at.CheckRequired? || at.CheckOtherCallback? || at.FireOtherCallback? || at.ClearOtherCallback?
    || at.CheckTime? || at.CheckPing? || at.CheckConnected?
  }

  /** The client is down, and nothing but a connect call can bring it up. */
  predicate Quiet(s: State) {
    FlagsQuiet(s.flags) && QuietAt(s.main)
  }

  /** The thread is about to fire the callback, whatever the flags are. */
  predicate FiresAt(at: Place) {
    at.CheckOtherCallback? || at.FireOtherCallback?
  }

  predicate Silent(s: State) {
    Quiet(s) && !FiresAt(s.main)
  }

  /** In the run every connect call begins quietly. */
  ghost predicate CallsQuiet(t: Trace, es: seq<Event>)
    decreases |es|
  {
    es == [] ||
    (Polite(t.state, es[0]) && (Begins(t.state, es[0]) ==> Quiet(t.state)) && CallsQuiet(Next(t, es[0]), es[1..]))
  }

  /** In the run every connect call begins silently. */
  ghost predicate CallsSilent(t: Trace, es: seq<Event>)
    decreases |es|
  {
    es == [] ||
    (Polite(t.state, es[0]) && (Begins(t.state, es[0]) ==> Silent(t.state)) && CallsSilent(Next(t, es[0]), es[1..]))
  }

  /** A call on the way to its CONNECT. */
  predicate Underway(s: State) {
    !s.caller.Idle? && !s.caller.UserMarking? && !s.caller.UserAwaiting?
  }

  predicate Written(s: State) {
    s.caller.UserMarking? || s.caller.UserAwaiting?
  }

  predicate PingsAt(at: Place) {
    at.WritePing? || at.MarkPing? || at.Overdue? || at.PingFailed?
  }

  /** No reconnect is asked for while a call that has written its CONNECT holds the lock. */
  predicate Calm(f: Flags, at: Place) {
    !f.required && ((QuietAt(at) && (f.connected || !f.pingPending)) || (PingsAt(at) && f.connected))
  }

  predicate RunnerAt(at: Place) {
    QuietAt(at) && !at.ReconnectFailed? && !FiresAt(at) && !at.ClearOtherCallback?
  }

  /** What every step of a run of quiet calls keeps. */
  predicate CallInv(s: State) {
    && RunnerAt(s.runner) && (!s.runner.Off? ==> s.caller.WithRunner? || s.caller.Joining?)
    && (s.reader.NoReader? || (s.caller.WithReader? && (s.reader.Fresh? || s.reader == Reading(false))))
    && (Underway(s) ==> Quiet(s))
    && (Written(s) ==> Calm(s.flags, s.main))
    && (s.main.Off? || s.main.Waiting? ==> !s.flags.required && !s.flags.pingPending)
    && (s.main.Off? ==> s.caller.Idle? && Quiet(s))
  }

  lemma QuietTurn(f: Flags, at: Place, free: bool, going: bool, choice: bool)
    requires FlagsQuiet(f) && QuietAt(at)
    ensures var (f', at') := Turn(f, at, free, going, choice);
            && f' == f.(callbackPending := f'.callbackPending) && FlagsQuiet(f') && QuietAt(at')
            && (at'.Off? ==> at.Off? || !going) && (at.Off? ==> at'.Off?)
  {
  }

  lemma QuietPlaces(f: Flags, at: Place, free: bool, going: bool, choice: bool)
    requires FlagsQuiet(f) && QuietAt(at)
    ensures var at' := Turn(f, at, free, going, choice).1;
            (!FiresAt(at) ==> !FiresAt(at')) && (RunnerAt(at) ==> RunnerAt(at'))
  {
  }

  lemma QuietShows(at: Place, free: bool, choice: bool)
    requires QuietAt(at)
    ensures !FiresAt(at) ==> TurnShows(at, free, choice) == []
    ensures TurnShows(at, free, choice) == [] || TurnShows(at, free, choice) == [CallbackFired]
  {
  }

  lemma CalmTurn(f: Flags, at: Place, choice: bool)
    requires Calm(f, at) && !at.Off?
    ensures var (f', at') := Turn(f, at, false, true, choice);
            && Calm(f', at') && !at'.Off? && (at'.Waiting? ==> at.Waiting? && f' == f)
            && (!FiresAt(at) ==> !FiresAt(at') && TurnShows(at, false, choice) != [CallbackFired])
  {
  }

  lemma TurnStays(f: Flags, at: Place, free: bool, choice: bool)
    ensures var (f', at') := Turn(f, at, free, true, choice);
            && (at'.Off? <==> at.Off?) && (at'.Waiting? ==> at.Waiting?) && (at.Off? || at'.Waiting? ==> f' == f)
  {
  }

  lemma MainKeepsCalls(s: State, choice: bool)
    requires CallInv(s)
    ensures CallInv(Step(s, Main(choice)))
    ensures !s.caller.Idle? && !FiresAt(s.main) ==>
              !FiresAt(Step(s, Main(choice)).main) && Shows(s, Main(choice)) != [CallbackFired]
  {
    TurnStays(s.flags, s.main, FreeForMain(s), choice);
    if Underway(s) {
      QuietTurn(s.flags, s.main, FreeForMain(s), true, choice);
      QuietPlaces(s.flags, s.main, FreeForMain(s), true, choice);
      QuietShows(s.main, FreeForMain(s), choice);
    } else if Written(s) {
      CalmTurn(s.flags, s.main, choice);
    }
    hide Turn, QuietAt, FlagsQuiet, FiresAt, RunnerAt, TurnShows;
  }

  lemma RunnerKeepsCalls(s: State, choice: bool)
    requires CallInv(s)
    ensures CallInv(Step(s, Runner(choice))) && Step(s, Runner(choice)).main == s.main
    ensures Shows(s, Runner(choice)) == []
    ensures !s.runner.Off? ==> Quiet(Step(s, Runner(choice)))
    ensures s.runner.Off? ==> Step(s, Runner(choice)) == s
  {
    if !s.runner.Off? {
      QuietTurn(s.flags, s.runner, FreeForRunner(s), !s.stopped, choice);
      QuietPlaces(s.flags, s.runner, FreeForRunner(s), !s.stopped, choice);
      QuietShows(s.runner, FreeForRunner(s), choice);
      hide Turn;
    }
  }

  lemma CallerKeepsCalls(s: State, choice: bool)
    requires CallInv(s) && (s.caller.Idle? ==> Quiet(s))
    ensures CallInv(Step(s, Caller(choice)))
  {
    CallPlaces();
    CallerKeepsQuiet(s, choice);
    hide QuietAt, FiresAt, RunnerAt, FlagsQuiet;
  }

  lemma CallerKeepsQuiet(s: State, choice: bool)
    ensures Quiet(s) && Underway(Step(s, Caller(choice))) ==> Quiet(Step(s, Caller(choice)))
    ensures FiresAt(Step(s, Caller(choice)).main) ==> FiresAt(s.main)
    ensures s.caller.UserConnecting? && QuietAt(s.main) && FlagsQuiet(s.flags) ==>
              Calm(Step(s, Caller(choice)).flags, Step(s, Caller(choice)).main)
  {
    CallPlaces();
    hide QuietAt, FiresAt, RunnerAt;
  }

  lemma CallPlaces()
    ensures RunnerAt(Off) && RunnerAt(Waiting) && QuietAt(Waiting) && !FiresAt(Waiting)
  {
  }

  lemma StepKeepsCalls(s: State, e: Event)
    requires CallInv(s) && Polite(s, e) && (Begins(s, e) ==> Quiet(s))
    ensures CallInv(Step(s, e))
  {
    match e
    case Main(choice) => MainKeepsCalls(s, choice);
    case Runner(choice) => RunnerKeepsCalls(s, choice);
    case Caller(choice) => CallerKeepsCalls(s, choice);
    case _ => hide QuietAt, FiresAt, RunnerAt;
  }

  // ---------- pings ----------

  const ANSWERS: set<Seen> := {PingrespRead, ReconnectTried}

  /** A ping not yet answered is marked pending, about to be marked, or about to be given up for a reconnect. */
  ghost predicate PingInv(t: Trace) {
    && CallInv(t.state)
    && Separated(t.seen, PingWritten, ANSWERS)
    && (Open(t.seen, PingWritten, ANSWERS) ==> PingOpen(t.state.flags, t.state.main))
  }

  predicate PingOpen(f: Flags, at: Place) {
    && (f.pingPending || at.MarkPing? || at.CheckCallback? || at.FireCallback? || at.AttemptConnect?)
    && !at.CheckConnected? && !at.WritePing?
  }

  /** Where a ping is open it stays open until it is answered, and no other is written. */
  lemma TurnKeepsPing(f: Flags, at: Place, free: bool, choice: bool)
    ensures var (f', at') := Turn(f, at, free, true, choice);
            && |TurnShows(at, free, choice)| <= 1
            && (TurnShows(at, free, choice) == [PingWritten] ==> !PingOpen(f, at) && PingOpen(f', at'))
            && (PingOpen(f, at) ==> PingOpen(f', at') || TurnShows(at, free, choice) == [ReconnectTried])
  {
  }

  lemma PingStaysOpen(s: State, e: Event)
    requires CallInv(s)
    ensures |Shows(s, e)| <= 1
    ensures Shows(s, e) == [PingWritten] ==>
              !PingOpen(s.flags, s.main) && PingOpen(Step(s, e).flags, Step(s, e).main)
    ensures PingOpen(s.flags, s.main) ==>
              PingOpen(Step(s, e).flags, Step(s, e).main) || (Shows(s, e) != [] && Shows(s, e)[0] in ANSWERS)
  {
    match e
    case Main(choice) =>
      TurnKeepsPing(s.flags, s.main, FreeForMain(s), choice);
      hide Turn, TurnShows, PingOpen, CallInv;
    case Runner(choice) =>
      RunnerKeepsCalls(s, choice);
      if !s.runner.Off? {
        PingNotOpen(s.flags, s.main);
      }
      hide Turn, TurnShows, PingOpen;
    case _ => hide CallInv;
  }

  lemma PingNotOpen(f: Flags, at: Place)
    requires FlagsQuiet(f) && QuietAt(at)
    ensures !PingOpen(f, at)
  {
  }

  lemma NextKeepsPing(t: Trace, e: Event)
    requires PingInv(t) && Polite(t.state, e) && (Begins(t.state, e) ==> Quiet(t.state))
    ensures PingInv(Next(t, e))
  {
    hide Separated, Open, Step, Shows, PingOpen, CallInv, Quiet;
    StepKeepsCalls(t.state, e);
    PingStaysOpen(t.state, e);
    SeeMore(t.seen, Shows(t.state, e), PingWritten, ANSWERS);
  }

  lemma {:induction false} PingRun(t: Trace, es: seq<Event>)
    requires PingInv(t) && CallsQuiet(t, es)
    ensures PingInv(Run(t, es))
    decreases |es|
  {
    if es != [] {
      NextKeepsPing(t, es[0]);
      PingRun(Next(t, es[0]), es[1..]);
    }
  }

  /** In every interleaving whose connect calls begin quietly, two PINGREQs are separated by a PINGRESP or a reconnect
      attempt. */
  lemma PingsAreAnswered(es: seq<Event>)
    requires CallsQuiet(START, es)
    ensures Separated(Run(START, es).seen, PingWritten, ANSWERS)
  {
    PingRun(START, es);
  }

  // ---------- disconnect callbacks ----------

  const CONNECTS: set<Seen> := {ConnectWritten}

  /** While a callback has been followed by no CONNECT, none is due, save where the thread is on its way to settling
      it or where it could not fire before the next CONNECT anyway. */
  ghost predicate CallbackInv(t: Trace) {
    && CallInv(t.state)
    && (!t.state.caller.Idle? ==> !FiresAt(t.state.main))
    && Separated(t.seen, CallbackFired, CONNECTS)
    && (Open(t.seen, CallbackFired, CONNECTS) ==> CallbackOpen(t.state))
  }

  predicate Settling(at: Place) {
    at.AttemptConnect? || at.Connecting? || at.ReconnectFailed? || at.ClearOtherCallback?
  }

  predicate SettledAt(f: Flags, at: Place) {
    && !at.Off? && !at.Waiting? && !at.Starting? && !at.FireCallback? && !at.FireOtherCallback?
    && !at.MarkConnect? && !at.AwaitConnack?
    && (f.callbackPending ==> Settling(at))
  }

  predicate CallbackOpen(s: State) {
    !Written(s) && (SettledAt(s.flags, s.main) || Silent(s))
  }

  lemma TurnKeepsCallback(f: Flags, at: Place, free: bool, choice: bool)
    ensures var (f', at') := Turn(f, at, free, true, choice);
            && |TurnShows(at, free, choice)| <= 1
            && (TurnShows(at, free, choice) == [CallbackFired] ==> SettledAt(f', at'))
            && (SettledAt(f, at) ==>
                  && TurnShows(at, free, choice) != [CallbackFired]
                  && (SettledAt(f', at') || TurnShows(at, free, choice) == [ConnectWritten]))
  {
  }

  lemma MainKeepsCallback(s: State, choice: bool)
    requires CallInv(s) && (!s.caller.Idle? ==> !FiresAt(s.main))
    ensures var next, shown := Step(s, Main(choice)), Shows(s, Main(choice));
            && |shown| <= 1
            && (shown == [CallbackFired] ==> !CallbackOpen(s) && CallbackOpen(next))
            && (CallbackOpen(s) ==> CallbackOpen(next) || shown == [ConnectWritten])
  {
    TurnKeepsCallback(s.flags, s.main, FreeForMain(s), choice);
    MainKeepsCalls(s, choice);
    if Silent(s) {
      QuietTurn(s.flags, s.main, FreeForMain(s), true, choice);
      QuietPlaces(s.flags, s.main, FreeForMain(s), true, choice);
      QuietShows(s.main, FreeForMain(s), choice);
    }
    hide Turn, TurnShows, SettledAt, FiresAt, QuietAt, FlagsQuiet, CallInv;
  }

  /** While a callback is open it stays open until a CONNECT is written, and no other fires. */
  lemma CallbackStaysOpen(s: State, e: Event)
    requires CallInv(s) && Polite(s, e) && (Begins(s, e) ==> Silent(s)) && (!s.caller.Idle? ==> !FiresAt(s.main))
    ensures |Shows(s, e)| <= 1
    ensures Shows(s, e) == [CallbackFired] ==> !CallbackOpen(s) && CallbackOpen(Step(s, e))
    ensures CallbackOpen(s) ==> CallbackOpen(Step(s, e)) || Shows(s, e) == [ConnectWritten]
  {
    match e
    case Main(choice) => MainKeepsCallback(s, choice);
    case Runner(choice) =>
      RunnerKeepsCalls(s, choice);
      hide Turn, TurnShows, SettledAt, FiresAt, QuietAt;
    case Caller(choice) =>
      hide CallbackOpen, CallInv, Silent, FiresAt;
    case ReadRunner => hide SettledAt, FiresAt, QuietAt, RunnerAt;
    case _ =>
      hide SettledAt, FiresAt, QuietAt, RunnerAt;
  }

  lemma CallsFireNothing(s: State, e: Event)
    requires CallInv(s) && (Begins(s, e) ==> Silent(s)) && (!s.caller.Idle? ==> !FiresAt(s.main))
    ensures !Step(s, e).caller.Idle? ==> !FiresAt(Step(s, e).main)
  {
    match e
    case Main(choice) =>
      MainKeepsCalls(s, choice);
      hide Turn, FiresAt, QuietAt;
    case Runner(choice) =>
      RunnerKeepsCalls(s, choice);
      hide Turn, FiresAt, QuietAt;
    case _ =>
  }

  lemma NextKeepsCallback(t: Trace, e: Event)
    requires CallbackInv(t) && Polite(t.state, e) && (Begins(t.state, e) ==> Silent(t.state))
    ensures CallbackInv(Next(t, e))
  {
    StepKeepsCalls(t.state, e);
    CallsFireNothing(t.state, e);
    CallbackStaysOpen(t.state, e);
    SeeMore(t.seen, Shows(t.state, e), CallbackFired, CONNECTS);
    hide Separated, Open, Step, Shows, CallbackOpen, CallInv, Silent, FiresAt;
  }

  lemma {:induction false} CallbackRun(t: Trace, es: seq<Event>)
    requires CallbackInv(t) && CallsSilent(t, es)
    ensures CallbackInv(Run(t, es))
    decreases |es|
  {
    if es != [] {
      NextKeepsCallback(t, es[0]);
      CallbackRun(Next(t, es[0]), es[1..]);
    }
  }

  /** In every interleaving whose connect calls begin silently, two disconnect callbacks are separated by a successfully
      written CONNECT. */
  lemma CallbacksAreSeparated(es: seq<Event>)
    requires CallsSilent(START, es)
    ensures Separated(Run(START, es).seen, CallbackFired, CONNECTS)
  {
    CallbackRun(START, es);
  }

  // ---------- a client that connects once ----------

  /** Connect is called only where no keepalive thread has been started yet. */
  ghost predicate CalledOnce(t: Trace, es: seq<Event>)
    decreases |es|
  {
    es == [] ||
    (Polite(t.state, es[0]) && (Begins(t.state, es[0]) ==> t.state.main.Off?) && CalledOnce(Next(t, es[0]), es[1..]))
  }

  lemma {:induction false} OneCallIsSilent(t: Trace, es: seq<Event>)
    requires CallInv(t.state) && CalledOnce(t, es)
    ensures CallsSilent(t, es) && CallsQuiet(t, es)
    decreases |es|
  {
    hide Step, QuietAt, RunnerAt;
    if es != [] {
      StepKeepsCalls(t.state, es[0]);
      OneCallIsSilent(Next(t, es[0]), es[1..]);
    }
  }

  /** The first connect call is always silent, so whoever calls connect once has both guarantees, whatever is lost and
      reconnected afterwards. */
  lemma ConnectOnce(es: seq<Event>)
    requires CalledOnce(START, es)
    ensures Separated(Run(START, es).seen, CallbackFired, CONNECTS)
    ensures Separated(Run(START, es).seen, PingWritten, ANSWERS)
  {
    OneCallIsSilent(START, es);
    CallbacksAreSeparated(es);
    PingsAreAnswered(es);
  }
}
