/**
 The bounded outbound queue and the pending acknowledgements beside it, on values (src/ClientCoreState.cpp).
 Handlers are numbered; the calls made to them are kept in a log.
 */
module OutboundQueue {
  import opened MqttTypes
  import opened SubscriptionProtocol
  import opened PacketIds

  const DEFAULT_MAX_QUEUE_SIZE: nat := 16

  /** What the client queues. */
  datatype ActionType = PublishAction | PubackAction | SubscribeAction | UnsubscribeAction

  /** The blocking calls of all threads share one handler. */
  datatype Handler = Async(serial: int) | Sync

  datatype Item = Item(kind: ActionType, handler: Option<int>, id: uint16)

  datatype Note = Note(handler: Handler, id: uint16, rc: ResponseCode)

  datatype Core = Core(queue: seq<Item>, pending: map<uint16, Handler>, notes: seq<Note>, last: uint16)

  /** What performing an action came to: its response code, and whether it dropped its own pending acknowledgement
      because a topic was already active. */
  datatype Outcome = Outcome(rc: ResponseCode, ackDropped: bool)

  datatype CoreEvent =
    | Enqueue(kind: ActionType, handler: Option<int>)
    | Process(outcome: Outcome)
    | Ack(id: uint16, rc: ResponseCode)
    | Blocking(connecting: bool, registers: bool, deletes: bool)
    | Issue

  // ---------- steps ----------

  function EnqueueStep(c: Core, limit: nat, kind: ActionType, handler: Option<int>): Core {
    if |c.queue| >= limit then c
    else
      var id := NextId(c.last);
      c.(queue := c.queue + [Item(kind, handler, id)], last := id)
  }

  /** An acknowledgement already pending under the id is kept. */
  function Register(pending: map<uint16, Handler>, id: uint16, h: Handler): (r: map<uint16, Handler>)
    ensures id in r && r.Keys == pending.Keys + {id}
  {
    if id in pending then pending else pending[id := h]
  }

  /** Performs an item of a registered type. */
  function PerformStep(c: Core, it: Item, outcome: Outcome): Core {
    match it.handler
    case None => c
    case Some(h) =>
      var registered := Register(c.pending, it.id, Async(h));
      var acted := if outcome.ackDropped then registered - {it.id} else registered;
      if outcome.rc.Success? then c.(pending := acted)
      else c.(pending := acted - {it.id}, notes := c.notes + [Note(Async(h), it.id, outcome.rc)])
  }

  /** Takes the oldest action off the queue; one of an unregistered type vanishes. */
  function ProcessStep(c: Core, types: set<ActionType>, outcome: Outcome): Core {
    if c.queue == [] then c
    else
      var rest := c.(queue := c.queue[1..]);
      if c.queue[0].kind in types then PerformStep(rest, c.queue[0], outcome) else rest
  }

  function AckStep(c: Core, id: uint16, rc: ResponseCode): Core {
    if id in c.pending then c.(pending := c.pending - {id}, notes := c.notes + [Note(c.pending[id], id, rc)]) else c
  }

  /** The id a blocking call registers under: the next one, or the one kept for CONNACK. */
  function BlockingId(c: Core, connecting: bool): uint16 {
    if connecting then 0 else NextId(c.last)
  }

  /** What a blocking call does to the pending acknowledgements: its action may register the shared handler, and having
      done so may delete what waits under the id, because the write failed or a topic was already active. */
  function Acted(pending: map<uint16, Handler>, id: uint16, registers: bool, deletes: bool): map<uint16, Handler> {
    if !registers then pending
    else if deletes then Register(pending, id, Sync) - {id}
    else Register(pending, id, Sync)
  }

  /** A blocking call takes the next id in any case. */
  function BlockingStep(c: Core, connecting: bool, registers: bool, deletes: bool): Core {
    c.(last := NextId(c.last), pending := Acted(c.pending, BlockingId(c, connecting), registers, deletes))
  }

  /** The client's settings: the queue's limit and the registered action types. */
  datatype Settings = Settings(limit: nat, types: set<ActionType>)

  function CoreStep(cfg: Settings, c: Core, e: CoreEvent): Core {
    match e
    case Enqueue(kind, handler) => EnqueueStep(c, cfg.limit, kind, handler)
    case Process(outcome) => ProcessStep(c, cfg.types, outcome)
    case Ack(id, rc) => AckStep(c, id, rc)
    case Blocking(connecting, registers, deletes) => BlockingStep(c, connecting, registers, deletes)
    case Issue => c.(last := NextId(c.last))
  }

  // ---------- what has happened ----------

  /** Actions accepted and actions processed, in order, and the handlers dropped by the already-active path. */
  datatype History = History(accepted: seq<Item>, processed: seq<Item>, dropped: set<int>)

  const NO_HISTORY := History([], [], {})

  predicate DropsAck(cfg: Settings, it: Item, outcome: Outcome) {
    it.kind in cfg.types && it.handler.Some? && outcome.rc.Success? && outcome.ackDropped
  }

  function HistoryStep(cfg: Settings, c: Core, h: History, e: CoreEvent): History {
    match e
    case Enqueue(kind, handler) =>
      if |c.queue| >= cfg.limit then h
      else h.(accepted := h.accepted + [Item(kind, handler, NextId(c.last))])
    case Process(outcome) =>
      if c.queue == [] then h
      else
        var it := c.queue[0];
        h.(processed := h.processed + [it],
        dropped := if DropsAck(cfg, it, outcome) then h.dropped + {it.handler.value} else h.dropped)
    case _ => h
  }

  datatype Run = Run(core: Core, history: History)

  function RunCore(cfg: Settings, r: Run, es: seq<CoreEvent>): Run
    decreases |es|
  {
    if es == [] then r
    else RunCore(cfg, Run(CoreStep(cfg, r.core, es[0]), HistoryStep(cfg, r.core, r.history, es[0])), es[1..])
  }

  // ---------- first in, first out, and bounded ----------

  predicate Fifo(cfg: Settings, r: Run) {
    r.history.accepted == r.history.processed + r.core.queue && |r.core.queue| <= cfg.limit
  }

  /** In every run, actions are processed in the order they were accepted, none is lost or taken twice, each keeps the
      id it was given, and the queue stays within its limit. */
  lemma {:induction false} RunIsFifo(cfg: Settings, r: Run, es: seq<CoreEvent>)
    requires Fifo(cfg, r)
    ensures Fifo(cfg, RunCore(cfg, r, es))
    decreases |es|
  {
    if es != [] {
      hide PerformStep, BlockingStep;
      var next := Run(CoreStep(cfg, r.core, es[0]), HistoryStep(cfg, r.core, r.history, es[0]));
      assert r.core.queue != [] ==> r.core.queue == [r.core.queue[0]] + r.core.queue[1..];
      RunIsFifo(cfg, next, es[1..]);
    }
  }

  // ---------- each handler fires at most once ----------

  predicate Noted(c: Core, h: int) {
    exists i :: 0 <= i < |c.notes| && c.notes[i].handler == Async(h)
  }

  predicate Pending(c: Core, h: int) {
    exists id :: id in c.pending && c.pending[id] == Async(h)
  }

  predicate Queued(c: Core, h: int) {
    exists i :: 0 <= i < |c.queue| && c.queue[i].handler == Some(h)
  }

  /** No handler was called twice. */
  ghost predicate NotedOnce(c: Core) {
    forall i, j :: 0 <= i < j < |c.notes| && c.notes[i].handler.Async? ==> c.notes[i].handler != c.notes[j].handler
  }

  ghost predicate PendingOnce(c: Core) {
    forall i, j :: i in c.pending && j in c.pending && c.pending[i].Async? && c.pending[i] == c.pending[j] ==> i == j
  }

  ghost predicate QueuedOnce(c: Core) {
    forall i, j :: 0 <= i < j < |c.queue| && c.queue[i].handler.Some? ==> c.queue[i].handler != c.queue[j].handler
  }

  /** No handler is in two places at once, nor twice in one: the queue, the pending acknowledgements, the log, the
      dropped ones. */
  ghost predicate OnePlace(c: Core, dropped: set<int>) {
    && NotedOnce(c) && PendingOnce(c) && QueuedOnce(c)
    && (forall h :: Noted(c, h) ==> !Pending(c, h) && !Queued(c, h) && h !in dropped)
    && (forall h :: Pending(c, h) ==> !Queued(c, h) && h !in dropped)
    && (forall h :: Queued(c, h) ==> h !in dropped)
  }

  /** Each action comes with a handler of its own. */
  ghost predicate NewHandler(r: Run, e: CoreEvent) {
    e.Enqueue? && e.handler.Some? ==>
      var h := e.handler.value;
      !Noted(r.core, h) && !Pending(r.core, h) && !Queued(r.core, h) && h !in r.history.dropped
  }

  ghost predicate NewHandlers(cfg: Settings, r: Run, es: seq<CoreEvent>)
    decreases |es|
  {
    es == [] ||
    (NewHandler(r, es[0]) &&
     NewHandlers(cfg, Run(CoreStep(cfg, r.core, es[0]), HistoryStep(cfg, r.core, r.history, es[0])), es[1..]))
  }

  lemma EnqueueOnePlace(c: Core, limit: nat, kind: ActionType, handler: Option<int>, dropped: set<int>)
    requires OnePlace(c, dropped)
    requires handler.Some? ==>
               var h := handler.value; !Noted(c, h) && !Pending(c, h) && !Queued(c, h) && h !in dropped
    ensures OnePlace(EnqueueStep(c, limit, kind, handler), dropped)
  {
    var next := EnqueueStep(c, limit, kind, handler);
    forall h
      ensures Queued(next, h) ==> Queued(c, h) || handler == Some(h)
      ensures Pending(next, h) == Pending(c, h) && Noted(next, h) == Noted(c, h)
    {
    }
    assert QueuedOnce(next) by {
      forall i | 0 <= i < |c.queue| && c.queue[i].handler.Some?
        ensures c.queue[i].handler != handler
      {
        assert Queued(c, c.queue[i].handler.value);
      }
    }
  }

  lemma AckOnePlace(c: Core, id: uint16, rc: ResponseCode, dropped: set<int>)
    requires OnePlace(c, dropped)
    ensures OnePlace(AckStep(c, id, rc), dropped)
  {
    if id in c.pending {
      var next := AckStep(c, id, rc);
      var fired := c.pending[id];
      if fired.Async? {
        assert Pending(c, fired.serial);
      }
      NotesGrow(c, next, Note(fired, id, rc));
      forall h
        ensures Queued(next, h) == Queued(c, h)
        ensures Pending(next, h) ==> Pending(c, h) && fired != Async(h)
      {
        if Pending(next, h) {
          var other :| other in next.pending && next.pending[other] == Async(h);
          assert other in c.pending && c.pending[other] == Async(h) && other != id;
        }
      }
      assert PendingOnce(next);
    }
  }

  lemma NotesGrow(c: Core, next: Core, note: Note)
    requires next.notes == c.notes + [note]
    ensures forall h :: Noted(next, h) <==> Noted(c, h) || note.handler == Async(h)
    ensures NotedOnce(c) && (note.handler.Async? ==> !Noted(c, note.handler.serial)) ==> NotedOnce(next)
  {
    forall h
      ensures Noted(next, h) <==> Noted(c, h) || note.handler == Async(h)
    {
      assert next.notes[|c.notes|] == note;
      if Noted(c, h) {
        var i :| 0 <= i < |c.notes| && c.notes[i].handler == Async(h);
        assert next.notes[i].handler == Async(h);
      }
    }
  }

  ghost predicate Nowhere(c: Core, h: int, dropped: set<int>) {
    !Noted(c, h) && !Pending(c, h) && !Queued(c, h) && h !in dropped
  }

  /** Taking an action off the queue leaves its handler nowhere. */
  lemma DequeueOnePlace(c: Core, dropped: set<int>)
    requires c.queue != [] && OnePlace(c, dropped)
    ensures var rest := c.(queue := c.queue[1..]);
            && OnePlace(rest, dropped)
            && (c.queue[0].handler.Some? ==> Nowhere(rest, c.queue[0].handler.value, dropped))
  {
    var rest := c.(queue := c.queue[1..]);
    forall h
      ensures Queued(rest, h) ==> Queued(c, h) && c.queue[0].handler != Some(h)
      ensures Pending(rest, h) == Pending(c, h) && Noted(rest, h) == Noted(c, h)
    {
      if Queued(rest, h) {
        var i :| 0 <= i < |rest.queue| && rest.queue[i].handler == Some(h);
        assert c.queue[i + 1].handler == Some(h);
      }
    }
    if c.queue[0].handler.Some? {
      assert Queued(c, c.queue[0].handler.value);
    }
  }

  /** Waiting for the acknowledgement, unless one already waits under the id. */
  lemma RegisterOnePlace(c: Core, id: uint16, h: int, dropped: set<int>)
    requires OnePlace(c, dropped) && Nowhere(c, h, dropped)
    ensures var next := c.(pending := Register(c.pending, id, Async(h)));
            && OnePlace(next, dropped)
            && !Noted(next, h) && !Queued(next, h)
            && (Pending(next, h) ==> next.pending[id] == Async(h))
  {
    var next := c.(pending := Register(c.pending, id, Async(h)));
    forall k
      ensures Queued(next, k) == Queued(c, k) && Noted(next, k) == Noted(c, k)
      ensures Pending(next, k) ==> Pending(c, k) || (k == h && next.pending[id] == Async(h))
    {
      if Pending(next, k) {
        var other :| other in next.pending && next.pending[other] == Async(k);
        assert other in c.pending && c.pending[other] == next.pending[other] ==> Pending(c, k);
      }
    }
    assert forall other :: other in c.pending ==> c.pending[other] != Async(h);
  }

  /** Forgetting a pending acknowledgement: if it was the handler's, the handler is nowhere now. */
  lemma ForgetOnePlace(c: Core, id: uint16, dropped: set<int>)
    requires OnePlace(c, dropped)
    ensures var next := c.(pending := c.pending - {id});
            && OnePlace(next, dropped)
            && forall h :: !Noted(c, h) && !Queued(c, h) && h !in dropped &&
                           (Pending(c, h) ==> id in c.pending && c.pending[id] == Async(h)) ==>
                             Nowhere(next, h, dropped)
  {
    var next := c.(pending := c.pending - {id});
    forall k
      ensures Queued(next, k) == Queued(c, k) && Noted(next, k) == Noted(c, k)
      ensures Pending(next, k) ==> Pending(c, k) && !(id in c.pending && c.pending[id] == Async(k))
    {
      if Pending(next, k) {
        var other :| other in next.pending && next.pending[other] == Async(k);
        assert other in c.pending && other != id && c.pending[other] == Async(k);
      }
    }
  }

  lemma NoteOnePlace(c: Core, note: Note, dropped: set<int>)
    requires OnePlace(c, dropped) && note.handler.Async? && Nowhere(c, note.handler.serial, dropped)
    ensures OnePlace(c.(notes := c.notes + [note]), dropped)
  {
    var next := c.(notes := c.notes + [note]);
    NotesGrow(c, next, note);
    forall k
      ensures Queued(next, k) == Queued(c, k) && Pending(next, k) == Pending(c, k)
    {
    }
  }

  lemma PerformOnePlace(c: Core, it: Item, outcome: Outcome, dropped: set<int>)
    requires OnePlace(c, dropped)
    requires it.handler.Some? ==> Nowhere(c, it.handler.value, dropped)
    ensures OnePlace(PerformStep(c, it, outcome),
                     if it.handler.Some? && outcome.rc.Success? && outcome.ackDropped
                     then dropped + {it.handler.value} else dropped)
  {
    hide Queued, Noted, Pending;
    if it.handler.Some? {
      var h := it.handler.value;
      RegisterOnePlace(c, it.id, h, dropped);
      var c1 := c.(pending := Register(c.pending, it.id, Async(h)));
      ForgetOnePlace(c1, it.id, dropped);
      var c2 := c1.(pending := c1.pending - {it.id});
      if !outcome.rc.Success? {
        NoteOnePlace(c2, Note(Async(h), it.id, outcome.rc), dropped);
        assert c2.pending - {it.id} == c2.pending;
      }
    }
  }

  lemma ProcessOnePlace(cfg: Settings, c: Core, outcome: Outcome, dropped: set<int>)
    requires c.queue != [] && OnePlace(c, dropped)
    ensures OnePlace(ProcessStep(c, cfg.types, outcome),
                     if DropsAck(cfg, c.queue[0], outcome) then dropped + {c.queue[0].handler.value} else dropped)
  {
    hide OnePlace, Nowhere, PerformStep;
    DequeueOnePlace(c, dropped);
    if c.queue[0].kind in cfg.types {
      PerformOnePlace(c.(queue := c.queue[1..]), c.queue[0], outcome, dropped);
    }
  }

  lemma BlockingOnePlace(c: Core, connecting: bool, registers: bool, deletes: bool, dropped: set<int>)
    requires OnePlace(c, dropped)
    ensures OnePlace(BlockingStep(c, connecting, registers, deletes), dropped)
  {
    var next := BlockingStep(c, connecting, registers, deletes);
    forall h
      ensures Queued(next, h) == Queued(c, h) && Noted(next, h) == Noted(c, h)
      ensures Pending(next, h) ==> Pending(c, h)
    {
      if Pending(next, h) {
        var id :| id in next.pending && next.pending[id] == Async(h);
        assert id in c.pending && c.pending[id] == Async(h);
      }
    }
  }

  lemma IssueOnePlace(c: Core, dropped: set<int>)
    requires OnePlace(c, dropped)
    ensures OnePlace(c.(last := NextId(c.last)), dropped)
  {
    var next := c.(last := NextId(c.last));
    forall h
      ensures Queued(next, h) == Queued(c, h) && Noted(next, h) == Noted(c, h) && Pending(next, h) == Pending(c, h)
    {
    }
  }

  /** In every run whose actions come with handlers of their own, no handler is called twice, whatever ids are reused:
      each is in one place at most. */
  lemma {:induction false} HandlersFireOnce(cfg: Settings, r: Run, es: seq<CoreEvent>)
    requires OnePlace(r.core, r.history.dropped) && NewHandlers(cfg, r, es)
    ensures OnePlace(RunCore(cfg, r, es).core, RunCore(cfg, r, es).history.dropped)
    ensures NotedOnce(RunCore(cfg, r, es).core)
    decreases |es|
  {
    if es != [] {
      StepOnePlace(cfg, r, es[0]);
      HandlersFireOnce(cfg, Run(CoreStep(cfg, r.core, es[0]), HistoryStep(cfg, r.core, r.history, es[0])), es[1..]);
    }
  }

  lemma StepOnePlace(cfg: Settings, r: Run, e: CoreEvent)
    requires OnePlace(r.core, r.history.dropped) && NewHandler(r, e)
    ensures OnePlace(CoreStep(cfg, r.core, e), HistoryStep(cfg, r.core, r.history, e).dropped)
  {
    var c, dropped := r.core, r.history.dropped;
    match e
    case Enqueue(kind, handler) => EnqueueOnePlace(c, cfg.limit, kind, handler, dropped);
    case Process(outcome) =>
      hide OnePlace, ProcessStep, DropsAck;
      if c.queue != [] {
        ProcessOnePlace(cfg, c, outcome, dropped);
      } else {
        assert ProcessStep(c, cfg.types, outcome) == c by { NothingToProcess(c, cfg.types, outcome); }
      }
    case Ack(id, rc) => AckOnePlace(c, id, rc, dropped);
    case Blocking(connecting, registers, deletes) => BlockingOnePlace(c, connecting, registers, deletes, dropped);
    case Issue => IssueOnePlace(c, dropped);
  }

  lemma NothingToProcess(c: Core, types: set<ActionType>, outcome: Outcome)
    requires c.queue == []
    ensures ProcessStep(c, types, outcome) == c
  {
  }

  // ---------- what handlers are told ----------

  /** Who hears of an event, and what: an acknowledgement reaches the handler waiting under its id with its own response
      code, a failed action its own handler with the code of the failure, and no one else hears of anything. */
  function Heard(cfg: Settings, c: Core, e: CoreEvent): seq<Note> {
    match e
    case Ack(id, rc) => if id in c.pending then [Note(c.pending[id], id, rc)] else []
    case Process(outcome) =>
      if c.queue == [] || c.queue[0].kind !in cfg.types || outcome.rc == Success then []
      else
        (match c.queue[0].handler
         case None => []
         case Some(h) => [Note(Async(h), c.queue[0].id, outcome.rc)])
    case _ => []
  }

  function HeardIn(cfg: Settings, r: Run, es: seq<CoreEvent>): seq<Note>
    decreases |es|
  {
    if es == [] then []
    else
      Heard(cfg, r.core, es[0]) +
      HeardIn(cfg, Run(CoreStep(cfg, r.core, es[0]), HistoryStep(cfg, r.core, r.history, es[0])), es[1..])
  }

  lemma StepIsHeard(cfg: Settings, c: Core, e: CoreEvent)
    ensures CoreStep(cfg, c, e).notes == c.notes + Heard(cfg, c, e)
  {
    hide NextId, Register;
  }

  /** In every run the calls made to handlers are exactly those, in the order of the events. */
  lemma {:induction false} RunIsHeard(cfg: Settings, r: Run, es: seq<CoreEvent>)
    ensures RunCore(cfg, r, es).core.notes == r.core.notes + HeardIn(cfg, r, es)
    decreases |es|
  {
    hide CoreStep, HistoryStep, Heard;
    if es != [] {
      StepIsHeard(cfg, r.core, es[0]);
      RunIsHeard(cfg, Run(CoreStep(cfg, r.core, es[0]), HistoryStep(cfg, r.core, r.history, es[0])), es[1..]);
    }
  }

  /** A blocking call that waits hears the acknowledgement of its id, which is 0 for a connect call, and waits no
      longer. */
  lemma BlockingHears(c: Core, connecting: bool, rc: ResponseCode)
    requires (if connecting then 0 else NextId(c.last)) !in c.pending
    ensures var id := if connecting then 0 else NextId(c.last);
            var after := AckStep(BlockingStep(c, connecting, true, false), id, rc);
            && after.notes == c.notes + [Note(Sync, id, rc)]
            && after.pending == c.pending && after.queue == c.queue && after.last == NextId(c.last)
  {
    hide NextId;
    var id := if connecting then 0 else NextId(c.last);
    assert c.pending[id := Sync] - {id} == c.pending;
  }

  // ---------- no processed action is forgotten ----------

  /** The handler waits under the action's own id, was called, or was dropped by the already-active path. */
  ghost predicate Settled(c: Core, dropped: set<int>, it: Item) {
    it.handler.Some? ==>
      var h := it.handler.value;
      (it.id in c.pending && c.pending[it.id] == Async(h)) || Noted(c, h) || h in dropped
  }

  ghost predicate Accounted(cfg: Settings, r: Run) {
    forall i :: 0 <= i < |r.history.processed| && r.history.processed[i].kind in cfg.types ==>
                  Settled(r.core, r.history.dropped, r.history.processed[i])
  }

  /** The id of the action processed is not still waiting for another acknowledgement, and a blocking call does not
      delete what a queued action waits for. */
  ghost predicate FreshId(cfg: Settings, c: Core, e: CoreEvent) {
    match e
    case Process(_) =>
      c.queue != [] && c.queue[0].kind in cfg.types && c.queue[0].handler.Some? ==> c.queue[0].id !in c.pending
    case Blocking(connecting, registers, deletes) =>
      var id := BlockingId(c, connecting);
      registers && deletes && id in c.pending ==> c.pending[id].Sync?
    case _ => true
  }

  ghost predicate FreshIds(cfg: Settings, r: Run, es: seq<CoreEvent>)
    decreases |es|
  {
    es == [] ||
    (FreshId(cfg, r.core, es[0]) &&
     FreshIds(cfg, Run(CoreStep(cfg, r.core, es[0]), HistoryStep(cfg, r.core, r.history, es[0])), es[1..]))
  }

  /** A settled action stays settled. */
  lemma StaysSettled(cfg: Settings, r: Run, e: CoreEvent, it: Item)
    requires Settled(r.core, r.history.dropped, it) && FreshId(cfg, r.core, e)
    ensures Settled(CoreStep(cfg, r.core, e), HistoryStep(cfg, r.core, r.history, e).dropped, it)
  {
    var c, next := r.core, CoreStep(cfg, r.core, e);
    if it.handler.Some? {
      forall h | Noted(c, h)
        ensures Noted(next, h)
      {
        var i :| 0 <= i < |c.notes| && c.notes[i].handler == Async(h);
        assert next.notes[i] == c.notes[i];
      }
      if e.Ack? && e.id in c.pending {
        assert next.notes[|c.notes|] == Note(c.pending[e.id], e.id, e.rc);
      }
    }
  }

  /** And the action just processed is settled. */
  lemma BecomesSettled(cfg: Settings, r: Run, outcome: Outcome)
    requires r.core.queue != [] && r.core.queue[0].kind in cfg.types && FreshId(cfg, r.core, Process(outcome))
    ensures Settled(CoreStep(cfg, r.core, Process(outcome)),
                    HistoryStep(cfg, r.core, r.history, Process(outcome)).dropped, r.core.queue[0])
  {
    var it, next := r.core.queue[0], CoreStep(cfg, r.core, Process(outcome));
    if it.handler.Some? && !outcome.rc.Success? {
      assert next.notes[|r.core.notes|].handler == Async(it.handler.value);
    }
  }

  /** In every run with fresh ids, each processed action of a registered type that has a handler is still waiting under
      its id, or its handler has been called, or it was dropped by the already-active path. */
  lemma {:induction false} NoActionForgotten(cfg: Settings, r: Run, es: seq<CoreEvent>)
    requires Accounted(cfg, r) && FreshIds(cfg, r, es)
    ensures Accounted(cfg, RunCore(cfg, r, es))
    decreases |es|
  {
    if es != [] {
      var next := Run(CoreStep(cfg, r.core, es[0]), HistoryStep(cfg, r.core, r.history, es[0]));
      StepAccounted(cfg, r, es[0]);
      NoActionForgotten(cfg, next, es[1..]);
    }
  }

  lemma StepAccounted(cfg: Settings, r: Run, e: CoreEvent)
    requires Accounted(cfg, r) && FreshId(cfg, r.core, e)
    ensures Accounted(cfg, Run(CoreStep(cfg, r.core, e), HistoryStep(cfg, r.core, r.history, e)))
  {
    var next := Run(CoreStep(cfg, r.core, e), HistoryStep(cfg, r.core, r.history, e));
    hide Settled, CoreStep, FreshId;
    forall i | 0 <= i < |next.history.processed| && next.history.processed[i].kind in cfg.types
      ensures Settled(next.core, next.history.dropped, next.history.processed[i])
    {
      if i < |r.history.processed| {
        StaysSettled(cfg, r, e, r.history.processed[i]);
      } else {
        BecomesSettled(cfg, r, e.outcome);
      }
    }
  }

  // ---------- when ids are fresh ----------

  /** How many ids a step issues. */
  function IdsIssued(cfg: Settings, c: Core, e: CoreEvent): nat {
    match e
    case Enqueue(_, _) => if |c.queue| >= cfg.limit then 0 else 1
    case Blocking(_, _, _) => 1
    case Issue => 1
    case _ => 0
  }

  function IdsIssuedIn(cfg: Settings, r: Run, es: seq<CoreEvent>): nat
    decreases |es|
  {
    if es == [] then 0
    else
      IdsIssued(cfg, r.core, es[0]) +
      IdsIssuedIn(cfg, Run(CoreStep(cfg, r.core, es[0]), HistoryStep(cfg, r.core, r.history, es[0])), es[1..])
  }

  ghost predicate IssuedId(first: uint16, n: nat, id: uint16) {
    exists j :: 1 <= j <= n && id == IdAfter(first, j)
  }

  /** After `n` ids: those in the queue differ from each other and from those waiting, and all were issued. */
  ghost predicate IdsApart(c: Core, first: uint16, n: nat) {
    && c.last == IdAfter(first, n)
    && (forall i, j :: 0 <= i < j < |c.queue| ==> c.queue[i].id != c.queue[j].id)
    && (forall i :: 0 <= i < |c.queue| ==> c.queue[i].id !in c.pending && IssuedId(first, n, c.queue[i].id))
    && (forall id :: id in c.pending ==> IssuedId(first, n, id) || (id == 0 && c.pending[id].Sync?))
  }

  /** The next of at most 65535 ids is not among those issued, nor the one kept for CONNACK. */
  lemma NextIsNew(first: uint16, n: nat)
    requires n < 65535
    ensures NextId(IdAfter(first, n)) == IdAfter(first, n + 1)
    ensures IdAfter(first, n + 1) != 0 && !IssuedId(first, n, IdAfter(first, n + 1))
    ensures forall id :: IssuedId(first, n, id) ==> id != 0 && IssuedId(first, n + 1, id)
    ensures IssuedId(first, n + 1, IdAfter(first, n + 1))
  {
    forall j | 1 <= j <= n
      ensures IdAfter(first, j) != IdAfter(first, n + 1) && IdAfter(first, j) != 0
    {
      ConsecutiveIdsDistinct(first, j, n + 1);
    }
    assert IdAfter(first, n + 1) == IdAfter(first, n + 1);
  }

  lemma StepKeepsApart(cfg: Settings, c: Core, e: CoreEvent, first: uint16, n: nat)
    requires IdsApart(c, first, n) && n + IdsIssued(cfg, c, e) <= 65535
    ensures FreshId(cfg, c, e)
    ensures IdsApart(CoreStep(cfg, c, e), first, n + IdsIssued(cfg, c, e))
  {
    if n < 65535 {
      NextIsNew(first, n);
    }
    hide IssuedId, IdAfter, NextId;
    if e.Process? && c.queue != [] {
      assert forall i :: 0 <= i < |c.queue[1..]| ==> c.queue[1..][i] == c.queue[i + 1];
    }
  }

  /** As long as a run issues no more than 65535 ids, they are fresh without further assumption. */
  lemma {:induction false} ShortRunsAreFresh(cfg: Settings, r: Run, es: seq<CoreEvent>, first: uint16, n: nat)
    requires IdsApart(r.core, first, n) && n + IdsIssuedIn(cfg, r, es) <= 65535
    ensures FreshIds(cfg, r, es)
    decreases |es|
  {
    if es != [] {
      StepKeepsApart(cfg, r.core, es[0], first, n);
      hide CoreStep, IdsApart, FreshId, IdsIssued, HistoryStep;
      ShortRunsAreFresh(cfg, Run(CoreStep(cfg, r.core, es[0]), HistoryStep(cfg, r.core, r.history, es[0])), es[1..],
                        first, n + IdsIssued(cfg, r.core, es[0]));
    }
  }

  const START: Core := Core([], map[], [], 0)

  /** The theorem from the start of the client, for runs of up to 65535 ids: first in, first out; every handler called
      at most once; and every processed action with a handler in exactly one of three places. */
  lemma FromTheStart(cfg: Settings, es: seq<CoreEvent>)
    requires NewHandlers(cfg, Run(START, NO_HISTORY), es) && IdsIssuedIn(cfg, Run(START, NO_HISTORY), es) <= 65535
    ensures var r := RunCore(cfg, Run(START, NO_HISTORY), es);
            && r.history.accepted == r.history.processed + r.core.queue
            && NotedOnce(r.core)
            && forall i :: 0 <= i < |r.history.processed| && r.history.processed[i].kind in cfg.types &&
                           r.history.processed[i].handler.Some? ==>
                             ExactlyOne(Pending(r.core, r.history.processed[i].handler.value),
                                        Noted(r.core, r.history.processed[i].handler.value),
                                        r.history.processed[i].handler.value in r.history.dropped)
  {
    var start := Run(START, NO_HISTORY);
    RunIsFifo(cfg, start, es);
    HandlersFireOnce(cfg, start, es);
    ShortRunsAreFresh(cfg, start, es, 0, 0);
    NoActionForgotten(cfg, start, es);
    hide RunCore, NewHandlers, FreshIds, IdsIssuedIn;
    var r := RunCore(cfg, start, es);
    forall i | 0 <= i < |r.history.processed| && r.history.processed[i].kind in cfg.types &&
               r.history.processed[i].handler.Some?
      ensures ExactlyOne(Pending(r.core, r.history.processed[i].handler.value),
                         Noted(r.core, r.history.processed[i].handler.value),
                         r.history.processed[i].handler.value in r.history.dropped)
    {
      assert Settled(r.core, r.history.dropped, r.history.processed[i]);
    }
  }

  predicate ExactlyOne(a: bool, b: bool, c: bool) {
    (a && !b && !c) || (!a && b && !c) || (!a && !b && c)
  }

  // ---------- when an action is forgotten ----------

  /** Whatever comes of performing it, an action whose handler has not been heard of is settled by being processed if and
      only if it failed, dropped its own acknowledgement, or has an id that nothing is waiting under. */
  lemma SettledExactly(cfg: Settings, r: Run, outcome: Outcome)
    requires r.core.queue != [] && r.core.queue[0].kind in cfg.types && r.core.queue[0].handler.Some?
    requires Nowhere(r.core.(queue := r.core.queue[1..]), r.core.queue[0].handler.value, r.history.dropped)
    ensures Settled(CoreStep(cfg, r.core, Process(outcome)),
                    HistoryStep(cfg, r.core, r.history, Process(outcome)).dropped, r.core.queue[0]) <==>
            !outcome.rc.Success? || outcome.ackDropped || r.core.queue[0].id !in r.core.pending
  {
    var it, rest := r.core.queue[0], r.core.(queue := r.core.queue[1..]);
    var next := CoreStep(cfg, r.core, Process(outcome));
    if !outcome.rc.Success? {
      assert next.notes[|r.core.notes|].handler == Async(it.handler.value);
    } else {
      assert Noted(next, it.handler.value) == Noted(rest, it.handler.value);
    }
  }

  /** One that waits for its acknowledgement stays settled through a blocking call if and only if the call does not
      register under its id and delete what it finds there. */
  lemma BlockingSettledExactly(c: Core, it: Item, dropped: set<int>, connecting: bool, registers: bool, deletes: bool)
    requires it.handler.Some? && it.id in c.pending && c.pending[it.id] == Async(it.handler.value)
    requires !Noted(c, it.handler.value) && it.handler.value !in dropped
    ensures Settled(BlockingStep(c, connecting, registers, deletes), dropped, it) <==>
            !(registers && deletes && BlockingId(c, connecting) == it.id)
  {
    assert Noted(BlockingStep(c, connecting, registers, deletes), it.handler.value) == Noted(c, it.handler.value);
  }

  function Issues(n: nat): seq<CoreEvent> {
    if n == 0 then [] else [Issue] + Issues(n - 1)
  }

  lemma {:induction false} IdAfterNext(last: uint16, n: nat)
    ensures IdAfter(NextId(last), n) == IdAfter(last, n + 1)
    decreases n
  {
    if n > 0 {
      IdAfterNext(last, n - 1);
    }
  }

  lemma RunIssue(cfg: Settings, r: Run, rest: seq<CoreEvent>)
    ensures var later := r.(core := r.core.(last := NextId(r.core.last)));
            && RunCore(cfg, r, [Issue] + rest) == RunCore(cfg, later, rest)
            && IdsIssuedIn(cfg, r, [Issue] + rest) == 1 + IdsIssuedIn(cfg, later, rest)
            && (NewHandlers(cfg, later, rest) ==> NewHandlers(cfg, r, [Issue] + rest))
  {
    hide NextId;
    assert ([Issue] + rest)[1..] == rest;
  }

  lemma {:induction false} RunIssues(cfg: Settings, r: Run, n: nat, rest: seq<CoreEvent>)
    ensures var later := r.(core := r.core.(last := IdAfter(r.core.last, n)));
            && RunCore(cfg, r, Issues(n) + rest) == RunCore(cfg, later, rest)
            && IdsIssuedIn(cfg, r, Issues(n) + rest) == n + IdsIssuedIn(cfg, later, rest)
            && (NewHandlers(cfg, later, rest) ==> NewHandlers(cfg, r, Issues(n) + rest))
    decreases n
  {
    hide RunCore, IdsIssuedIn, NewHandlers, NextId;
    if n == 0 {
      assert [] + rest == rest;
    } else {
      var next := r.(core := r.core.(last := NextId(r.core.last)));
      IdAfterNext(r.core.last, n - 1);
      RunIssues(cfg, next, n - 1, rest);
      RunIssue(cfg, r, Issues(n - 1) + rest);
      assert Issues(n) + rest == [Issue] + (Issues(n - 1) + rest);
    }
  }

  const DONE := Outcome(Success, false)

  /** An action is published and waits; `n` ids later another is published. */
  function StaleRun(old_: int, new_: int, n: nat): seq<CoreEvent> {
    [Enqueue(PublishAction, Some(old_)), Process(DONE)] +
    (Issues(n) + [Enqueue(PublishAction, Some(new_)), Process(DONE)])
  }

  lemma RunTwo(cfg: Settings, r: Run, h: int, rest: seq<CoreEvent>)
    requires cfg.limit > 0 && PublishAction in cfg.types && r.core.queue == []
    requires NewHandler(r, Enqueue(PublishAction, Some(h)))
    ensures var it := Item(PublishAction, Some(h), NextId(r.core.last));
            var later := Run(r.core.(pending := Register(r.core.pending, it.id, Async(h)), last := it.id),
                             History(r.history.accepted + [it], r.history.processed + [it], r.history.dropped));
            var es := [Enqueue(PublishAction, Some(h)), Process(DONE)] + rest;
            && RunCore(cfg, r, es) == RunCore(cfg, later, rest)
            && IdsIssuedIn(cfg, r, es) == 1 + IdsIssuedIn(cfg, later, rest)
            && (NewHandlers(cfg, later, rest) ==> NewHandlers(cfg, r, es))
  {
    hide NextId, Register;
    var it := Item(PublishAction, Some(h), NextId(r.core.last));
    var es := [Enqueue(PublishAction, Some(h)), Process(DONE)] + rest;
    assert es[1..] == [Process(DONE)] + rest && es[1..][1..] == rest;
    assert [] + [it] == [it] && [it][1..] == [];
    var queued := Run(r.core.(queue := [it], last := it.id), r.history.(accepted := r.history.accepted + [it]));
    assert CoreStep(cfg, r.core, es[0]) == queued.core;
    hide NewHandler;
    assert RunCore(cfg, r, es) == RunCore(cfg, queued, es[1..]);
  }

  /** Where it ends. */
  lemma StaleRunEnds(cfg: Settings, old_: int, new_: int, n: nat)
    requires cfg.limit > 0 && PublishAction in cfg.types && old_ != new_
    ensures var start, es := Run(START, NO_HISTORY), StaleRun(old_, new_, n);
            var first, second := Item(PublishAction, Some(old_), 1), Item(PublishAction, Some(new_), IdAfter(1, n + 1));
            && NewHandlers(cfg, start, es) && IdsIssuedIn(cfg, start, es) == n + 2
            && RunCore(cfg, start, es) ==
               Run(Core([], Register(map[1 := Async(old_)], second.id, Async(new_)), [], second.id),
                   History([first, second], [first, second], {}))
  {
    hide RunCore, IdsIssuedIn, NewHandlers, Issues, IdAfter;
    var start := Run(START, NO_HISTORY);
    var last := [Enqueue(PublishAction, Some(new_)), Process(DONE)];
    var first := Item(PublishAction, Some(old_), 1);
    var waiting := Run(Core([], map[1 := Async(old_)], [], 1), History([first], [first], {}));
    var turned := waiting.(core := waiting.core.(last := IdAfter(1, n)));
    RunTwo(cfg, start, old_, Issues(n) + last);
    assert Register(map[], 1, Async(old_)) == map[1 := Async(old_)] && [] + [first] == [first];
    RunIssues(cfg, waiting, n, last);
    RunTwo(cfg, turned, new_, []);
    IdAfterOne(n);
    var second := Item(PublishAction, Some(new_), IdAfter(1, n + 1));
    assert last + [] == last && [first] + [second] == [first, second];
    NothingMore(cfg, Run(Core([], Register(map[1 := Async(old_)], second.id, Async(new_)), [], second.id),
                         History([first, second], [first, second], {})));
  }

  lemma IdAfterOne(n: nat)
    ensures NextId(IdAfter(1, n)) == IdAfter(1, n + 1)
  {
  }

  /** From the start of the client: the run issues n + 2 ids, and the second action is settled if and only if n + 1 is
      not a multiple of 65535. With n = 65534 that is one id more than FromTheStart allows, so its bound is the best
      there is. */
  lemma StaleIdFromTheStart(cfg: Settings, old_: int, new_: int, n: nat)
    requires cfg.limit > 0 && PublishAction in cfg.types && old_ != new_
    ensures var start, es := Run(START, NO_HISTORY), StaleRun(old_, new_, n);
            var r := RunCore(cfg, start, es);
            && NewHandlers(cfg, start, es) && IdsIssuedIn(cfg, start, es) == n + 2
            && |r.history.processed| == 2 && r.history.processed[1].handler == Some(new_)
            && (Settled(r.core, r.history.dropped, r.history.processed[1]) <==> (n + 1) % 65535 != 0)
  {
    hide RunCore, IdsIssuedIn, NewHandlers, StaleRun, IdAfter;
    StaleRunEnds(cfg, old_, new_, n);
    IdAfterClosedForm(1, n + 1);
  }

  lemma NothingMore(cfg: Settings, r: Run)
    ensures RunCore(cfg, r, []) == r && IdsIssuedIn(cfg, r, []) == 0 && NewHandlers(cfg, r, [])
  {
  }

  /** With a stale id an action can be forgotten: its acknowledgement is not registered over the old one, and the old
      handler hears of it instead. */
  lemma StaleIdForgetsAction(cfg: Settings, c: Core, id: uint16, old_: int, new_: int)
    requires PublishAction in cfg.types && old_ != new_ && c.queue == [Item(PublishAction, Some(new_), id)]
    requires id in c.pending && c.pending[id] == Async(old_) && !Noted(c, new_) && !Pending(c, new_)
    ensures var after := AckStep(ProcessStep(c, cfg.types, Outcome(Success, false)), id, Success);
            && Noted(after, old_) && !Noted(after, new_) && !Pending(after, new_) && !Queued(after, new_)
  {
    var after := AckStep(ProcessStep(c, cfg.types, Outcome(Success, false)), id, Success);
    assert after.notes[|c.notes|].handler == Async(old_);
    NotesGrow(c, after, Note(Async(old_), id, Success));
    forall other | other in after.pending
      ensures after.pending[other] != Async(new_)
    {
      assert other in c.pending && after.pending[other] == c.pending[other];
    }
  }

  /** So can one that was settled: a blocking call under its id that fails deletes its acknowledgement and tells no
      one. */
  lemma StaleBlockingForgetsAction(c: Core, id: uint16, h: int)
    requires NextId(c.last) == id && id in c.pending && c.pending[id] == Async(h)
    requires !Noted(c, h) && !Queued(c, h) && PendingOnce(c)
    ensures Nowhere(BlockingStep(c, false, true, true), h, {})
  {
    var after := BlockingStep(c, false, true, true);
    assert forall other :: other in after.pending ==> other in c.pending && other != id;
  }
}
