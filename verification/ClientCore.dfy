/** The client core's queue and pending acknowledgements as the program keeps them (src/ClientCoreState.cpp). */
module ClientCore {
  import opened MqttTypes
  import opened SubscriptionProtocol
  import opened OutboundQueue
  import opened PublishCodec
  import opened NetworkWrite

  /** What is queued with an action: the handler to notify, and the packet where it is a PUBACK. Enqueueing overwrites
      the id. */
  class ActionData {
    const handler: Option<int>
    const puback: PubackPacket?
    var actionId: uint16

    constructor (handler: Option<int>, puback: PubackPacket?)
      ensures this.handler == handler && this.puback == puback && actionId == 0
    {
      this.handler, this.puback := handler, puback;
      actionId := 0;
    }

    /** The id goes to the packet as well. */
    method SetActionId(id: uint16)
      modifies this, if puback == null then {} else {puback}
      ensures actionId == id && (puback != null ==> puback.packetId == id)
    {
      actionId := id;
      if puback != null {
        puback.SetActionId(id);
      }
    }
  }

  /** The action that sends a queued PUBACK: what goes out is read by a decoder of section 3.4 as the id of the PUBLISH,
      whatever id the packet was given on the way. */
  method PerformPuback(data: ActionData, steps: seq<WriteStep>) returns (rc: ResponseCode, written: seq<byte>)
    requires data.puback != null ==> data.puback.Wellformed()
    requires steps != [] && forall i :: 0 <= i < |steps| ==> steps[i].count <= 4
    ensures rc.Success? <==> data.puback != null && steps[0].rc.Success? && steps[0].count == 4
    ensures data.puback == null ==> rc == NullValueError && written == []
    ensures rc.Success? ==>
              && |written| == 4 && written[1] == 2
              && DecodePuback(written[0], written[2..]) == Some(data.puback.publishPacketId)
  {
    if data.puback == null {
      return NullValueError, [];
    }
    var packetData := data.puback.ToString();
    hide *;
    var calls;
    rc, written, calls := WriteToNetworkBuffer(packetData, steps);
  }

  type QueueEntry = (ActionType, ActionData)

  class ClientCoreState {
    var outboundActionQueue: seq<QueueEntry>
    var pendingAckMap: map<uint16, Handler>
    var actionMap: set<ActionType>
    var maxQueueSize: nat
    var lastSentPacketId: uint16

    /** The calls made to handlers. */
    var notes: seq<Note>

    constructor ()
      ensures Valid() && View() == START && Config() == Settings(16, {})
    {
      outboundActionQueue, pendingAckMap, actionMap, notes := [], map[], {}, [];
      maxQueueSize, lastSentPacketId := DEFAULT_MAX_QUEUE_SIZE, 0;
    }

    ghost function Queued(): set<ActionData>
      reads this
    {
      set i | 0 <= i < |outboundActionQueue| :: outboundActionQueue[i].1
    }

    /** No action data is queued twice. */
    ghost predicate Valid()
      reads this
    {
      forall i, j :: 0 <= i < j < |outboundActionQueue| ==> outboundActionQueue[i].1 != outboundActionQueue[j].1
    }

    ghost function View(): Core
      reads this, Queued()
    {
      var queue := seq(|outboundActionQueue|, i requires 0 <= i < |outboundActionQueue| reads this, Queued() =>
        Item(outboundActionQueue[i].0, outboundActionQueue[i].1.handler, outboundActionQueue[i].1.actionId));
      Core(queue, pendingAckMap, notes, lastSentPacketId)
    }

    ghost function Config(): Settings
      reads this
    {
      Settings(maxQueueSize, actionMap)
    }

    method GetNextActionId() returns (id: uint16)
      requires Valid()
      modifies this`lastSentPacketId
      ensures id == NextId(old(lastSentPacketId)) == lastSentPacketId
    {
      if UINT16_MAX == lastSentPacketId {
        lastSentPacketId := 1;
      } else {
        lastSentPacketId := lastSentPacketId + 1;
      }
      id := lastSentPacketId;
    }

    method EnqueueOutboundAction(kind: ActionType, data: ActionData) returns (rc: ResponseCode, actionId: uint16)
      requires Valid() && data !in Queued()
      modifies this`outboundActionQueue, this`lastSentPacketId, data, if data.puback == null then {} else {data.puback}
      ensures Valid()
      ensures outboundActionQueue ==
              old(outboundActionQueue) + if |old(outboundActionQueue)| >= maxQueueSize then [] else [(kind, data)]
      ensures View() == EnqueueStep(old(View()), maxQueueSize, kind, data.handler)
      ensures rc == if |old(outboundActionQueue)| >= maxQueueSize then ActionQueueFull else Success
      ensures rc.Success? ==> actionId == data.actionId == lastSentPacketId
      ensures Queued() <= old(Queued()) + {data}
    {
      actionId := 0;
      if |outboundActionQueue| >= maxQueueSize {
        return ActionQueueFull, actionId;
      }
      actionId := GetNextActionId();
      data.SetActionId(actionId);
      ghost var before := outboundActionQueue;
      outboundActionQueue := outboundActionQueue + [(kind, data)];
      assert forall i :: 0 <= i < |before| ==> outboundActionQueue[i] == before[i];
      assert View().queue == old(View()).queue + [Item(kind, data.handler, actionId)];
      rc := Success;
    }

    /** An entry already under the id stays. */
    method RegisterPendingAck(id: uint16, handler: Option<Handler>) returns (rc: ResponseCode)
      modifies this`pendingAckMap
      ensures rc == if handler.None? then NullValueError else Success
      ensures pendingAckMap ==
              if handler.None? then old(pendingAckMap) else Register(old(pendingAckMap), id, handler.value)
    {
      if handler.None? {
        return NullValueError;
      }
      if id !in pendingAckMap {
        pendingAckMap := pendingAckMap[id := handler.value];
      }
      rc := Success;
    }

    method DeletePendingAck(id: uint16)
      modifies this`pendingAckMap
      ensures pendingAckMap == old(pendingAckMap) - {id}
    {
      if id in pendingAckMap {
        pendingAckMap := pendingAckMap - {id};
      }
    }

    method CallHandler(h: Handler, id: uint16, rc: ResponseCode)
      modifies this`notes
      ensures notes == old(notes) + [Note(h, id, rc)]
    {
      notes := notes + [Note(h, id, rc)];
    }

    /** Whoever waited under the id has been told, and waits no longer. */
    ghost predicate Told(pending: map<uint16, Handler>, before: seq<Note>, id: uint16, rc: ResponseCode)
      reads this
    {
      if id in pending then notes == before + [Note(pending[id], id, rc)] && pendingAckMap == pending - {id}
      else notes == before && pendingAckMap == pending
    }

    /** Calls the handler waiting under the id, once, with the response code. */
    method ForwardReceivedAck(id: uint16, rc: ResponseCode)
      modifies this`pendingAckMap, this`notes
      ensures View() == AckStep(old(View()), id, rc)
      ensures Told(old(pendingAckMap), old(notes), id, rc)
    {
      ghost var queue := View().queue;
      if id in pendingAckMap {
        CallHandler(pendingAckMap[id], id, rc);
        pendingAckMap := pendingAckMap - {id};
      }
      assert View().queue == queue;
    }

    /** A blocking call, up to the point where it waits; what its action does comes in as parameters, and so does the
        response it hears while waiting, a timeout if there is none. */
    method PerformAction(isRegistered: bool, connecting: bool, registers: bool, deletes: bool, outcome: ResponseCode,
                         response: ResponseCode) returns (rc: ResponseCode)
      requires Valid()
      modifies this`pendingAckMap, this`lastSentPacketId
      ensures View() ==
              if isRegistered then BlockingStep(old(View()), connecting, registers, deletes) else old(View())
      ensures rc == if !isRegistered then ActionNotRegistered
                    else if outcome.Success? && BlockingId(old(View()), connecting) in pendingAckMap then response
                    else outcome
    {
      ghost var queue := View().queue;
      if !isRegistered {
        return ActionNotRegistered;
      }
      var actionId := GetNextActionId();
      if connecting {
        actionId := 0;
      }
      if registers {
        var _ := RegisterPendingAck(actionId, Some(Sync));
        if deletes {
          DeletePendingAck(actionId);
        }
      }
      rc := outcome;
      if rc.Success? && actionId in pendingAckMap {
        rc := response;
      }
      assert View().queue == queue;
    }

    /** One turn of the processing loop. What the action itself does to the network and to its own pending
        acknowledgement comes in as its outcome. */
    method ProcessNextAction(outcome: Outcome) returns (rc: ResponseCode)
      requires Valid()
      modifies this`outboundActionQueue, this`pendingAckMap, this`notes
      ensures Valid()
      ensures View() == ProcessStep(old(View()), actionMap, outcome)
      ensures rc == if old(outboundActionQueue) == [] then Success
                    else if old(outboundActionQueue)[0].0 in actionMap then outcome.rc
                    else ActionNotRegistered
    {
      rc := Success;
      if outboundActionQueue == [] {
        return;
      }
      ghost var before := View();
      var (actionType, data) := outboundActionQueue[0];
      outboundActionQueue := outboundActionQueue[1..];
      assert View().queue == before.queue[1..];
      ghost var rest := View();
      if actionType in actionMap {
        if data.handler.Some? {
          rc := RegisterPendingAck(data.actionId, Some(Async(data.handler.value)));
        }
        if rc.Success? {
          rc := outcome.rc;
          if outcome.ackDropped && data.handler.Some? {
            DeletePendingAck(data.actionId);
          }
          if !rc.Success? {
            if data.handler.Some? {
              DeletePendingAck(data.actionId);
              CallHandler(Async(data.handler.value), data.actionId, rc);
            }
          }
        }
      } else {
        rc := ActionNotRegistered;
      }
      assert View().queue == rest.queue;
    }
  }
}
