/** Writing a packet to the network (src/Action.cpp:73-111). */
module NetworkWrite {
  import opened MqttTypes

  /** What one call to the network layer does: how much it takes, and its response code. */
  datatype WriteStep = WriteStep(count: nat, rc: ResponseCode, threadContinues: bool)

  /** The loop is meant to go on until everything is written, but it compares the total with what the last call took
      instead of what there is to write. After the first call the two are equal, so however many results the network
      layer has ready, only the first is asked for: a packet taken in part is reported as a failure, and its rest is
      not sent. */
  method WriteToNetworkBuffer(writeBuf: seq<byte>, steps: seq<WriteStep>)
    returns (rc: ResponseCode, written: seq<byte>, calls: nat)
    requires steps != [] && forall i :: 0 <= i < |steps| ==> steps[i].count <= |writeBuf|
    ensures writeBuf == [] ==> rc == NothingToWrite && calls == 0 && written == []
    ensures writeBuf != [] ==> calls == 1 && written == writeBuf[..steps[0].count]
    ensures rc.Success? <==> writeBuf != [] && steps[0].rc.Success? && written == writeBuf
    ensures writeBuf != [] && !steps[0].rc.Success? ==> rc == steps[0].rc
    ensures writeBuf != [] && steps[0].rc.Success? && written != writeBuf ==>
              rc == if steps[0].threadContinues then Failure else ThreadExiting
  {
    calls, written, rc := 0, [], Failure;
    if 0 == |writeBuf| {
      return NothingToWrite, written, calls;
    }
    var totalWrittenBytes, curWrittenBytes, bytesToWrite := 0, 0, |writeBuf|;
    var tempBuf, threadContinues, goesOn := writeBuf, true, true;
    while goesOn
      invariant goesOn ==> calls == 0 && totalWrittenBytes == 0 && written == [] && tempBuf == writeBuf
      invariant !goesOn ==>
                  && calls == 1 && totalWrittenBytes == steps[0].count && written == writeBuf[..steps[0].count]
                  && rc == steps[0].rc && threadContinues == steps[0].threadContinues
      decreases if goesOn then 1 else 0
    {
      curWrittenBytes, rc, threadContinues := steps[calls].count, steps[calls].rc, steps[calls].threadContinues;
      calls := calls + 1;
      written := written + tempBuf[..curWrittenBytes];
      totalWrittenBytes := totalWrittenBytes + curWrittenBytes;
      if totalWrittenBytes != bytesToWrite {
        tempBuf := writeBuf[totalWrittenBytes..];
      }
      goesOn := threadContinues && totalWrittenBytes != curWrittenBytes && rc.Success?;
    }
    if rc.Success? && totalWrittenBytes != bytesToWrite {
      rc := if !threadContinues then ThreadExiting else Failure;
    }
  }
}
