/** The read buffer between WebSocket frames and the bytes asked for (network/WebSocket/WebSocketConnection.cpp). */
module WebSocketBuffer {
  import opened MqttTypes

  datatype Opcode = Continuation | TextFrame | BinaryFrame | ConnectionClose | Pong

  /** What one attempt to receive brings: a frame, or an error, after which receiving goes on. Frames with the PING
      opcode are not part of this model. */
  datatype Receipt = WsFrame(rsv: nat, mask: nat, opcode: Opcode, data: seq<byte>) | ReceiveError

  predicate ViolatesProtocol(f: Receipt)
    requires f.WsFrame?
  {
    f.rsv != 0 || f.mask != 0
  }

  /** A frame that leaves the connection in order. */
  predicate Clean(f: Receipt) {
    f.WsFrame? && !ViolatesProtocol(f) && !f.opcode.ConnectionClose?
  }

  /** What it adds to the data. */
  function Payload(f: Receipt): (data: seq<byte>)
    ensures f.WsFrame? && f.rsv == 0 && f.mask == 0 && f.opcode in {Continuation, TextFrame, BinaryFrame} ==> data == f.data
    ensures f.ReceiveError? || f.rsv != 0 || f.mask != 0 || f.opcode in {ConnectionClose, Pong} ==> data == []
  {
    if Clean(f) && !f.opcode.Pong? then f.data else []
  }

  /** The data of the frames between two places. */
  function Payloads(frames: seq<Receipt>, first: nat, end: nat): seq<byte>
    requires first <= end <= |frames|
  {
    if first == end then [] else Payloads(frames, first, end - 1) + Payload(frames[end - 1])
  }

  lemma {:induction false} PayloadsJoin(frames: seq<Receipt>, first: nat, mid: nat, end: nat)
    requires first <= mid <= end <= |frames|
    ensures Payloads(frames, first, mid) + Payloads(frames, mid, end) == Payloads(frames, first, end)
    decreases end
  {
    if mid < end {
      PayloadsJoin(frames, first, mid, end - 1);
      Regroup(Payloads(frames, first, mid), Payloads(frames, mid, end - 1), Payload(frames[end - 1]));
    }
  }

  lemma Regroup(a: seq<byte>, b: seq<byte>, c: seq<byte>)
    ensures a + (b + c) == (a + b) + c
  {
  }

  /** Why it ends the read. */
  function FailureOf(f: Receipt): ResponseCode {
    if f.ReceiveError? then FrameReceiveError
    else if ViolatesProtocol(f) then ProtocolViolation
    else MaxLifetimeReached
  }

  // ---------- one read ----------

  /** `dropped` is what a failing receive found in the buffer and cleared. */
  datatype Polled = Polled(rc: ResponseCode, buffered: seq<byte>, turn: nat, dropped: seq<byte>)

  /** Receives frames until the buffer holds enough or a receive fails. When the receipts are spent, every receive
      fails. */
  function Poll(frames: seq<Receipt>, turn: nat, buffered: seq<byte>, want: nat): (p: Polled)
    requires turn <= |frames|
    ensures turn <= p.turn <= |frames|
    ensures if p.rc.Success? then want <= |p.buffered| && p.dropped == [] else p.buffered == []
    decreases |frames| - turn
  {
    if |buffered| >= want then Polled(Success, buffered, turn, [])
    else if turn == |frames| then Polled(FrameReceiveError, [], turn, buffered)
    else if !Clean(frames[turn]) then Polled(FailureOf(frames[turn]), [], turn + 1, buffered)
    else Poll(frames, turn + 1, buffered + Payload(frames[turn]), want)
  }

  predicate AllSound(frames: seq<Receipt>, first: nat, end: nat)
    requires end <= |frames|
  {
    forall i :: first <= i < end ==>
                  && frames[i].WsFrame? && frames[i].rsv == 0 && frames[i].mask == 0
                  && frames[i].opcode in {Continuation, TextFrame, BinaryFrame, Pong}
  }

  /** What ends a read that fails: nothing more to receive, an error of the network, a frame that violates the protocol,
      or a CLOSE frame. */
  predicate EndsRead(frames: seq<Receipt>, first: nat, end: nat, rc: ResponseCode)
    requires first <= end <= |frames|
  {
    || (AllSound(frames, first, end) && end == |frames| && rc == FrameReceiveError)
    || (&& first < end && AllSound(frames, first, end - 1)
        && match frames[end - 1]
           case ReceiveError => rc == FrameReceiveError
           case WsFrame(rsv, mask, opcode, _) =>
             if rsv != 0 || mask != 0 then rc == ProtocolViolation
             else opcode == ConnectionClose && rc == MaxLifetimeReached)
  }

  lemma {:induction false} PollResult(frames: seq<Receipt>, turn: nat, buffered: seq<byte>, want: nat)
    requires turn <= |frames|
    ensures var p := Poll(frames, turn, buffered, want);
            if p.rc.Success? then AllSound(frames, turn, p.turn) else EndsRead(frames, turn, p.turn, p.rc)
    decreases |frames| - turn
  {
    if |buffered| < want && turn < |frames| && Clean(frames[turn]) {
      PollResult(frames, turn + 1, buffered + Payload(frames[turn]), want);
    }
  }

  /** All the data not yet handed out: what is buffered and what is still to come. */
  function Data(frames: seq<Receipt>, turn: nat, buffered: seq<byte>): seq<byte>
    requires turn <= |frames|
  {
    buffered + Payloads(frames, turn, |frames|)
  }

  lemma DataStep(frames: seq<Receipt>, turn: nat, buffered: seq<byte>)
    requires turn < |frames|
    ensures Data(frames, turn + 1, buffered + Payload(frames[turn])) == Data(frames, turn, buffered)
  {
    PayloadsJoin(frames, turn, turn + 1, |frames|);
    assert Payloads(frames, turn, turn + 1) == [] + Payload(frames[turn]) == Payload(frames[turn]);
    Regroup(buffered, Payload(frames[turn]), Payloads(frames, turn + 1, |frames|));
  }

  /** A read moves data into the buffer, drops what a failing receive found there, and neither loses nor repeats
      anything else. */
  lemma {:induction false} PollConserves(frames: seq<Receipt>, turn: nat, buffered: seq<byte>, want: nat)
    requires turn <= |frames|
    ensures var p := Poll(frames, turn, buffered, want);
            p.dropped + Data(frames, p.turn, p.buffered) == Data(frames, turn, buffered)
    decreases |frames| - turn
  {
    hide FailureOf;
    if |buffered| < want && turn < |frames| {
      DataStep(frames, turn, buffered);
      if Clean(frames[turn]) {
        PollConserves(frames, turn + 1, buffered + Payload(frames[turn]), want);
      } else {
        assert buffered + [] == buffered;
        Regroup(buffered, [], Payloads(frames, turn + 1, |frames|));
      }
    } else if |buffered| < want {
      Regroup(buffered, [], []);
    }
    Regroup([], buffered, Payloads(frames, turn, |frames|));
  }

  ghost predicate CleanFrom(frames: seq<Receipt>, turn: nat) {
    forall i :: turn <= i < |frames| ==> Clean(frames[i])
  }

  /** With frames in order, a read succeeds exactly when there is enough data. */
  lemma {:induction false} PollSucceeds(frames: seq<Receipt>, turn: nat, buffered: seq<byte>, want: nat)
    requires turn <= |frames| && CleanFrom(frames, turn)
    ensures Poll(frames, turn, buffered, want).rc.Success? <==> want <= |Data(frames, turn, buffered)|
    decreases |frames| - turn
  {
    hide Payload, Clean, FailureOf;
    if |buffered| < want && turn < |frames| {
      DataStep(frames, turn, buffered);
      PollSucceeds(frames, turn + 1, buffered + Payload(frames[turn]), want);
    }
  }

  // ---------- successive reads ----------

  /** The bytes handed out by the reads that succeed, one chunk each, and those dropped by the reads that fail. */
  datatype Reads = Reads(chunks: seq<seq<byte>>, turn: nat, buffered: seq<byte>, ok: bool, dropped: seq<byte>)

  /** One read after another, each handing out the bytes asked for from the front of the buffer; after one that fails
      the next goes on with what comes then. */
  function ReadEach(frames: seq<Receipt>, turn: nat, buffered: seq<byte>, sizes: seq<nat>): (r: Reads)
    requires turn <= |frames|
    ensures r.turn <= |frames|
    decreases |sizes|
  {
    if sizes == [] then Reads([], turn, buffered, true, [])
    else
      var p := Poll(frames, turn, buffered, sizes[0]);
      if !p.rc.Success? then
        var rest := ReadEach(frames, p.turn, [], sizes[1..]);
        rest.(ok := false, dropped := p.dropped + rest.dropped)
      else
        var rest := ReadEach(frames, p.turn, p.buffered[sizes[0]..], sizes[1..]);
        rest.(chunks := [p.buffered[..sizes[0]]] + rest.chunks)
  }

  function Sum(sizes: seq<nat>): nat {
    if sizes == [] then 0 else sizes[0] + Sum(sizes[1..])
  }

  /** The chunks are slices of the data that follow one another. */
  predicate Slices(data: seq<byte>, sizes: seq<nat>, chunks: seq<seq<byte>>) {
    |chunks| == |sizes| &&
    (sizes == [] ||
     (&& sizes[0] <= |data| && chunks[0] == data[..sizes[0]]
      && Slices(data[sizes[0]..], sizes[1..], chunks[1..])))
  }

  /** However the data is split into frames, successive reads hand it out slice by slice, as long as it lasts. */
  lemma {:induction false} ReadsAreSlices(frames: seq<Receipt>, turn: nat, buffered: seq<byte>, sizes: seq<nat>)
    requires turn <= |frames| && CleanFrom(frames, turn)
    requires Sum(sizes) <= |Data(frames, turn, buffered)|
    ensures var r := ReadEach(frames, turn, buffered, sizes);
            var data := Data(frames, turn, buffered);
            && r.ok && Slices(data, sizes, r.chunks)
            && Data(frames, r.turn, r.buffered) == data[Sum(sizes)..]
    decreases |sizes|
  {
    hide Poll, Payloads, Clean;
    var data := Data(frames, turn, buffered);
    if sizes == [] {
      assert data[0..] == data;
    } else {
      var n := sizes[0];
      PollSucceeds(frames, turn, buffered, n);
      PollConserves(frames, turn, buffered, n);
      var p := Poll(frames, turn, buffered, n);
      SlicedFromFront(frames, p, data, n);
      hide Data;
      var rest := ReadEach(frames, p.turn, p.buffered[n..], sizes[1..]);
      ReadsAreSlices(frames, p.turn, p.buffered[n..], sizes[1..]);
      assert data[n..][Sum(sizes[1..])..] == data[Sum(sizes)..];
      assert ([p.buffered[..n]] + rest.chunks)[1..] == rest.chunks;
    }
  }

  lemma SlicedFromFront(frames: seq<Receipt>, p: Polled, data: seq<byte>, n: nat)
    requires p.turn <= |frames| && n <= |p.buffered| && data == Data(frames, p.turn, p.buffered)
    ensures n <= |data| && data[..n] == p.buffered[..n] && data[n..] == Data(frames, p.turn, p.buffered[n..])
  {
    hide Payloads;
  }

  // ---------- exactly when nothing is lost ----------

  function Joined(chunks: seq<seq<byte>>): seq<byte> {
    if chunks == [] then [] else chunks[0] + Joined(chunks[1..])
  }

  /** No receive fails while the buffer holds anything, receive by receive: each read takes what it asks for as soon as
      it is there, and receives otherwise. */
  predicate FailsDry(frames: seq<Receipt>, turn: nat, buffered: seq<byte>, sizes: seq<nat>)
    requires turn <= |frames|
    decreases |sizes|, |frames| - turn
  {
    if sizes == [] then true
    else if |buffered| >= sizes[0] then FailsDry(frames, turn, buffered[sizes[0]..], sizes[1..])
    else if turn == |frames| then buffered == [] && FailsDry(frames, turn, [], sizes[1..])
    else if !Clean(frames[turn]) then buffered == [] && FailsDry(frames, turn + 1, [], sizes[1..])
    else FailsDry(frames, turn + 1, buffered + Payload(frames[turn]), sizes)
  }

  lemma {:induction false} DryOnce(frames: seq<Receipt>, turn: nat, buffered: seq<byte>, sizes: seq<nat>)
    requires turn <= |frames| && sizes != []
    ensures var p := Poll(frames, turn, buffered, sizes[0]);
            FailsDry(frames, turn, buffered, sizes) ==
            if p.rc.Success? then FailsDry(frames, p.turn, p.buffered[sizes[0]..], sizes[1..])
            else p.dropped == [] && FailsDry(frames, p.turn, [], sizes[1..])
    decreases |frames| - turn
  {
    hide Clean, Payload, FailureOf;
    if |buffered| < sizes[0] && turn < |frames| && Clean(frames[turn]) {
      DryOnce(frames, turn + 1, buffered + Payload(frames[turn]), sizes);
    }
  }

  lemma {:induction false} DryDropsNothing(frames: seq<Receipt>, turn: nat, buffered: seq<byte>, sizes: seq<nat>)
    requires turn <= |frames|
    ensures FailsDry(frames, turn, buffered, sizes) <==> ReadEach(frames, turn, buffered, sizes).dropped == []
    decreases |sizes|
  {
    hide Poll;
    if sizes != [] {
      hide FailsDry;
      DryOnce(frames, turn, buffered, sizes);
      var p := Poll(frames, turn, buffered, sizes[0]);
      DryDropsNothing(frames, p.turn, if p.rc.Success? then p.buffered[sizes[0]..] else [], sizes[1..]);
    }
  }

  /** Data is handed out, dropped or still to be had, and nothing else becomes of it; in order, if none is dropped. */
  lemma {:induction false} ReadsConserve(frames: seq<Receipt>, turn: nat, buffered: seq<byte>, sizes: seq<nat>)
    requires turn <= |frames|
    ensures var r, data := ReadEach(frames, turn, buffered, sizes), Data(frames, turn, buffered);
            && |Joined(r.chunks)| + |r.dropped| + |Data(frames, r.turn, r.buffered)| == |data|
            && (r.dropped == [] ==> Joined(r.chunks) + Data(frames, r.turn, r.buffered) == data)
    decreases |sizes|
  {
    hide Poll, Payloads;
    if sizes != [] {
      var n := sizes[0];
      PollConserves(frames, turn, buffered, n);
      var p := Poll(frames, turn, buffered, n);
      if p.rc.Success? {
        var rest := ReadEach(frames, p.turn, p.buffered[n..], sizes[1..]);
        ReadsConserve(frames, p.turn, p.buffered[n..], sizes[1..]);
        Regroup(p.buffered[..n], p.buffered[n..], Payloads(frames, p.turn, |frames|));
        assert p.buffered == p.buffered[..n] + p.buffered[n..];
        Regroup(p.buffered[..n], Joined(rest.chunks), Data(frames, rest.turn, rest.buffered));
      } else {
        ReadsConserve(frames, p.turn, [], sizes[1..]);
      }
    }
  }

  /** Whatever the server sends, whatever fails and however reads follow one another, what they hand out and what is
      still to be had make up the data in order if and only if no receive fails while bytes are buffered. */
  lemma NothingLostExactly(frames: seq<Receipt>, turn: nat, buffered: seq<byte>, sizes: seq<nat>)
    requires turn <= |frames|
    ensures var r := ReadEach(frames, turn, buffered, sizes);
            FailsDry(frames, turn, buffered, sizes) <==>
            Joined(r.chunks) + Data(frames, r.turn, r.buffered) == Data(frames, turn, buffered)
  {
    ReadsConserve(frames, turn, buffered, sizes);
    DryDropsNothing(frames, turn, buffered, sizes);
    hide ReadEach, FailsDry, Joined, Data;
  }

  class WebSocketConnection {
    /** What the server will send and the network will make of it; when that is spent, receiving fails. */
    const frames: seq<Receipt>
    var turn: nat
    var readBuf: seq<byte>
    var currReadBufSize: nat
    var isConnected: bool

    constructor (frames: seq<Receipt>)
      ensures this.frames == frames && turn == 0 && readBuf == [] && Valid() && !isConnected
    {
      this.frames := frames;
      turn, readBuf, currReadBufSize, isConnected := 0, [], 0, false;
    }

    /** The counter is the length of the buffer. */
    ghost predicate Valid()
      reads this
    {
      turn <= |frames| && currReadBufSize == |readBuf|
    }

    /** Connecting empties the buffer but leaves the counter alone: they agree afterwards exactly when the counter was
        already zero. */
    method Connect()
      modifies this
      ensures isConnected && readBuf == [] && turn == old(turn) && currReadBufSize == old(currReadBufSize)
      ensures old(turn) <= |frames| ==> (Valid() <==> old(currReadBufSize) == 0)
    {
      isConnected := true;
      readBuf := [];
    }

    /** Disconnecting resets both, so that the next connect finds the counter at zero. */
    method Disconnect()
      modifies this
      ensures !isConnected && readBuf == [] && currReadBufSize == 0 && turn == old(turn)
    {
      isConnected := false;
      ClearBuffer();
    }

    method ClearBuffer()
      modifies this`readBuf, this`currReadBufSize
      ensures readBuf == [] && currReadBufSize == 0
    {
      readBuf := [];
      currReadBufSize := 0;
    }

    /** Byte by byte, then the counter. */
    method AppendBytesToBuffer(data: seq<byte>)
      modifies this`readBuf, this`currReadBufSize
      ensures readBuf == old(readBuf) + data && currReadBufSize == old(currReadBufSize) + |data|
    {
      var itr := 0;
      while itr < |data|
        invariant 0 <= itr <= |data|
        invariant readBuf == old(readBuf) + data[..itr] && currReadBufSize == old(currReadBufSize)
      {
        assert data[..itr + 1] == data[..itr] + [data[itr]];
        readBuf := readBuf + [data[itr]];
        itr := itr + 1;
      }
      assert data[..itr] == data;
      currReadBufSize := currReadBufSize + |data|;
    }

    /** One polling read. On success the caller's buffer is its old prefix up to the offset followed by exactly the bytes
        asked for, taken from the front of what was gathered. On failure it is left as it was, and everything gathered is
        dropped. */
    method ReadInternal(buf: seq<byte>, bufReadOffset: nat, sizeBytesToRead: nat)
      returns (rc: ResponseCode, out: seq<byte>, sizeReadBytes: nat)
      requires Valid() && bufReadOffset <= |buf|
      modifies this`turn, this`readBuf, this`currReadBufSize
      ensures Valid()
      ensures var p := Poll(frames, old(turn), old(readBuf), sizeBytesToRead);
              && rc == p.rc && turn == p.turn
              && (rc.Success? ==>
                    && out == buf[..bufReadOffset] + p.buffered[..sizeBytesToRead]
                    && readBuf == p.buffered[sizeBytesToRead..] && sizeReadBytes == sizeBytesToRead)
              && (!rc.Success? ==> out == buf && readBuf == [] && sizeReadBytes == 0)
      ensures rc.Success? ==> AllSound(frames, old(turn), turn)
      ensures !rc.Success? ==> EndsRead(frames, old(turn), turn, rc)
    {
      PollResult(frames, turn, readBuf, sizeBytesToRead);
      hide Payload, EndsRead, AllSound;
      rc, out, sizeReadBytes := Success, buf, 0;
      ghost var polled := Poll(frames, turn, readBuf, sizeBytesToRead);
      while true
        invariant Valid() && rc == Success && out == buf && sizeReadBytes == 0
        invariant polled == Poll(frames, turn, readBuf, sizeBytesToRead)
        decreases |frames| - turn
      {
        if currReadBufSize >= sizeBytesToRead {
          out := out[..bufReadOffset];
          out := out + readBuf[..sizeBytesToRead];
          readBuf := readBuf[sizeBytesToRead..];
          currReadBufSize := currReadBufSize - sizeBytesToRead;
          sizeReadBytes := sizeBytesToRead;
          break;
        }
        if turn == |frames| {
          ClearBuffer();
          rc := FrameReceiveError;
          break;
        }
        var newWsFrame := frames[turn];
        turn := turn + 1;
        if newWsFrame.ReceiveError? {
          ClearBuffer();
          rc := FrameReceiveError;
          break;
        } else if ViolatesProtocol(newWsFrame) {
          ClearBuffer();
          rc := ProtocolViolation;
          break;
        } else if newWsFrame.opcode.ConnectionClose? {
          ClearBuffer();
          rc := MaxLifetimeReached;
          break;
        } else if newWsFrame.opcode.Pong? {
          NothingAdded(newWsFrame, readBuf);
        } else {
          AppendBytesToBuffer(newWsFrame.data);
        }
      }
    }
  }

  lemma NothingAdded(f: Receipt, buffered: seq<byte>)
    requires f.WsFrame? && f.opcode.Pong?
    ensures buffered + Payload(f) == buffered
  {
  }

}
