/** Reading frames off a byte stream that arrives in pieces (src/Action.cpp, src/mqtt/NetworkRead.cpp). */
module Framing {
  import opened MqttTypes
  import opened PacketHeader

  /** What one call to the network layer does: how much it is willing to deliver, its response code, and whether the
      reading thread may go on afterwards. */
  datatype ReadStep = ReadStep(count: nat, rc: ResponseCode, threadContinues: bool)

  /** A byte stream with the reader's place in it, and a schedule of read calls with the place in that. A spent
      schedule has nothing more to read. */
  datatype Link = Link(stream: seq<byte>, pos: nat, schedule: seq<ReadStep>, turn: nat) {
    predicate Valid() {
      pos <= |stream| && turn <= |schedule|
    }

    /** `later` is this link after some reads. */
    predicate LeadsTo(later: Link) {
      && later.Valid() && later.stream == stream && later.schedule == schedule
      && pos <= later.pos && turn <= later.turn
    }

    /** The bytes `bs` come next. */
    predicate Next(bs: seq<byte>) {
      pos + |bs| <= |stream| && stream[pos..pos + |bs|] == bs
    }
  }

  datatype Frame = Frame(header: byte, body: seq<byte>)

  /** The bytes of one packet on the wire. */
  function FrameBytes(f: Frame): seq<byte> {
    [f.header] + EncodeLength(|f.body|) + f.body
  }

  function StreamOf(fs: seq<Frame>): seq<byte> {
    if fs == [] then [] else FrameBytes(fs[0]) + StreamOf(fs[1..])
  }

  ghost predicate WellSized(fs: seq<Frame>) {
    forall i :: 0 <= i < |fs| ==> |fs[i].body| <= MAX_REMAINING_LENGTH
  }

  datatype ReadResult = ReadResult(rc: ResponseCode, threadContinues: bool, link: Link)

  function Min(a: nat, b: nat): nat {
    if a <= b then a else b
  }

  /** One call to the network layer's Read: the bytes delivered lie between the old place and the new one. */
  function ReadOnce(l: Link, want: nat): (r: ReadResult)
    requires l.Valid()
    ensures l.LeadsTo(r.link) && r.link.pos <= l.pos + want
    ensures l.turn < |l.schedule| ==> r.link.turn == l.turn + 1
    ensures r.rc.Success? ==> r.link.turn == l.turn + 1
    ensures !r.rc.Success? ==> r.link.pos == l.pos
  {
    if l.turn == |l.schedule| then ReadResult(NothingToRead, true, l)
    else
      var step := l.schedule[l.turn];
      var taken := if step.rc.Success? then Min(Min(step.count, want), |l.stream| - l.pos) else 0;
      ReadResult(step.rc, step.threadContinues, l.(pos := l.pos + taken, turn := l.turn + 1))
  }

  /** Reads until `want` bytes have come, a read fails, or the thread is told to stop. Whatever the schedule does,
      success means that exactly the bytes asked for were taken. */
  function ReadFully(l: Link, want: nat): (r: ReadResult)
    requires l.Valid()
    ensures l.LeadsTo(r.link) && r.link.pos <= l.pos + want
    ensures r.rc.Success? ==> r.link.pos == l.pos + want
    ensures r.rc.Success? || l.turn < |l.schedule| ==> l.turn < r.link.turn
    decreases |l.schedule| - l.turn
  {
    var one := ReadOnce(l, want);
    if !one.rc.Success? || one.link.pos == l.pos + want then one
    else if !one.threadContinues then one.(rc := ThreadExiting)
    else ReadFully(one.link, want - (one.link.pos - l.pos))
  }

  datatype LengthResult = LengthResult(rc: ResponseCode, value: nat, link: Link)

  /** The remaining length, one byte at a time, at most `budget` of them. */
  function ReadLength(l: Link, budget: nat): (r: LengthResult)
    requires l.Valid()
    ensures l.LeadsTo(r.link)
    decreases budget
  {
    if budget == 0 then LengthResult(Failure, 0, l)
    else
      var one := ReadFully(l, 1);
      if !one.rc.Success? then LengthResult(one.rc, 0, one.link)
      else
        var b := l.stream[l.pos];
        if b < 128 then LengthResult(Success, b, one.link)
        else
          var more := ReadLength(one.link, budget - 1);
          more.(value := b % 128 + 128 * more.value)
  }

  datatype FrameResult = FrameResult(rc: ResponseCode, frame: Frame, link: Link)

  const NO_FRAME := Frame(0, [])

  function ReadFrame(l: Link): (r: FrameResult)
    requires l.Valid()
    ensures l.LeadsTo(r.link)
    ensures r.rc.Success? || l.turn < |l.schedule| ==> l.turn < r.link.turn
  {
    var first := ReadFully(l, 1);
    if !first.rc.Success? then FrameResult(first.rc, NO_FRAME, first.link)
    else
      var header := l.stream[l.pos];
      var len := ReadLength(first.link, 4);
      if !len.rc.Success? then FrameResult(len.rc, NO_FRAME, len.link)
      else if len.value == 0 then FrameResult(Success, Frame(header, []), len.link)
      else
        var body := ReadFully(len.link, len.value);
        if !body.rc.Success? then FrameResult(body.rc, NO_FRAME, body.link)
        else FrameResult(Success, Frame(header, l.stream[len.link.pos..body.link.pos]), body.link)
  }

  /** The last call told the reading thread to stop. */
  predicate Told(l: Link)
    requires l.Valid()
  {
    l.turn > 0 && !l.schedule[l.turn - 1].threadContinues
  }

  /** What the packet loop comes to: the frames read, how many of them before any byte was lost, and the bytes that
      failed reads took and threw away. */
  datatype LoopResult = LoopResult(frames: seq<Frame>, clean: nat, lost: nat, link: Link)

  /** Packet after packet, going on after a read that failed, until the thread is told to stop or the schedule is
      spent. */
  function ReadOn(l: Link): (r: LoopResult)
    requires l.Valid()
    ensures l.LeadsTo(r.link) && r.clean <= |r.frames|
    ensures r.lost == 0 ==> r.clean == |r.frames|
    decreases |l.schedule| - l.turn
  {
    var one := ReadFrame(l);
    var frames := if one.rc.Success? then [one.frame] else [];
    var lost := if one.rc.Success? then 0 else one.link.pos - l.pos;
    if Told(one.link) || one.link.turn == |l.schedule| then
      LoopResult(frames, if lost > 0 then 0 else |frames|, lost, one.link)
    else
      var more := ReadOn(one.link);
      LoopResult(frames + more.frames, if lost > 0 then 0 else |frames| + more.clean, lost + more.lost, more.link)
  }

  /** The code a failed read should report: nothing to read where the schedule is spent, the network's own code where the
      last call failed, and the end of the thread where that call succeeded but the thread was told to stop. */
  predicate LastCallSays(l: Link, later: Link, rc: ResponseCode)
    requires l.Valid() && l.LeadsTo(later)
  {
    || (rc == NothingToRead && later.turn == |l.schedule|)
    || (l.turn < later.turn && var last := l.schedule[later.turn - 1];
        if last.rc.Success? then !last.threadContinues && rc == ThreadExiting else rc == last.rc)
  }

  lemma {:induction false} FailureMeaning(l: Link, want: nat)
    requires l.Valid()
    ensures var r := ReadFully(l, want); !r.rc.Success? ==> LastCallSays(l, r.link, r.rc)
    decreases |l.schedule| - l.turn
  {
    var one := ReadOnce(l, want);
    if one.rc.Success? && one.link.pos != l.pos + want && one.threadContinues {
      FailureMeaning(one.link, want - (one.link.pos - l.pos));
    }
  }

  /** A length that is not read fails with its last read, or because every byte within the budget goes on. */
  lemma {:induction false} LengthFailure(l: Link, budget: nat)
    requires l.Valid()
    ensures var r := ReadLength(l, budget);
            !r.rc.Success? ==>
              || LastCallSays(l, r.link, r.rc)
              || (r.rc == Failure && r.link.pos == l.pos + budget &&
                  forall i :: l.pos <= i < l.pos + budget ==> l.stream[i] >= 128)
    decreases budget
  {
    hide ReadFully;
    if budget > 0 {
      FailureMeaning(l, 1);
      var one := ReadFully(l, 1);
      if one.rc.Success? {
        LengthFailure(one.link, budget - 1);
      }
    }
  }

  /** A packet that is not read reports what its last read says, or a length of more than four bytes. */
  lemma FrameFailure(l: Link)
    requires l.Valid()
    ensures var r := ReadFrame(l);
            !r.rc.Success? ==>
              || LastCallSays(l, r.link, r.rc)
              || (r.rc == Failure && r.link.pos == l.pos + 5 &&
                  forall i :: l.pos + 1 <= i < l.pos + 5 ==> l.stream[i] >= 128)
  {
    hide ReadFully, ReadLength;
    FailureMeaning(l, 1);
    var first := ReadFully(l, 1);
    if first.rc.Success? {
      LengthFailure(first.link, 4);
      var len := ReadLength(first.link, 4);
      if len.rc.Success? {
        FailureMeaning(len.link, len.value);
      }
    }
  }

  // ---------- any schedule: what is read is what was sent ----------

  lemma {:induction false} ReadLengthTakes(l: Link, n: nat, budget: nat)
    requires l.Valid() && l.Next(EncodeLength(n)) && |EncodeLength(n)| <= budget
    ensures var r := ReadLength(l, budget);
            r.rc.Success? ==> r.value == n && r.link.pos == l.pos + |EncodeLength(n)|
    decreases n
  {
    hide ReadFully;
    var one := ReadFully(l, 1);
    assert l.stream[l.pos] == EncodeLength(n)[0];
    if one.rc.Success? && n >= 128 {
      NextTail(l, EncodeLength(n), one.link);
      ReadLengthTakes(one.link, n / 128, budget - 1);
    }
  }

  /** A length that is read is the one the standard's decoder finds in the bytes taken; so what that decoder refuses is
      never read. */
  lemma {:induction false} ReadLengthDecodes(l: Link, budget: nat)
    requires l.Valid()
    ensures var r := ReadLength(l, budget);
            r.rc.Success? ==> DecodeLength(l.stream[l.pos..], budget) == Some((r.value, r.link.pos - l.pos))
    decreases budget
  {
    hide ReadFully;
    if budget > 0 {
      var one := ReadFully(l, 1);
      if one.rc.Success? {
        assert l.stream[l.pos..][0] == l.stream[l.pos];
        assert l.stream[l.pos..][1..] == l.stream[one.link.pos..];
        ReadLengthDecodes(one.link, budget - 1);
      }
    }
  }

  /** No length is read where every byte within the budget carries the continuation bit, whatever the schedule does. */
  lemma ContinuationNeverRead(l: Link, budget: nat)
    requires l.Valid() && forall i :: l.pos <= i < |l.stream| && i < l.pos + budget ==> l.stream[i] >= 128
    ensures !ReadLength(l, budget).rc.Success?
  {
    hide ReadLength;
    ReadLengthDecodes(l, budget);
    var s := l.stream[l.pos..];
    forall i | 0 <= i < |s| && i < budget
      ensures s[i] >= 128
    {
      assert s[i] == l.stream[l.pos + i];
    }
    ContinuationRejected(s, budget);
  }

  lemma NextTail(l: Link, bs: seq<byte>, later: Link)
    requires l.Next(bs) && bs != [] && later.stream == l.stream && later.pos == l.pos + 1
    ensures later.Next(bs[1..]) && l.stream[l.pos] == bs[0]
  {
    assert l.stream[l.pos..l.pos + |bs|][1..] == bs[1..];
    assert l.stream[l.pos..l.pos + |bs|][0] == bs[0];
  }

  /** Bytes that come next split where the reader stops. */
  lemma NextSplit(l: Link, a: seq<byte>, b: seq<byte>, later: Link)
    requires l.Next(a + b) && later.stream == l.stream && later.pos == l.pos + |a|
    ensures l.Next(a) && later.Next(b)
  {
    assert l.stream[l.pos..l.pos + |a|] == (a + b)[..|a|] == a;
    assert l.stream[later.pos..later.pos + |b|] == (a + b)[|a|..] == b;
  }

  /** Under any schedule at all, a frame that is read is the frame that was sent, and reading stops at its end. */
  lemma ReadFrameTakes(l: Link, f: Frame)
    requires l.Valid() && |f.body| <= MAX_REMAINING_LENGTH && l.Next(FrameBytes(f))
    ensures var r := ReadFrame(l); r.rc.Success? ==> r.frame == f && r.link.pos == l.pos + |FrameBytes(f)|
  {
    hide ReadFully, ReadLength;
    var e := EncodeLength(|f.body|);
    EncodeLengthSize(|f.body|);
    var first := ReadFully(l, 1);
    if first.rc.Success? {
      assert FrameBytes(f) == [f.header] + (e + f.body);
      NextSplit(l, [f.header], e + f.body, first.link);
      NextSplit(first.link, e, f.body, first.link.(pos := first.link.pos + |e|));
      ReadLengthTakes(first.link, |f.body|, 4);
    }
  }

  /** The stream theorem, safety half: whatever the schedule does, the frames read before the first byte is lost are a
      prefix of the frames sent, in order, and while none is lost the reader stands between two packets. */
  lemma {:induction false} StreamPrefix(l: Link, fs: seq<Frame>)
    requires l.Valid() && WellSized(fs) && l.stream[l.pos..] == StreamOf(fs)
    ensures var r := ReadOn(l);
            && r.frames[..r.clean] <= fs
            && (r.lost == 0 ==> l.stream[r.link.pos..] == StreamOf(fs[r.clean..]))
    decreases |l.schedule| - l.turn
  {
    hide ReadFrame, StreamOf, FrameBytes;
    var one := ReadFrame(l);
    if one.rc.Success? {
      FrameOffTheFront(l, fs);
      assert fs == [fs[0]] + fs[1..];
      if !Told(one.link) && one.link.turn != |l.schedule| {
        StreamPrefix(one.link, fs[1..]);
        var more := ReadOn(one.link);
        assert ([one.frame] + more.frames)[..1 + more.clean] == [one.frame] + more.frames[..more.clean];
        assert fs[1..][more.clean..] == fs[1 + more.clean..];
      }
    } else if one.link.pos == l.pos {
      if !Told(one.link) && one.link.turn != |l.schedule| {
        StreamPrefix(one.link, fs);
        assert [] + ReadOn(one.link).frames == ReadOn(one.link).frames;
      }
    }
  }

  /** A frame read at a packet's beginning is that packet. */
  lemma FrameOffTheFront(l: Link, fs: seq<Frame>)
    requires l.Valid() && WellSized(fs) && l.stream[l.pos..] == StreamOf(fs) && ReadFrame(l).rc.Success?
    ensures fs != [] && ReadFrame(l).frame == fs[0] && WellSized(fs[1..])
    ensures l.stream[ReadFrame(l).link.pos..] == StreamOf(fs[1..])
  {
    hide ReadFrame;
    if fs == [] {
      NothingFromNothing(l);
    } else {
      StreamHead(l, fs);
      ReadFrameTakes(l, fs[0]);
    }
  }

  lemma StreamHead(l: Link, fs: seq<Frame>)
    requires l.Valid() && fs != [] && l.stream[l.pos..] == StreamOf(fs)
    ensures l.Next(FrameBytes(fs[0]))
    ensures l.stream[l.pos + |FrameBytes(fs[0])|..] == StreamOf(fs[1..])
  {
    var first := FrameBytes(fs[0]);
    assert l.stream[l.pos..] == first + StreamOf(fs[1..]);
    assert l.stream[l.pos..l.pos + |first|] == l.stream[l.pos..][..|first|];
    assert l.stream[l.pos + |first|..] == l.stream[l.pos..][|first|..];
  }

  /** No frame comes out of a stream that has been read to its end. */
  lemma NothingFromNothing(l: Link)
    requires l.Valid() && l.pos == |l.stream|
    ensures !ReadFrame(l).rc.Success? && ReadFrame(l).link.pos == l.pos
  {
    hide ReadFully;
  }

  // ---------- schedules of successful partial reads ----------

  /** From here on every read succeeds and brings at least one byte if there is one, and the thread is never
      stopped. */
  ghost predicate Steady(l: Link) {
    forall i :: l.turn <= i < |l.schedule| ==>
                  l.schedule[i].rc.Success? && l.schedule[i].count >= 1 && l.schedule[i].threadContinues
  }

  /** Turns left in the schedule. */
  function TurnsLeft(l: Link): nat
    requires l.Valid()
  {
    |l.schedule| - l.turn
  }

  lemma {:induction false} SteadyReadFully(l: Link, want: nat)
    requires l.Valid() && Steady(l) && 1 <= want <= |l.stream| - l.pos && want <= TurnsLeft(l)
    ensures var r := ReadFully(l, want); r.rc.Success? && TurnsLeft(r.link) + want >= TurnsLeft(l)
    decreases want
  {
    var one := ReadOnce(l, want);
    assert one.rc.Success? && l.pos < one.link.pos;
    if one.link.pos != l.pos + want {
      SteadyReadFully(one.link, want - (one.link.pos - l.pos));
    }
  }

  lemma {:induction false} SteadyReadLength(l: Link, n: nat, budget: nat)
    requires l.Valid() && l.Next(EncodeLength(n)) && |EncodeLength(n)| <= budget
    requires Steady(l) && |EncodeLength(n)| <= TurnsLeft(l)
    ensures var r := ReadLength(l, budget);
            r.rc.Success? && TurnsLeft(r.link) + |EncodeLength(n)| >= TurnsLeft(l)
    decreases n
  {
    hide ReadFully;
    SteadyReadFully(l, 1);
    var one := ReadFully(l, 1);
    NextTail(l, EncodeLength(n), one.link);
    if n >= 128 {
      SteadyReadLength(one.link, n / 128, budget - 1);
    }
  }

  lemma SteadyReadFrame(l: Link, f: Frame)
    requires l.Valid() && |f.body| <= MAX_REMAINING_LENGTH && l.Next(FrameBytes(f))
    requires Steady(l) && |FrameBytes(f)| <= TurnsLeft(l)
    ensures var r := ReadFrame(l);
            r.rc.Success? && TurnsLeft(r.link) + |FrameBytes(f)| >= TurnsLeft(l)
  {
    hide ReadFully, ReadLength;
    var e := EncodeLength(|f.body|);
    EncodeLengthSize(|f.body|);
    SteadyReadFully(l, 1);
    var first := ReadFully(l, 1);
    assert FrameBytes(f) == [f.header] + (e + f.body);
    NextSplit(l, [f.header], e + f.body, first.link);
    NextSplit(first.link, e, f.body, first.link.(pos := first.link.pos + |e|));
    SteadyReadLength(first.link, |f.body|, 4);
    ReadLengthTakes(first.link, |f.body|, 4);
    if f.body != [] {
      SteadyReadFully(ReadLength(first.link, 4).link, |f.body|);
    }
  }

  /** The stream theorem: packets concatenated and read back under any schedule of successful partial reads long
      enough to carry them come out frame by frame, in order, with no byte lost or left over. */
  lemma {:induction false} StreamRecovered(l: Link, fs: seq<Frame>)
    requires l.Valid() && WellSized(fs) && l.stream[l.pos..] == StreamOf(fs)
    requires Steady(l) && |StreamOf(fs)| <= TurnsLeft(l)
    ensures var r := ReadOn(l); r.frames == fs && r.lost == 0 && r.link.pos == |l.stream|
    decreases |l.schedule| - l.turn
  {
    hide ReadFrame, FrameBytes;
    var one := ReadFrame(l);
    if fs == [] {
      NothingFromNothing(l);
      if one.link.turn != |l.schedule| && !Told(one.link) {
        StreamRecovered(one.link, fs);
      }
    } else {
      StreamHead(l, fs);
      SteadyReadFrame(l, fs[0]);
      ReadFrameTakes(l, fs[0]);
      assert fs == [fs[0]] + fs[1..];
      SomethingLeft(fs[1..]);
      assert !Told(one.link);
      if one.link.turn != |l.schedule| {
        StreamRecovered(one.link, fs[1..]);
      }
    }
  }

  lemma SomethingLeft(fs: seq<Frame>)
    ensures fs != [] ==> |StreamOf(fs)| > 0
  {
    hide EncodeLength;
  }

  // ---------- exactly when the stream is recovered ----------

  /** A frame takes at least the bytes its packet would be sent with. */
  lemma FrameCost(l: Link)
    requires l.Valid() && ReadFrame(l).rc.Success?
    ensures l.pos + |FrameBytes(ReadFrame(l).frame)| <= ReadFrame(l).link.pos
  {
    hide ReadFully, ReadLength, EncodeLength, DecodeLength;
    var first := ReadFully(l, 1);
    ReadLengthDecodes(first.link, 4);
    EncodingIsShortest(l.stream[first.link.pos..], 4);
  }

  /** Frames and losses together are no more than what was taken off the stream. */
  lemma {:induction false} LoopCost(l: Link)
    requires l.Valid()
    ensures |StreamOf(ReadOn(l).frames)| + ReadOn(l).lost <= ReadOn(l).link.pos - l.pos
    decreases |l.schedule| - l.turn
  {
    hide ReadFrame, FrameBytes;
    var one := ReadFrame(l);
    if one.rc.Success? {
      FrameCost(l);
      assert [one.frame] + [] == [one.frame];
    }
    if !Told(one.link) && one.link.turn != |l.schedule| {
      LoopCost(one.link);
      if one.rc.Success? {
      } else {
        assert [] + ReadOn(one.link).frames == ReadOn(one.link).frames;
      }
    }
  }

  /** Under any schedule at all, the loop recovers exactly the packets sent if and only if no failed read took a byte
      and the stream was read to its end. */
  lemma RecoveredExactly(l: Link, fs: seq<Frame>)
    requires l.Valid() && WellSized(fs) && l.stream[l.pos..] == StreamOf(fs)
    ensures var r := ReadOn(l); r.frames == fs <==> r.lost == 0 && r.link.pos == |l.stream|
  {
    hide ReadOn, StreamOf;
    var r := ReadOn(l);
    LoopCost(l);
    StreamPrefix(l, fs);
    assert |StreamOf(fs)| == |l.stream| - l.pos;
    if r.lost == 0 && r.link.pos == |l.stream| {
      assert r.frames[..r.clean] == r.frames;
      SomethingLeft(fs[r.clean..]);
      assert l.stream[r.link.pos..] == [];
    }
  }

  /** A read that finds nothing in the middle of a packet loses the bytes already taken: the loop starts over at a
      byte that is not a header. Here a PUBACK is cut after its first byte and the rest is taken for another packet. */
  lemma MidFramePauseDesynchronises()
    ensures var go := ReadStep(1, Success, true);
            var l := Link(FrameBytes(Frame(0x40, [0, 7])), 0, [go, ReadStep(0, NothingToRead, true), go, go], 0);
            ReadOn(l).frames == [Frame(0x02, [])] && ReadOn(l).lost == 1
  {
    var go := ReadStep(1, Success, true);
    var l := Link(FrameBytes(Frame(0x40, [0, 7])), 0, [go, ReadStep(0, NothingToRead, true), go, go], 0);
    assert l.stream == [0x40, 0x02, 0x00, 0x07];
    var later := l.(pos := 1, turn := 2);
    assert ReadFrame(l) == FrameResult(NothingToRead, NO_FRAME, later);
    assert ReadFrame(later) == FrameResult(Success, Frame(0x02, []), later.(pos := 3, turn := 4));
    hide ReadFrame;
    assert ReadOn(later) == LoopResult([Frame(0x02, [])], 1, 0, later.(pos := 3, turn := 4));
    assert [] + ReadOn(later).frames == [Frame(0x02, [])];
  }

  // ---------- the loops ----------

  /** One turn of the partial-transfer loop. */
  lemma ReadFullyOnce(l: Link, want: nat)
    requires l.Valid()
    ensures var one := ReadOnce(l, want);
            var got := one.link.pos - l.pos;
            ReadFully(l, want) ==
            if !one.rc.Success? || got == want then one
            else if !one.threadContinues then one.(rc := ThreadExiting)
            else ReadFully(one.link, want - got)
  {
  }

  /** One turn of the length loop. */
  lemma ReadLengthOnce(l: Link, budget: nat)
    requires l.Valid()
    ensures budget == 0 ==> ReadLength(l, budget) == LengthResult(Failure, 0, l)
    ensures budget > 0 ==>
              var one := ReadFully(l, 1);
              var r := ReadLength(l, budget);
              && (!one.rc.Success? ==> r.rc == one.rc && r.link == one.link)
              && (one.rc.Success? ==>
                    var b := l.stream[l.pos];
                    if b < 128 then r == LengthResult(Success, b, one.link)
                    else
                      var more := ReadLength(one.link, budget - 1);
                      r == more.(value := b % 128 + 128 * more.value))
  {
  }

  /** One turn of the packet loop. */
  lemma ReadOnOnce(l: Link)
    requires l.Valid()
    ensures var one := ReadFrame(l);
            var here := if one.rc.Success? then [one.frame] else [];
            var r := ReadOn(l);
            if Told(one.link) || one.link.turn == |l.schedule| then r.frames == here && r.link == one.link
            else r.frames == here + ReadOn(one.link).frames && r.link == ReadOn(one.link).link
  {
    hide ReadFrame;
  }

  class NetworkReader {
    const stream: seq<byte>
    const schedule: seq<ReadStep>
    var pos: nat
    var turn: nat

    constructor (stream: seq<byte>, schedule: seq<ReadStep>)
      ensures Place() == Link(stream, 0, schedule, 0)
    {
      this.stream, this.schedule := stream, schedule;
      pos, turn := 0, 0;
    }

    ghost function Place(): Link
      reads this
    {
      Link(stream, pos, schedule, turn)
    }

    /** One call to the network layer. */
    method Read(want: nat) returns (rc: ResponseCode, chunk: seq<byte>, threadContinues: bool)
      requires Place().Valid()
      modifies this
      ensures Place().Valid()
      ensures ReadResult(rc, threadContinues, Place()) == ReadOnce(old(Place()), want)
      ensures chunk == stream[old(pos)..pos]
    {
      if turn == |schedule| {
        return NothingToRead, [], true;
      }
      var step := schedule[turn];
      turn := turn + 1;
      rc, threadContinues, chunk := step.rc, step.threadContinues, [];
      if rc.Success? {
        var taken := Min(Min(step.count, want), |stream| - pos);
        chunk := stream[pos..pos + taken];
        pos := pos + taken;
      }
    }

    /** The partial-transfer loop: keeps asking for what is still missing. */
    method ReadFromNetworkBuffer(bytesToRead: nat) returns (rc: ResponseCode, readBuf: seq<byte>)
      requires Place().Valid()
      modifies this
      ensures Place().Valid()
      ensures rc == ReadFully(old(Place()), bytesToRead).rc
      ensures Place() == ReadFully(old(Place()), bytesToRead).link
      ensures readBuf == stream[old(pos)..pos]
    {
      hide ReadOnce, ReadFully;
      readBuf := [];
      var threadContinues := true;
      ghost var start, here := Place(), Place();
      while true
        invariant here == Place() && here.Valid() && start.pos <= pos <= start.pos + bytesToRead
        invariant readBuf == stream[start.pos..pos]
        invariant ReadFully(start, bytesToRead) == ReadFully(here, start.pos + bytesToRead - here.pos)
        decreases |schedule| - turn
      {
        ReadFullyOnce(here, start.pos + bytesToRead - here.pos);
        var chunk;
        rc, chunk, threadContinues := Read(bytesToRead - |readBuf|);
        readBuf := readBuf + chunk;
        here := Place();
        if !(threadContinues && |readBuf| != bytesToRead && rc.Success?) {
          break;
        }
      }
      if rc.Success? && |readBuf| != bytesToRead {
        rc := if !threadContinues then ThreadExiting else Failure;
      }
    }

    /** The multiplier loop; a fifth length byte is refused without being read. */
    method DecodeRemainingLength() returns (rc: ResponseCode, remLen: nat)
      requires Place().Valid()
      modifies this
      ensures Place().Valid()
      ensures rc == ReadLength(old(Place()), 4).rc && Place() == ReadLength(old(Place()), 4).link
      ensures rc.Success? ==> remLen == ReadLength(old(Place()), 4).value
    {
      hide ReadFully, ReadLength;
      remLen := 0;
      var multiplier, len := 1, 0;
      ghost var here := Place();
      ghost var whole, rest := ReadLength(here, 4), ReadLength(here, 4);
      while true
        invariant 0 <= len <= 4 && multiplier > 0
        invariant here == Place() && here.Valid() && rest == ReadLength(here, 4 - len)
        invariant whole.rc == rest.rc && whole.link == rest.link
        invariant whole.rc.Success? ==> whole.value == remLen + multiplier * rest.value
        decreases 4 - len
      {
        ReadLengthOnce(here, 4 - len);
        len := len + 1;
        if len > 4 {
          rc := Failure;
          break;
        }
        var buf;
        rc, buf := ReadFromNetworkBuffer(1);
        here := Place();
        if !rc.Success? {
          break;
        }
        rest := ReadLength(here, 4 - len);
        remLen := remLen + buf[0] % 128 * multiplier;
        multiplier := multiplier * 128;
        if buf[0] < 128 {
          break;
        }
      }
    }

    method ReadPacketFromNetwork() returns (rc: ResponseCode, header: byte, readBuf: seq<byte>)
      requires Place().Valid()
      modifies this
      ensures Place().Valid()
      ensures rc == ReadFrame(old(Place())).rc && Place() == ReadFrame(old(Place())).link
      ensures rc.Success? ==> Frame(header, readBuf) == ReadFrame(old(Place())).frame
    {
      hide ReadFully, ReadLength;
      header := 0;
      rc, readBuf := ReadFromNetworkBuffer(1);
      if !rc.Success? {
        return;
      }
      header := readBuf[0];
      readBuf := [];
      var remLen;
      rc, remLen := DecodeRemainingLength();
      if !rc.Success? {
        return;
      }
      if 0 < remLen {
        rc, readBuf := ReadFromNetworkBuffer(remLen);
      }
    }

    /** The packet loop: a read that fails is passed over, and reading goes on at the byte after the last one taken. */
    method ReadPackets() returns (frames: seq<Frame>)
      requires Place().Valid()
      modifies this
      ensures Place().Valid()
      ensures frames == ReadOn(old(Place())).frames && Place() == ReadOn(old(Place())).link
    {
      hide ReadFrame, ReadOn;
      frames := [];
      ghost var whole, rest := ReadOn(Place()), ReadOn(Place());
      while true
        invariant Place().Valid() && rest == ReadOn(Place())
        invariant whole.link == rest.link && whole.frames == frames + rest.frames
        decreases |schedule| - turn
      {
        ReadOnOnce(Place());
        var rc, header, body := ReadPacketFromNetwork();
        if rc.Success? {
          frames := frames + [Frame(header, body)];
        }
        if turn == |schedule| || (turn > 0 && !schedule[turn - 1].threadContinues) {
          break;
        }
        rest := ReadOn(Place());
      }
    }
  }
}
