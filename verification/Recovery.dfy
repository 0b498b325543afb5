/** Which schedules of reads recover a stream of packets (src/Action.cpp:35-71, src/mqtt/NetworkRead.cpp:56-187). */
module Recovery {
  import opened MqttTypes
  import opened PacketHeader
  import opened Framing

  /** How many bytes the reader asks for after `taken` bytes of a packet: header and length come one by one, the body in
      one piece. */
  function Asked(f: Frame, taken: nat): (n: nat)
    requires taken < |FrameBytes(f)|
    ensures 1 <= n <= |FrameBytes(f)| - taken
  {
    if taken <= |EncodeLength(|f.body|)| then 1 else |FrameBytes(f)| - taken
  }

  /** The schedule carries the packets, `taken` bytes of the first having come: no read fails inside a packet, the
      thread is not told to stop between packets, nor with part of a request outstanding, and there are reads enough. A
      read may fail between packets. */
  predicate Carries(schedule: seq<ReadStep>, turn: nat, fs: seq<Frame>, taken: nat)
    requires turn <= |schedule| && (fs != [] ==> taken < |FrameBytes(fs[0])|)
    decreases |schedule| - turn, 0
  {
    if fs == [] then true
    else if turn == |schedule| then false
    else
      var step, asked := schedule[turn], Asked(fs[0], taken);
      if !step.rc.Success? then taken == 0 && step.threadContinues && Carries(schedule, turn + 1, fs, 0)
      else if step.count < asked then step.threadContinues && Carries(schedule, turn + 1, fs, taken + step.count)
      else CarriesAfter(schedule, turn + 1, fs, taken + asked, step.threadContinues)
  }

  /** The same where a request has just been met. */
  predicate CarriesAfter(schedule: seq<ReadStep>, turn: nat, fs: seq<Frame>, taken: nat, threadContinues: bool)
    requires turn <= |schedule| && fs != [] && taken <= |FrameBytes(fs[0])|
    decreases |schedule| - turn, 1
  {
    if taken < |FrameBytes(fs[0])| then Carries(schedule, turn, fs, taken)
    else fs[1..] == [] || (threadContinues && Carries(schedule, turn, fs[1..], 0))
  }

  lemma {:induction false} RequestCarried(l: Link, fs: seq<Frame>, taken: nat)
    requires l.Valid() && fs != [] && taken < |FrameBytes(fs[0])| && Asked(fs[0], taken) <= |l.stream| - l.pos
    ensures var asked := Asked(fs[0], taken);
            var r := ReadFully(l, asked);
            Carries(l.schedule, l.turn, fs, taken) ==
            if r.rc.Success? then CarriesAfter(l.schedule, r.link.turn, fs, taken + asked, !Told(r.link))
            else taken == 0 && !Told(r.link) && Carries(l.schedule, r.link.turn, fs, 0)
    ensures !ReadFully(l, Asked(fs[0], taken)).rc.Success? && taken == 0 ==>
              ReadFully(l, Asked(fs[0], taken)).link.pos == l.pos
    decreases |l.schedule| - l.turn
  {
    hide FrameBytes, EncodeLength;
    var asked := Asked(fs[0], taken);
    var one := ReadOnce(l, asked);
    if one.rc.Success? && one.link.pos != l.pos + asked && one.threadContinues {
      RequestCarried(one.link, fs, taken + (one.link.pos - l.pos));
    }
  }

  lemma {:induction false} LengthCarried(l: Link, fs: seq<Frame>, taken: nat, m: nat, budget: nat)
    requires l.Valid() && fs != [] && l.Next(EncodeLength(m)) && |EncodeLength(m)| <= budget && taken >= 1
    requires taken + |EncodeLength(m)| == 1 + |EncodeLength(|fs[0].body|)|
    ensures var r, met := ReadLength(l, budget), taken + |EncodeLength(m)|;
            && met <= |FrameBytes(fs[0])|
            && Carries(l.schedule, l.turn, fs, taken) ==
               (r.rc.Success? && CarriesAfter(l.schedule, r.link.turn, fs, met, !Told(r.link)))
    decreases m
  {
    RequestCarried(l, fs, taken);
    hide ReadFully, Carries;
    var one := ReadFully(l, 1);
    assert l.stream[l.pos] == EncodeLength(m)[0];
    if one.rc.Success? && m >= 128 {
      NextTail(l, EncodeLength(m), one.link);
      LengthCarried(one.link, fs, taken + 1, m / 128, budget - 1);
    }
  }

  lemma AfterPart(schedule: seq<ReadStep>, turn: nat, fs: seq<Frame>, taken: nat, threadContinues: bool)
    requires turn <= |schedule| && fs != [] && taken < |FrameBytes(fs[0])|
    ensures CarriesAfter(schedule, turn, fs, taken, threadContinues) == Carries(schedule, turn, fs, taken)
  {
  }

  /** From the length on. */
  lemma BodyCarried(l: Link, fs: seq<Frame>)
    requires l.Valid() && fs != [] && |fs[0].body| <= MAX_REMAINING_LENGTH
    requires var e := EncodeLength(|fs[0].body|);
             l.Next(e) && |e| <= 4 && l.pos + |e| + |fs[0].body| <= |l.stream| &&
             |FrameBytes(fs[0])| == 1 + |e| + |fs[0].body|
    ensures var len, size := ReadLength(l, 4), |FrameBytes(fs[0])|;
            if !len.rc.Success? then !Carries(l.schedule, l.turn, fs, 1)
            else if len.value == 0 then
              Carries(l.schedule, l.turn, fs, 1) == CarriesAfter(l.schedule, len.link.turn, fs, size, !Told(len.link))
            else
              var body := ReadFully(len.link, len.value);
              Carries(l.schedule, l.turn, fs, 1) ==
              (body.rc.Success? && CarriesAfter(l.schedule, body.link.turn, fs, size, !Told(body.link)))
  {
    hide ReadFully, ReadLength, Carries, CarriesAfter, EncodeLength, FrameBytes;
    var e := EncodeLength(|fs[0].body|);
    LengthCarried(l, fs, 1, |fs[0].body|, 4);
    ReadLengthTakes(l, |fs[0].body|, 4);
    var len := ReadLength(l, 4);
    if len.rc.Success? && fs[0].body != [] {
      AfterPart(l.schedule, len.link.turn, fs, 1 + |e|, !Told(len.link));
      RequestCarried(len.link, fs, 1 + |e|);
    }
  }

  lemma FrameCarried(l: Link, fs: seq<Frame>)
    requires l.Valid() && fs != [] && |fs[0].body| <= MAX_REMAINING_LENGTH && l.Next(FrameBytes(fs[0]))
    ensures var r, size := ReadFrame(l), |FrameBytes(fs[0])|;
            Carries(l.schedule, l.turn, fs, 0) ==
            if r.rc.Success? then CarriesAfter(l.schedule, r.link.turn, fs, size, !Told(r.link))
            else r.link.pos == l.pos && !Told(r.link) && Carries(l.schedule, r.link.turn, fs, 0)
  {
    var f := fs[0];
    var e := EncodeLength(|f.body|);
    EncodeLengthSize(|f.body|);
    RequestCarried(l, fs, 0);
    assert FrameBytes(f) == [f.header] + (e + f.body);
    hide ReadFully, ReadLength, Carries, EncodeLength, FrameBytes;
    var first := ReadFully(l, 1);
    if first.rc.Success? {
      NextSplit(l, [f.header], e + f.body, first.link);
      NextSplit(first.link, e, f.body, first.link.(pos := first.link.pos + |e|));
      BodyCarried(first.link, fs);
      assert Carries(l.schedule, l.turn, fs, 0) == Carries(l.schedule, first.link.turn, fs, 1);
      hide CarriesAfter;
    }
  }

  lemma CarriesEnds(schedule: seq<ReadStep>, turn: nat, fs: seq<Frame>)
    requires turn <= |schedule|
    ensures fs == [] ==> Carries(schedule, turn, fs, 0)
    ensures fs != [] ==> !Carries(schedule, |schedule|, fs, 0)
  {
  }

  lemma {:induction false} LoopCarried(l: Link, fs: seq<Frame>)
    requires l.Valid() && WellSized(fs) && l.stream[l.pos..] == StreamOf(fs)
    ensures Carries(l.schedule, l.turn, fs, 0) <==> ReadOn(l).lost == 0 && ReadOn(l).link.pos == |l.stream|
    decreases |l.schedule| - l.turn
  {
    hide ReadFrame, FrameBytes, Carries;
    var one := ReadFrame(l);
    CarriesEnds(l.schedule, l.turn, fs);
    CarriesEnds(l.schedule, one.link.turn, fs);
    if fs == [] {
      NothingFromNothing(l);
    } else {
      StreamHead(l, fs);
      FrameCarried(l, fs);
      SomethingLeft(fs);
      SomethingLeft(fs[1..]);
      CarriesEnds(l.schedule, one.link.turn, fs[1..]);
      ReadFrameTakes(l, fs[0]);
    }
    if !Told(one.link) && one.link.turn != |l.schedule| {
      if one.rc.Success? {
        LoopCarried(one.link, fs[1..]);
      } else if one.link.pos == l.pos {
        LoopCarried(one.link, fs);
      } else {
        assert ReadOn(l).lost > 0;
      }
    }
  }

  /** Whatever the packets are, the loop recovers exactly them if and only if the schedule carries them. */
  lemma CarriedExactly(l: Link, fs: seq<Frame>)
    requires l.Valid() && WellSized(fs) && l.stream[l.pos..] == StreamOf(fs)
    ensures ReadOn(l).frames == fs <==> Carries(l.schedule, l.turn, fs, 0)
  {
    RecoveredExactly(l, fs);
    LoopCarried(l, fs);
    hide ReadOn, StreamOf, Carries;
  }
}
