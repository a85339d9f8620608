/**
 Channels that have run out of window for good. Bytes that a receiver ignores, and bytes that a failed write discards,
 are never given back as credit: a direction whose credit is gone never carries another byte, and every window can be
 lost that way.
 */
module ChannelStall {
  import opened Basics
  import opened ChannelEndpoint
  import opened ChannelProtocol
  import opened ChannelSafety
  import opened ChannelProgress

  /** The receiver c has nothing to write, and its window holds nothing but what it ignored. */
  predicate Parched(c: Chan, h: History) {
    && c.kind == Open && c.localWindow == h.ignored && c.output == [] && !WantsExtendedWrite(c)
    && (c.localConsumed == 0 || !WindowLow(c))
  }

  /** What keeps a parched receiver parched. */
  predicate StillDry(c: Chan, d: Chan) {
    && d.kind == c.kind && d.usage == c.usage && d.output == c.output
    && d.localWindow == c.localWindow && d.localConsumed == c.localConsumed
    && d.localWindowMax == c.localWindowMax && d.localMaxPacket == c.localMaxPacket
    && (d.efd ==> c.efd) && ReceiverOf(d).extended == ReceiverOf(c).extended
    && (c.istate == InputClosed ==> d.istate == InputClosed) && (c.ostate == OutputClosed ==> d.ostate == OutputClosed)
  }

  lemma DryStaysParched(c: Chan, d: Chan, h: History, h': History)
    requires Parched(c, h) && StillDry(c, d) && h'.ignored == h.ignored
    ensures Parched(d, h')
  {
  }

  lemma InputStaysDry(c: Chan, i: InputState, input: Bytes)
    requires c.istate == InputClosed ==> i == InputClosed
    ensures StillDry(c, c.(istate := i, input := input))
  {
  }

  lemma ReadsStayDry(c: Chan, bytes: Bytes)
    ensures StillDry(c, HandleRead(c, bytes))
  {
    if WantsRead(c) && bytes != [] {
      InputStaysDry(c, c.istate, c.input + Taken(c, bytes));
    } else {
      InputStaysDry(c, ReadFailed(c).istate, c.input);
    }
  }

  lemma ExtendedReadsStayDry(c: Chan, bytes: Bytes)
    ensures StillDry(c, HandleExtendedRead(c, bytes))
  {
    if WantsExtendedRead(c) && |bytes| > 0 {
      var extended := c.extended + ExtendedTaken(c, bytes);
      assert HandleExtendedRead(c, bytes) == c.(extended := extended);
    }
  }

  lemma NothingToWrite(c: Chan, room: nat)
    requires c.output == [] && !WantsExtendedWrite(c)
    ensures HandleWrite(c, room) == Reaction(c, []) && HandleExtendedWrite(c, room) == c
    ensures Written(c, room) == [] && ExtendedWritten(c, room) == []
  {
  }

  lemma NothingToGrant(c: Chan, h: History)
    requires Parched(c, h)
    ensures CheckWindow(c) == Reaction(c, [])
  {
  }

  lemma EofSentStaysDry(c: Chan, eofSent: bool)
    ensures StillDry(c, c.(eofSent := eofSent, istate := InputClosed))
  {
  }

  lemma PacketSentStaysDry(c: Chan, input: Bytes, window: U32)
    ensures StillDry(c, c.(input := input, remoteWindow := window))
  {
  }

  lemma PollInputStaysDry(c: Chan)
    ensures StillDry(c, PollInput(c).chan)
  {
    var d := PollInput(c).chan;
    if d == c {
    } else if |c.input| == 0 {
      EofSentStaysDry(c, d.eofSent);
    } else {
      PacketSentStaysDry(c, d.input, d.remoteWindow);
    }
  }

  lemma PollExtendedStaysDry(c: Chan)
    ensures StillDry(c, PollExtended(c).chan)
  {
  }

  lemma OutputStaysDry(c: Chan, eof: bool, o: OutputState)
    requires c.ostate == OutputClosed ==> o == OutputClosed
    ensures StillDry(c, c.(eofRcvd := eof, ostate := o))
  {
  }

  lemma DrainStaysDry(c: Chan)
    ensures StillDry(c, PreOpen(c))
  {
    var o := PreOpen(c).ostate;
    assert PreOpen(c) == c.(ostate := o);
    OutputStaysDry(c, c.eofRcvd, o);
  }

  lemma CollectStaysDry(c: Chan)
    ensures StillDry(c, CollectGarbage(c).chan)
  {
    var d := CollectGarbage(c).chan;
    assert d == c.(closeSent := d.closeSent);
  }

  lemma AdjustStaysDry(c: Chan, n: U32)
    ensures InputAdjust(c, n).Reaction? ==> StillDry(c, InputAdjust(c, n).chan)
  {
  }

  lemma CloseStaysDry(c: Chan)
    requires c.kind == Open
    ensures ReceivedClose(c).Reaction? && StillDry(c, ReceivedClose(c).chan)
  {
  }

  lemma EowStaysDry(c: Chan)
    ensures StillDry(c, ReceivedEow(c))
  {
    InputStaysDry(c, ReceivedEow(c).istate, c.input);
  }

  lemma ReceivedStaysDry(c: Chan, m: Message)
    requires c.kind == Open && !Payload(m)
    ensures Receive(c, m).Reaction? ==> StillDry(c, Receive(c, m).chan)
  {
    match m
    case Adjust(n) => AdjustStaysDry(c, n);
    case Eof => EofStaysDry(c);
    case Close => CloseStaysDry(c);
    case Eow => EowStaysDry(c);
  }

  lemma EofStateStaysDry(c: Chan)
    ensures StillDry(c, ReceivedEofState(c)) && ReceivedEofState(c).istate == c.istate
  {
    var o := ReceivedEofState(c).ostate;
    assert ReceivedEofState(c) == c.(eofRcvd := true, ostate := o);
    OutputStaysDry(c, true, o);
  }

  lemma InputDrainStaysDry(c: Chan)
    requires c.istate == InputOpen
    ensures var r := InputBufferEmpty(c.(istate := InputWaitDrain)); r.Reaction? && StillDry(c, r.chan)
  {
    if |c.input| == 0 {
      EofSentStaysDry(c, c.eofSent || !c.closeSent);
    } else {
      InputStaysDry(c, InputWaitDrain, c.input);
    }
  }

  lemma DryTwice(c: Chan, d: Chan, e: Chan)
    requires StillDry(c, d) && StillDry(d, e)
    ensures StillDry(c, e)
  {
  }

  lemma EofStaysDry(c: Chan)
    requires c.kind == Open
    ensures ReceivedEof(c).Reaction? && StillDry(c, ReceivedEof(c).chan)
  {
    var d := ReceivedEofState(c);
    EofStateStaysDry(c);
    if d.forceDrain && d.istate == InputOpen {
      InputDrainStaysDry(d);
      DryTwice(c, d, ReceivedEof(c).chan);
    }
  }

  /** With the window full of ignored bytes, no payload can be on its way. */
  lemma ParchedHearsNoPayload(s: System)
    requires Inv(s) && Parched(s.a, s.hba) && s.ba != []
    ensures !Payload(s.ba[0])
  {
  }

  /** The end a is, after an event, as parched as before. */
  lemma StaysParched(s: System, t: System)
    requires Parched(s.a, s.hba) && StillDry(s.a, t.a) && t.hba.ignored == s.hba.ignored
    requires t.hba.written == s.hba.written && t.hba.extWritten == s.hba.extWritten
    ensures StillParched(s, t)
  {
    DryStaysParched(s.a, t.a, s.hba, t.hba);
  }

  predicate StillParched(s: System, t: System) {
    Parched(t.a, t.hba) && t.hba.written == s.hba.written && t.hba.extWritten == s.hba.extWritten
  }

  lemma ReceiverHears(s: System)
    requires Inv(s) && Parched(s.a, s.hba) && StepA(s, Deliver).Running?
    ensures StillParched(s, StepA(s, Deliver).sys)
  {
    if s.ba != [] {
      ParchedHearsNoPayload(s);
      ReceivedStaysDry(s.a, s.ba[0]);
      StaysParched(s, StepA(s, Deliver).sys);
    }
  }

  lemma ReceiverFiles(s: System, e: Event)
    requires Parched(s.a, s.hba) && StepA(s, e).Running? && (e.ReadReady? || e.ExtReadReady? || e.WriteReady? || e.ExtWriteReady?)
    ensures StillParched(s, StepA(s, e).sys)
  {
    match e
    case ReadReady(ready) => ReadsStayDry(s.a, ready); StaysParched(s, StepA(s, e).sys);
    case ExtReadReady(ready) => ExtendedReadsStayDry(s.a, ready); StaysParched(s, StepA(s, e).sys);
    case WriteReady(room) => NothingToWrite(s.a, room); NothingMore(s.hba.written);
    case ExtWriteReady(room) => NothingToWrite(s.a, room); NothingMore(s.hba.extWritten);
  }

  lemma ReceiverPolls(s: System, e: Event)
    requires Parched(s.a, s.hba) && StepA(s, e).Running? && e in {DoPollInput, DoPollExtended, DoPreOpen, DoCollect}
    ensures StillParched(s, StepA(s, e).sys)
  {
    PollInputStaysDry(s.a);
    PollExtendedStaysDry(s.a);
    DrainStaysDry(s.a);
    CollectStaysDry(s.a);
    StaysParched(s, StepA(s, e).sys);
  }

  /** No event at the receiving end ends the drought. */
  lemma ReceiverStep(s: System, e: Event)
    requires Inv(s) && Parched(s.a, s.hba)
    ensures StepA(s, e).Running? && StillParched(s, StepA(s, e).sys)
  {
    KeepStepA(s, e);
    match e
    case Deliver => ReceiverHears(s);
    case DoCheckWindow => NothingToGrant(s.a, s.hba);
    case DoActivate(_, _, _) =>
    case DoPollInput => ReceiverPolls(s, e);
    case DoPollExtended => ReceiverPolls(s, e);
    case DoPreOpen => ReceiverPolls(s, e);
    case DoCollect => ReceiverPolls(s, e);
    case _ => ReceiverFiles(s, e);
  }

  /** Nor does an event at the sending end. */
  lemma SenderStep(s: System, e: Event)
    requires StepA(s, e).Running?
    ensures var t := StepA(s, e).sys;
      t.b == s.b && t.hab == s.hab.(read := t.hab.read, extRead := t.hab.extRead)
  {
  }

  /** Once b is parched, no continuation gives a any window or writes another byte at b. */
  lemma {:induction false} DroughtIsFinal(s: System, es: seq<(bool, Event)>)
    requires Inv(s) && Parched(s.b, s.hab)
    ensures var r := Run(s, es);
      && r.Running? && Parched(r.sys.b, r.sys.hab) && r.sys.a.remoteWindow == 0
      && r.sys.hab.written == s.hab.written && r.sys.hab.extWritten == s.hab.extWritten
    decreases es
  {
    if es != [] {
      var e := es[0];
      KeepStep(s, e);
      if e.0 {
        SenderStep(s, e.1);
      } else {
        ReceiverStep(s.Mirror(), e.1);
      }
      DroughtIsFinal(Step(s, e).sys, es[1..]);
    }
  }

  /** A stalled direction is parched, so the stall is for good. */
  lemma StallIsFinal(s: System, es: seq<(bool, Event)>)
    requires Inv(s) && Stalled(s) && s.b.kind == Open
    ensures var r := Run(s, es);
      r.Running? && r.sys.a.remoteWindow == 0 && r.sys.hab.written == s.hab.written && r.sys.hab.extWritten == s.hab.extWritten
  {
    var gap := s.b.localWindowMax - s.b.localWindow;
    assert s.b.output == [] && s.b.localWindow == s.hab.ignored;
    assert (gap + TWO_TO_32) % TWO_TO_32 == gap;
    DroughtIsFinal(s, es);
  }

  /** A failed write has discarded a whole window of buffered output. */
  predicate WindowLost(s: System) { s.b.kind == Open && s.hab.dropped >= s.b.localWindowMax }

  /** chan_shutdown_write empties the output buffer without counting it as consumed. */
  lemma LostWindowIsFinal(s: System, es: seq<(bool, Event)>)
    requires Inv(s) && WindowLost(s)
    ensures var r := Run(s, es);
      r.Running? && r.sys.a.remoteWindow == 0 && r.sys.hab.written == s.hab.written && r.sys.hab.extWritten == s.hab.extWritten
  {
    DroughtIsFinal(s, es);
  }

  // ---- every window can be lost

  lemma {:induction false} RunAppend(s: System, es: seq<(bool, Event)>, fs: seq<(bool, Event)>, t: System)
    requires Run(s, es) == Running(t)
    ensures Run(s, es + fs) == Run(t, fs)
    decreases es
  {
    if es == [] {
      assert es + fs == fs;
    } else {
      assert (es + fs)[1..] == es[1..] + fs;
      RunAppend(Step(s, es[0]).sys, es[1..], fs, t);
    }
  }

  lemma RunThree(s: System, e: (bool, Event), f: (bool, Event), g: (bool, Event), t: System, u: System, v: System)
    requires Step(s, e) == Running(t) && Step(t, f) == Running(u) && Step(u, g) == Running(v)
    ensures Run(s, [e, f, g]) == Running(v)
  {
    assert [e, f, g][1..] == [f, g] && [f, g][1..] == [g] && [g][1..] == [];
    assert Run(u, [g]) == Running(v);
  }

  /** a, which may send, and b, which ignores stderr, with nothing on the way. */
  predicate Ignoring(s: System) {
    && s.a.kind == s.b.kind == Open && !s.a.AnyClose() && !s.a.eofSent && s.a.istate != InputClosed
    && s.a.usage == Read && s.a.efd && s.a.extended == [] && s.a.remoteMaxPacket > 0
    && !s.b.eofRcvd && !s.b.Dead() && !ReceiverOf(s.b).efd
    && s.ab == [] && s.ba == []
  }

  lemma ReadIgnored(s: System, x: Byte, t: System)
    requires Ignoring(s) && s.a.remoteWindow > 0
    requires t == s.(a := s.a.(extended := [x]), hab := s.hab.(extRead := s.hab.extRead + [x]))
    ensures Step(s, (true, ExtReadReady([x]))) == Running(t)
  {
    assert [x][..1] == [x] && [] + [x] == [x];
  }

  lemma PollIgnored(s: System, x: Byte, t: System)
    requires OpenEnd(s.a) && !s.a.AnyClose() && !s.a.eofSent && s.a.usage == Read && s.a.extended == [x] && s.a.remoteWindow > 0
    requires s.ab == [] && t == s.(a := s.a.(extended := [], remoteWindow := s.a.remoteWindow - 1), ab := [Extended([x])])
    ensures Step(s, (true, DoPollExtended)) == Running(t)
  {
    assert [x][1..] == [] && [x][..1] == [x] && [] + [Extended([x])] == [Extended([x])];
  }

  lemma HearIgnored(s: System, x: Byte, t: System)
    requires s.b.kind == Open && !s.b.eofRcvd && !s.b.Dead() && !ReceiverOf(s.b).efd && s.ab == [Extended([x])]
    requires t == s.(ab := [], hab := s.hab.(extReceived := s.hab.extReceived + [x], ignored := s.hab.ignored + 1))
    ensures Step(s, (false, Deliver)) == Running(t)
  {
    assert [Extended([x])][1..] == [] && s.ba + [] == s.ba;
  }

  /** One byte of stderr read, sent and ignored. */
  lemma IgnoreOne(s: System, x: Byte) returns (t: System)
    requires Ignoring(s) && s.a.remoteWindow > 0
    ensures Run(s, [(true, ExtReadReady([x])), (true, DoPollExtended), (false, Deliver)]) == Running(t)
    ensures Ignoring(t) && t.b == s.b && t.a == s.a.(remoteWindow := s.a.remoteWindow - 1)
    ensures t.hab.ignored == s.hab.ignored + 1
  {
    var t1 := s.(a := s.a.(extended := [x]), hab := s.hab.(extRead := s.hab.extRead + [x]));
    var t2 := t1.(a := s.a.(extended := [], remoteWindow := s.a.remoteWindow - 1), ab := [Extended([x])]);
    t := t2.(ab := [], hab := t2.hab.(extReceived := t2.hab.extReceived + [x], ignored := t2.hab.ignored + 1));
    ReadIgnored(s, x, t1);
    PollIgnored(t1, x, t2);
    HearIgnored(t2, x, t);
    RunThree(s, (true, ExtReadReady([x])), (true, DoPollExtended), (false, Deliver), t1, t2, t);
  }

  lemma {:induction false} IgnoreMany(s: System, n: nat) returns (es: seq<(bool, Event)>, t: System)
    requires Ignoring(s) && n <= s.a.remoteWindow
    ensures Run(s, es) == Running(t)
    ensures Ignoring(t) && t.b == s.b && t.a == s.a.(remoteWindow := s.a.remoteWindow - n)
    ensures t.hab.ignored == s.hab.ignored + n
    decreases n
  {
    if n == 0 {
      es, t := [], s;
    } else {
      var u := IgnoreOne(s, 0);
      var first := [(true, ExtReadReady([0])), (true, DoPollExtended), (false, Deliver)];
      var rest;
      rest, t := IgnoreMany(u, n - 1);
      RunAppend(s, first, rest, u);
      es := first + rest;
    }
  }

  /**
   Whatever the window, a peer that does not take stderr can be stalled for good by it: the data byte that a has read
   first is never sent.
   */
  lemma StallIsReachable(s: System, x: Byte) returns (es: seq<(bool, Event)>)
    requires Initial(s) && s.a.kind == s.b.kind == Open && s.a.usage == Read && s.a.efd && !ReceiverOf(s.b).efd
    requires s.b.localWindowMax > 0 && s.a.remoteMaxPacket > 0
    ensures Run(s, es).Running?
    ensures var t := Run(s, es).sys; Waiting(t) && Stalled(t) && t.a.input == [x]
  {
    var e := (true, ReadReady([x]));
    var u := s.(a := s.a.(input := [x]), hab := s.hab.(read := [x]));
    assert [x][..1] == [x] && [] + [x] == [x];
    assert Step(s, e) == Running(u);
    var rest, t := IgnoreMany(u, s.b.localWindowMax);
    es := [e] + rest;
    assert es[1..] == rest;
  }

  /** a, which may send, and b, whose output is open, with nothing on the way. */
  predicate Buffering(s: System) {
    && s.a.kind == s.b.kind == Open && !s.a.AnyClose() && s.a.istate == InputOpen && s.a.input == []
    && s.a.remoteMaxPacket > 0 && s.b.localMaxPacket > 0 && s.b.localExceeded == 0
    && s.b.ostate == OutputOpen && s.ab == [] && s.ba == []
    && s.a.remoteWindow <= s.b.localWindow
  }

  lemma ReadOne(s: System, x: Byte, t: System)
    requires Buffering(s) && s.a.remoteWindow > 0
    requires t == s.(a := s.a.(input := [x]), hab := s.hab.(read := s.hab.read + [x]))
    ensures Step(s, (true, ReadReady([x]))) == Running(t)
  {
    assert [x][..1] == [x] && [] + [x] == [x];
  }

  /** One byte read, sent and buffered. */
  lemma BufferOne(s: System, x: Byte) returns (t: System)
    requires Buffering(s) && s.a.remoteWindow > 0
    ensures Run(s, [(true, ReadReady([x])), (true, DoPollInput), (false, Deliver)]) == Running(t)
    ensures Buffering(t) && t.a == s.a.(remoteWindow := s.a.remoteWindow - 1)
    ensures t.b == s.b.(localWindow := s.b.localWindow - 1, output := s.b.output + [x])
    ensures t.hab.dropped == s.hab.dropped && t.hab.ignored == s.hab.ignored
  {
    var t1 := s.(a := s.a.(input := [x]), hab := s.hab.(read := s.hab.read + [x]));
    ReadOne(s, x, t1);
    var t2 := t1.(a := s.a.(input := [], remoteWindow := s.a.remoteWindow - 1), ab := [Data([x])]);
    PollOne(t1, x, t2);
    t := HearOne(t2, x);
    RunThree(s, (true, ReadReady([x])), (true, DoPollInput), (false, Deliver), t1, t2, t);
  }

  lemma PollOne(s: System, x: Byte, t: System)
    requires OpenEnd(s.a) && !s.a.AnyClose() && s.a.istate == InputOpen && s.a.input == [x] && s.a.remoteWindow > 0 && s.ab == []
    requires t == s.(a := s.a.(input := [], remoteWindow := s.a.remoteWindow - 1), ab := [Data([x])])
    ensures Step(s, (true, DoPollInput)) == Running(t)
  {
    assert [x][1..] == [] && [x][..1] == [x] && [] + [Data([x])] == [Data([x])];
  }

  lemma HearOne(s: System, x: Byte) returns (t: System)
    requires s.b.kind == Open && s.b.ostate == OutputOpen && s.b.localWindow > 0 && s.b.localMaxPacket > 0
    requires s.b.localExceeded == 0 && s.ab == [Data([x])]
    ensures Step(s, (false, Deliver)) == Running(t) && t.a == s.a && t.ab == [] && t.ba == s.ba
    ensures t.b == s.b.(localWindow := s.b.localWindow - 1, output := s.b.output + [x])
    ensures t.hab.dropped == s.hab.dropped && t.hab.ignored == s.hab.ignored
  {
    var b' := s.b.(localWindow := s.b.localWindow - 1, output := s.b.output + [x]);
    assert InputData(s.b, [x]) == Reaction(b', []);
    t := s.(b := b', ab := [], hab := s.hab.(received := s.hab.received + [x], ignored := s.hab.ignored + 0));
    assert [Data([x])][1..] == [] && s.ba + [] == s.ba;
  }

  lemma {:induction false} BufferMany(s: System, n: nat) returns (es: seq<(bool, Event)>, t: System)
    requires Buffering(s) && n <= s.a.remoteWindow
    ensures Run(s, es) == Running(t)
    ensures Buffering(t) && |t.b.output| == |s.b.output| + n && t.hab.dropped == s.hab.dropped
    ensures t.b.localWindowMax == s.b.localWindowMax
    decreases n
  {
    if n == 0 {
      es, t := [], s;
    } else {
      var u := BufferOne(s, 0);
      var first := [(true, ReadReady([0])), (true, DoPollInput), (false, Deliver)];
      var rest;
      rest, t := BufferMany(u, n - 1);
      RunAppend(s, first, rest, u);
      es := first + rest;
    }
  }

  lemma WriteBuffered(u: System, x: Byte) returns (t: System)
    requires Buffering(u) && u.b.output == [x] && u.b.localConsumed + 1 < TWO_TO_32
    ensures Run(u, [(false, WriteReady(1))]) == Running(t)
    ensures t.a == u.a && t.ab == u.ab && t.ba == u.ba && t.hab.ignored == u.hab.ignored
    ensures t.b == u.b.(output := [], localConsumed := u.b.localConsumed + 1)
  {
    var e := (false, WriteReady(1));
    assert [x][..1] == [x] && [x][1..] == [];
    assert HandleWrite(u.b, 1) == Reaction(u.b.(output := [], localConsumed := u.b.localConsumed + 1), []);
    t := Step(u, e).sys;
    assert u.ba + [] == u.ba && [e][1..] == [];
  }

  /** One byte read, sent, buffered and written. */
  lemma WriteOne(s: System, x: Byte) returns (t: System)
    requires Buffering(s) && s.a.remoteWindow > 0 && s.b.output == [] && s.b.localConsumed + 1 < TWO_TO_32
    ensures Run(s, [(true, ReadReady([x])), (true, DoPollInput), (false, Deliver)] + [(false, WriteReady(1))]) == Running(t)
    ensures Buffering(t) && t.a == s.a.(remoteWindow := s.a.remoteWindow - 1) && t.hab.ignored == s.hab.ignored
    ensures t.b == s.b.(localWindow := s.b.localWindow - 1, localConsumed := s.b.localConsumed + 1)
  {
    var u := BufferOne(s, x);
    assert [] + [x] == [x];
    t := WriteBuffered(u, x);
    RunAppend(s, [(true, ReadReady([x])), (true, DoPollInput), (false, Deliver)], [(false, WriteReady(1))], u);
  }

  lemma {:induction false} WriteMany(s: System, n: nat) returns (es: seq<(bool, Event)>, t: System)
    requires Buffering(s) && n <= s.a.remoteWindow && s.b.output == [] && s.b.localConsumed + n < TWO_TO_32
    ensures Run(s, es) == Running(t)
    ensures Buffering(t) && t.a == s.a.(remoteWindow := s.a.remoteWindow - n) && t.hab.ignored == s.hab.ignored
    ensures t.b == s.b.(localWindow := s.b.localWindow - n, localConsumed := s.b.localConsumed + n)
    decreases n
  {
    if n == 0 {
      es, t := [], s;
    } else {
      var u := WriteOne(s, 0);
      var first := [(true, ReadReady([0])), (true, DoPollInput), (false, Deliver)] + [(false, WriteReady(1))];
      var rest;
      rest, t := WriteMany(u, n - 1);
      RunAppend(s, first, rest, u);
      es := first + rest;
    }
  }

  /**
   It does not take a whole window: k ignored bytes do it if they are at least half of the window and the others are at
   most three packets, even though those have all been written and nothing has been lost but stderr.
   */
  lemma PartialStallIsReachable(s: System, x: Byte, k: nat) returns (es: seq<(bool, Event)>)
    requires Initial(s) && s.a.kind == s.b.kind == Open && s.a.usage == Read && s.a.efd && !ReceiverOf(s.b).efd
    requires s.a.remoteMaxPacket > 0 && 0 < k <= s.b.localWindowMax
    requires s.b.localWindowMax / 2 <= k && s.b.localWindowMax - k <= Wrap(s.b.localMaxPacket * 3)
    ensures Run(s, es).Running?
    ensures var t := Run(s, es).sys;
      Waiting(t) && Stalled(t) && t.a.input == [x] && t.hab.ignored == k && t.b.localConsumed == s.b.localWindowMax - k
  {
    var first, t := WriteMany(s, s.b.localWindowMax - k);
    var e := (true, ReadReady([x]));
    var u := t.(a := t.a.(input := [x]), hab := t.hab.(read := t.hab.read + [x]));
    assert [x][..1] == [x] && [] + [x] == [x];
    assert Step(t, e) == Running(u);
    var rest, v := IgnoreMany(u, k);
    assert ([e] + rest)[1..] == rest;
    RunAppend(s, first, [e] + rest, t);
    es := first + ([e] + rest);
  }

  /** Whatever the window, a write that fails when it is full loses all of it. */
  lemma LostWindowIsReachable(s: System) returns (es: seq<(bool, Event)>)
    requires Initial(s) && s.a.kind == s.b.kind == Open && s.b.localWindowMax > 0 && s.b.localMaxPacket > 0
    ensures Run(s, es).Running? && WindowLost(Run(s, es).sys)
  {
    var first, t := BufferMany(s, s.b.localWindowMax);
    var e := (false, WriteReady(0));
    RunAppend(s, first, [e], t);
    es := first + [e];
    var u := Step(t, e).sys;
    assert [e][1..] == [];
  }
}
