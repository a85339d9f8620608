/**
 How far a channel gets. Data in one direction is stuck exactly when credit has been lost or the window is too small;
 that is then for good. Whatever has happened to a channel, every order of events that move data, credit, EOF or CLOSE
 onwards is finite and ends with both ends dead, or else with a direction that is stuck; and if no write has failed and
 the credit suffices, it ends with everything written.
 */
module ChannelProgress {
  import opened Basics
  import opened ChannelEndpoint
  import opened ChannelProtocol
  import opened ChannelSafety
  import opened ChannelTeardown

  // ---- what is left to do

  function Weight(q: seq<Message>): nat {
    if q == [] then 0
    else 1 + (if q[0].Adjust? then 2 * q[0].amount else if Payload(q[0]) then 8 * |q[0].data| else 0) + Weight(q[1..])
  }

  /** Bytes to send, to write and to give credit for, and stages of the life cycle still ahead. */
  function Load(c: Chan): nat {
    10 * (|c.input| + |SenderOf(c).extended|) + 6 * (|c.output| + |ReceiverOf(c).extended|) + 4 * c.localConsumed
    + (if c.istate == InputOpen then 1 else 0) + (if c.ostate == OutputClosed then 0 else 1) + (if c.efd then 1 else 0)
    + (if c.eofSent then 0 else 3) + (if c.closeSent then 0 else 2)
  }

  function Work(s: System): nat { Load(s.a) + Load(s.b) + Weight(s.ab) + Weight(s.ba) }

  /** An event at a that moves something onwards: no new data is read and no write fails, but files may end. */
  predicate Moves(s: System, e: Event) {
    match e
    case ReadReady(ready) => ready == [] && WantsRead(s.a)
    case WriteReady(room) => room > 0 && WantsWrite(s.a)
    case ExtReadReady(ready) => ready == [] && WantsExtendedRead(s.a)
    case ExtWriteReady(room) => room > 0 && WantsExtendedWrite(s.a)
    case DoPreOpen => PreOpen(s.a) != s.a
    case DoCheckWindow => CheckWindow(s.a).sent != []
    case DoPollInput => PollInput(s.a).sent != []
    case DoPollExtended => PollExtended(s.a).sent != []
    case DoActivate(_, _, _) => false
    case DoCollect => CollectGarbage(s.a).sent != []
    case Deliver => s.ba != []
  }

  predicate Progress(s: System, e: (bool, Event)) { if e.0 then Moves(s, e.1) else Moves(s.Mirror(), e.1) }

  lemma {:induction false} WeightPush(q: seq<Message>, m: Message)
    ensures Weight(q + [m]) == Weight(q) + 1 + if m.Adjust? then 2 * m.amount else if Payload(m) then 8 * |m.data| else 0
  {
    if q == [] {
      assert [m][1..] == [] && q + [m] == [m];
    } else {
      WeightPush(q[1..], m);
      assert (q + [m])[1..] == q[1..] + [m];
    }
  }

  lemma WeightOne(m: Message)
    ensures Weight([m]) == 1 + if m.Adjust? then 2 * m.amount else if Payload(m) then 8 * |m.data| else 0
    ensures ExtendedIn([m]) == if m.Extended? then m.data else []
  {
    assert [m][1..] == [];
  }

  /** Both ends have been opened and may send. */
  predicate OpenEnd(c: Chan) { c.kind == Open && c.remoteMaxPacket > 0 }

  predicate OpenEnds(s: System) { OpenEnd(s.a) && OpenEnd(s.b) }

  // ---- channels that end by EOF

  /** No half of the channel has been closed but by EOF, and an EOF was sent behind everything that was read. */
  predicate Orderly(c: Chan) {
    && OpenEnd(c) && !(c.forceDrain && c.usage == Read)
    && (c.istate == InputClosed ==> c.eofSent)
    && (c.eofSent ==> c.input == [] && SenderOf(c).extended == [])
    && (c.ostate != OutputOpen <==> c.eofRcvd)
    && (c.ostate == OutputClosed ==> !(c.usage == Write && c.efd && |c.extended| > 0))
    && (c.closeSent ==> c.eofSent && c.eofRcvd)
  }

  predicate Healthy(s: System) {
    && Orderly(s.a) && Orderly(s.b) && Eow !in s.ab && Eow !in s.ba
    && s.hab.dropped == 0 && s.hba.dropped == 0
  }

  // ---- what one handler does to its own end

  /** What never changes for a receiver, but for stderr it can no longer write. */
  predicate SameEnd(c: Chan, d: Chan) {
    && d.kind == c.kind && d.usage == c.usage && d.forceDrain == c.forceDrain
    && d.localWindowMax == c.localWindowMax && d.localMaxPacket == c.localMaxPacket && d.remoteMaxPacket == c.remoteMaxPacket
    && ReceiverOf(d).efd == ReceiverOf(c).efd
    && (!ReceiverOf(c).efd ==> ReceiverOf(d).extended == ReceiverOf(c).extended)
  }

  /** No byte of stderr waiting to be sent is lost. */
  predicate SameStderr(c: Chan, d: Chan, sent: seq<Message>) {
    |SenderOf(d).extended| + |ExtendedIn(sent)| == |SenderOf(c).extended|
  }

  /** An orderly end has become d and is still orderly. */
  predicate Tidy(c: Chan, d: Chan, sent: seq<Message>) {
    Orderly(d) && SameEnd(c, d) && SameStderr(c, d, sent) && Eow !in sent
  }

  /** The end has become d, sending at most one message, with less to do. */
  predicate Onward(c: Chan, d: Chan, sent: seq<Message>) {
    && OpenEnd(d) && |sent| <= 1 && Load(d) + Weight(sent) < Load(c)
    && (Orderly(c) ==> Tidy(c, d, sent))
  }

  lemma ReadEnds(c: Chan)
    requires ChanOk(c) && OpenEnd(c) && WantsRead(c)
    ensures Onward(c, HandleRead(c, []), [])
  {
  }

  lemma ExtReadEnds(c: Chan)
    requires ChanOk(c) && OpenEnd(c) && WantsExtendedRead(c)
    ensures Onward(c, HandleExtendedRead(c, []), [])
  {
  }

  lemma WriteOnward(c: Chan, room: nat)
    requires ChanOk(c) && OpenEnd(c) && WantsWrite(c) && room > 0 && c.localConsumed + |c.output| < TWO_TO_32
    ensures HandleWrite(c, room).Reaction? && HandleWrite(c, room).sent == [] && Onward(c, HandleWrite(c, room).chan, [])
  {
    WriteEffect(c, room);
  }

  lemma ExtWriteOnward(c: Chan, room: nat)
    requires ChanOk(c) && OpenEnd(c) && WantsExtendedWrite(c) && room > 0 && c.localConsumed + |c.extended| < TWO_TO_32
    ensures Onward(c, HandleExtendedWrite(c, room), [])
  {
    ExtWriteEffect(c, room);
  }

  lemma PreOpenOnward(c: Chan)
    requires ChanOk(c) && OpenEnd(c) && PreOpen(c) != c
    ensures Onward(c, PreOpen(c), [])
  {
  }

  lemma GrantOnward(c: Chan)
    requires ChanOk(c) && OpenEnd(c) && c.localWindow + c.localConsumed < TWO_TO_32 && CheckWindow(c).sent != []
    ensures Onward(c, CheckWindow(c).chan, CheckWindow(c).sent)
  {
    CheckWindowEffect(c);
    WeightOne(Adjust(c.localConsumed));
  }

  lemma PollDataOnward(c: Chan, n: nat)
    requires OpenEnd(c) && !c.eofSent && 0 < n <= |c.input| && n <= c.remoteWindow
    ensures Onward(c, c.(input := c.input[n..], remoteWindow := c.remoteWindow - n), [Data(c.input[..n])])
  {
    WeightOne(Data(c.input[..n]));
  }

  lemma PollEofOnward(c: Chan)
    requires OpenEnd(c) && !c.eofSent && c.input == [] && !c.EfdInputActive()
    ensures Onward(c, c.(eofSent := true, istate := InputClosed), [Eof])
  {
    WeightOne(Eof);
  }

  lemma PollEofIs(c: Chan)
    requires ChanOk(c) && PollInput(c).sent != [] && c.input == []
    ensures !c.eofSent && !c.EfdInputActive() && PollInput(c) == Reaction(c.(eofSent := true, istate := InputClosed), [Eof])
  {
  }

  lemma PollDataIs(c: Chan, n: nat)
    requires ChanOk(c) && PollInput(c).sent != [] && c.input != [] && n == PacketLength(c, |c.input|)
    ensures !c.eofSent && 0 < n <= |c.input| && n <= c.remoteWindow
    ensures PollInput(c) == Reaction(c.(input := c.input[n..], remoteWindow := c.remoteWindow - n), [Data(c.input[..n])])
  {
  }

  lemma PollOnward(c: Chan)
    requires ChanOk(c) && OpenEnd(c) && PollInput(c).sent != []
    ensures Onward(c, PollInput(c).chan, PollInput(c).sent)
  {
    if c.input == [] {
      PollEofIs(c);
      PollEofOnward(c);
    } else {
      var n := PacketLength(c, |c.input|);
      PollDataIs(c, n);
      PollDataOnward(c, n);
    }
  }

  lemma PollExtendedOnward(c: Chan)
    requires ChanOk(c) && OpenEnd(c) && PollExtended(c).sent != []
    ensures Onward(c, PollExtended(c).chan, PollExtended(c).sent)
  {
    WeightOne(PollExtended(c).sent[0]);
  }

  lemma CollectOnward(c: Chan)
    requires ChanOk(c) && OpenEnd(c) && CollectGarbage(c).sent != []
    ensures Onward(c, CollectGarbage(c).chan, CollectGarbage(c).sent)
  {
    WeightOne(Close);
  }

  // ---- what an arriving message does

  /** What an orderly end hears: no EOW, and CLOSE only after EOF both ways. */
  predicate Expected(c: Chan, m: Message) { m != Eow && (m == Close ==> c.eofRcvd && c.eofSent) }

  /** A message that arrives weighs more than what it leaves to do. */
  predicate Absorbs(c: Chan, m: Message, r: Reaction) {
    && r.Reaction? && OpenEnd(r.chan) && |r.sent| <= 1
    && Load(r.chan) + Weight(r.sent) < Load(c) + Weight([m])
    && (Orderly(c) && Expected(c, m) ==> Tidy(c, r.chan, r.sent))
  }

  lemma AbsorbData(c: Chan, d: Bytes)
    requires ChanOk(c) && OpenEnd(c) && !c.eofRcvd && 0 < |d| <= c.localWindow && |d| <= c.localMaxPacket
    requires c.localConsumed + |d| < TWO_TO_32
    ensures Absorbs(c, Data(d), InputData(c, d))
  {
    if c.ostate == OutputOpen {
      AbsorbStored(c, d);
    } else {
      AbsorbFaked(c, d);
    }
  }

  lemma AbsorbStored(c: Chan, d: Bytes)
    requires ChanOk(c) && OpenEnd(c) && 0 < |d| <= c.localWindow && |d| <= c.localMaxPacket && c.ostate == OutputOpen
    ensures Absorbs(c, Data(d), InputData(c, d))
  {
    WeightOne(Data(d));
    InputDataOpen(c, d);
    var r := InputData(c, d).chan;
    assert r == c.(localWindow := c.localWindow - |d|, localExceeded := 0, output := c.output + d);
  }

  lemma AbsorbFaked(c: Chan, d: Bytes)
    requires ChanOk(c) && OpenEnd(c) && !c.eofRcvd && 0 < |d| <= c.localWindow && c.ostate != OutputOpen
    requires c.localConsumed + |d| < TWO_TO_32
    ensures Absorbs(c, Data(d), InputData(c, d))
  {
    WeightOne(Data(d));
    InputDataStopped(c, d);
    var r := InputData(c, d).chan;
    assert r == c.(localWindow := c.localWindow - |d|, localConsumed := c.localConsumed + |d|);
  }

  lemma AbsorbExtended(c: Chan, d: Bytes)
    requires ChanOk(c) && OpenEnd(c) && !c.eofRcvd && 0 < |d| <= c.localWindow
    ensures Absorbs(c, Extended(d), InputExtended(c, d))
  {
    WeightOne(Extended(d));
    if AcceptsExtended(c, d) {
      InputExtendedEffect(c, d);
      var r := InputExtended(c, d).chan;
      assert r == c.(localWindow := c.localWindow - |d|, extended := c.extended + d);
    }
  }

  lemma AbsorbAdjust(c: Chan, n: U32)
    requires ChanOk(c) && OpenEnd(c) && c.remoteWindow + n < TWO_TO_32
    ensures Absorbs(c, Adjust(n), InputAdjust(c, n))
  {
    WeightOne(Adjust(n));
    InputAdjustEffect(c, n);
    assert InputAdjust(c, n).chan == c.(remoteWindow := c.remoteWindow + n);
  }

  lemma EofStateAbsorbed(c: Chan, d: Chan)
    requires OpenEnd(c) && d == ReceivedEofState(c)
    ensures OpenEnd(d) && SenderOf(d) == SenderOf(c) && Load(d) <= Load(c) && d.istate == c.istate
    ensures Orderly(c) ==> Orderly(d) && SameEnd(c, d)
  {
    assert d == c.(eofRcvd := true, ostate := d.ostate) && d.ostate != OutputOpen;
  }

  lemma DrainTidy(c: Chan, d: Chan)
    requires OpenEnd(c) && c.forceDrain && c.input == [] && !c.eofSent && d == c.(eofSent := true, istate := InputClosed)
    ensures Orderly(c) ==> Tidy(c, d, [Eof])
    ensures Load(d) + 3 <= Load(c)
  {
    WeightOne(Eof);
  }

  lemma LoadInput(c: Chan, i: InputState)
    ensures Load(c.(istate := i)) == Load(c) - (if c.istate == InputOpen then 1 else 0) + (if i == InputOpen then 1 else 0)
  {
    var d := c.(istate := i);
    assert SenderOf(d) == SenderOf(c) && ReceiverOf(d) == ReceiverOf(c);
  }

  lemma TidyDrain(c: Chan)
    requires Orderly(c) && c.istate == InputOpen
    ensures Tidy(c, c.(istate := InputWaitDrain), [])
  {
  }

  lemma DrainBegins(c: Chan)
    requires OpenEnd(c) && c.istate == InputOpen
    ensures Absorbs(c, Eof, Reaction(c.(istate := InputWaitDrain), []))
  {
    WeightOne(Eof);
    LoadInput(c, InputWaitDrain);
    if Orderly(c) {
      TidyDrain(c);
    }
  }

  lemma DrainAbsorbed(c: Chan)
    requires ChanOk(c) && OpenEnd(c) && c.forceDrain && c.istate == InputOpen
    ensures Absorbs(c, Eof, InputBufferEmpty(c.(istate := InputWaitDrain)))
  {
    if c.input == [] {
      WeightOne(Eof);
      DrainTidy(c, c.(eofSent := true, istate := InputClosed));
    } else {
      DrainBegins(c);
    }
  }

  /** d is c once the output has heard EOF. */
  lemma AbsorbsAfter(c: Chan, d: Chan, r: Reaction)
    requires SenderOf(d) == SenderOf(c) && Load(d) <= Load(c) && (Orderly(c) ==> Orderly(d) && SameEnd(c, d))
    requires Absorbs(d, Eof, r)
    ensures Absorbs(c, Eof, r)
  {
  }

  lemma EofAbsorbed(d: Chan)
    requires OpenEnd(d)
    ensures Absorbs(d, Eof, Reaction(d, []))
  {
    WeightOne(Eof);
  }

  lemma AbsorbEof(c: Chan)
    requires ChanOk(c) && OpenEnd(c) && !c.eofRcvd
    ensures Absorbs(c, Eof, ReceivedEof(c))
  {
    var d := ReceivedEofState(c);
    EofStateAbsorbed(c, d);
    EofStateStops(c);
    if d.forceDrain && d.istate == InputOpen {
      DrainAbsorbed(d);
    } else {
      EofAbsorbed(d);
    }
    AbsorbsAfter(c, d, ReceivedEof(c));
  }

  lemma AbsorbClose(c: Chan)
    requires ChanOk(c) && OpenEnd(c)
    ensures Absorbs(c, Close, ReceivedClose(c))
  {
    WeightOne(Close);
    WeightOne(Eof);
    CloseLighter(c, ReceivedClose(c));
    if Orderly(c) && Expected(c, Close) {
      CloseTidy(c);
    }
  }

  lemma CloseLighter(c: Chan, r: Reaction)
    requires ChanOk(c) && OpenEnd(c) && r == ReceivedClose(c)
    ensures r.Reaction? && OpenEnd(r.chan) && (r.sent == [] || r.sent == [Eof])
    ensures Load(r.chan) + (if r.sent == [] then 0 else 3) <= Load(c)
  {
    assert ReceiverOf(r.chan).extended == ReceiverOf(c).extended && SenderOf(r.chan).extended == SenderOf(c).extended;
    assert r.chan.input == c.input && r.chan.output == c.output && r.chan.localConsumed == c.localConsumed;
  }

  lemma CloseTidy(c: Chan)
    requires ChanOk(c) && Orderly(c) && c.eofRcvd && c.eofSent
    ensures ReceivedClose(c).Reaction? && Tidy(c, ReceivedClose(c).chan, ReceivedClose(c).sent)
  {
    assert ReceivedClose(c) == Reaction(c.(closeRcvd := true), []);
  }

  lemma AbsorbEow(c: Chan)
    requires ChanOk(c) && OpenEnd(c)
    ensures Absorbs(c, Eow, Reaction(ReceivedEow(c), []))
  {
    WeightOne(Eow);
    EowLighter(c);
  }

  lemma EowLighter(c: Chan)
    requires OpenEnd(c)
    ensures OpenEnd(ReceivedEow(c)) && Load(ReceivedEow(c)) <= Load(c)
  {
    LoadInput(c, ReceivedEow(c).istate);
  }

  // ---- what an event does to the system

  /** Bytes of a's data that never come back as credit: ignored, or stderr on the way to an end that ignores it. */
  function WrittenOff(snd: Sender, rcv: Receiver, fwd: seq<Message>, h: History): nat {
    h.ignored + if rcv.efd then 0 else |ExtendedIn(fwd)| + |snd.extended|
  }

  /** Nothing about one direction has changed that decides whether its window can run out. */
  predicate SameFate(a: Chan, b: Chan, ab: seq<Message>, h: History, a': Chan, b': Chan, ab': seq<Message>, h': History) {
    && WrittenOff(SenderOf(a'), ReceiverOf(b'), ab', h') == WrittenOff(SenderOf(a), ReceiverOf(b), ab, h)
    && SameEnd(b, b')
    && h'.read == h.read && h'.extRead == h.extRead
  }

  predicate Onwards(s: System, t: System) {
    && OpenEnds(t) && Work(t) < Work(s)
    && (Healthy(s) ==>
          && Healthy(t)
          && SameFate(s.a, s.b, s.ab, s.hab, t.a, t.b, t.ab, t.hab)
          && SameFate(s.b, s.a, s.ba, s.hba, t.b, t.a, t.ba, t.hba))
  }

  lemma AppendSent(q: seq<Message>, sent: seq<Message>)
    requires |sent| <= 1
    ensures Weight(q + sent) == Weight(q) + Weight(sent) && ExtendedIn(q + sent) == ExtendedIn(q) + ExtendedIn(sent)
  {
    LinkAppend(q, sent);
    if sent == [] {
      assert q + sent == q;
    } else {
      assert sent == [sent[0]];
      WeightPush(q, sent[0]);
      WeightOne(sent[0]);
    }
  }

  lemma MoveOnwards(s: System, d: Chan, sent: seq<Message>, hab: History, hba: History)
    requires OpenEnds(s) && Onward(s.a, d, sent)
    requires hab == s.hab && hba == s.hba.(written := hba.written, extWritten := hba.extWritten)
    ensures Onwards(s, s.(a := d, ab := s.ab + sent, hab := hab, hba := hba))
  {
    AppendSent(s.ab, sent);
    if Healthy(s) {
      MoveHealthy(s, d, sent, hba);
    }
  }

  lemma MoveHealthy(s: System, d: Chan, sent: seq<Message>, hba: History)
    requires Healthy(s) && Tidy(s.a, d, sent) && |sent| <= 1
    requires hba == s.hba.(written := hba.written, extWritten := hba.extWritten)
    ensures var t := s.(a := d, ab := s.ab + sent, hba := hba);
      && Healthy(t)
      && SameFate(s.a, s.b, s.ab, s.hab, t.a, t.b, t.ab, t.hab) && SameFate(s.b, s.a, s.ba, s.hba, t.b, t.a, t.ba, t.hba)
  {
    AppendSent(s.ab, sent);
  }

  ghost predicate GoesOnwards(s: System, e: Event) { StepA(s, e).Running? && Onwards(s, StepA(s, e).sys) }

  lemma ReadEndStep(s: System)
    requires WantsRead(s.a)
    ensures StepA(s, ReadReady([])) == Running(s.(a := HandleRead(s.a, []), ab := s.ab + []))
  {
    NothingMore(s.hab.read);
    assert s.ab + [] == s.ab;
  }

  lemma ReadMoves(s: System)
    requires Inv(s) && OpenEnds(s) && WantsRead(s.a)
    ensures GoesOnwards(s, ReadReady([]))
  {
    ReadEnds(s.a);
    ReadEndStep(s);
    MoveOnwards(s, HandleRead(s.a, []), [], s.hab, s.hba);
  }

  lemma ExtReadMoves(s: System)
    requires Inv(s) && OpenEnds(s) && WantsExtendedRead(s.a)
    ensures GoesOnwards(s, ExtReadReady([]))
  {
    ExtReadEnds(s.a);
    NothingMore(s.hab.extRead);
    MoveOnwards(s, HandleExtendedRead(s.a, []), [], s.hab, s.hba);
    assert s.ab + [] == s.ab;
  }

  lemma WriteMoves(s: System, room: nat)
    requires Inv(s) && OpenEnds(s) && room > 0 && WantsWrite(s.a)
    ensures GoesOnwards(s, WriteReady(room))
  {
    WriteOnward(s.a, room);
    MoveOnwards(s, HandleWrite(s.a, room).chan, [], s.hab, WriteHistory(s, room));
  }

  lemma ExtWriteMoves(s: System, room: nat)
    requires Inv(s) && OpenEnds(s) && room > 0 && WantsExtendedWrite(s.a)
    ensures GoesOnwards(s, ExtWriteReady(room))
  {
    var c, wrote := HandleExtendedWrite(s.a, room), ExtendedWritten(s.a, room);
    ExtWriteOnward(s.a, room);
    ExtWriteStep(s, room, c, wrote);
    MoveOnwards(s, c, [], s.hab, s.hba.(extWritten := s.hba.extWritten + wrote));
    assert s.ab + [] == s.ab;
  }

  lemma ProtocolMoves(s: System, e: Event)
    requires Inv(s) && OpenEnds(s) && Moves(s, e) && e in {DoPreOpen, DoCheckWindow, DoPollInput, DoPollExtended, DoCollect}
    ensures GoesOnwards(s, e)
  {
    match e
    case DoPreOpen => PreOpenOnward(s.a); MoveOnwards(s, PreOpen(s.a), [], s.hab, s.hba); assert s.ab + [] == s.ab;
    case DoCheckWindow => GrantOnward(s.a); MoveOnwards(s, CheckWindow(s.a).chan, CheckWindow(s.a).sent, s.hab, s.hba);
    case DoPollInput => PollOnward(s.a); MoveOnwards(s, PollInput(s.a).chan, PollInput(s.a).sent, s.hab, s.hba);
    case DoPollExtended => PollExtendedOnward(s.a);
      MoveOnwards(s, PollExtended(s.a).chan, PollExtended(s.a).sent, s.hab, s.hba);
    case DoCollect => CollectOnward(s.a); MoveOnwards(s, CollectGarbage(s.a).chan, CollectGarbage(s.a).sent, s.hab, s.hba);
  }

  // ---- what an arrival does to the system

  lemma WeightHead(q: seq<Message>)
    requires q != []
    ensures Weight(q) == Weight([q[0]]) + Weight(q[1..])
    ensures |ExtendedIn(q)| == (if q[0].Extended? then |q[0].data| else 0) + |ExtendedIn(q[1..])|
  {
    WeightOne(q[0]);
  }

  /** Ignored bytes grow by exactly the stderr that arrives where it is not wanted. */
  predicate Charged(c: Chan, m: Message, h: History) {
    Noted(c, m, h).ignored == h.ignored + if m.Extended? && !ReceiverOf(c).efd then |m.data| else 0
  }

  /** CLOSE comes after EOF both ways. */
  lemma HeardInOrder(s: System)
    requires Inv(s) && Healthy(s) && s.ba != []
    ensures Expected(s.a, s.ba[0])
  {
    assert s.ba[0] in s.ba;
  }

  /** An expected arrival keeps a healthy channel healthy, and its fate. */
  lemma ArrivalHealthy(s: System, r: Reaction, h: History)
    requires Healthy(s) && s.ba != [] && r.Reaction? && Tidy(s.a, r.chan, r.sent) && |r.sent| <= 1
    requires Charged(s.a, s.ba[0], s.hba) && h == Noted(s.a, s.ba[0], s.hba)
    ensures var t := s.(a := r.chan, ab := s.ab + r.sent, ba := s.ba[1..], hba := h);
      && Healthy(t)
      && SameFate(s.a, s.b, s.ab, s.hab, t.a, t.b, t.ab, t.hab) && SameFate(s.b, s.a, s.ba, s.hba, t.b, t.a, t.ba, t.hba)
  {
    AppendSent(s.ab, r.sent);
    WeightHead(s.ba);
  }

  lemma ArrivalOnwards(s: System, r: Reaction)
    requires Inv(s) && OpenEnds(s) && s.ba != [] && Absorbs(s.a, s.ba[0], r) && Charged(s.a, s.ba[0], s.hba)
    ensures Onwards(s, s.(a := r.chan, ab := s.ab + r.sent, ba := s.ba[1..], hba := Noted(s.a, s.ba[0], s.hba)))
  {
    AppendSent(s.ab, r.sent);
    WeightHead(s.ba);
    if Healthy(s) {
      HeardInOrder(s);
      ArrivalHealthy(s, r, Noted(s.a, s.ba[0], s.hba));
    }
  }

  /** Nothing arrives at a freed channel. */
  lemma NotDeadYet(s: System)
    requires Inv(s) && s.ba != []
    ensures !s.a.Dead()
  {
    if s.a.Dead() {
      DeadHearsNothing(s);
    }
  }

  lemma ArrivesPayload(s: System)
    requires Inv(s) && OpenEnds(s) && s.ba != [] && Payload(s.ba[0])
    ensures Absorbs(s.a, s.ba[0], Receive(s.a, s.ba[0])) && Charged(s.a, s.ba[0], s.hba)
  {
    var snd, rcv, d := SenderOf(s.b), ReceiverOf(s.a), s.ba[0].data;
    if s.ba[0].Data? {
      DataHead(snd, rcv, s.ba, s.ab, s.hba);
      AbsorbData(s.a, d);
    } else {
      ExtendedHead(snd, rcv, s.ba, s.ab, s.hba);
      AbsorbExtended(s.a, d);
    }
  }

  lemma ArrivesControl(s: System)
    requires Inv(s) && OpenEnds(s) && s.ba != [] && !Payload(s.ba[0])
    ensures Absorbs(s.a, s.ba[0], Receive(s.a, s.ba[0]))
  {
    ArriveBack(SenderOf(s.a), ReceiverOf(s.b), s.ab, s.ba, s.hab);
    ControlTeardown(SenderOf(s.b), ReceiverOf(s.a), s.ba);
    match s.ba[0]
    case Adjust(n) => AbsorbAdjust(s.a, n);
    case Eof => AbsorbEof(s.a);
    case Close => AbsorbClose(s.a);
    case Eow => AbsorbEow(s.a);
  }

  lemma Arrives(s: System)
    requires Inv(s) && OpenEnds(s) && s.ba != []
    ensures !s.a.Dead() && Absorbs(s.a, s.ba[0], Receive(s.a, s.ba[0])) && Charged(s.a, s.ba[0], s.hba)
  {
    NotDeadYet(s);
    if Payload(s.ba[0]) {
      ArrivesPayload(s);
    } else {
      ArrivesControl(s);
    }
  }

  lemma DeliverIs(s: System, r: Reaction)
    requires s.ba != [] && !s.a.Dead() && r == Receive(s.a, s.ba[0]) && r.Reaction?
    ensures StepA(s, Deliver)
         == Running(s.(a := r.chan, ab := s.ab + r.sent, ba := s.ba[1..], hba := Noted(s.a, s.ba[0], s.hba)))
  {
  }

  lemma DeliverMoves(s: System)
    requires Inv(s) && OpenEnds(s) && s.ba != []
    ensures GoesOnwards(s, Deliver)
  {
    var r := Receive(s.a, s.ba[0]);
    Arrives(s);
    DeliverIs(s, r);
    ArrivalOnwards(s, r);
  }

  lemma MovesOnwards(s: System, e: Event)
    requires Inv(s) && OpenEnds(s) && Moves(s, e)
    ensures GoesOnwards(s, e)
  {
    match e
    case ReadReady(_) => ReadMoves(s);
    case WriteReady(room) => WriteMoves(s, room);
    case ExtReadReady(_) => ExtReadMoves(s);
    case ExtWriteReady(room) => ExtWriteMoves(s, room);
    case Deliver => DeliverMoves(s);
    case _ => ProtocolMoves(s, e);
  }

  lemma MirrorOnwards(s: System, t: System)
    requires Onwards(s.Mirror(), t)
    ensures Onwards(s, t.Mirror())
  {
  }

  /**
   Whatever moves onwards leaves less to do, so that at most Work(s) such events can follow one another. It keeps a
   healthy channel healthy, reads nothing more and leaves alone what decides whether a window can run out.
   */
  lemma ProgressOnwards(s: System, e: (bool, Event))
    requires Inv(s) && OpenEnds(s) && Progress(s, e)
    ensures Step(s, e).Running? && Inv(Step(s, e).sys) && Onwards(s, Step(s, e).sys)
  {
    KeepStep(s, e);
    if e.0 {
      MovesOnwards(s, e.1);
    } else {
      MovesOnwards(s.Mirror(), e.1);
      MirrorOnwards(s, StepA(s.Mirror(), e.1).sys);
    }
  }

  // ---- when a direction is stuck

  /** No message is in flight and b has nothing it could write. */
  predicate Settled(s: System) { s.ab == [] && s.ba == [] && !WantsWrite(s.b) && !WantsExtendedWrite(s.b) }

  /** Credit of b's window that is never returned: ignored, discarded by a failed write, or never to be written. */
  function Lost(b: Chan, h: History): nat { h.ignored + h.dropped + |ReceiverOf(b).extended| }

  /** The whole window is lost, or the ignored part keeps it looking full enough to hold back an adjust. */
  predicate NoCredit(b: Chan, h: History) {
    || Lost(b, h) == b.localWindowMax
    || (b.localWindowMax - h.ignored <= Wrap(b.localMaxPacket * 3) && h.ignored >= b.localWindowMax / 2)
  }

  predicate Stalled(s: System) { Settled(s) && s.a.remoteWindow == 0 && NoCredit(s.b, s.hab) }

  lemma GrantIff(s: System)
    requires Inv(s) && Settled(s) && s.a.remoteWindow == 0 && s.b.kind == Open && !s.b.AnyClose()
    ensures CheckWindow(s.b).sent == [] <==> NoCredit(s.b, s.hab)
  {
    assert s.b.output == [];
    assert s.b.localWindow == s.hab.ignored;
    var gap := s.b.localWindowMax - s.b.localWindow;
    assert (gap + TWO_TO_32) % TWO_TO_32 == gap;
  }

  /** The events that move a's data or b's credit. */
  predicate Advances(s: System, e: (bool, Event)) {
    && Progress(s, e)
    && if e.0 then e.1 in {DoPollInput, DoPollExtended, Deliver}
       else e.1.WriteReady? || e.1.ExtWriteReady? || e.1 in {DoCheckWindow, Deliver}
  }

  /** a holds data it has read but not sent. */
  predicate Waiting(s: System) {
    && s.a.kind == Open && s.b.kind == Open && !s.a.AnyClose() && !s.b.AnyClose()
    && s.a.istate != InputClosed && s.a.remoteMaxPacket > 0
    && (s.a.input != [] || SenderOf(s.a).extended != [])
  }

  lemma UnsettledAdvances(s: System) returns (e: (bool, Event))
    requires !Settled(s)
    ensures Advances(s, e)
  {
    if s.ab != [] {
      e := (false, Deliver);
    } else if s.ba != [] {
      e := (true, Deliver);
    } else if WantsWrite(s.b) {
      e := (false, WriteReady(1));
    } else {
      e := (false, ExtWriteReady(1));
    }
  }

  /** A sender with data and a window can send. */
  lemma OpenWindowAdvances(s: System) returns (e: (bool, Event))
    requires Inv(s) && Waiting(s) && s.a.remoteWindow > 0
    ensures Advances(s, e)
  {
    if s.a.input != [] {
      assert PacketLength(s.a, |s.a.input|) > 0;
      e := (true, DoPollInput);
    } else {
      assert PacketLength(s.a, |s.a.extended|) > 0;
      e := (true, DoPollExtended);
    }
  }

  /**
   Exactly when a channel that still has data to send cannot move any: nothing is in flight, b has nothing to
   write, a's window is used up and b has no credit that it would return.
   */
  lemma StalledIff(s: System)
    requires Inv(s) && Waiting(s)
    ensures !(exists e :: Advances(s, e)) <==> Stalled(s)
  {
    if !Settled(s) {
      var e := UnsettledAdvances(s);
    } else if s.a.remoteWindow > 0 {
      var e := OpenWindowAdvances(s);
    } else {
      GrantIff(s);
      if !NoCredit(s.b, s.hab) {
        assert Advances(s, (false, DoCheckWindow));
      } else {
        forall e ensures !Advances(s, e) {
          assert PollInput(s.a).sent == [] && PollExtended(s.a).sent == [];
        }
      }
    }
  }

  // ---- where progress ends

  ghost predicate CanProgress(s: System) { exists e :: Progress(s, e) }

  predicate Finished(s: System) { s.a.Dead() && s.b.Dead() }

  lemma NoMoreMoves(s: System, e: Event)
    requires !CanProgress(s)
    ensures !Moves(s, e) && !Moves(s.Mirror(), e)
  {
    assert !Progress(s, (true, e)) && !Progress(s, (false, e));
  }

  /** A run of events each of which moves something onwards. */
  predicate AllProgress(s: System, es: seq<(bool, Event)>)
    decreases es
  {
    es == [] || (Progress(s, es[0]) && Step(s, es[0]).Running? && AllProgress(Step(s, es[0]).sys, es[1..]))
  }

  /** With no progress possible, nothing is in flight and neither end has anything to write. */
  lemma AtRest(s: System)
    requires !CanProgress(s)
    ensures Settled(s) && Settled(s.Mirror())
  {
    NoMoreMoves(s, Deliver);
    NoMoreMoves(s, WriteReady(1));
    NoMoreMoves(s, ExtWriteReady(1));
  }

  /** An end that could still read has seen no CLOSE, and neither has its peer. */
  lemma OpenInputNoClose(s: System)
    requires Inv(s) && Closing(s) && Settled(s) && s.a.istate != InputClosed
    ensures !s.a.AnyClose() && !s.b.AnyClose() && !s.a.eofSent
  {
  }

  /** With no progress possible, an input that is not closed has no window and no hope of any. */
  lemma OpenInputIsStalled(s: System)
    requires Inv(s) && Closing(s) && OpenEnds(s) && !CanProgress(s) && s.a.istate != InputClosed
    ensures Stalled(s)
  {
    AtRest(s);
    OpenInputNoClose(s);
    NoMoreMoves(s, ReadReady([]));
    NoMoreMoves(s, ExtReadReady([]));
    NoMoreMoves(s, DoPollInput);
    NoMoreMoves(s, DoPollExtended);
    NoMoreMoves(s, DoCheckWindow);
    OpenInputNoWindow(s.a);
    GrantIff(s);
  }

  lemma OpenInputNoWindow(c: Chan)
    requires ChanOk(c) && OpenEnd(c) && c.istate != InputClosed && !c.AnyClose()
    requires !WantsRead(c) && !WantsExtendedRead(c) && PollInput(c).sent == [] && PollExtended(c).sent == []
    ensures c.remoteWindow == 0
  {
  }

  /** An output that has nothing to write and will hear nothing more is closed. */
  lemma DrainedOutput(c: Chan)
    requires ChanOk(c) && OpenEnd(c) && c.ostate != OutputOpen && (c.eofRcvd || c.closeRcvd)
    requires !WantsWrite(c) && !WantsExtendedWrite(c) && PreOpen(c) == c
    ensures c.ostate == OutputClosed
  {
  }

  /** With no progress possible and no input open, an end that the peer has finished with is dead. */
  lemma OutputsClosed(s: System)
    requires Inv(s) && Closing(s) && OpenEnds(s) && !CanProgress(s) && s.a.istate == s.b.istate == InputClosed
    ensures s.a.ostate == OutputClosed || s.b.ostate == OutputClosed
    ensures s.a.eofSent || s.a.closeSent ==> s.b.ostate == OutputClosed
  {
    AtRest(s);
    NoMoreMoves(s, DoPreOpen);
    if s.a.eofSent || s.a.closeSent {
      DrainedOutput(s.b);
    }
    if s.b.eofSent || s.b.closeSent {
      DrainedOutput(s.a);
    }
  }

  /** With no progress possible and both inputs closed, however that came about, CLOSE has gone both ways. */
  lemma ClosedInputsFinish(s: System)
    requires Inv(s) && Closing(s) && OpenEnds(s) && !CanProgress(s) && s.a.istate == s.b.istate == InputClosed
    ensures Finished(s)
  {
    AtRest(s);
    NoMoreMoves(s, DoCollect);
    MirrorAtRest(s);
    OutputsClosed(s);
    OutputsClosed(s.Mirror());
    assert s.a.closeSent || s.b.closeSent;
    assert s.a.closeSent && s.b.closeSent;
  }

  lemma MirrorAtRest(s: System)
    requires !CanProgress(s)
    ensures !CanProgress(s.Mirror())
  {
    forall e ensures !Progress(s.Mirror(), e) { NoMoreMoves(s, e.1); }
  }

  /** a could still read, and what it reads can never be sent. */
  predicate Hung(s: System) { s.a.istate != InputClosed && Stalled(s) }

  /** With no progress possible, both ends are dead unless a direction is stalled for good. */
  lemma RestFinishesIff(s: System)
    requires Inv(s) && Closing(s) && OpenEnds(s) && !CanProgress(s)
    ensures Finished(s) <==> !Hung(s) && !Hung(s.Mirror())
    ensures Hung(s) <==> s.a.istate != InputClosed
  {
    MirrorAtRest(s);
    if s.a.istate != InputClosed {
      OpenInputIsStalled(s);
    } else if s.b.istate != InputClosed {
      OpenInputIsStalled(s.Mirror());
    } else {
      ClosedInputsFinish(s);
    }
  }

  /**
   Whatever has happened to a channel, writes that failed and CLOSEs before EOF included: in whatever order the events
   that move things onwards come, there are at most Work(s) of them, and when no more can follow, both ends are dead if
   and only if neither direction has stalled for good.
   */
  lemma {:induction false} EveryWayEnds(s: System, es: seq<(bool, Event)>)
    requires Inv(s) && Closing(s) && OpenEnds(s) && AllProgress(s, es)
    ensures |es| <= Work(s) && Run(s, es).Running?
    ensures var t := Run(s, es).sys;
      !CanProgress(t) ==> (Finished(t) <==> !Hung(t) && !Hung(t.Mirror()))
    decreases es
  {
    if es == [] {
      if !CanProgress(s) {
        RestFinishesIff(s);
      }
    } else {
      ProgressOnwards(s, es[0]);
      KeepClosing(s, es[0]);
      EveryWayEnds(Step(s, es[0]).sys, es[1..]);
    }
  }

  /** So it is with every channel after any run `es` from the open handshake, once both ends have been opened. */
  lemma EveryChannelEnds(s: System, es: seq<(bool, Event)>, fs: seq<(bool, Event)>)
    requires Initial(s) && Run(s, es).Running? && OpenEnds(Run(s, es).sys) && AllProgress(Run(s, es).sys, fs)
    ensures |fs| <= Work(Run(s, es).sys) && Run(Run(s, es).sys, fs).Running?
    ensures var t := Run(Run(s, es).sys, fs).sys;
      !CanProgress(t) ==> (Finished(t) <==> !Hung(t) && !Hung(t.Mirror()))
  {
    RunCloses(s, es);
    EveryWayEnds(Run(s, es).sys, fs);
  }

  // ---- channels that complete

  /**
   The window from a to b may run out for good: of all the bytes b has ignored or is going to ignore, and the
   stderr it can no longer write, too few are left for an adjust. Nothing that moves onwards changes this.
   */
  predicate MayStall(s: System) {
    var i, max := WrittenOff(SenderOf(s.a), ReceiverOf(s.b), s.ab, s.hab), s.b.localWindowMax;
    || i + (if ReceiverOf(s.b).efd then 0 else |ReceiverOf(s.b).extended|) >= max
    || (max - i <= Wrap(s.b.localMaxPacket * 3) && i >= max / 2)
  }

  lemma HealthyCloses(s: System)
    requires Inv(s) && Healthy(s)
    ensures Closing(s) && OpenEnds(s)
  {
  }

  lemma StalledMayStall(s: System)
    requires Inv(s) && Healthy(s) && Hung(s)
    ensures MayStall(s)
  {
    HealthyCloses(s);
    OpenInputNoClose(s);
    assert ReceiverOf(s.b).efd ==> s.b.extended == [];
  }

  /** b has written all that a had read, stderr included where b takes it, and has seen the end of it. */
  predicate Delivered(s: System, t: System) {
    && t.hab.written == s.hab.read && (ReceiverOf(s.b).efd ==> t.hab.extWritten == s.hab.extRead)
    && t.b.ostate == OutputClosed
  }

  lemma RestDelivers(s: System)
    requires Inv(s) && Healthy(s) && !CanProgress(s)
    ensures Delivered(s, s) <==> !Hung(s)
    ensures Hung(s) ==> MayStall(s)
  {
    HealthyCloses(s);
    RestFinishesIff(s);
    if Hung(s) {
      StalledMayStall(s);
      OpenInputNoClose(s);
    } else {
      AtRest(s);
      NoMoreMoves(s, DoPreOpen);
      assert s.ab == [] && s.b.output == [] && s.a.input == [] && s.b.eofRcvd;
      StreamDelivers(SenderOf(s.a), ReceiverOf(s.b), s.ab, s.hab);
      ExtendedDelivers(SenderOf(s.a), ReceiverOf(s.b), s.ab, s.hab);
      assert s.hab.written + [] + [] + [] == s.hab.written;
      assert s.hab.extWritten + [] + [] + [] == s.hab.extWritten;
    }
  }

  lemma OnwardsKeepsFate(s: System, t: System)
    requires Healthy(s) && Onwards(s, t)
    ensures MayStall(t) == MayStall(s) && MayStall(t.Mirror()) == MayStall(s.Mirror())
    ensures forall u :: Delivered(t, u) <==> Delivered(s, u)
  {
  }

  /**
   In whatever order the events that move things onwards come, when no more can follow, b has written all that a had
   read if and only if this direction has not stalled, whatever the other one does; and it does not stall if the credit
   suffices.
   */
  lemma {:induction false} EveryWayDelivers(s: System, es: seq<(bool, Event)>)
    requires Inv(s) && Healthy(s) && AllProgress(s, es)
    ensures Run(s, es).Running?
    ensures var t := Run(s, es).sys;
      !CanProgress(t) ==> (Delivered(s, t) <==> !Hung(t)) && (!MayStall(s) ==> Delivered(s, t))
    decreases es
  {
    if es == [] {
      if !CanProgress(s) {
        RestDelivers(s);
      }
    } else {
      HealthyCloses(s);
      ProgressOnwards(s, es[0]);
      OnwardsKeepsFate(s, Step(s, es[0]).sys);
      EveryWayDelivers(Step(s, es[0]).sys, es[1..]);
    }
  }

  /** When neither direction can stall, both ends are dead in the end. */
  lemma {:induction false} EveryWayFinishes(s: System, es: seq<(bool, Event)>)
    requires Inv(s) && Healthy(s) && !MayStall(s) && !MayStall(s.Mirror()) && AllProgress(s, es)
    ensures Run(s, es).Running? && (!CanProgress(Run(s, es).sys) ==> Finished(Run(s, es).sys))
    decreases es
  {
    if es == [] {
      if !CanProgress(s) {
        RestDelivers(s);
        MirrorAtRest(s);
        RestDelivers(s.Mirror());
        HealthyCloses(s);
        RestFinishesIff(s);
      }
    } else {
      HealthyCloses(s);
      ProgressOnwards(s, es[0]);
      OnwardsKeepsFate(s, Step(s, es[0]).sys);
      EveryWayFinishes(Step(s, es[0]).sys, es[1..]);
    }
  }

  /** Progress can always be made until none is possible. */
  lemma {:induction false} LastWay(s: System) returns (es: seq<(bool, Event)>)
    requires Inv(s) && OpenEnds(s)
    ensures AllProgress(s, es) && Run(s, es).Running? && !CanProgress(Run(s, es).sys)
    decreases Work(s)
  {
    if !CanProgress(s) {
      return [];
    }
    var e :| Progress(s, e);
    ProgressOnwards(s, e);
    var rest := LastWay(Step(s, e).sys);
    es := [e] + rest;
    assert es[1..] == rest;
  }

  /** So there is a run that delivers everything read and closes both ends. */
  lemma ShutdownCompletes(s: System) returns (es: seq<(bool, Event)>)
    requires Inv(s) && Healthy(s) && !MayStall(s) && !MayStall(s.Mirror())
    ensures AllProgress(s, es) && Run(s, es).Running? && Finished(Run(s, es).sys)
    ensures Run(s, es).sys.hab.written == s.hab.read && Run(s, es).sys.hba.written == s.hba.read
  {
    HealthyCloses(s);
    es := LastWay(s);
    EveryWayDelivers(s, es);
    EveryWayFinishes(s, es);
    var t := Run(s, es).sys;
    MirrorRun(s, es);
    EveryWayDelivers(s.Mirror(), Swapped(es));
    MirrorAtRest(t);
  }

  /** The same events with the ends exchanged. */
  function Swapped(es: seq<(bool, Event)>): seq<(bool, Event)> {
    if es == [] then [] else [(!es[0].0, es[0].1)] + Swapped(es[1..])
  }

  lemma {:induction false} MirrorRun(s: System, es: seq<(bool, Event)>)
    requires AllProgress(s, es)
    ensures Run(s, es).Running? && AllProgress(s.Mirror(), Swapped(es))
    ensures Run(s.Mirror(), Swapped(es)) == Running(Run(s, es).sys.Mirror())
    decreases es
  {
    if es != [] {
      MirrorRun(Step(s, es[0]).sys, es[1..]);
      assert Swapped(es)[1..] == Swapped(es[1..]);
      assert s.Mirror().Mirror() == s;
    }
  }

  /** A fresh channel between open ends starts out healthy, and cannot stall unless its window is less than two bytes. */
  lemma FreshIsHealthy(s: System)
    requires Initial(s) && s.a.kind == s.b.kind == Open && s.a.remoteMaxPacket > 0 && s.b.remoteMaxPacket > 0
    requires !(s.a.forceDrain && s.a.usage == Read) && !(s.b.forceDrain && s.b.usage == Read)
    ensures Healthy(s) && (MayStall(s) <==> s.b.localWindowMax < 2 && s.b.localWindowMax <= Wrap(s.b.localMaxPacket * 3))
  {
  }
}
