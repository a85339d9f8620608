/** What ends reading and writing for good, in every run, and that nothing else does. */
module ChannelShut {
  import opened Basics
  import opened ChannelEndpoint
  import opened ChannelProtocol
  import opened ChannelSafety
  import opened ChannelTeardown

  // ---- the input half

  predicate Reading(c: Chan) { c.istate == InputOpen }

  /** End of file on rfd, seen when channel_pre_open asks for it. */
  predicate ReadsEnd(c: Chan, ready: Bytes) {
    ready == [] && c.kind == Open && |c.input| < c.remoteWindow && |c.input| + 0x4000 <= 0x100_0000
  }

  /** The messages that end reading: EOW and CLOSE, and EOF where the input is drained by force. */
  predicate HearsEnd(c: Chan, m: Message) { m == Eow || m == Close || (m == Eof && c.forceDrain) }

  /** The events at a that end reading there. */
  predicate EndsReading(s: System, e: Event) {
    || (e.ReadReady? && ReadsEnd(s.a, e.ready))
    || (e.Deliver? && s.ba != [] && HearsEnd(s.a, s.ba[0]))
  }

  lemma ReadKeepsReading(c: Chan, ready: Bytes)
    ensures Reading(HandleRead(c, ready)) <==> Reading(c) && !ReadsEnd(c, ready)
  {
    if WantsRead(c) && ready != [] {
      assert HandleRead(c, ready) == c.(input := c.input + Taken(c, ready));
    }
  }

  lemma ShutTakesNothing(c: Chan, ready: Bytes)
    requires !Reading(c)
    ensures Taken(c, ready) == []
  {
  }

  lemma FilesKeepReading(c: Chan, ready: Bytes, room: nat)
    ensures HandleExtendedRead(c, ready).istate == c.istate && HandleExtendedWrite(c, room).istate == c.istate
  {
    var extended := c.extended + ExtendedTaken(c, ready);
    assert HandleExtendedRead(c, ready) in {c, c.(efd := false), c.(extended := extended)};
  }

  lemma WriteKeepsReading(c: Chan, room: nat)
    ensures HandleWrite(c, room).Reaction? && HandleWrite(c, room).chan.istate == c.istate
  {
  }

  lemma PollsKeepReading(c: Chan)
    ensures PollInput(c).Reaction? && (Reading(PollInput(c).chan) <==> Reading(c))
    ensures PollExtended(c).Reaction? && PollExtended(c).chan.istate == c.istate
  {
  }

  lemma ChecksKeepReading(c: Chan)
    ensures CheckWindow(c).Reaction? && CheckWindow(c).chan.istate == c.istate && PreOpen(c).istate == c.istate
    ensures CollectGarbage(c).Reaction? && CollectGarbage(c).chan.istate == c.istate
  {
  }

  lemma EofKeepsReading(c: Chan)
    ensures ReceivedEof(c).Reaction? && (Reading(ReceivedEof(c).chan) <==> Reading(c) && !c.forceDrain)
  {
    var d := ReceivedEofState(c);
    assert d == c.(eofRcvd := true, ostate := d.ostate);
  }

  lemma PayloadKeepsReading(c: Chan, d: Bytes)
    ensures InputData(c, d).Reaction? ==> InputData(c, d).chan.istate == c.istate
    ensures InputExtended(c, d).Reaction? ==> InputExtended(c, d).chan.istate == c.istate
  {
  }

  lemma HearingKeepsReading(c: Chan, m: Message)
    ensures Receive(c, m).Reaction? ==> (Reading(Receive(c, m).chan) <==> Reading(c) && !HearsEnd(c, m))
  {
    match m
    case Eof => EofKeepsReading(c);
    case Data(d) => PayloadKeepsReading(c, d);
    case Extended(d) => PayloadKeepsReading(c, d);
    case _ =>
  }

  /** An event at a ends reading there exactly if it is one of those; when it has ended, nothing is read. */
  lemma ReadingEndsIff(s: System, e: Event)
    requires StepA(s, e).Running?
    ensures var t := StepA(s, e).sys;
      && (Reading(t.a) <==> Reading(s.a) && !EndsReading(s, e))
      && (!Reading(s.a) ==> t.hab.read == s.hab.read)
  {
    match e
    case ReadReady(ready) => {
      ReadKeepsReading(s.a, ready);
      if !Reading(s.a) {
        ShutTakesNothing(s.a, ready);
        NothingMore(s.hab.read);
      }
    }
    case WriteReady(room) => WriteKeepsReading(s.a, room);
    case ExtReadReady(ready) => FilesKeepReading(s.a, ready, 0);
    case ExtWriteReady(room) => FilesKeepReading(s.a, [], room);
    case DoPollInput => PollsKeepReading(s.a);
    case DoPollExtended => PollsKeepReading(s.a);
    case Deliver => if s.ba != [] { HearingKeepsReading(s.a, s.ba[0]); }
    case DoActivate(_, _, _) =>
    case _ => ChecksKeepReading(s.a);
  }

  /** What the peer does ends no reading at a and adds nothing to what a has read. */
  lemma PeerReadsAlone(s: System, e: Event)
    requires StepA(s, e).Running?
    ensures var t := StepA(s, e).sys; t.b == s.b && t.hba.read == s.hba.read && t.hba.extRead == s.hba.extRead
  {
  }

  /** The run as the given end sees it, itself in the place of a. */
  function Seen(s: System, end: bool): System { if end then s else s.Mirror() }

  lemma SeenStep(s: System, e: (bool, Event), end: bool)
    requires Step(s, e).Running?
    ensures var t := Step(s, e).sys;
      if e.0 == end then StepA(Seen(s, end), e.1) == Running(Seen(t, end))
      else StepA(Seen(s, end).Mirror(), e.1) == Running(Seen(t, end).Mirror())
  {
  }

  /** An end that has stopped reading reads nothing more, whatever happens at either end. */
  lemma {:induction false} StaysShut(s: System, es: seq<(bool, Event)>, end: bool)
    requires Run(s, es).Running? && !Reading(Seen(s, end).a)
    ensures var t := Run(s, es).sys; !Reading(Seen(t, end).a) && Seen(t, end).hab.read == Seen(s, end).hab.read
    decreases es
  {
    if es != [] {
      SeenStep(s, es[0], end);
      if es[0].0 == end {
        ReadingEndsIff(Seen(s, end), es[0].1);
      } else {
        PeerReadsAlone(Seen(s, end).Mirror(), es[0].1);
      }
      StaysShut(Step(s, es[0]).sys, es[1..], end);
    }
  }

  /** Every run goes on with any event and any events after it. */
  lemma RunsOn(s: System, es: seq<(bool, Event)>, e: (bool, Event), fs: seq<(bool, Event)>)
    requires Initial(s)
    ensures Run(s, es).Running?
    ensures var u := Run(s, es).sys; Step(u, e).Running? && Run(Step(u, e).sys, fs).Running?
  {
    InitialInv(s);
    RunKeeps(s, es);
    KeepStep(Run(s, es).sys, e);
    RunKeeps(Step(Run(s, es).sys, e).sys, fs);
  }

  /** The event that ends reading reads nothing itself. */
  lemma EndReadsNothing(s: System, e: Event)
    requires EndsReading(s, e) && StepA(s, e).Running?
    ensures StepA(s, e).sys.hab.read == s.hab.read
  {
    NothingMore(s.hab.read);
  }

  /**
   Once an EOW, a CLOSE or, where the input is drained by force, an EOF has been delivered to an end, or it has seen
   end of file, it reads nothing more from its rfd in any continuation of any run.
   */
  lemma NothingReadAfter(s: System, es: seq<(bool, Event)>, end: bool, e: Event, fs: seq<(bool, Event)>)
    requires Initial(s) && Run(s, es).Running? && EndsReading(Seen(Run(s, es).sys, end), e)
    ensures var u := Run(s, es).sys;
      && Step(u, (end, e)).Running? && Run(Step(u, (end, e)).sys, fs).Running?
      && var t := Run(Step(u, (end, e)).sys, fs).sys;
      Seen(t, end).hab.read == Seen(u, end).hab.read && !WantsRead(Seen(t, end).a)
  {
    RunsOn(s, es, (end, e), fs);
    var u := Run(s, es).sys;
    var v := Step(u, (end, e)).sys;
    SeenStep(u, (end, e), end);
    EndReadsNothing(Seen(u, end), e);
    ReadingEndsIff(Seen(u, end), e);
    StaysShut(v, fs, end);
  }

  // ---- the extended input of an open channel

  predicate ReadingExtended(c: Chan) { c.efd && c.usage != Write }

  /** End of file on efd, seen when channel_pre_open asks for it. */
  predicate ReadsExtendedEnd(c: Chan, ready: Bytes) {
    ready == [] && !c.eofSent && |c.extended| < c.remoteWindow && !(c.istate == InputClosed && c.ostate == OutputClosed)
  }

  /** CLOSE ends it unless the input was closed already. */
  predicate EndsReadingExtended(s: System, e: Event) {
    || (e.ExtReadReady? && ReadsExtendedEnd(s.a, e.ready))
    || (e.Deliver? && s.ba != [] && s.ba[0] == Close && s.a.istate != InputClosed)
  }

  lemma ReadKeepsFiles(c: Chan, ready: Bytes)
    ensures SameFiles(c, HandleRead(c, ready))
  {
    var taken := c.input + Taken(c, ready);
    assert HandleRead(c, ready) in {c, ReadFailed(c), c.(input := taken)};
  }

  lemma ReadKeepsExtended(c: Chan, ready: Bytes)
    requires c.kind == Open
    ensures var d := HandleExtendedRead(c, ready);
      d.kind == Open && (ReadingExtended(d) <==> ReadingExtended(c) && !ReadsExtendedEnd(c, ready))
    ensures !ReadingExtended(c) ==> ExtendedTaken(c, ready) == []
  {
    var extended := c.extended + ExtendedTaken(c, ready);
    assert HandleExtendedRead(c, ready) in {c, c.(efd := false), c.(extended := extended)};
  }

  lemma WriteKeepsExtended(c: Chan, room: nat)
    requires c.kind == Open
    ensures var d := HandleExtendedWrite(c, room); d.kind == Open && (ReadingExtended(d) <==> ReadingExtended(c))
  {
  }

  /** The handlers that touch neither the type of a channel nor its extended descriptor. */
  predicate SameFiles(c: Chan, d: Chan) { d.kind == c.kind && d.efd == c.efd && d.usage == c.usage }

  lemma WriteKeepsFiles(c: Chan, room: nat)
    ensures HandleWrite(c, room).Reaction? && SameFiles(c, HandleWrite(c, room).chan)
  {
    var output, consumed := c.output[|Written(c, room)|..], Wrap(c.localConsumed + |Written(c, room)|);
    var lost, wrote := c.(output := [], ostate := OutputClosed), c.(output := output, localConsumed := consumed);
    assert HandleWrite(c, room).chan in {c, lost, wrote};
  }

  lemma ChecksKeepFiles(c: Chan)
    ensures CheckWindow(c).Reaction? && SameFiles(c, CheckWindow(c).chan) && SameFiles(c, PreOpen(c))
    ensures CollectGarbage(c).Reaction? && SameFiles(c, CollectGarbage(c).chan)
  {
  }

  lemma PollsKeepFiles(c: Chan)
    ensures PollInput(c).Reaction? && SameFiles(c, PollInput(c).chan)
    ensures PollExtended(c).Reaction? && SameFiles(c, PollExtended(c).chan)
  {
  }

  lemma EofKeepsFiles(c: Chan)
    ensures ReceivedEof(c).Reaction? && SameFiles(c, ReceivedEof(c).chan)
  {
    var d := ReceivedEofState(c);
    assert d == c.(eofRcvd := true, ostate := d.ostate);
  }

  lemma HearingKeepsExtended(c: Chan, m: Message)
    requires c.kind == Open && Receive(c, m).Reaction?
    ensures var d := Receive(c, m).chan;
      d.kind == Open && (ReadingExtended(d) <==> ReadingExtended(c) && !(m == Close && c.istate != InputClosed))
  {
    match m
    case Eof => EofKeepsFiles(c);
    case _ =>
  }

  /** An event at an open end ends reading from efd exactly if it is one of those; then nothing is read from it. */
  lemma ReadingExtendedEndsIff(s: System, e: Event)
    requires StepA(s, e).Running? && s.a.kind == Open
    ensures var t := StepA(s, e).sys;
      && t.a.kind == Open
      && (ReadingExtended(t.a) <==> ReadingExtended(s.a) && !EndsReadingExtended(s, e))
      && (!ReadingExtended(s.a) ==> t.hab.extRead == s.hab.extRead)
  {
    match e
    case ReadReady(ready) => ReadKeepsFiles(s.a, ready);
    case WriteReady(room) => WriteKeepsFiles(s.a, room);
    case ExtReadReady(ready) => ReadKeepsExtended(s.a, ready); NothingMore(s.hab.extRead);
    case ExtWriteReady(room) => WriteKeepsExtended(s.a, room);
    case DoPollInput => PollsKeepFiles(s.a);
    case DoPollExtended => PollsKeepFiles(s.a);
    case Deliver => if s.ba != [] && !s.a.Dead() { HearingKeepsExtended(s.a, s.ba[0]); }
    case DoActivate(_, _, _) =>
    case _ => ChecksKeepFiles(s.a);
  }

  lemma {:induction false} StaysShutExtended(s: System, es: seq<(bool, Event)>, end: bool)
    requires Run(s, es).Running? && Seen(s, end).a.kind == Open && !ReadingExtended(Seen(s, end).a)
    ensures Seen(Run(s, es).sys, end).hab.extRead == Seen(s, end).hab.extRead
    decreases es
  {
    if es != [] {
      SeenStep(s, es[0], end);
      if es[0].0 == end {
        ReadingExtendedEndsIff(Seen(s, end), es[0].1);
      } else {
        PeerReadsAlone(Seen(s, end).Mirror(), es[0].1);
      }
      StaysShutExtended(Step(s, es[0]).sys, es[1..], end);
    }
  }

  lemma EndReadsNoExtended(s: System, e: Event)
    requires EndsReadingExtended(s, e) && StepA(s, e).Running?
    ensures StepA(s, e).sys.hab.extRead == s.hab.extRead
  {
    NothingMore(s.hab.extRead);
  }

  /** The same of an open end's efd after its end of file, or after a CLOSE that found the input not yet closed. */
  lemma NothingReadExtendedAfter(s: System, es: seq<(bool, Event)>, end: bool, e: Event, fs: seq<(bool, Event)>)
    requires Initial(s) && Run(s, es).Running?
    requires var u := Seen(Run(s, es).sys, end); u.a.kind == Open && EndsReadingExtended(u, e)
    ensures var u := Run(s, es).sys;
      && Step(u, (end, e)).Running? && Run(Step(u, (end, e)).sys, fs).Running?
      && Seen(Run(Step(u, (end, e)).sys, fs).sys, end).hab.extRead == Seen(u, end).hab.extRead
  {
    RunsOn(s, es, (end, e), fs);
    var u := Run(s, es).sys;
    var v := Step(u, (end, e)).sys;
    SeenStep(u, (end, e), end);
    EndReadsNoExtended(Seen(u, end), e);
    ReadingExtendedEndsIff(Seen(u, end), e);
    StaysShutExtended(v, fs, end);
  }

  // ---- the output half

  /** What has been written to wfd and what is still to be. */
  function Outgoing(s: System): Bytes { s.hba.written + s.a.output }

  predicate WriteFails(c: Chan) { c.kind == Open && c.ostate != OutputClosed && c.output != [] }

  /** The events at a after which it takes no more data: EOF, CLOSE, and a write that fails. */
  predicate EndsWriting(s: System, e: Event) {
    || (e == WriteReady(0) && WriteFails(s.a))
    || (e.Deliver? && s.ba != [] && (s.ba[0] == Eof || s.ba[0] == Close))
  }

  predicate SameOutput(c: Chan, d: Chan) { d.ostate == c.ostate && d.output == c.output }

  lemma ReadKeepsOutput(c: Chan, ready: Bytes)
    ensures SameOutput(c, HandleRead(c, ready))
  {
    var taken := c.input + Taken(c, ready);
    assert HandleRead(c, ready) in {c, ReadFailed(c), c.(input := taken)};
  }

  lemma ExtendedReadKeepsOutput(c: Chan, ready: Bytes)
    ensures SameOutput(c, HandleExtendedRead(c, ready))
  {
    var extended := c.extended + ExtendedTaken(c, ready);
    assert HandleExtendedRead(c, ready) in {c, c.(efd := false), c.(extended := extended)};
  }

  lemma ExtendedWriteKeepsOutput(c: Chan, room: nat)
    ensures SameOutput(c, HandleExtendedWrite(c, room))
  {
  }

  /** A write moves bytes from the buffer to wfd; one that fails throws the buffer away and ends the output. */
  lemma WriteMovesOutput(s: System, room: nat)
    ensures var r := HandleWrite(s.a, room);
      && r.Reaction? && (r.chan.ostate == OutputOpen <==> s.a.ostate == OutputOpen && !(room == 0 && WriteFails(s.a)))
      && (s.a.ostate != OutputOpen ==> r.chan.ostate != OutputOpen)
      && s.hba.written + Written(s.a, room) + r.chan.output
         == (if room == 0 && WriteFails(s.a) then s.hba.written else s.hba.written + s.a.output)
  {
    var n := |Written(s.a, room)|;
    if WantsWrite(s.a) && room > 0 {
      assert s.hba.written + s.a.output[..n] + s.a.output[n..] == s.hba.written + s.a.output;
    } else {
      NothingMore(s.hba.written);
    }
  }

  lemma PollsKeepOutput(c: Chan)
    ensures PollInput(c).Reaction? && SameOutput(c, PollInput(c).chan)
    ensures PollExtended(c).Reaction? && SameOutput(c, PollExtended(c).chan)
  {
  }

  lemma ChecksKeepOutput(c: Chan)
    ensures CheckWindow(c).Reaction? && SameOutput(c, CheckWindow(c).chan)
    ensures CollectGarbage(c).Reaction? && SameOutput(c, CollectGarbage(c).chan)
    ensures var d := PreOpen(c); d.output == c.output && (d.ostate == OutputOpen <==> c.ostate == OutputOpen)
  {
  }

  lemma EofEndsOutput(c: Chan)
    ensures ReceivedEof(c).Reaction? && ReceivedEof(c).chan.ostate != OutputOpen && ReceivedEof(c).chan.output == c.output
  {
    var d := ReceivedEofState(c);
    assert d == c.(eofRcvd := true, ostate := d.ostate);
  }

  lemma DataOutput(c: Chan, d: Bytes)
    requires InputData(c, d).Reaction?
    ensures var x := InputData(c, d).chan; x.ostate == c.ostate && (c.ostate != OutputOpen ==> x.output == c.output)
  {
  }

  lemma ExtendedOutput(c: Chan, d: Bytes)
    requires InputExtended(c, d).Reaction?
    ensures SameOutput(c, InputExtended(c, d).chan)
  {
  }

  lemma CloseEndsOutput(c: Chan)
    ensures var r := ReceivedClose(c); r.Reaction? && r.chan.ostate != OutputOpen && r.chan.output == c.output
  {
  }

  /** Only data adds to the output buffer, and only to one that is open. */
  lemma HearingOutput(c: Chan, m: Message)
    requires Receive(c, m).Reaction?
    ensures var d := Receive(c, m).chan;
      && (d.ostate == OutputOpen <==> c.ostate == OutputOpen && m != Eof && m != Close)
      && (d.ostate != OutputOpen ==> d.output == c.output)
  {
    match m
    case Eof => EofEndsOutput(c);
    case Close => CloseEndsOutput(c);
    case Data(d) => DataOutput(c, d);
    case Extended(d) => ExtendedOutput(c, d);
    case _ =>
  }

  /** An event at a ends its output exactly if it is one of those; from then on there is nothing new to write. */
  lemma WritingEndsIff(s: System, e: Event)
    requires StepA(s, e).Running?
    ensures var t := StepA(s, e).sys;
      && (t.a.ostate == OutputOpen <==> s.a.ostate == OutputOpen && !EndsWriting(s, e))
      && (t.a.ostate != OutputOpen ==> Outgoing(t) <= Outgoing(s))
      && (e == WriteReady(0) && WriteFails(s.a) ==> Outgoing(t) == s.hba.written)
  {
    match e
    case ReadReady(ready) => ReadKeepsOutput(s.a, ready);
    case WriteReady(room) => WriteMovesOutput(s, room);
    case ExtReadReady(ready) => ExtendedReadKeepsOutput(s.a, ready);
    case ExtWriteReady(room) => ExtendedWriteKeepsOutput(s.a, room);
    case DoPollInput => PollsKeepOutput(s.a);
    case DoPollExtended => PollsKeepOutput(s.a);
    case Deliver => if s.ba != [] && !s.a.Dead() { HearingOutput(s.a, s.ba[0]); }
    case DoActivate(_, _, _) =>
    case _ => ChecksKeepOutput(s.a);
  }

  lemma PeerWritesAlone(s: System, e: Event)
    requires StepA(s, e).Running?
    ensures var t := StepA(s, e).sys; t.b == s.b && t.hab.written == s.hab.written
  {
  }

  lemma {:induction false} StaysUnwritten(s: System, es: seq<(bool, Event)>, end: bool)
    requires Run(s, es).Running? && Seen(s, end).a.ostate != OutputOpen
    ensures Outgoing(Seen(Run(s, es).sys, end)) <= Outgoing(Seen(s, end))
    decreases es
  {
    if es != [] {
      SeenStep(s, es[0], end);
      if es[0].0 == end {
        WritingEndsIff(Seen(s, end), es[0].1);
      } else {
        PeerWritesAlone(Seen(s, end).Mirror(), es[0].1);
      }
      StaysUnwritten(Step(s, es[0]).sys, es[1..], end);
    }
  }

  /**
   Once an EOF or a CLOSE has been delivered to an end, it writes to its wfd at most what was in its buffer then, in any
   continuation of any run; once a write has failed, nothing.
   */
  lemma NothingWrittenAfter(s: System, es: seq<(bool, Event)>, end: bool, e: Event, fs: seq<(bool, Event)>)
    requires Initial(s) && Run(s, es).Running? && EndsWriting(Seen(Run(s, es).sys, end), e)
    ensures var u := Run(s, es).sys;
      && Step(u, (end, e)).Running? && Run(Step(u, (end, e)).sys, fs).Running?
      && Seen(Run(Step(u, (end, e)).sys, fs).sys, end).hba.written
         <= (if e.Deliver? then Outgoing(Seen(u, end)) else Seen(u, end).hba.written)
  {
    RunsOn(s, es, (end, e), fs);
    var u := Run(s, es).sys;
    var v := Step(u, (end, e)).sys;
    SeenStep(u, (end, e), end);
    WritingEndsIff(Seen(u, end), e);
    StaysUnwritten(v, fs, end);
  }

  // ---- how the halves close

  /** Nothing is left to be sent, of the input or of stderr. */
  predicate Drained(c: Chan) { c.input == [] && !(c.usage == Read && (c.efd || c.extended != [])) }

  /** The event at a that closes a draining input: its last poll, or a CLOSE. */
  predicate ClosesInput(s: System, e: Event) {
    || (e.DoPollInput? && s.a.kind == Open && !s.a.closeSent && !s.a.closeRcvd && Drained(s.a))
    || (e.Deliver? && s.ba != [] && s.ba[0] == Close)
  }

  lemma PollCloses(c: Chan)
    requires c.istate == InputWaitDrain
    ensures var r := PollInput(c); var done := c.kind == Open && !c.closeSent && !c.closeRcvd && Drained(c);
      && r.Reaction? && r.chan.istate == (if done then InputClosed else InputWaitDrain)
      && (done ==> r.sent == [Eof] && r.chan.eofSent)
  {
  }

  lemma HearingDrains(c: Chan, m: Message)
    requires c.istate == InputWaitDrain && Receive(c, m).Reaction?
    ensures var r := Receive(c, m); if m == Close then r.chan.istate == InputClosed else r.chan.istate == InputWaitDrain
    ensures m == Close && c.kind == Open ==> Receive(c, m).sent == [Eof] && Receive(c, m).chan.eofSent
  {
    match m
    case Eof => EofDrains(c);
    case Data(d) => PayloadKeepsReading(c, d);
    case Extended(d) => PayloadKeepsReading(c, d);
    case _ =>
  }

  lemma EofDrains(c: Chan)
    requires c.istate == InputWaitDrain
    ensures ReceivedEof(c).Reaction? && ReceivedEof(c).chan.istate == InputWaitDrain
  {
    var d := ReceivedEofState(c);
    assert d == c.(eofRcvd := true, ostate := d.ostate);
  }

  lemma ReadDrains(c: Chan, ready: Bytes)
    requires c.istate == InputWaitDrain
    ensures HandleRead(c, ready).istate == InputWaitDrain
  {
  }

  /** A draining input closes exactly by its last poll or a CLOSE, and an open channel's sends its EOF as it does. */
  lemma DrainingEndsIff(s: System, e: Event)
    requires s.a.istate == InputWaitDrain && StepA(s, e).Running?
    ensures var t := StepA(s, e).sys;
      && t.a.istate == (if ClosesInput(s, e) then InputClosed else InputWaitDrain)
      && (ClosesInput(s, e) && s.a.kind == Open ==> t.a.eofSent && t.ab == s.ab + [Eof])
  {
    match e
    case ReadReady(ready) => ReadDrains(s.a, ready);
    case WriteReady(room) => WriteKeepsReading(s.a, room);
    case ExtReadReady(ready) => FilesKeepReading(s.a, ready, 0);
    case ExtWriteReady(room) => FilesKeepReading(s.a, [], room);
    case DoPollInput => PollCloses(s.a);
    case DoPollExtended => PollsKeepReading(s.a);
    case Deliver => if s.ba != [] { HearingDrains(s.a, s.ba[0]); }
    case DoActivate(_, _, _) =>
    case _ => ChecksKeepReading(s.a);
  }

  lemma PollsKeepEof(c: Chan)
    requires c.eofSent
    ensures PollInput(c).Reaction? && PollInput(c).chan.eofSent && PollExtended(c).Reaction? && PollExtended(c).chan.eofSent
  {
  }

  lemma WriteKeepsEof(c: Chan, room: nat)
    requires c.eofSent
    ensures HandleWrite(c, room).Reaction? && HandleWrite(c, room).chan.eofSent
  {
  }

  lemma ChecksKeepEof(c: Chan)
    requires c.eofSent
    ensures PreOpen(c).eofSent && CollectGarbage(c).Reaction? && CollectGarbage(c).chan.eofSent
  {
  }

  lemma HearingKeepsEof(c: Chan, m: Message)
    requires c.eofSent && Receive(c, m).Reaction?
    ensures Receive(c, m).chan.eofSent
  {
    match m
    case Eof => EofKeepsEof(c);
    case Data(d) => DataCloses(c, d);
    case Extended(d) => ExtendedCloses(c, d);
    case _ =>
  }

  lemma EofKeepsEof(c: Chan)
    requires c.eofSent
    ensures ReceivedEof(c).Reaction? && ReceivedEof(c).chan.eofSent
  {
    var d := ReceivedEofState(c);
    assert d == c.(eofRcvd := true, ostate := d.ostate);
  }

  lemma EofSentStays(s: System, e: Event)
    requires s.a.eofSent && StepA(s, e).Running?
    ensures StepA(s, e).sys.a.eofSent
  {
    match e
    case ReadReady(ready) => ReadCloses(s.a, ready);
    case WriteReady(room) => WriteKeepsEof(s.a, room);
    case ExtReadReady(ready) => ExtReadCloses(s.a, ready);
    case ExtWriteReady(room) => ExtWriteCloses(s.a, room);
    case DoPollInput => PollsKeepEof(s.a);
    case DoPollExtended => PollsKeepEof(s.a);
    case DoCheckWindow => CheckCloses(s.a);
    case Deliver => if s.ba != [] && !s.a.Dead() { HearingKeepsEof(s.a, s.ba[0]); }
    case DoActivate(_, _, _) =>
    case _ => ChecksKeepEof(s.a);
  }

  /**
   An input that has seen end of file still sends its EOF: in every continuation it is draining or its EOF has been sent,
   whatever else the end hears meanwhile.
   */
  lemma {:induction false} DrainingSendsEof(s: System, es: seq<(bool, Event)>, end: bool)
    requires Run(s, es).Running?
    requires var c := Seen(s, end).a; c.kind == Open && (c.istate == InputWaitDrain || c.eofSent)
    ensures var c := Seen(Run(s, es).sys, end).a; c.kind == Open && (c.istate == InputWaitDrain || c.eofSent)
    decreases es
  {
    if es != [] {
      SeenStep(s, es[0], end);
      var u := Seen(s, end);
      if es[0].0 != end {
        PeerReadsAlone(u.Mirror(), es[0].1);
      } else {
        OpenStaysOpen(u, es[0].1);
        if u.a.eofSent {
          EofSentStays(u, es[0].1);
        } else {
          DrainingEndsIff(u, es[0].1);
        }
      }
      DrainingSendsEof(Step(s, es[0]).sys, es[1..], end);
    }
  }

  /** Nothing is left to be written to wfd, or to efd where it is still to be written to. */
  predicate Flushed(c: Chan) { c.output == [] && !(c.usage == Write && c.efd && (!(c.eofRcvd || c.closeRcvd) || c.extended != [])) }

  /** The events at a that close its output. */
  predicate ClosesOutput(s: System, e: Event) {
    || (e == WriteReady(0) && WriteFails(s.a))
    || (e.DoPreOpen? && s.a.kind == Open && s.a.ostate == OutputWaitDrain && Flushed(s.a))
    || (e.Deliver? && s.ba != [] && s.ba[0] == Eof && Flushed(s.a.(eofRcvd := true)))
    || (e.Deliver? && s.ba != [] && s.ba[0] == Close && s.a.kind == Larval)
  }

  lemma WriteCloses(c: Chan, room: nat)
    requires c.ostate != OutputClosed
    ensures HandleWrite(c, room).Reaction? && (HandleWrite(c, room).chan.ostate == OutputClosed <==> room == 0 && WriteFails(c))
  {
  }

  lemma ChecksClose(c: Chan)
    requires c.ostate != OutputClosed
    ensures PreOpen(c).ostate == OutputClosed <==> c.kind == Open && c.ostate == OutputWaitDrain && Flushed(c)
    ensures CheckWindow(c).Reaction? && CheckWindow(c).chan.ostate != OutputClosed
    ensures CollectGarbage(c).Reaction? && CollectGarbage(c).chan.ostate != OutputClosed
  {
  }

  lemma EofCloses(c: Chan)
    requires c.ostate != OutputClosed
    ensures ReceivedEof(c).Reaction? && (ReceivedEof(c).chan.ostate == OutputClosed <==> Flushed(c.(eofRcvd := true)))
  {
    var d := ReceivedEofState(c);
    assert d == c.(eofRcvd := true, ostate := d.ostate);
  }

  lemma HearingCloses(c: Chan, m: Message)
    requires c.ostate != OutputClosed && Receive(c, m).Reaction?
    ensures Receive(c, m).chan.ostate == OutputClosed <==>
      (m == Eof && Flushed(c.(eofRcvd := true))) || (m == Close && c.kind == Larval)
  {
    match m
    case Eof => EofCloses(c);
    case Data(d) => DataOutput(c, d);
    case Extended(d) => ExtendedOutput(c, d);
    case _ =>
  }

  /** An output closes exactly when a write fails, or when EOF is or has been received and nothing is left to be written. */
  lemma OutputClosesIff(s: System, e: Event)
    requires s.a.ostate != OutputClosed && StepA(s, e).Running?
    ensures StepA(s, e).sys.a.ostate == OutputClosed <==> ClosesOutput(s, e)
  {
    match e
    case ReadReady(ready) => ReadKeepsOutput(s.a, ready);
    case WriteReady(room) => WriteCloses(s.a, room);
    case ExtReadReady(ready) => ExtendedReadKeepsOutput(s.a, ready);
    case ExtWriteReady(room) => ExtendedWriteKeepsOutput(s.a, room);
    case DoPollInput => PollsKeepOutput(s.a);
    case DoPollExtended => PollsKeepOutput(s.a);
    case Deliver => if s.ba != [] { HearingCloses(s.a, s.ba[0]); }
    case DoActivate(_, _, _) =>
    case _ => ChecksClose(s.a);
  }

  // ---- a failed write stops the peer's reading

  /** A failed write on a session channel is on its way to the peer, or the peer has stopped reading. */
  predicate Told(s: System) { Eow in s.ab || !Reading(s.b) }

  lemma InLink(q: seq<Message>, sent: seq<Message>)
    requires Eow in q
    ensures Eow in q + sent && (q[0] == Eow || Eow in q[1..])
  {
    if q[0] != Eow {
      assert q == [q[0]] + q[1..];
    }
  }

  lemma ReadsTellNothing(c: Chan, ready: Bytes)
    ensures HandleRead(c, ready).sendsEow == c.sendsEow
  {
    ghost var taken := c.(input := c.input + Taken(c, ready));
    assert HandleRead(c, ready) in {c, ReadFailed(c), taken};
  }

  lemma FilesTellNothing(c: Chan, ready: Bytes, room: nat)
    ensures HandleExtendedRead(c, ready).sendsEow == c.sendsEow && HandleExtendedWrite(c, room).sendsEow == c.sendsEow
  {
    ghost var extended := c.(extended := c.extended + ExtendedTaken(c, ready));
    assert HandleExtendedRead(c, ready) in {c, c.(efd := false), extended};
  }

  lemma WriteTells(c: Chan, room: nat)
    ensures var r := HandleWrite(c, room);
      && r.Reaction? && r.chan.sendsEow == c.sendsEow && (Eow in r.sent <==> room == 0 && WriteFails(c) && c.sendsEow)
  {
  }

  predicate TellsNothing(c: Chan, r: Reaction) { r.Reaction? ==> r.chan.sendsEow == c.sendsEow && Eow !in r.sent }

  lemma PollsTellNothing(c: Chan)
    ensures TellsNothing(c, PollInput(c)) && TellsNothing(c, PollExtended(c))
  {
  }

  lemma ChecksTellNothing(c: Chan)
    ensures TellsNothing(c, CheckWindow(c)) && TellsNothing(c, CollectGarbage(c)) && PreOpen(c).sendsEow == c.sendsEow
  {
  }

  lemma EofTellsNothing(c: Chan)
    ensures TellsNothing(c, ReceivedEof(c))
  {
    var d := ReceivedEofState(c);
    assert d == c.(eofRcvd := true, ostate := d.ostate);
  }

  lemma DataTellsNothing(c: Chan, d: Bytes)
    ensures TellsNothing(c, InputData(c, d)) && TellsNothing(c, InputExtended(c, d))
  {
  }

  lemma HearingTellsNothing(c: Chan, m: Message)
    ensures TellsNothing(c, Receive(c, m))
  {
    match m
    case Data(d) => DataTellsNothing(c, d);
    case Extended(d) => DataTellsNothing(c, d);
    case Eof => EofTellsNothing(c);
    case _ =>
  }

  /** An EOW is sent exactly when a write fails on a session channel towards a peer that knows it. */
  lemma EowSentIff(s: System, e: Event)
    requires StepA(s, e).Running?
    ensures StepA(s, e).sys.a.sendsEow == s.a.sendsEow
    ensures Eow in StepA(s, e).sys.ab <==> Eow in s.ab || (e == WriteReady(0) && WriteFails(s.a) && s.a.sendsEow)
  {
    match e
    case DoPreOpen => ChecksTellNothing(s.a);
    case DoCheckWindow => ChecksTellNothing(s.a);
    case DoCollect => ChecksTellNothing(s.a);
    case DoPollInput => PollsTellNothing(s.a);
    case DoPollExtended => PollsTellNothing(s.a);
    case Deliver => if s.ba != [] { HearingTellsNothing(s.a, s.ba[0]); }
    case WriteReady(room) => WriteTells(s.a, room);
    case ReadReady(ready) => ReadsTellNothing(s.a, ready);
    case ExtReadReady(ready) => FilesTellNothing(s.a, ready, 0);
    case ExtWriteReady(room) => FilesTellNothing(s.a, [], room);
    case DoActivate(_, _, _) =>
  }

  /** Hearing the EOW on its way to b is the only way it leaves the link. */
  lemma HearsTold(s: System, e: Event)
    requires StepA(s, e).Running? && Told(s.Mirror())
    ensures Told(StepA(s, e).sys.Mirror())
  {
    ReadingEndsIff(s, e);
    if Reading(s.a) {
      InLink(s.ba, []);
    }
  }

  lemma {:induction false} StaysTold(s: System, es: seq<(bool, Event)>, end: bool)
    requires Run(s, es).Running? && Told(Seen(s, end))
    ensures Told(Seen(Run(s, es).sys, end))
    decreases es
  {
    if es != [] {
      SeenStep(s, es[0], end);
      if es[0].0 == end {
        EowSentIff(Seen(s, end), es[0].1);
        PeerReadsAlone(Seen(s, end), es[0].1);
      } else {
        assert Seen(s, end).Mirror().Mirror() == Seen(s, end);
        HearsTold(Seen(s, end).Mirror(), es[0].1);
      }
      StaysTold(Step(s, es[0]).sys, es[1..], end);
    }
  }

  /**
   After a write has failed on a session channel, in every continuation of every run the peer has been told to stop
   reading or the EOW that tells it is on its way.
   */
  lemma FailedWriteStopsPeer(s: System, es: seq<(bool, Event)>, end: bool, fs: seq<(bool, Event)>)
    requires Initial(s) && Run(s, es).Running?
    requires var u := Seen(Run(s, es).sys, end); WriteFails(u.a) && u.a.sendsEow
    ensures var u := Run(s, es).sys;
      && Step(u, (end, WriteReady(0))).Running? && Run(Step(u, (end, WriteReady(0))).sys, fs).Running?
      && Told(Seen(Run(Step(u, (end, WriteReady(0))).sys, fs).sys, end))
  {
    RunsOn(s, es, (end, WriteReady(0)), fs);
    var u := Run(s, es).sys;
    SeenStep(u, (end, WriteReady(0)), end);
    EowSentIff(Seen(u, end), WriteReady(0));
    StaysTold(Step(u, (end, WriteReady(0))).sys, fs, end);
  }

  /** An end whose channel is no session, or whose peer does not know the request, never sends one. */
  lemma {:induction false} OthersSendNoEow(s: System, es: seq<(bool, Event)>, end: bool)
    requires Run(s, es).Running? && !Seen(s, end).a.sendsEow && Eow !in Seen(s, end).ab
    ensures !Seen(Run(s, es).sys, end).a.sendsEow && Eow !in Seen(Run(s, es).sys, end).ab
    decreases es
  {
    if es != [] {
      SeenStep(s, es[0], end);
      if es[0].0 == end {
        EowSentIff(Seen(s, end), es[0].1);
      } else {
        PeerReadsAlone(Seen(s, end).Mirror(), es[0].1);
        LinkShrinks(Seen(s, end).Mirror(), es[0].1);
      }
      OthersSendNoEow(Step(s, es[0]).sys, es[1..], end);
    }
  }

  /** Events at a take nothing but the head of the incoming link. */
  lemma LinkShrinks(s: System, e: Event)
    requires StepA(s, e).Running?
    ensures StepA(s, e).sys.ba == s.ba || (s.ba != [] && StepA(s, e).sys.ba == s.ba[1..])
  {
  }
}
