/**
 What has closed a half of a channel, in every run: EOF, CLOSE, a failed write, or the peer's notice that its write has
 failed.
 */
module ChannelTeardown {
  import opened Basics
  import opened ChannelEndpoint
  import opened ChannelProtocol
  import opened ChannelSafety

  /** Why c's halves are closed; `deaf` is that the peer writes no more of what c sends. */
  predicate ClosedFor(c: Chan, deaf: bool) {
    && (c.closeRcvd ==> c.istate == InputClosed && c.ostate != OutputOpen)
    && (c.eofRcvd ==> c.ostate != OutputOpen)
    && (c.istate == InputClosed ==> c.eofSent || c.closeRcvd || deaf)
  }

  /** c, hearing `incoming` from the peer. */
  predicate EndClosing(c: Chan, peer: Chan, incoming: seq<Message>) {
    ClosedFor(c, peer.ostate == OutputClosed) && (Eow in incoming ==> peer.ostate == OutputClosed)
  }

  predicate Closing(s: System) { EndClosing(s.a, s.b, s.ba) && EndClosing(s.b, s.a, s.ab) }

  /** c becomes d, sending `sent`: a closed output stays closed, and an EOW says that it is. */
  predicate ClosesOnly(c: Chan, d: Chan, sent: seq<Message>, deaf: bool) {
    && (ClosedFor(c, deaf) ==> ClosedFor(d, deaf))
    && (c.ostate == OutputClosed || Eow in sent ==> d.ostate == OutputClosed)
  }

  // ---- handlers

  /** A handler that leaves the output and the flags alone, and at most begins to drain the input. */
  predicate SameHalves(c: Chan, d: Chan) {
    && d.closeRcvd == c.closeRcvd && d.eofRcvd == c.eofRcvd && d.eofSent == c.eofSent && d.ostate == c.ostate
    && (d.istate == c.istate || (c.istate == InputOpen && d.istate == InputWaitDrain))
  }

  lemma ReadCloses(c: Chan, ready: Bytes)
    ensures SameHalves(c, HandleRead(c, ready))
  {
    if !WantsRead(c) {
      assert HandleRead(c, ready) == c;
    } else if |ready| == 0 {
      assert HandleRead(c, ready) == ReadFailed(c);
    } else {
      var input := c.input + Taken(c, ready);
      assert HandleRead(c, ready) == c.(input := input);
    }
  }

  lemma ExtReadCloses(c: Chan, ready: Bytes)
    ensures SameHalves(c, HandleExtendedRead(c, ready))
  {
  }

  lemma ExtWriteCloses(c: Chan, room: nat)
    ensures SameHalves(c, HandleExtendedWrite(c, room))
  {
    if WantsExtendedWrite(c) && room > 0 {
      var n := |ExtendedWritten(c, room)|;
      var extended, consumed := c.extended[n..], Wrap(c.localConsumed + n);
      assert HandleExtendedWrite(c, room) == c.(extended := extended, localConsumed := consumed);
    }
  }

  lemma WriteCloses(c: Chan, room: nat, deaf: bool)
    ensures HandleWrite(c, room).Reaction?
    ensures ClosesOnly(c, HandleWrite(c, room).chan, HandleWrite(c, room).sent, deaf)
  {
    if WantsWrite(c) && room > 0 {
      assert SameHalves(c, HandleWrite(c, room).chan);
    }
  }

  lemma CheckCloses(c: Chan)
    ensures CheckWindow(c).Reaction? && Eow !in CheckWindow(c).sent && SameHalves(c, CheckWindow(c).chan)
  {
  }

  lemma PollsClose(c: Chan, deaf: bool)
    requires ChanOk(c)
    ensures PollInput(c).Reaction? && ClosesOnly(c, PollInput(c).chan, PollInput(c).sent, deaf)
    ensures PollExtended(c).Reaction? && ClosesOnly(c, PollExtended(c).chan, PollExtended(c).sent, deaf)
  {
  }

  lemma PreOpenCloses(c: Chan, deaf: bool)
    ensures ClosesOnly(c, PreOpen(c), [], deaf)
  {
  }

  lemma CollectCloses(c: Chan, deaf: bool)
    ensures CollectGarbage(c).Reaction? && ClosesOnly(c, CollectGarbage(c).chan, CollectGarbage(c).sent, deaf)
  {
  }

  lemma EofCloses(c: Chan, deaf: bool)
    requires ChanOk(c)
    ensures ReceivedEof(c).Reaction? && ClosesOnly(c, ReceivedEof(c).chan, ReceivedEof(c).sent, deaf)
  {
    var d := ReceivedEofState(c);
    assert d == c.(eofRcvd := true, ostate := d.ostate) && d.ostate != OutputOpen;
  }

  lemma SameHalvesClose(c: Chan, d: Chan, deaf: bool)
    requires SameHalves(c, d)
    ensures ClosesOnly(c, d, [], deaf)
  {
  }

  lemma DataCloses(c: Chan, d: Bytes)
    ensures InputData(c, d).Reaction? ==> SameHalves(c, InputData(c, d).chan) && InputData(c, d).sent == []
  {
  }

  lemma ExtendedCloses(c: Chan, d: Bytes)
    ensures InputExtended(c, d).Reaction? ==> SameHalves(c, InputExtended(c, d).chan) && InputExtended(c, d).sent == []
  {
  }

  lemma AdjustCloses(c: Chan, n: U32)
    ensures InputAdjust(c, n).Reaction? ==> SameHalves(c, InputAdjust(c, n).chan) && InputAdjust(c, n).sent == []
  {
  }

  lemma CloseCloses(c: Chan, deaf: bool)
    requires ChanOk(c)
    ensures ReceivedClose(c).Reaction? && ClosesOnly(c, ReceivedClose(c).chan, ReceivedClose(c).sent, deaf)
  {
  }

  lemma EowCloses(c: Chan)
    ensures ClosesOnly(c, ReceivedEow(c), [], true)
  {
  }

  lemma ReceiveCloses(c: Chan, m: Message, deaf: bool)
    requires ChanOk(c) && (m == Eow ==> deaf)
    ensures Receive(c, m).Reaction? ==> ClosesOnly(c, Receive(c, m).chan, Receive(c, m).sent, deaf)
  {
    if m.Eof? {
      EofCloses(c, deaf);
    } else if m.Close? {
      CloseCloses(c, deaf);
    } else if m.Eow? {
      EowCloses(c);
    } else if Receive(c, m).Reaction? {
      match m {
        case Data(d) => DataCloses(c, d);
        case Extended(d) => ExtendedCloses(c, d);
        case Adjust(n) => AdjustCloses(c, n);
      }
      SameHalvesClose(c, Receive(c, m).chan, deaf);
    }
  }

  // ---- steps and runs

  lemma KeepFiles(s: System, e: Event)
    requires Closing(s) && (e.ReadReady? || e.ExtReadReady? || e.ExtWriteReady? || e.DoCheckWindow?)
    ensures StepA(s, e).Running? && Closing(StepA(s, e).sys)
  {
    match e
    case ReadReady(ready) => ReadCloses(s.a, ready);
    case ExtReadReady(ready) => ExtReadCloses(s.a, ready);
    case ExtWriteReady(room) => ExtWriteCloses(s.a, room);
    case DoCheckWindow => CheckCloses(s.a);
  }

  lemma KeepHandlers(s: System, e: Event)
    requires Inv(s) && Closing(s) && (e.WriteReady? || e.DoPreOpen? || e.DoCollect? || e.DoPollInput? || e.DoPollExtended?)
    ensures StepA(s, e).Running? && Closing(StepA(s, e).sys)
  {
    var c, deaf := s.a, s.b.ostate == OutputClosed;
    match e
    case WriteReady(room) => WriteCloses(c, room, deaf);
    case DoPreOpen => PreOpenCloses(c, deaf);
    case DoCollect => CollectCloses(c, deaf);
    case _ => PollsClose(c, deaf);
  }

  lemma KeepClosingA(s: System, e: Event)
    requires Inv(s) && Closing(s)
    ensures StepA(s, e).Running? ==> Closing(StepA(s, e).sys)
  {
    if e.ReadReady? || e.ExtReadReady? || e.ExtWriteReady? || e.DoCheckWindow? {
      KeepFiles(s, e);
    } else if e.Deliver? {
      if s.ba != [] {
        ReceiveCloses(s.a, s.ba[0], s.b.ostate == OutputClosed);
      }
    } else if !e.DoActivate? {
      KeepHandlers(s, e);
    }
  }

  lemma KeepClosing(s: System, e: (bool, Event))
    requires Inv(s) && Closing(s)
    ensures Step(s, e).Running? && Inv(Step(s, e).sys) && Closing(Step(s, e).sys)
  {
    KeepStep(s, e);
    if e.0 {
      KeepClosingA(s, e.1);
    } else {
      KeepClosingA(s.Mirror(), e.1);
    }
  }

  lemma {:induction false} RunKeepsClosing(s: System, es: seq<(bool, Event)>)
    requires Inv(s) && Closing(s)
    ensures Run(s, es).Running? && Inv(Run(s, es).sys) && Closing(Run(s, es).sys)
    decreases es
  {
    if es != [] {
      KeepClosing(s, es[0]);
      RunKeepsClosing(Step(s, es[0]).sys, es[1..]);
    }
  }

  /** Every run from the open handshake, write failures and CLOSEs at any time included. */
  lemma RunCloses(s: System, es: seq<(bool, Event)>)
    requires Initial(s)
    ensures Run(s, es).Running? && Inv(Run(s, es).sys) && Closing(Run(s, es).sys)
  {
    InitialInv(s);
    RunKeepsClosing(s, es);
  }
}
