/** Every event keeps the invariant of ChannelProtocol, so every run does. */
module ChannelSafety {
  import opened Basics
  import opened ChannelEndpoint
  import opened ChannelProtocol

  // ---- links

  lemma {:induction false} QuietPush(q: seq<Message>, m: Message)
    requires Quiet(q) && !Payload(m) && m != Eof
    ensures Quiet(q + [m])
  {
    if q == [] {
      assert [m][1..] == [];
    } else {
      QuietPush(q[1..], m);
      assert (q + [m])[1..] == q[1..] + [m];
    }
  }

  lemma {:induction false} DisciplinedPush(q: seq<Message>, m: Message, limit: nat)
    requires Disciplined(q, limit)
    requires Payload(m) ==> 0 < |m.data| <= limit
    requires Eof in q ==> !Payload(m) && m != Eof
    requires Close !in q
    ensures Disciplined(q + [m], limit)
  {
    if q == [] {
      assert [m][1..] == [];
    } else {
      DisciplinedPush(q[1..], m, limit);
      assert (q + [m])[1..] == q[1..] + [m];
      if q[0] == Eof {
        QuietPush(q[1..], m);
      }
    }
  }

  lemma Push(q: seq<Message>, m: Message)
    ensures DataIn(q + [m]) == DataIn(q) + if m.Data? then m.data else []
    ensures ExtendedIn(q + [m]) == ExtendedIn(q) + if m.Extended? then m.data else []
    ensures CreditIn(q + [m]) == CreditIn(q) + if m.Adjust? then m.amount else 0
  {
    LinkAppend(q, [m]);
    LinkOne(m);
  }

  lemma {:induction false} QuietCarriesNothing(q: seq<Message>)
    requires Quiet(q)
    ensures DataIn(q) == ExtendedIn(q) == [] && Eof !in q
  {
    if q != [] {
      QuietCarriesNothing(q[1..]);
    }
  }

  // ---- one direction: the sender acts

  lemma SendData(snd: Sender, rcv: Receiver, fwd: seq<Message>, back: seq<Message>, h: History, n: nat)
    requires Direction(snd, rcv, fwd, back, h)
    requires 0 < n <= |snd.input| && n <= snd.window && n <= snd.maxPacket
    requires !snd.eofSent && !snd.closeSent
    ensures Direction(snd.(window := snd.window - n, input := snd.input[n..]), rcv,
                      fwd + [Data(snd.input[..n])], back, h)
  {
    var m := Data(snd.input[..n]);
    Push(fwd, m);
    DisciplinedPush(fwd, m, rcv.maxPacket);
    assert h.received + (DataIn(fwd) + snd.input[..n]) + snd.input[n..] == h.received + DataIn(fwd) + snd.input;
  }

  lemma SendExtended(snd: Sender, rcv: Receiver, fwd: seq<Message>, back: seq<Message>, h: History, n: nat)
    requires Direction(snd, rcv, fwd, back, h)
    requires 0 < n <= |snd.extended| && n <= snd.window && n <= snd.maxPacket
    requires !snd.eofSent && !snd.closeSent
    ensures Direction(snd.(window := snd.window - n, extended := snd.extended[n..]), rcv,
                      fwd + [Extended(snd.extended[..n])], back, h)
  {
    var m := Extended(snd.extended[..n]);
    Push(fwd, m);
    DisciplinedPush(fwd, m, rcv.maxPacket);
    assert h.extReceived + (ExtendedIn(fwd) + snd.extended[..n]) + snd.extended[n..]
        == h.extReceived + ExtendedIn(fwd) + snd.extended;
  }

  /** EOF, CLOSE, EOW and window adjusts as the direction they travel on sees them. */
  lemma SendControl(snd: Sender, rcv: Receiver, fwd: seq<Message>, back: seq<Message>, h: History, m: Message)
    requires Direction(snd, rcv, fwd, back, h)
    requires !Payload(m) && !snd.closeSent && (m == Eof ==> !snd.eofSent)
    ensures Direction(snd.(eofSent := snd.eofSent || m == Eof, closeSent := m == Close), rcv, fwd + [m], back, h)
  {
    Push(fwd, m);
    DisciplinedPush(fwd, m, rcv.maxPacket);
    if rcv.eofRcvd {
      QuietPush(fwd, m);
    }
  }

  lemma ReadMore(snd: Sender, rcv: Receiver, fwd: seq<Message>, back: seq<Message>, h: History, d: Bytes)
    requires Direction(snd, rcv, fwd, back, h)
    ensures Direction(snd.(input := snd.input + d), rcv, fwd, back, h.(read := h.read + d))
  {
    assert h.received + DataIn(fwd) + (snd.input + d) == h.received + DataIn(fwd) + snd.input + d;
  }

  lemma ReadMoreExtended(snd: Sender, rcv: Receiver, fwd: seq<Message>, back: seq<Message>, h: History, d: Bytes)
    requires Direction(snd, rcv, fwd, back, h)
    ensures Direction(snd.(extended := snd.extended + d), rcv, fwd, back, h.(extRead := h.extRead + d))
  {
    assert h.extReceived + ExtendedIn(fwd) + (snd.extended + d) == h.extReceived + ExtendedIn(fwd) + snd.extended + d;
  }

  // ---- one direction: the receiver acts

  /** A message other than an adjust on the return link does not concern this direction. */
  lemma BackControl(snd: Sender, rcv: Receiver, fwd: seq<Message>, back: seq<Message>, h: History, m: Message)
    requires Direction(snd, rcv, fwd, back, h) && !m.Adjust?
    ensures Direction(snd, rcv, fwd, back + [m], h)
  {
    Push(back, m);
  }

  lemma GrantWindow(snd: Sender, rcv: Receiver, fwd: seq<Message>, back: seq<Message>, h: History, n: U32)
    requires Direction(snd, rcv, fwd, back, h) && n == rcv.consumed
    ensures Direction(snd, rcv.(window := rcv.window + n, consumed := 0), fwd, back + [Adjust(n)], h)
  {
    Push(back, Adjust(n));
  }

  lemma OpenWindow(snd: Sender, rcv: Receiver, fwd: seq<Message>, back: seq<Message>, h: History, n: U32, efd: bool)
    requires Direction(snd, rcv, fwd, back, h) && rcv.larval
    ensures Direction(snd, rcv.(larval := false, window := n, windowMax := n, efd := efd), fwd, back + [Adjust(n)], h)
  {
    Push(back, Adjust(n));
  }

  lemma WriteOut(snd: Sender, rcv: Receiver, fwd: seq<Message>, back: seq<Message>, h: History, n: nat)
    requires Direction(snd, rcv, fwd, back, h) && n <= |rcv.output|
    ensures Direction(snd, rcv.(output := rcv.output[n..], consumed := rcv.consumed + n), fwd, back,
                      h.(written := h.written + rcv.output[..n]))
  {
    assert h.written + rcv.output[..n] + rcv.output[n..] == h.written + rcv.output;
  }

  lemma WriteOutExtended(snd: Sender, rcv: Receiver, fwd: seq<Message>, back: seq<Message>, h: History, n: nat)
    requires Direction(snd, rcv, fwd, back, h) && n <= |rcv.extended|
    ensures Direction(snd, rcv.(extended := rcv.extended[n..], consumed := rcv.consumed + n), fwd, back,
                      h.(extWritten := h.extWritten + rcv.extended[..n]))
  {
    assert h.extWritten + rcv.extended[..n] + rcv.extended[n..] == h.extWritten + rcv.extended;
  }

  /** EOF or CLOSE has arrived: the output is no longer open, what it buffers is kept. */
  lemma StopWriting(snd: Sender, rcv: Receiver, fwd: seq<Message>, back: seq<Message>, h: History)
    requires Direction(snd, rcv, fwd, back, h) && (rcv.eofRcvd || rcv.closeRcvd)
    ensures Direction(snd, rcv.(open := false), fwd, back, h)
  {
  }

  /** A write fails: what the output buffers is lost, and exactly as much credit with it. */
  lemma LoseOutput(snd: Sender, rcv: Receiver, fwd: seq<Message>, back: seq<Message>, h: History)
    requires Direction(snd, rcv, fwd, back, h) && rcv.output != []
    ensures Direction(snd, rcv.(open := false, output := []), fwd, back, h.(dropped := h.dropped + |rcv.output|))
  {
    assert h.written <= h.written + rcv.output;
    assert h.written + [] == h.written;
  }

  lemma CloseEfd(snd: Sender, rcv: Receiver, fwd: seq<Message>, back: seq<Message>, h: History)
    requires Direction(snd, rcv, fwd, back, h)
    ensures Direction(snd, rcv.(efd := false), fwd, back, h)
  {
  }

  // ---- one direction: a message arrives

  /** A byte stream whose head packet `d` moves from the link to the receiver. */
  lemma StreamPop(received: Bytes, d: Bytes, rest: Bytes, unsent: Bytes)
    ensures received + d + rest + unsent == received + (d + rest) + unsent
  {
    assert received + d + rest == received + (d + rest);
  }

  lemma PrefixGrows(x: Bytes, y: Bytes, d: Bytes)
    requires x <= y
    ensures x <= y + d
  {
  }

  lemma DataHead(snd: Sender, rcv: Receiver, fwd: seq<Message>, back: seq<Message>, h: History)
    requires Direction(snd, rcv, fwd, back, h) && fwd != [] && fwd[0].Data?
    ensures 0 < |fwd[0].data| <= rcv.window && |fwd[0].data| <= rcv.maxPacket
    ensures !rcv.larval && !rcv.eofRcvd && !rcv.closeRcvd
    ensures ExtendedIn(fwd) == ExtendedIn(fwd[1..]) && DataIn(fwd) == fwd[0].data + DataIn(fwd[1..])
  {
    assert [] + ExtendedIn(fwd[1..]) == ExtendedIn(fwd[1..]);
  }

  /** What the receiver makes of data: it is buffered, or counted as consumed once the output is not open. */
  function Accepting(rcv: Receiver, d: Bytes): Receiver
    requires |d| <= rcv.window
  {
    if rcv.open then rcv.(window := rcv.window - |d|, output := rcv.output + d)
    else rcv.(window := rcv.window - |d|, consumed := rcv.consumed + |d|)
  }

  lemma ArriveData(snd: Sender, rcv: Receiver, fwd: seq<Message>, back: seq<Message>, h: History)
    requires Direction(snd, rcv, fwd, back, h) && fwd != [] && fwd[0].Data?
    ensures 0 < |fwd[0].data| <= rcv.window && |fwd[0].data| <= rcv.maxPacket && !rcv.larval
    ensures Direction(snd, Accepting(rcv, fwd[0].data), fwd[1..], back, h.(received := h.received + fwd[0].data))
  {
    DataHead(snd, rcv, fwd, back, h);
    DataPop(snd, rcv, fwd, fwd[0].data, h);
    assert fwd == [fwd[0]] + fwd[1..];
  }

  lemma DataPop(snd: Sender, rcv: Receiver, fwd: seq<Message>, d: Bytes, h: History)
    requires Stream(snd, rcv, fwd, h) && |d| <= rcv.window && fwd != [] && DataIn(fwd) == d + DataIn(fwd[1..])
    requires !rcv.eofRcvd && !rcv.closeRcvd
    ensures Stream(snd, Accepting(rcv, d), fwd[1..], h.(received := h.received + d))
  {
    StreamPop(h.received, d, DataIn(fwd[1..]), snd.input);
    PrefixGrows(h.written + rcv.output, h.received, d);
    assert h.written + (rcv.output + d) == h.written + rcv.output + d;
  }

  lemma ExtendedHead(snd: Sender, rcv: Receiver, fwd: seq<Message>, back: seq<Message>, h: History)
    requires Direction(snd, rcv, fwd, back, h) && fwd != [] && fwd[0].Extended?
    ensures 0 < |fwd[0].data| <= rcv.window && !rcv.larval && !rcv.eofRcvd
    ensures DataIn(fwd) == DataIn(fwd[1..]) && ExtendedIn(fwd) == fwd[0].data + ExtendedIn(fwd[1..])
  {
    assert [] + DataIn(fwd[1..]) == DataIn(fwd[1..]);
  }

  lemma ArriveExtended(snd: Sender, rcv: Receiver, fwd: seq<Message>, back: seq<Message>, h: History)
    requires Direction(snd, rcv, fwd, back, h) && fwd != [] && fwd[0].Extended? && rcv.efd && |fwd[0].data| <= rcv.window
    ensures var d := fwd[0].data;
      Direction(snd, rcv.(window := rcv.window - |d|, extended := rcv.extended + d), fwd[1..], back,
                h.(extReceived := h.extReceived + d))
  {
    ExtendedHead(snd, rcv, fwd, back, h);
    ExtendedPop(snd, rcv, fwd, fwd[0].data, h);
    assert fwd == [fwd[0]] + fwd[1..];
  }

  lemma ExtendedPop(snd: Sender, rcv: Receiver, fwd: seq<Message>, d: Bytes, h: History)
    requires ExtendedStream(snd, rcv, fwd, h) && rcv.efd && !rcv.larval && |d| <= rcv.window
    requires fwd != [] && ExtendedIn(fwd) == d + ExtendedIn(fwd[1..])
    ensures ExtendedStream(snd, rcv.(window := rcv.window - |d|, extended := rcv.extended + d), fwd[1..],
                           h.(extReceived := h.extReceived + d))
  {
    StreamPop(h.extReceived, d, ExtendedIn(fwd[1..]), snd.extended);
    assert h.extWritten + (rcv.extended + d) == h.extWritten + rcv.extended + d;
  }

  lemma IgnoredPop(snd: Sender, rcv: Receiver, fwd: seq<Message>, d: Bytes, h: History, n: nat)
    requires ExtendedStream(snd, rcv, fwd, h) && !rcv.efd && !rcv.larval
    requires fwd != [] && ExtendedIn(fwd) == d + ExtendedIn(fwd[1..])
    ensures ExtendedStream(snd, rcv, fwd[1..], h.(extReceived := h.extReceived + d, ignored := n))
  {
    StreamPop(h.extReceived, d, ExtendedIn(fwd[1..]), snd.extended);
    PrefixGrows(h.extWritten + rcv.extended, h.extReceived, d);
  }

  lemma ExtendedIgnored(snd: Sender, rcv: Receiver, fwd: seq<Message>, back: seq<Message>, h: History)
    requires Direction(snd, rcv, fwd, back, h) && fwd != [] && fwd[0].Extended? && !rcv.efd
    ensures var d := fwd[0].data;
      Direction(snd, rcv, fwd[1..], back, h.(extReceived := h.extReceived + d, ignored := h.ignored + |d|))
  {
    ExtendedHead(snd, rcv, fwd, back, h);
    IgnoredPop(snd, rcv, fwd, fwd[0].data, h, h.ignored + |fwd[0].data|);
    assert fwd == [fwd[0]] + fwd[1..];
  }

  /** EOF, CLOSE, EOW and window adjusts as the direction they travel on sees them. */
  lemma ArriveControl(snd: Sender, rcv: Receiver, fwd: seq<Message>, back: seq<Message>, h: History)
    requires Direction(snd, rcv, fwd, back, h) && fwd != [] && !Payload(fwd[0])
    ensures fwd[0] == Eof ==> !rcv.eofRcvd
    ensures !rcv.closeRcvd
    ensures Direction(snd, rcv.(eofRcvd := rcv.eofRcvd || fwd[0] == Eof, closeRcvd := fwd[0] == Close),
                      fwd[1..], back, h)
  {
    ControlCarriesNothing(fwd);
    ControlTeardown(snd, rcv, fwd);
  }

  lemma ControlCarriesNothing(fwd: seq<Message>)
    requires fwd != [] && !Payload(fwd[0])
    ensures DataIn(fwd) == DataIn(fwd[1..]) && ExtendedIn(fwd) == ExtendedIn(fwd[1..])
  {
    assert [] + DataIn(fwd[1..]) == DataIn(fwd[1..]) && [] + ExtendedIn(fwd[1..]) == ExtendedIn(fwd[1..]);
  }

  lemma ControlTeardown(snd: Sender, rcv: Receiver, fwd: seq<Message>)
    requires fwd != [] && !Payload(fwd[0]) && Disciplined(fwd, rcv.maxPacket) && Teardown(snd, rcv, fwd)
    ensures (fwd[0] == Eof ==> !rcv.eofRcvd) && !rcv.closeRcvd
    ensures Teardown(snd, rcv.(eofRcvd := rcv.eofRcvd || fwd[0] == Eof, closeRcvd := fwd[0] == Close), fwd[1..])
  {
    assert fwd == [fwd[0]] + fwd[1..];
    if fwd[0] == Eof {
      QuietCarriesNothing(fwd[1..]);
    }
  }

  lemma ArriveBack(snd: Sender, rcv: Receiver, fwd: seq<Message>, back: seq<Message>, h: History)
    requires Direction(snd, rcv, fwd, back, h) && back != []
    ensures var n := if back[0].Adjust? then back[0].amount else 0;
      && snd.window + n <= rcv.window
      && Direction(snd.(window := snd.window + n), rcv, fwd, back[1..], h)
  {
  }

  // ---- events at endpoint a

  ghost predicate Keeps(s: System, e: Event) {
    var r := StepA(s, e); r.Running? && Balanced(r.sys)
  }

  lemma NothingMore(x: Bytes)
    ensures x + [] == x
  {
  }

  lemma KeepRead(s: System, ready: Bytes)
    requires Balanced(s)
    ensures Keeps(s, ReadReady(ready))
  {
    if WantsRead(s.a) && |ready| > 0 {
      ReadMore(SenderOf(s.a), ReceiverOf(s.b), s.ab, s.ba, s.hab, Taken(s.a, ready));
    } else {
      assert Taken(s.a, ready) == [];
      NothingMore(s.hab.read);
    }
  }

  lemma KeepExtRead(s: System, ready: Bytes)
    requires Balanced(s)
    ensures Keeps(s, ExtReadReady(ready))
  {
    if WantsExtendedRead(s.a) && s.a.usage == Read && |ready| > 0 {
      ReadMoreExtended(SenderOf(s.a), ReceiverOf(s.b), s.ab, s.ba, s.hab, ExtendedTaken(s.a, ready));
    } else {
      assert ExtendedTaken(s.a, ready) == [];
      NothingMore(s.hab.extRead);
      NothingMore(s.a.extended);
    }
  }

  lemma WriteFailureEffect(c: Chan)
    requires ChanOk(c) && WantsWrite(c)
    ensures var r := WriteFailed(c);
      && ChanOk(r.chan) && SenderOf(r.chan) == SenderOf(c)
      && ReceiverOf(r.chan) == ReceiverOf(c).(open := false, output := [])
  {
  }

  lemma WriteFailureStep(s: System)
    requires WantsWrite(s.a)
    ensures var r := WriteFailed(s.a);
      && r.Reaction? && (r.sent == if s.a.sendsEow then [Eow] else [])
      && StepA(s, WriteReady(0)) == Running(s.(a := r.chan, ab := s.ab + r.sent, hba := s.hba.(dropped := s.hba.dropped + |s.a.output|)))
  {
    NothingMore(s.hba.written);
  }

  lemma KeepWriteFailure(s: System)
    requires Balanced(s) && WantsWrite(s.a)
    ensures Keeps(s, WriteReady(0))
  {
    WriteFailureStep(s);
    WriteFailureEffect(s.a);
    FailureBalanced(s, WriteFailed(s.a).chan, WriteFailed(s.a).sent);
  }

  lemma FailureBalanced(s: System, c: Chan, sent: seq<Message>)
    requires Balanced(s) && s.a.output != [] && !s.a.closeSent && ChanOk(c) && (sent == [] || sent == [Eow])
    requires SenderOf(c) == SenderOf(s.a) && ReceiverOf(c) == ReceiverOf(s.a).(open := false, output := [])
    ensures Balanced(s.(a := c, ab := s.ab + sent, hba := s.hba.(dropped := s.hba.dropped + |s.a.output|)))
  {
    var h := s.hba.(dropped := s.hba.dropped + |s.a.output|);
    LoseOutput(SenderOf(s.b), ReceiverOf(s.a), s.ba, s.ab, s.hba);
    if sent == [Eow] {
      SendEow(SenderOf(s.a), ReceiverOf(s.b), SenderOf(s.b), ReceiverOf(c), s.ab, s.ba, s.hab, h);
    } else {
      assert s.ab + [] == s.ab;
    }
  }

  lemma SendEow(sa: Sender, rb: Receiver, sb: Sender, ra: Receiver, ab: seq<Message>, ba: seq<Message>, hab: History, hba: History)
    requires Direction(sa, rb, ab, ba, hab) && Direction(sb, ra, ba, ab, hba) && !sa.closeSent
    ensures Direction(sa, rb, ab + [Eow], ba, hab) && Direction(sb, ra, ba, ab + [Eow], hba)
  {
    BackControl(sb, ra, ba, ab, hba, Eow);
    SendControl(sa, rb, ab, ba, hab, Eow);
  }

  lemma WriteEffect(c: Chan, room: nat)
    requires ChanOk(c) && WantsWrite(c) && room > 0
    requires c.localConsumed + |c.output| < TWO_TO_32
    ensures var r := HandleWrite(c, room); var n := |Written(c, room)|;
      && r.Reaction? && r.sent == [] && ChanOk(r.chan) && n <= |c.output| && Written(c, room) == c.output[..n]
      && SenderOf(r.chan) == SenderOf(c)
      && ReceiverOf(r.chan) == ReceiverOf(c).(output := c.output[n..], consumed := c.localConsumed + n)
  {
  }

  lemma WrittenStep(s: System, room: nat)
    requires WantsWrite(s.a) && room > 0
    ensures StepA(s, WriteReady(room))
         == Running(s.(a := HandleWrite(s.a, room).chan, hba := s.hba.(written := s.hba.written + Written(s.a, room))))
  {
    assert s.ab + [] == s.ab;
  }

  lemma NoWriteStep(s: System, room: nat)
    requires !WantsWrite(s.a)
    ensures StepA(s, WriteReady(room)) == Running(s)
  {
    assert s.ab + [] == s.ab;
    NothingMore(s.hba.written);
  }

  /** Endpoint a has become c and its history as a receiver h, without a message. */
  lemma BalancedAs(s: System, c: Chan, h: History)
    requires ChanOk(s.b) && ChanOk(c)
    requires Direction(SenderOf(c), ReceiverOf(s.b), s.ab, s.ba, s.hab)
    requires Direction(SenderOf(s.b), ReceiverOf(c), s.ba, s.ab, h)
    ensures Balanced(s.(a := c, hba := h))
  {
  }

  lemma KeepWritten(s: System, room: nat)
    requires Balanced(s) && WantsWrite(s.a) && room > 0
    ensures Keeps(s, WriteReady(room))
  {
    WriteEffect(s.a, room);
    WriteOut(SenderOf(s.b), ReceiverOf(s.a), s.ba, s.ab, s.hba, |Written(s.a, room)|);
    WrittenStep(s, room);
    BalancedAs(s, HandleWrite(s.a, room).chan, s.hba.(written := s.hba.written + Written(s.a, room)));
  }

  lemma KeepWrite(s: System, room: nat)
    requires Balanced(s)
    ensures Keeps(s, WriteReady(room))
  {
    if !WantsWrite(s.a) {
      NoWriteStep(s, room);
    } else if room == 0 {
      KeepWriteFailure(s);
    } else {
      KeepWritten(s, room);
    }
  }

  lemma ExtWriteEffect(c: Chan, room: nat)
    requires ChanOk(c) && WantsExtendedWrite(c) && room > 0
    requires c.localConsumed + |c.extended| < TWO_TO_32
    ensures var c' := HandleExtendedWrite(c, room); var n := |ExtendedWritten(c, room)|;
      && ChanOk(c') && n <= |c.extended| && ExtendedWritten(c, room) == c.extended[..n]
      && SenderOf(c') == SenderOf(c)
      && ReceiverOf(c') == ReceiverOf(c).(extended := c.extended[n..], consumed := c.localConsumed + n)
  {
  }

  lemma ExtWriteFailureEffect(c: Chan)
    requires ChanOk(c)
    ensures var c' := HandleExtendedWrite(c, 0);
      && ExtendedWritten(c, 0) == [] && ChanOk(c') && SenderOf(c') == SenderOf(c)
      && (c' == c || ReceiverOf(c') == ReceiverOf(c).(efd := false))
  {
  }

  lemma NoExtWrite(c: Chan, room: nat)
    requires !WantsExtendedWrite(c)
    ensures ExtendedWritten(c, room) == [] && HandleExtendedWrite(c, room) == c
  {
  }

  lemma ExtWriteStep(s: System, room: nat, c: Chan, wrote: Bytes)
    requires c == HandleExtendedWrite(s.a, room) && wrote == ExtendedWritten(s.a, room)
    ensures StepA(s, ExtWriteReady(room)) == Running(s.(a := c, hba := s.hba.(extWritten := s.hba.extWritten + wrote)))
    ensures wrote == [] ==> StepA(s, ExtWriteReady(room)) == Running(s.(a := c, hba := s.hba))
  {
    NothingMore(s.hba.extWritten);
  }

  lemma KeepExtWritten(s: System, room: nat)
    requires Balanced(s) && WantsExtendedWrite(s.a) && room > 0
    ensures Keeps(s, ExtWriteReady(room))
  {
    var c, wrote := HandleExtendedWrite(s.a, room), ExtendedWritten(s.a, room);
    ExtWriteEffect(s.a, room);
    WriteOutExtended(SenderOf(s.b), ReceiverOf(s.a), s.ba, s.ab, s.hba, |wrote|);
    ExtWriteStep(s, room, c, wrote);
    BalancedAs(s, c, s.hba.(extWritten := s.hba.extWritten + wrote));
  }

  lemma KeepExtWriteFailure(s: System)
    requires Balanced(s)
    ensures Keeps(s, ExtWriteReady(0))
  {
    var c := HandleExtendedWrite(s.a, 0);
    ExtWriteFailureEffect(s.a);
    ExtWriteStep(s, 0, c, []);
    CloseEfd(SenderOf(s.b), ReceiverOf(s.a), s.ba, s.ab, s.hba);
    BalancedAs(s, c, s.hba);
  }

  lemma KeepExtWrite(s: System, room: nat)
    requires Balanced(s)
    ensures Keeps(s, ExtWriteReady(room))
  {
    if room == 0 {
      KeepExtWriteFailure(s);
    } else if WantsExtendedWrite(s.a) {
      KeepExtWritten(s, room);
    } else {
      NoExtWrite(s.a, room);
      ExtWriteStep(s, room, s.a, []);
    }
  }

  lemma KeepPreOpen(s: System)
    requires Balanced(s)
    ensures Keeps(s, DoPreOpen)
  {
  }

  lemma CheckWindowEffect(c: Chan)
    requires ChanOk(c) && c.localWindow + c.localConsumed < TWO_TO_32 && CheckWindow(c).sent != []
    ensures var r := CheckWindow(c);
      && r.sent == [Adjust(c.localConsumed)] && ChanOk(r.chan) && SenderOf(r.chan) == SenderOf(c)
      && ReceiverOf(r.chan) == ReceiverOf(c).(window := c.localWindow + c.localConsumed, consumed := 0)
  {
  }

  lemma NoCheckWindow(c: Chan)
    requires CheckWindow(c).Reaction? && CheckWindow(c).sent == []
    ensures CheckWindow(c) == Reaction(c, [])
  {
  }

  lemma KeepGrant(s: System)
    requires Balanced(s) && CheckWindow(s.a).sent != []
    ensures Keeps(s, DoCheckWindow)
  {
    CheckWindowEffect(s.a);
    GrantWindow(SenderOf(s.b), ReceiverOf(s.a), s.ba, s.ab, s.hba, s.a.localConsumed);
    SendControl(SenderOf(s.a), ReceiverOf(s.b), s.ab, s.ba, s.hab, Adjust(s.a.localConsumed));
  }

  lemma KeepCheckWindow(s: System)
    requires Balanced(s)
    ensures Keeps(s, DoCheckWindow)
  {
    if CheckWindow(s.a).sent != [] {
      KeepGrant(s);
    } else {
      NoCheckWindow(s.a);
      NothingSent(s);
    }
  }

  /** Polling sends nothing and changes nothing, or sends the head of the input, or, once that is empty, EOF. */
  lemma PollInputEffect(c: Chan)
    requires ChanOk(c)
    ensures var r, n := PollInput(c), PacketLength(c, |c.input|);
      && r.Reaction? && ChanOk(r.chan) && ReceiverOf(r.chan) == ReceiverOf(c)
      && (r.sent == [] ==> r.chan == c)
      && (r.sent != [] ==> !c.eofSent && !c.closeSent)
      && (r.sent != [] && |c.input| > 0 ==>
            && 0 < n <= |c.input| && n <= c.remoteWindow && n <= c.remoteMaxPacket && r.sent == [Data(c.input[..n])]
            && SenderOf(r.chan) == SenderOf(c).(window := c.remoteWindow - n, input := c.input[n..]))
      && (r.sent != [] && |c.input| == 0 ==> r.sent == [Eof] && SenderOf(r.chan) == SenderOf(c).(eofSent := true))
  {
  }

  lemma PollExtendedEffect(c: Chan)
    requires ChanOk(c)
    ensures var r, n := PollExtended(c), PacketLength(c, |c.extended|);
      && r.Reaction? && ChanOk(r.chan) && ReceiverOf(r.chan) == ReceiverOf(c)
      && (r.sent == [] ==> r.chan == c)
      && (r.sent != [] ==>
            && !c.eofSent && !c.closeSent && c.usage == Read
            && 0 < n <= |c.extended| && n <= c.remoteWindow && n <= c.remoteMaxPacket && r.sent == [Extended(c.extended[..n])]
            && SenderOf(r.chan) == SenderOf(c).(window := c.remoteWindow - n, extended := c.extended[n..]))
  {
  }

  lemma CollectEffect(c: Chan)
    requires ChanOk(c)
    ensures var r := CollectGarbage(c);
      && r.Reaction? && ChanOk(r.chan) && ReceiverOf(r.chan) == ReceiverOf(c)
      && (r.sent == [] ==> r.chan == c)
      && (r.sent != [] ==> r.sent == [Close] && !c.closeSent && SenderOf(r.chan) == SenderOf(c).(closeSent := true))
  {
  }

  /** Endpoint a has become c, sending a message that is no adjust. */
  lemma BalancedSent(s: System, c: Chan, m: Message)
    requires ChanOk(s.b) && ChanOk(c) && !m.Adjust?
    requires Direction(SenderOf(c), ReceiverOf(s.b), s.ab + [m], s.ba, s.hab)
    requires Direction(SenderOf(s.b), ReceiverOf(c), s.ba, s.ab, s.hba)
    ensures Balanced(s.(a := c, ab := s.ab + [m]))
  {
    BackControl(SenderOf(s.b), ReceiverOf(c), s.ba, s.ab, s.hba, m);
  }

  lemma NothingSent(s: System)
    ensures Reacted(s, Reaction(s.a, [])) == Running(s)
  {
    assert s.ab + [] == s.ab;
  }

  lemma KeepPollInput(s: System)
    requires Balanced(s)
    ensures Keeps(s, DoPollInput)
  {
    var r := PollInput(s.a);
    PollInputEffect(s.a);
    if r.sent == [] {
      NothingSent(s);
    } else if |s.a.input| > 0 {
      SendData(SenderOf(s.a), ReceiverOf(s.b), s.ab, s.ba, s.hab, PacketLength(s.a, |s.a.input|));
      BalancedSent(s, r.chan, r.sent[0]);
    } else {
      SendControl(SenderOf(s.a), ReceiverOf(s.b), s.ab, s.ba, s.hab, Eof);
      BalancedSent(s, r.chan, Eof);
    }
  }

  lemma KeepPollExtended(s: System)
    requires Balanced(s)
    ensures Keeps(s, DoPollExtended)
  {
    var r := PollExtended(s.a);
    PollExtendedEffect(s.a);
    if r.sent == [] {
      NothingSent(s);
    } else {
      SendExtended(SenderOf(s.a), ReceiverOf(s.b), s.ab, s.ba, s.hab, PacketLength(s.a, |s.a.extended|));
      BalancedSent(s, r.chan, r.sent[0]);
    }
  }

  lemma ActivateEffect(c: Chan, usage: ExtendedUsage, efd: bool, window: U32)
    requires ChanOk(c) && c.kind == Larval
    ensures var r := Activate(c, usage, efd, window);
      && r.Reaction? && r.sent == [Adjust(window)] && ChanOk(r.chan) && SenderOf(r.chan) == SenderOf(c)
      && ReceiverOf(r.chan)
         == ReceiverOf(c).(larval := false, window := window, windowMax := window, efd := usage == Write && efd)
  {
  }

  /** A larval channel sends CLOSE only after receiving it, and is then done with. */
  lemma LarvalCloseIsLast(s: System)
    requires Inv(s) && s.a.kind == Larval && s.a.closeSent
    ensures s.a.Dead()
  {
  }

  lemma KeepActivate(s: System, usage: ExtendedUsage, efd: bool, window: U32)
    requires Balanced(s) && (s.a.kind == Larval && s.a.closeSent ==> s.a.Dead())
    ensures Keeps(s, DoActivate(usage, efd, window))
  {
    if s.a.kind == Larval && !s.a.Dead() {
      ActivateEffect(s.a, usage, efd, window);
      OpenWindow(SenderOf(s.b), ReceiverOf(s.a), s.ba, s.ab, s.hba, window, usage == Write && efd);
      SendControl(SenderOf(s.a), ReceiverOf(s.b), s.ab, s.ba, s.hab, Adjust(window));
    }
  }

  lemma KeepCollect(s: System)
    requires Balanced(s)
    ensures Keeps(s, DoCollect)
  {
    var r := CollectGarbage(s.a);
    CollectEffect(s.a);
    if r.sent == [] {
      NothingSent(s);
    } else {
      SendControl(SenderOf(s.a), ReceiverOf(s.b), s.ab, s.ba, s.hab, Close);
      BalancedSent(s, r.chan, Close);
    }
  }

  // ---- messages arriving at endpoint a

  lemma InputDataOpen(c: Chan, d: Bytes)
    requires ChanOk(c) && c.kind == Open && |d| <= c.localWindow && |d| <= c.localMaxPacket && c.ostate == OutputOpen
    ensures var r := InputData(c, d);
      && r.Reaction? && r.sent == [] && ChanOk(r.chan) && SenderOf(r.chan) == SenderOf(c)
      && ReceiverOf(r.chan) == ReceiverOf(c).(window := c.localWindow - |d|, output := c.output + d)
  {
  }

  lemma InputDataStopped(c: Chan, d: Bytes)
    requires ChanOk(c) && c.kind == Open && |d| <= c.localWindow && c.ostate != OutputOpen
    requires c.localConsumed + |d| < TWO_TO_32
    ensures var r := InputData(c, d);
      && r.Reaction? && r.sent == [] && ChanOk(r.chan) && SenderOf(r.chan) == SenderOf(c)
      && ReceiverOf(r.chan) == ReceiverOf(c).(window := c.localWindow - |d|, consumed := c.localConsumed + |d|)
  {
  }

  lemma InputDataEffect(c: Chan, d: Bytes)
    requires ChanOk(c) && c.kind == Open && |d| <= c.localWindow && |d| <= c.localMaxPacket
    requires c.localConsumed + |d| < TWO_TO_32
    ensures var r := InputData(c, d);
      && r.Reaction? && r.sent == [] && ChanOk(r.chan) && SenderOf(r.chan) == SenderOf(c)
      && ReceiverOf(r.chan) == Accepting(ReceiverOf(c), d) && !IgnoresData(c, d)
  {
    if c.ostate == OutputOpen {
      InputDataOpen(c, d);
    } else {
      InputDataStopped(c, d);
    }
  }

  /** The head of ba moves to endpoint a, as both directions see it. */
  lemma DataArrived(sa: Sender, ra: Receiver, sb: Sender, rb: Receiver, ab: seq<Message>, ba: seq<Message>, hab: History, hba: History)
    requires Direction(sa, rb, ab, ba, hab) && Direction(sb, ra, ba, ab, hba) && ba != [] && ba[0].Data?
    ensures 0 < |ba[0].data| <= ra.window && |ba[0].data| <= ra.maxPacket && !ra.larval
    ensures Direction(sa, rb, ab, ba[1..], hab)
    ensures Direction(sb, Accepting(ra, ba[0].data), ba[1..], ab, hba.(received := hba.received + ba[0].data))
  {
    ArriveData(sb, ra, ba, ab, hba);
    ArriveBack(sa, rb, ab, ba, hab);
  }

  lemma KeepArriveData(s: System)
    requires Balanced(s) && s.ba != [] && s.ba[0].Data? && !s.a.Dead()
    ensures Keeps(s, Deliver)
  {
    var d := s.ba[0].data;
    DataArrived(SenderOf(s.a), ReceiverOf(s.a), SenderOf(s.b), ReceiverOf(s.b), s.ab, s.ba, s.hab, s.hba);
    InputDataEffect(s.a, d);
    var c, h := InputData(s.a, d).chan, s.hba.(received := s.hba.received + d);
    DeliverStep(s, c, h);
    BalancedAfter(s, c, h);
  }

  /** A message that changes endpoint a to c without an answer. */
  lemma DeliverStep(s: System, c: Chan, h: History)
    requires s.ba != [] && !s.a.Dead() && Receive(s.a, s.ba[0]) == Reaction(c, []) && h == Noted(s.a, s.ba[0], s.hba)
    ensures StepA(s, Deliver) == Running(s.(a := c, ba := s.ba[1..], hba := h))
  {
    assert s.ab + [] == s.ab;
  }

  lemma BalancedAfter(s: System, c: Chan, h: History)
    requires ChanOk(s.b) && ChanOk(c) && s.ba != []
    requires Direction(SenderOf(c), ReceiverOf(s.b), s.ab, s.ba[1..], s.hab)
    requires Direction(SenderOf(s.b), ReceiverOf(c), s.ba[1..], s.ab, h)
    ensures Balanced(s.(a := c, ba := s.ba[1..], hba := h))
  {
  }

  lemma InputExtendedEffect(c: Chan, d: Bytes)
    requires ChanOk(c) && AcceptsExtended(c, d) && !c.eofRcvd
    ensures var r := InputExtended(c, d);
      && r.Reaction? && r.sent == [] && ChanOk(r.chan) && SenderOf(r.chan) == SenderOf(c)
      && ReceiverOf(r.chan) == ReceiverOf(c).(window := c.localWindow - |d|, extended := c.extended + d)
  {
  }

  lemma InputExtendedIgnored(c: Chan, d: Bytes)
    requires !ReceiverOf(c).efd && !c.eofRcvd
    ensures InputExtended(c, d) == Reaction(c, []) && !AcceptsExtended(c, d)
  {
  }

  lemma IgnoredArrived(sa: Sender, ra: Receiver, sb: Sender, rb: Receiver, ab: seq<Message>, ba: seq<Message>, hab: History, hba: History)
    requires Direction(sa, rb, ab, ba, hab) && Direction(sb, ra, ba, ab, hba) && ba != [] && ba[0].Extended? && !ra.efd
    ensures !ra.eofRcvd
    ensures Direction(sa, rb, ab, ba[1..], hab)
    ensures var d := ba[0].data;
      Direction(sb, ra, ba[1..], ab, hba.(extReceived := hba.extReceived + d, ignored := hba.ignored + |d|))
  {
    ExtendedHead(sb, ra, ba, ab, hba);
    ExtendedIgnored(sb, ra, ba, ab, hba);
    ArriveBack(sa, rb, ab, ba, hab);
  }

  lemma KeepArriveIgnored(s: System)
    requires Balanced(s) && s.ba != [] && s.ba[0].Extended? && !s.a.Dead() && !ReceiverOf(s.a).efd
    ensures Keeps(s, Deliver)
  {
    var d := s.ba[0].data;
    IgnoredArrived(SenderOf(s.a), ReceiverOf(s.a), SenderOf(s.b), ReceiverOf(s.b), s.ab, s.ba, s.hab, s.hba);
    InputExtendedIgnored(s.a, d);
    var h := s.hba.(extReceived := s.hba.extReceived + d, ignored := s.hba.ignored + |d|);
    DeliverStep(s, s.a, h);
    BalancedAfter(s, s.a, h);
  }

  lemma ExtendedArrived(sa: Sender, ra: Receiver, sb: Sender, rb: Receiver, ab: seq<Message>, ba: seq<Message>, hab: History, hba: History)
    requires Direction(sa, rb, ab, ba, hab) && Direction(sb, ra, ba, ab, hba) && ba != [] && ba[0].Extended? && ra.efd
    ensures |ba[0].data| <= ra.window && !ra.larval && !ra.eofRcvd
    ensures Direction(sa, rb, ab, ba[1..], hab)
    ensures var d := ba[0].data;
      Direction(sb, ra.(window := ra.window - |d|, extended := ra.extended + d), ba[1..], ab,
                hba.(extReceived := hba.extReceived + d))
  {
    ExtendedHead(sb, ra, ba, ab, hba);
    ArriveExtended(sb, ra, ba, ab, hba);
    ArriveBack(sa, rb, ab, ba, hab);
  }

  lemma KeepArriveExtended(s: System)
    requires Balanced(s) && s.ba != [] && s.ba[0].Extended? && !s.a.Dead() && ReceiverOf(s.a).efd
    ensures Keeps(s, Deliver)
  {
    var d := s.ba[0].data;
    ExtendedArrived(SenderOf(s.a), ReceiverOf(s.a), SenderOf(s.b), ReceiverOf(s.b), s.ab, s.ba, s.hab, s.hba);
    InputExtendedEffect(s.a, d);
    var c, h := InputExtended(s.a, d).chan, s.hba.(extReceived := s.hba.extReceived + d);
    DeliverStep(s, c, h);
    BalancedAfter(s, c, h);
  }

  lemma InputAdjustEffect(c: Chan, n: U32)
    requires ChanOk(c) && c.remoteWindow + n < TWO_TO_32
    ensures var r := InputAdjust(c, n);
      && r.Reaction? && r.sent == [] && ChanOk(r.chan) && ReceiverOf(r.chan) == ReceiverOf(c)
      && SenderOf(r.chan) == SenderOf(c).(window := c.remoteWindow + n)
  {
  }

  lemma KeepArriveAdjust(s: System)
    requires Balanced(s) && s.ba != [] && s.ba[0].Adjust? && !s.a.Dead()
    ensures Keeps(s, Deliver)
  {
    ArriveControl(SenderOf(s.b), ReceiverOf(s.a), s.ba, s.ab, s.hba);
    ArriveBack(SenderOf(s.a), ReceiverOf(s.b), s.ab, s.ba, s.hab);
    InputAdjustEffect(s.a, s.ba[0].amount);
    DeliverStep(s, InputAdjust(s.a, s.ba[0].amount).chan, s.hba);
    BalancedAfter(s, InputAdjust(s.a, s.ba[0].amount).chan, s.hba);
  }

  /** Reacting to EOF or CLOSE stops the output and sends at most an EOF. */
  ghost predicate Stops(c: Chan, r: Reaction, rcv: Receiver) {
    && r.Reaction? && ChanOk(r.chan) && ReceiverOf(r.chan) == rcv.(open := false)
    && (r.sent == [] ==> SenderOf(r.chan) == SenderOf(c))
    && (r.sent != [] ==> r.sent == [Eof] && !c.eofSent && !c.closeSent
                         && SenderOf(r.chan) == SenderOf(c).(eofSent := true))
  }

  lemma EofStateIs(c: Chan, o: OutputState)
    requires ChanOk(c) && o == ReceivedEofState(c).ostate
    ensures ReceivedEofState(c) == c.(eofRcvd := true, ostate := o) && o != OutputOpen
    ensures o == OutputClosed ==> c.output == []
  {
  }

  lemma EofStateStops(c: Chan)
    requires ChanOk(c)
    ensures var d := ReceivedEofState(c);
      && ChanOk(d) && d.istate == c.istate && SenderOf(d) == SenderOf(c)
      && ReceiverOf(d) == ReceiverOf(c).(eofRcvd := true, open := false)
  {
    EofStateIs(c, ReceivedEofState(c).ostate);
  }

  lemma DrainEffect(c: Chan)
    requires ChanOk(c) && c.istate == InputWaitDrain
    ensures var r := InputBufferEmpty(c);
      && r.Reaction? && ChanOk(r.chan) && ReceiverOf(r.chan) == ReceiverOf(c)
      && (r.sent == [] ==> SenderOf(r.chan) == SenderOf(c))
      && (r.sent != [] ==> r.sent == [Eof] && !c.eofSent && !c.closeSent && SenderOf(r.chan) == SenderOf(c).(eofSent := true))
  {
  }

  lemma EofStops(c: Chan)
    requires ChanOk(c)
    ensures Stops(c, ReceivedEof(c), ReceiverOf(c).(eofRcvd := true))
  {
    EofStateStops(c);
    var d := ReceivedEofState(c);
    if d.forceDrain && d.istate == InputOpen {
      var e := d.(istate := InputWaitDrain);
      assert ChanOk(e) && SenderOf(e) == SenderOf(d) && ReceiverOf(e) == ReceiverOf(d);
      DrainEffect(e);
    }
  }

  lemma CloseStops(c: Chan)
    requires ChanOk(c) && (c.kind == Larval ==> c.output == [])
    ensures Stops(c, ReceivedClose(c), ReceiverOf(c).(closeRcvd := true))
  {
  }

  lemma KeepStops(s: System, r: Reaction, rcv: Receiver)
    requires ChanOk(s.b) && s.ba != [] && Stops(s.a, r, rcv) && (rcv.eofRcvd || rcv.closeRcvd)
    requires Direction(SenderOf(s.a), ReceiverOf(s.b), s.ab, s.ba[1..], s.hab)
    requires Direction(SenderOf(s.b), rcv, s.ba[1..], s.ab, s.hba)
    ensures Balanced(s.(a := r.chan, ab := s.ab + r.sent, ba := s.ba[1..]))
  {
    var t := s.(ba := s.ba[1..]);
    StopWriting(SenderOf(s.b), rcv, t.ba, s.ab, s.hba);
    if r.sent == [] {
      assert s.ab + [] == s.ab;
      BalancedAs(t, r.chan, s.hba);
    } else {
      SendControl(SenderOf(s.a), ReceiverOf(s.b), s.ab, t.ba, s.hab, Eof);
      BalancedSent(t, r.chan, Eof);
    }
  }

  lemma StopArrived(sa: Sender, ra: Receiver, sb: Sender, rb: Receiver, ab: seq<Message>, ba: seq<Message>, hab: History, hba: History)
    requires Direction(sa, rb, ab, ba, hab) && Direction(sb, ra, ba, ab, hba) && ba != [] && ba[0] in {Eof, Close}
    ensures ra.larval ==> ra.output == []
    ensures Direction(sa, rb, ab, ba[1..], hab)
    ensures Direction(sb, if ba[0] == Eof then ra.(eofRcvd := true) else ra.(closeRcvd := true), ba[1..], ab, hba)
  {
    ArriveControl(sb, ra, ba, ab, hba);
    ArriveBack(sa, rb, ab, ba, hab);
  }

  lemma StopStep(s: System, r: Reaction)
    requires s.ba != [] && s.ba[0] in {Eof, Close} && !s.a.Dead() && r == Receive(s.a, s.ba[0]) && r.Reaction?
    ensures StepA(s, Deliver) == Running(s.(a := r.chan, ab := s.ab + r.sent, ba := s.ba[1..]))
  {
  }

  lemma KeepArriveStop(s: System)
    requires Balanced(s) && s.ba != [] && s.ba[0] in {Eof, Close} && !s.a.Dead()
    ensures Keeps(s, Deliver)
  {
    var rcv, r := ReceiverOf(s.a), Receive(s.a, s.ba[0]);
    StopArrived(SenderOf(s.a), rcv, SenderOf(s.b), ReceiverOf(s.b), s.ab, s.ba, s.hab, s.hba);
    if s.ba[0] == Eof {
      EofStops(s.a);
      KeepStops(s, r, rcv.(eofRcvd := true));
    } else {
      CloseStops(s.a);
      KeepStops(s, r, rcv.(closeRcvd := true));
    }
    StopStep(s, r);
  }

  lemma EowEffect(c: Chan)
    requires ChanOk(c)
    ensures ChanOk(ReceivedEow(c)) && ReceiverOf(ReceivedEow(c)) == ReceiverOf(c)
    ensures SenderOf(ReceivedEow(c)) == SenderOf(c)
  {
  }

  lemma KeepArriveEow(s: System)
    requires Balanced(s) && s.ba != [] && s.ba[0] == Eow && !s.a.Dead()
    ensures Keeps(s, Deliver)
  {
    ArriveControl(SenderOf(s.b), ReceiverOf(s.a), s.ba, s.ab, s.hba);
    ArriveBack(SenderOf(s.a), ReceiverOf(s.b), s.ab, s.ba, s.hab);
    EowEffect(s.a);
    DeliverStep(s, ReceivedEow(s.a), s.hba);
    BalancedAfter(s, ReceivedEow(s.a), s.hba);
  }

  /** Nothing arrives at a channel that may have been freed. */
  lemma DeadHearsNothing(s: System)
    requires Balanced(s) && s.a.Dead()
    ensures s.ba == []
  {
  }

  lemma BalancedStep(s: System, e: Event)
    requires Balanced(s) && (s.a.kind == Larval && s.a.closeSent ==> s.a.Dead())
    ensures Keeps(s, e)
  {
    match e
    case ReadReady(ready) => KeepRead(s, ready);
    case WriteReady(room) => KeepWrite(s, room);
    case ExtReadReady(ready) => KeepExtRead(s, ready);
    case ExtWriteReady(room) => KeepExtWrite(s, room);
    case DoPreOpen => KeepPreOpen(s);
    case DoCheckWindow => KeepCheckWindow(s);
    case DoPollInput => KeepPollInput(s);
    case DoPollExtended => KeepPollExtended(s);
    case DoActivate(usage, efd, window) => KeepActivate(s, usage, efd, window);
    case DoCollect => KeepCollect(s);
    case Deliver =>
      if s.ba != [] {
        if s.a.Dead() {
          DeadHearsNothing(s);
        } else {
          match s.ba[0]
          case Data(_) => KeepArriveData(s);
          case Extended(_) => if ReceiverOf(s.a).efd { KeepArriveExtended(s); } else { KeepArriveIgnored(s); }
          case Adjust(_) => KeepArriveAdjust(s);
          case Eof => KeepArriveStop(s);
          case Close => KeepArriveStop(s);
          case Eow => KeepArriveEow(s);
        }
      }
  }

  // ---- channels not yet open

  /** Most events pass a larval channel by. */
  lemma LarvalIdle(c: Chan, ready: Bytes, room: nat)
    requires c.kind == Larval
    ensures HandleRead(c, ready) == HandleExtendedRead(c, ready) == HandleExtendedWrite(c, room) == PreOpen(c) == c
    ensures HandleWrite(c, room) == CheckWindow(c) == PollInput(c) == PollExtended(c) == Reaction(c, [])
    ensures Taken(c, ready) == []
  {
  }

  lemma LarvalHears(c: Chan, m: Message)
    requires c.kind == Larval && !c.forceDrain && (c.istate == InputClosed ==> c.closeRcvd) && m != Eow
    ensures Receive(c, m).Reaction? ==>
      var d := Receive(c, m).chan; d.forceDrain == c.forceDrain && (d.istate == InputClosed ==> d.closeRcvd)
  {
    if m == Eof {
      LarvalHearsEof(c);
    }
  }

  lemma LarvalHearsEof(c: Chan)
    requires !c.forceDrain
    ensures ReceivedEof(c) == Reaction(c.(eofRcvd := true, ostate := ReceivedEofState(c).ostate), [])
  {
  }

  /** No handler takes an open channel back. */
  lemma ReadStaysOpen(c: Chan, ready: Bytes)
    requires c.kind == Open
    ensures HandleRead(c, ready).kind == Open
  {
    var taken := Taken(c, ready);
    assert HandleRead(c, ready) in {c, ReadFailed(c), c.(input := c.input + taken)};
  }

  lemma ExtReadStaysOpen(c: Chan, ready: Bytes)
    requires c.kind == Open
    ensures HandleExtendedRead(c, ready).kind == Open
  {
  }

  lemma WriteStaysOpen(c: Chan, room: nat)
    requires c.kind == Open
    ensures HandleWrite(c, room).Reaction? && HandleWrite(c, room).chan.kind == Open && HandleExtendedWrite(c, room).kind == Open
  {
  }

  lemma PollStaysOpen(c: Chan)
    requires c.kind == Open
    ensures PollInput(c).Reaction? && PollInput(c).chan.kind == Open && PollExtended(c).Reaction? && PollExtended(c).chan.kind == Open
    ensures CheckWindow(c).Reaction? && CheckWindow(c).chan.kind == Open
  {
  }

  lemma HearingStaysOpen(c: Chan, m: Message)
    requires c.kind == Open
    ensures Receive(c, m).Reaction? ==> Receive(c, m).chan.kind == Open
  {
    match m
    case Eof => EofStaysOpen(c);
    case Data(d) => assert InputData(c, d).Reaction? ==> InputData(c, d).chan.kind == c.kind;
    case _ =>
  }

  lemma EofStaysOpen(c: Chan)
    requires c.kind == Open
    ensures ReceivedEof(c).Reaction? && ReceivedEof(c).chan.kind == Open
  {
    var d := ReceivedEofState(c);
    assert d == c.(eofRcvd := true, ostate := d.ostate);
  }

  lemma OpenStaysOpen(s: System, e: Event)
    requires s.a.kind == Open && StepA(s, e).Running?
    ensures StepA(s, e).sys.a.kind == Open
  {
    match e
    case ReadReady(ready) => ReadStaysOpen(s.a, ready);
    case ExtReadReady(ready) => ExtReadStaysOpen(s.a, ready);
    case WriteReady(room) => WriteStaysOpen(s.a, room);
    case ExtWriteReady(room) => WriteStaysOpen(s.a, room);
    case Deliver => if s.ba != [] { HearingStaysOpen(s.a, s.ba[0]); }
    case _ => PollStaysOpen(s.a);
  }

  lemma LarvalStep(s: System, e: Event)
    requires s.a.kind == Larval && !e.DoActivate? && !e.DoCollect? && !e.Deliver?
    ensures StepA(s, e).Running? && StepA(s, e).sys.a == s.a && StepA(s, e).sys.ba == s.ba
    ensures StepA(s, e).sys.hab.read == s.hab.read
  {
    var ready := if e.ReadReady? || e.ExtReadReady? then e.ready else [];
    var room := if e.WriteReady? || e.ExtWriteReady? then e.room else 0;
    LarvalIdle(s.a, ready, room);
    NothingMore(s.hab.read);
  }

  lemma KeepUnopened(s: System, e: Event)
    requires Unopened(s.a, s.ba, s.hab) && StepA(s, e).Running?
    ensures var t := StepA(s, e).sys; Unopened(t.a, t.ba, t.hab)
  {
    if s.a.kind == Open {
      OpenStaysOpen(s, e);
    } else if e.Deliver? {
      if s.ba != [] {
        LarvalHears(s.a, s.ba[0]);
      }
    } else if !e.DoActivate? && !e.DoCollect? {
      LarvalStep(s, e);
    }
  }

  /** Only a failed write sends EOW. */
  lemma NoEow(s: System, e: Event)
    requires s.a.output == [] && StepA(s, e).Running?
    ensures var t := StepA(s, e).sys; t.b == s.b && t.hba.read == s.hba.read && (Eow in t.ab ==> Eow in s.ab)
  {
  }

  /** And a peer that has read nothing has nothing written that could fail. */
  lemma KeepPeerUnopened(s: System, e: Event)
    requires Balanced(s) && Unopened(s.b, s.ab, s.hba) && StepA(s, e).Running?
    ensures var t := StepA(s, e).sys; Unopened(t.b, t.ab, t.hba)
  {
    if s.b.kind == Larval {
      assert |s.hba.received| <= |s.hba.read| && |s.hba.written| + |s.a.output| <= |s.hba.received|;
      NoEow(s, e);
    } else {
      PeerStays(s, e);
    }
  }

  lemma PeerStays(s: System, e: Event)
    requires StepA(s, e).Running?
    ensures StepA(s, e).sys.b == s.b
  {
  }

  lemma KeepStepA(s: System, e: Event)
    requires Inv(s)
    ensures StepA(s, e).Running? && Inv(StepA(s, e).sys)
  {
    if s.a.kind == Larval && s.a.closeSent {
      LarvalCloseIsLast(s);
    }
    BalancedStep(s, e);
    KeepUnopened(s, e);
    KeepPeerUnopened(s, e);
  }

  lemma KeepStep(s: System, e: (bool, Event))
    requires Inv(s)
    ensures Step(s, e).Running? && Inv(Step(s, e).sys)
  {
    if e.0 {
      KeepStepA(s, e.1);
    } else {
      KeepStepA(s.Mirror(), e.1);
    }
  }

  lemma FreshDirection(a: Chan, b: Chan)
    requires FreshChan(a, b) && FreshChan(b, a)
    ensures ChanOk(a) && Direction(SenderOf(a), ReceiverOf(b), [], [], NoHistory)
  {
    var empty: Bytes := [];
    assert empty + empty + empty == empty;
  }

  lemma InitialInv(s: System)
    requires Initial(s)
    ensures Inv(s)
  {
    FreshDirection(s.a, s.b);
    FreshDirection(s.b, s.a);
  }

  lemma {:induction false} RunKeeps(s: System, es: seq<(bool, Event)>)
    requires Inv(s)
    ensures Run(s, es).Running? && Inv(Run(s, es).sys)
    decreases es
  {
    if es != [] {
      KeepStep(s, es[0]);
      RunKeeps(Step(s, es[0]).sys, es[1..]);
    }
  }

  // ---- what follows for every run

  /** Window credit and the receiver's accounting for data from a to b. */
  predicate Accounted(a: Chan, b: Chan, ab: seq<Message>, ba: seq<Message>, h: History) {
    && a.remoteWindow + |DataIn(ab)| + |ExtendedIn(ab)| + CreditIn(ba) + h.ignored == b.localWindow
    && b.localWindow + b.localConsumed + |b.output| + (if b.usage == Write then |b.extended| else 0) + h.dropped
       == b.localWindowMax
  }

  /** What b has written of what a read. */
  predicate InOrder(a: Chan, b: Chan, ab: seq<Message>, h: History) {
    && h.written <= h.read && h.extWritten <= h.extRead
    && (h.dropped == 0 ==> h.written + b.output + DataIn(ab) + a.input == h.read)
    && (b.usage == Write && b.efd && a.usage == Read ==>
          h.extWritten + b.extended + ExtendedIn(ab) + a.extended == h.extRead)
  }

  /**
   No run of two conforming endpoints disconnects: no window is overrun, no adjust overflows, no extended
   data follows EOF and nothing is sent to a freed channel. In every state reached, the window credit and
   the receiver's accounting are exact in both directions.
   */
  lemma RunsNeverDisconnect(s: System, es: seq<(bool, Event)>)
    requires Initial(s)
    ensures var r := Run(s, es);
      && r.Running?
      && var t := r.sys;
      && Accounted(t.a, t.b, t.ab, t.ba, t.hab) && Accounted(t.b, t.a, t.ba, t.ab, t.hba)
  {
    InitialInv(s);
    RunKeeps(s, es);
  }

  /** What is written to either end's descriptors is, in every run, a prefix of what the other end read. */
  lemma DeliveredInOrder(s: System, es: seq<(bool, Event)>)
    requires Initial(s)
    ensures var r := Run(s, es);
      && r.Running?
      && var t := r.sys;
      && InOrder(t.a, t.b, t.ab, t.hab) && InOrder(t.b, t.a, t.ba, t.hba)
  {
    InitialInv(s);
    RunKeeps(s, es);
    var t := Run(s, es).sys;
    StreamsInOrder(t.a, t.b, t.ab, t.ba, t.hab);
    StreamsInOrder(t.b, t.a, t.ba, t.ab, t.hba);
  }

  lemma StreamsInOrder(a: Chan, b: Chan, ab: seq<Message>, ba: seq<Message>, h: History)
    requires Direction(SenderOf(a), ReceiverOf(b), ab, ba, h)
    ensures InOrder(a, b, ab, h)
  {
    StreamDelivers(SenderOf(a), ReceiverOf(b), ab, h);
    ExtendedDelivers(SenderOf(a), ReceiverOf(b), ab, h);
  }

  lemma StreamDelivers(snd: Sender, rcv: Receiver, fwd: seq<Message>, h: History)
    requires Stream(snd, rcv, fwd, h)
    ensures h.written <= h.read && (h.dropped == 0 ==> h.written + rcv.output + DataIn(fwd) + snd.input == h.read)
  {
    assert h.written <= h.written + rcv.output <= h.received <= h.received + DataIn(fwd) <= h.read;
  }

  lemma ExtendedDelivers(snd: Sender, rcv: Receiver, fwd: seq<Message>, h: History)
    requires ExtendedStream(snd, rcv, fwd, h)
    ensures h.extWritten <= h.extRead
    ensures rcv.efd ==> h.extWritten + rcv.extended + ExtendedIn(fwd) + snd.extended == h.extRead
  {
    assert h.extWritten <= h.extWritten + rcv.extended <= h.extReceived <= h.extReceived + ExtendedIn(fwd) <= h.extRead;
  }
}
