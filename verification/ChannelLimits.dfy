/**
 How much a channel reads, writes and sends at a time, how much a peer may send beyond its window, and exactly which
 messages disconnect.
 */
module ChannelLimits {
  import opened Basics
  import opened ChannelEndpoint
  import opened ChannelProtocol
  import opened ChannelSafety

  // ---- as much as there is room for

  /** A read takes what is ready, unless 32 KB, the peer's window or the 16 MB of buffer is less. */
  lemma ReadTakesMost(c: Chan, ready: Bytes)
    requires WantsRead(c)
    ensures var n := |Taken(c, ready)|;
      && Taken(c, ready) == ready[..n]
      && n <= 0x8000 && |c.input| + n <= c.remoteWindow && |c.input| + n <= 0x100_0000
      && (n == |ready| || n == 0x8000 || |c.input| + n == c.remoteWindow || |c.input| + n == 0x100_0000)
  {
  }

  lemma ExtendedReadTakesMost(c: Chan, ready: Bytes)
    requires WantsExtendedRead(c) && c.usage == Read
    ensures var n := |ExtendedTaken(c, ready)|; ExtendedTaken(c, ready) == ready[..n] && n <= 0x4000 && (n == |ready| || n == 0x4000)
  {
  }

  lemma WriteTakesMost(c: Chan, room: nat)
    requires WantsWrite(c)
    ensures var n := |Written(c, room)|; Written(c, room) == c.output[..n] && n <= room && (n == room || n == |c.output|)
  {
  }

  lemma ExtendedWriteTakesMost(c: Chan, room: nat)
    requires WantsExtendedWrite(c)
    ensures var n := |ExtendedWritten(c, room)|;
      ExtendedWritten(c, room) == c.extended[..n] && n <= room && (n == room || n == |c.extended|)
  {
  }

  /** A packet carries all that is buffered, unless the peer's window or its packet size is less. */
  predicate Fullest(c: Chan, buffered: Bytes, data: Bytes) {
    && data <= buffered && |data| <= c.remoteWindow && |data| <= c.remoteMaxPacket
    && (data == buffered || |data| == c.remoteWindow || |data| == c.remoteMaxPacket)
  }

  /** Buffered input goes out in the fullest packet exactly if the channel may send at all and there is room for a byte. */
  lemma PollSendsMost(c: Chan)
    requires c.input != [] && c.istate != InputClosed
    ensures var r := PollInput(c);
      && r.Reaction?
      && (r.sent != [] <==> c.kind == Open && !c.closeSent && !c.closeRcvd && c.remoteWindow > 0 && c.remoteMaxPacket > 0)
      && (r.sent != [] ==> |r.sent| == 1 && r.sent[0].Data? && Fullest(c, c.input, r.sent[0].data)
                           && c.input == r.sent[0].data + r.chan.input)
  {
    var len := PacketLength(c, |c.input|);
    assert c.input[..len] + c.input[len..] == c.input;
  }

  lemma PollExtendedSendsMost(c: Chan)
    requires c.extended != [] && c.usage == Read && !c.eofSent
    ensures var r := PollExtended(c);
      && r.Reaction?
      && (r.sent != [] <==> c.kind == Open && !c.closeSent && !c.closeRcvd && c.remoteWindow > 0 && c.remoteMaxPacket > 0)
      && (r.sent != [] ==> |r.sent| == 1 && r.sent[0].Extended? && Fullest(c, c.extended, r.sent[0].data)
                           && c.extended == r.sent[0].data + r.chan.extended)
  {
    var len := PacketLength(c, |c.extended|);
    assert c.extended[..len] + c.extended[len..] == c.extended;
  }

  // ---- more than the window

  function Sum(ds: seq<Bytes>): nat { if ds == [] then 0 else Sum(ds[..|ds| - 1]) + |ds[|ds| - 1]| }

  /** The packets since the last empty one. */
  function Since(ds: seq<Bytes>): (r: seq<Bytes>)
    ensures |r| <= |ds|
  {
    if ds == [] || ds[|ds| - 1] == [] then [] else Since(ds[..|ds| - 1]) + [ds[|ds| - 1]]
  }

  lemma {:induction false} SinceSum(ds: seq<Bytes>)
    ensures Sum(Since(ds)) <= Sum(ds)
  {
    if ds != [] && ds[|ds| - 1] != [] {
      SinceSum(ds[..|ds| - 1]);
      assert Since(ds)[..|Since(ds)| - 1] == Since(ds[..|ds| - 1]);
    }
  }

  /** How far the packets since the last empty one go beyond the part of the window that was left before them. */
  function Excess(window: nat, ds: seq<Bytes>): nat {
    SinceSum(ds);
    Monus(Sum(Since(ds)), Monus(window, Sum(ds) - Sum(Since(ds))))
  }

  /** An end that gets these data packets one after the other. */
  function Fed(c: Chan, ds: seq<Bytes>): Reaction {
    if ds == [] then Reaction(c, [])
    else match Fed(c, ds[..|ds| - 1])
      case Disconnect => Disconnect
      case Reaction(d, _) => InputData(d, ds[|ds| - 1])
  }

  /** An open output that has not been sent too much, and packets no larger than it takes. */
  predicate Flooded(c: Chan, ds: seq<Bytes>) {
    && c.kind == Open && c.ostate == OutputOpen && c.localExceeded == 0 && c.localMaxPacket < 0x8000_0000
    && forall i :: 0 <= i < |ds| ==> |ds[i]| <= c.localMaxPacket
  }

  lemma ExcessStep(window: nat, ds: seq<Bytes>, d: Bytes)
    ensures Sum(ds + [d]) == Sum(ds) + |d|
    ensures var left := Monus(window, Sum(ds)); Excess(window, ds + [d]) == if |d| > left then Excess(window, ds) + |d| - left else 0
  {
  }

  /** Nowhere among the first packets do those since the last empty one go too far beyond the window. */
  predicate Tolerated(c: Chan, ds: seq<Bytes>) {
    forall j :: 0 <= j <= |ds| ==> Excess(c.localWindow, ds[..j]) <= c.localWindowMax / 10
  }

  lemma ToleratedStep(c: Chan, ds: seq<Bytes>)
    requires ds != []
    ensures Tolerated(c, ds) <==> Tolerated(c, ds[..|ds| - 1]) && Excess(c.localWindow, ds) <= c.localWindowMax / 10
  {
    var init := ds[..|ds| - 1];
    assert ds[..|ds|] == ds;
    assert forall j :: 0 <= j <= |init| ==> init[..j] == ds[..j];
    if Tolerated(c, init) && Excess(c.localWindow, ds) <= c.localWindowMax / 10 {
      forall j | 0 <= j <= |ds| ensures Excess(c.localWindow, ds[..j]) <= c.localWindowMax / 10 {
        if j < |ds| {
          assert ds[..j] == init[..j];
        }
      }
    }
  }

  /** One packet for an end in a flood. */
  lemma FloodStep(c: Chan, n: nat, x: nat, limit: U32, d: Bytes)
    requires c.kind == Open && c.ostate == OutputOpen && |d| <= c.localMaxPacket < 0x8000_0000 && n == |d|
    requires limit == c.localWindowMax / 10 && c.localExceeded <= limit
    requires x == if n > c.localWindow then c.localExceeded + n - c.localWindow else 0
    ensures InputData(c, d).Disconnect? <==> x > limit
    ensures x <= limit ==>
      InputData(c, d) == Reaction(c.(localWindow := Monus(c.localWindow, n), localExceeded := x, output := c.output + d), [])
  {
  }

  /** What the packets leave: the window used up, the excess counted, everything stored; or a disconnection. */
  predicate Left(c: Chan, ds: seq<Bytes>, r: Reaction) {
    if Tolerated(c, ds) then
      && r.Reaction? && r.chan.localWindow == Monus(c.localWindow, Sum(ds)) && r.chan.localExceeded == Excess(c.localWindow, ds)
      && r.chan.kind == Open && r.chan.ostate == OutputOpen
      && r.chan.localMaxPacket == c.localMaxPacket && r.chan.localWindowMax == c.localWindowMax
    else r.Disconnect?
  }

  lemma LeftStep(c: Chan, init: seq<Bytes>, d: Bytes, r: Reaction)
    requires Flooded(c, init + [d]) && Tolerated(c, init) && Left(c, init, r)
    ensures Left(c, init + [d], InputData(r.chan, d))
  {
    var ds := init + [d];
    assert ds[..|ds| - 1] == init && ds[|init|] == d && init[..|init|] == init;
    ToleratedStep(c, ds);
    ExcessStep(c.localWindow, init, d);
    FloodStep(r.chan, |d|, Excess(c.localWindow, ds), c.localWindowMax / 10, d);
  }

  lemma {:induction false} FedIs(c: Chan, ds: seq<Bytes>)
    requires Flooded(c, ds)
    ensures Left(c, ds, Fed(c, ds))
    decreases |ds|
  {
    if ds != [] {
      var init, d := ds[..|ds| - 1], ds[|ds| - 1];
      FedIs(c, init);
      assert init + [d] == ds;
      if Tolerated(c, init) {
        LeftStep(c, init, d, Fed(c, init));
      } else {
        ToleratedStep(c, ds);
      }
    }
  }

  /**
   A peer that sends data without being given any more window is disconnected exactly when, at some packet, those sent
   since the last empty one exceed what was left of the window before them by more than a tenth of its maximum.
   */
  lemma OverrunIff(c: Chan, ds: seq<Bytes>)
    requires Flooded(c, ds)
    ensures Fed(c, ds).Disconnect? <==> exists j :: 0 <= j <= |ds| && Excess(c.localWindow, ds[..j]) > c.localWindowMax / 10
  {
    FedIs(c, ds);
  }

  lemma {:induction false} NoneEmpty(ds: seq<Bytes>)
    requires forall i :: 0 <= i < |ds| ==> ds[i] != []
    ensures Since(ds) == ds
  {
    if ds != [] {
      NoneEmpty(ds[..|ds| - 1]);
    }
  }

  lemma {:induction false} SumGrows(ds: seq<Bytes>, j: nat)
    requires j <= |ds|
    ensures Sum(ds[..j]) <= Sum(ds)
  {
    if j == |ds| {
      assert ds[..j] == ds;
    } else {
      assert ds[..|ds| - 1][..j] == ds[..j];
      SumGrows(ds[..|ds| - 1], j);
    }
  }

  /** With no empty packet among them, that is when all of them together exceed the window by more than the tenth. */
  lemma OverrunWithoutEmpties(c: Chan, ds: seq<Bytes>)
    requires Flooded(c, ds) && forall i :: 0 <= i < |ds| ==> ds[i] != []
    ensures Fed(c, ds).Disconnect? <==> Sum(ds) > c.localWindow + c.localWindowMax / 10
  {
    FedIs(c, ds);
    forall j | 0 <= j <= |ds| ensures Excess(c.localWindow, ds[..j]) == Monus(Sum(ds[..j]), c.localWindow) && Sum(ds[..j]) <= Sum(ds) {
      NoneEmpty(ds[..j]);
      SumGrows(ds, j);
    }
    assert ds[..|ds|] == ds;
  }

  /** After an empty packet the count starts again: a peer may send a tenth of the window again and again. */
  lemma EmptyForgives(c: Chan, ds: seq<Bytes>, d: Bytes)
    requires Flooded(c, ds + [[]] + [d]) && Tolerated(c, ds) && |d| <= c.localWindowMax / 10
    ensures !Fed(c, ds + [[]] + [d]).Disconnect?
  {
    var es := ds + [[]];
    var fs := es + [d];
    assert es[..|ds|] == ds && fs[..|es|] == es;
    ExcessStep(c.localWindow, ds, []);
    ExcessStep(c.localWindow, es, d);
    ToleratedStep(c, es);
    ToleratedStep(c, fs);
    FedIs(c, fs);
  }

  // ---- what disconnects

  /** A message that the receiving end answers by disconnecting. */
  predicate Offends(c: Chan, m: Message) {
    if c.Dead() then !m.Adjust?
    else match m
      case Data(d) =>
        && c.kind == Open && c.ostate == OutputOpen && c.localWindow < |d| <= c.localMaxPacket
        && (c.localExceeded + |d| - c.localWindow) % TWO_TO_32 > c.localWindowMax / 10
      case Extended(_) => c.kind == Open && c.eofRcvd
      case Adjust(n) => c.remoteWindow + n >= TWO_TO_32
      case _ => false
  }

  lemma ReceiveOffends(c: Chan, m: Message)
    requires !c.Dead()
    ensures Receive(c, m).Disconnect? <==> Offends(c, m)
  {
  }

  /** Exactly which events disconnect, whatever the state. */
  lemma DisconnectsIff(s: System, e: Event)
    ensures StepA(s, e).Disconnected? <==> e.Deliver? && s.ba != [] && Offends(s.a, s.ba[0])
  {
    if e.Deliver? && s.ba != [] && !s.a.Dead() {
      ReceiveOffends(s.a, s.ba[0]);
    }
  }

  // ---- opening a session

  /** A session that is given its descriptors is open for what they are for, and announces its window to the peer. */
  lemma ActivatedIs(s: System, usage: ExtendedUsage, efd: bool, window: U32, d: Bytes)
    requires s.a.kind == Larval && !s.a.Dead()
    ensures var r := StepA(s, DoActivate(usage, efd, window));
      && r.Running? && r.sys.ab == s.ab + [Adjust(window)] && r.sys.a.kind == Open
      && r.sys.a.localWindow == r.sys.a.localWindowMax == window
      && (AcceptsExtended(r.sys.a, d) <==> efd && usage == Write && |d| <= window)
      && (s.a.istate == InputOpen && !s.a.eofSent && |s.a.extended| < s.a.remoteWindow ==>
            (WantsExtendedRead(r.sys.a) <==> efd && usage != Write))
  {
  }
}
