/**
 Two `Channel` objects driven through any sequence of events, with the packets between them queued. What is proved of
 ChannelProtocol's runs holds of the objects.
 */
module ChannelDriver {
  import opened Basics
  import opened ChannelEndpoint
  import opened ChannelObject
  import opened ChannelProtocol
  import opened ChannelSafety

  /** One end: its channel, the packets on their way to it, and what has happened to the data it receives. */
  class End {
    const chan: Channel
    var inbox: seq<Message>
    var heard: History

    constructor (c: Channel)
      ensures chan == c && inbox == [] && heard == NoHistory
    {
      chan, inbox, heard := c, [], NoHistory;
    }
  }

  function Between(x: End, y: End): System
    reads x, y, x.chan, y.chan
  {
    System(x.chan.View(), y.chan.View(), y.inbox, x.inbox, y.heard, x.heard)
  }

  /** The event loop finds a descriptor of x ready. */
  method OnFile(x: End, y: End, e: Event)
    requires x != y && x.chan != y.chan && (e.ReadReady? || e.WriteReady? || e.ExtReadReady? || e.ExtWriteReady?)
    modifies x`heard, y`heard, y`inbox, x.chan
    ensures StepA(old(Between(x, y)), e) == Running(Between(x, y))
  {
    match e
    case ReadReady(ready) =>
      var got := x.chan.HandleRfd(ready);
      y.heard := y.heard.(read := y.heard.read + got);
    case WriteReady(room) =>
      var lost := if WantsWrite(x.chan.View()) && room == 0 then |x.chan.output| else 0;
      var wrote, sent := x.chan.HandleWfd(room);
      x.heard := x.heard.(written := x.heard.written + wrote, dropped := x.heard.dropped + lost);
      y.inbox := y.inbox + sent;
    case ExtReadReady(ready) =>
      var got := x.chan.HandleEfdRead(ready);
      y.heard := y.heard.(extRead := y.heard.extRead + got);
    case ExtWriteReady(room) =>
      var wrote := x.chan.HandleEfdWrite(room);
      x.heard := x.heard.(extWritten := x.heard.extWritten + wrote);
  }

  predicate OwnEvent(e: Event) {
    e.DoActivate? || e in {DoPreOpen, DoCheckWindow, DoPollInput, DoPollExtended, DoCollect}
  }

  /** What an event of a channel's own does to it. */
  function OwnReaction(c: Chan, e: Event): Reaction
    requires OwnEvent(e)
  {
    match e
    case DoPreOpen => Reaction(PreOpen(c), [])
    case DoCheckWindow => CheckWindow(c)
    case DoPollInput => PollInput(c)
    case DoPollExtended => PollExtended(c)
    case DoCollect => CollectGarbage(c)
    case DoActivate(usage, efd, window) =>
      if c.kind == Larval && !c.Dead() then Activate(c, usage, efd, window) else Reaction(c, [])
  }

  lemma OwnStep(s: System, e: Event)
    requires OwnEvent(e)
    ensures StepA(s, e) == Reacted(s, OwnReaction(s.a, e))
  {
    assert s.ab + [] == s.ab;
  }

  /** A step of a channel's own: a check that runs on every turn of its event loop, or the start of a session. */
  method Turn(c: Channel, e: Event) returns (sent: seq<Message>)
    requires OwnEvent(e)
    modifies c
    ensures OwnReaction(old(c.View()), e) == Reaction(c.View(), sent)
  {
    sent := [];
    match e
    case DoPreOpen => c.PreOpen();
    case DoCheckWindow => sent := c.CheckWindow();
    case DoPollInput => sent := c.OutputPollInput();
    case DoPollExtended => sent := c.OutputPollExtended();
    case DoCollect => var dead; dead, sent := c.CollectGarbage();
    case DoActivate(usage, efd, window) =>
      if c.kind == Larval && !c.View().Dead() {
        var ok;
        ok, sent := c.SetFds(usage, efd, window);
      }
  }

  method OnTurn(x: End, y: End, e: Event)
    requires x != y && x.chan != y.chan && OwnEvent(e)
    modifies y`inbox, x.chan
    ensures StepA(old(Between(x, y)), e) == Running(Between(x, y))
  {
    OwnStep(Between(x, y), e);
    var sent := Turn(x.chan, e);
    y.inbox := y.inbox + sent;
  }

  /** x handles the next packet on its way; `ok` is false when it disconnects. */
  method OnPacket(x: End, y: End) returns (ok: bool)
    requires x != y && x.chan != y.chan
    modifies x`inbox, x`heard, y`inbox, x.chan
    ensures StepA(old(Between(x, y)), Deliver) == if ok then Running(Between(x, y)) else Disconnected
  {
    if x.inbox == [] {
      return true;
    }
    var m := x.inbox[0];
    if x.chan.View().Dead() {
      if m.Adjust? {
        x.inbox := x.inbox[1..];
      }
      return m.Adjust?;
    }
    x.inbox := x.inbox[1..];
    x.heard := Noted(x.chan.View(), m, x.heard);
    var sent;
    ok, sent := Dispatch(x.chan, m);
    y.inbox := y.inbox + sent;
  }

  /** The packet handlers of channels.c by message type. */
  method Dispatch(c: Channel, m: Message) returns (ok: bool, sent: seq<Message>)
    modifies c
    ensures Receive(old(c.View()), m) == if ok then Reaction(c.View(), sent) else Disconnect
  {
    ok, sent := true, [];
    match m
    case Data(data) => ok := c.InputData(data);
    case Extended(data) => ok := c.InputExtendedData(true, data);
    case Adjust(amount) => ok := c.InputWindowAdjust(amount);
    case Eof => sent := c.InputIeof();
    case Close => sent := c.ReceivedOclose();
    case Eow => c.ReceivedEow();
  }

  method Happen(x: End, y: End, e: Event) returns (ok: bool)
    requires x != y && x.chan != y.chan
    modifies x`inbox, x`heard, y`inbox, y`heard, x.chan
    ensures StepA(old(Between(x, y)), e) == if ok then Running(Between(x, y)) else Disconnected
  {
    ok := true;
    match e
    case Deliver => ok := OnPacket(x, y);
    case ReadReady(_) => OnFile(x, y, e);
    case WriteReady(_) => OnFile(x, y, e);
    case ExtReadReady(_) => OnFile(x, y, e);
    case ExtWriteReady(_) => OnFile(x, y, e);
    case _ => OnTurn(x, y, e);
  }

  /** From a state the protocol can be in, the handlers do not disconnect. */
  method Advance(x: End, y: End, e: (bool, Event)) returns (ok: bool)
    requires x != y && x.chan != y.chan && Inv(Between(x, y))
    modifies x`inbox, x`heard, y`inbox, y`heard, x.chan, y.chan
    ensures ok && Inv(Between(x, y)) && Step(old(Between(x, y)), e) == Running(Between(x, y))
  {
    KeepStep(Between(x, y), e);
    if e.0 {
      ok := Happen(x, y, e.1);
    } else {
      ok := Happen(y, x, e.1);
    }
  }

  lemma {:induction false} RunSnoc(s: System, es: seq<(bool, Event)>, e: (bool, Event))
    requires Run(s, es).Running?
    ensures Run(s, es + [e]) == Step(Run(s, es).sys, e)
    decreases es
  {
    if es == [] {
      assert es + [e] == [e] && [e][1..] == [];
    } else {
      assert (es + [e])[1..] == es[1..] + [e];
      RunSnoc(Step(s, es[0]).sys, es[1..], e);
    }
  }

  /** The window from a to b is accounted for, and b has written a prefix of what a read. */
  predicate Sound(s: System) { Accounted(s.a, s.b, s.ab, s.ba, s.hab) && InOrder(s.a, s.b, s.ab, s.hab) }

  lemma InvIsSound(s: System)
    requires Inv(s)
    ensures Sound(s) && Sound(s.Mirror())
  {
    StreamsInOrder(s.a, s.b, s.ab, s.ba, s.hab);
    StreamsInOrder(s.b, s.a, s.ba, s.ab, s.hba);
  }

  /**
   Two fresh channels, whatever happens to them in whatever order: neither handler ever disconnects, the windows stay
   accounted for and what either end has written is in order a prefix of what the other has read.
   */
  method Drive(x: End, y: End, es: seq<(bool, Event)>) returns (ok: bool)
    requires x != y && x.chan != y.chan && Initial(Between(x, y))
    modifies x`inbox, x`heard, y`inbox, y`heard, x.chan, y.chan
    ensures ok && Run(old(Between(x, y)), es) == Running(Between(x, y))
    ensures Sound(Between(x, y)) && Sound(Between(y, x))
  {
    ghost var start := Between(x, y);
    ok := true;
    for i := 0 to |es|
      invariant ok && Run(start, es[..i]) == Running(Between(x, y))
    {
      ok := Next(x, y, es[i], start, es[..i]);
      assert es[..i + 1] == es[..i] + [es[i]];
    }
    assert es[..|es|] == es;
    RunIsSound(start, es);
  }

  /** One more event of a run that has got as far as x and y are. */
  method Next(x: End, y: End, e: (bool, Event), ghost start: System, ghost es: seq<(bool, Event)>) returns (ok: bool)
    requires x != y && x.chan != y.chan && Initial(start) && Run(start, es) == Running(Between(x, y))
    modifies x`inbox, x`heard, y`inbox, y`heard, x.chan, y.chan
    ensures ok && Run(start, es + [e]) == Running(Between(x, y))
  {
    InitialInv(start);
    RunKeeps(start, es);
    RunSnoc(start, es, e);
    ok := Advance(x, y, e);
  }

  lemma RunIsSound(s: System, es: seq<(bool, Event)>)
    requires Initial(s)
    ensures Run(s, es).Running? && Sound(Run(s, es).sys) && Sound(Run(s, es).sys.Mirror())
  {
    InitialInv(s);
    RunKeeps(s, es);
    InvIsSound(Run(s, es).sys);
  }
}
