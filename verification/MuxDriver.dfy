/** The channel table as an object, driven through whole runs of the multiplexing master. */
module MuxDriver {
  import opened Basics
  import opened MuxTable
  import opened MuxProtocol
  import opened MuxSafety
  import opened MuxDangling
  import opened MuxStops

  /** What the table makes of one event at the master; the server and the links are as `s` has them. */
  method Turn(x: ChannelTable, s: System, e: Event, ghost events: seq<Event>) returns (ok: bool, told: seq<Delivery>)
    requires Run(events) == Running(s) && x.channels == s.table
    modifies x
    ensures ok <==> Step(s, e).Running?
    ensures ok ==> x.channels == Step(s, e).sys.table && Step(s, e).sys.delivered == s.delivered + told
  {
    ok, told := true, [];
    assert s.delivered + [] == s.delivered;
    match e
    case Sweep(w) => ok := Collects(x, s, w, events);
    case Deliver => ok, told := Hear(x, s, events);
    case Serve(accept) => ServerAnswers(s, accept, events);
    case _ => ok := Heed(x, s, e);
  }

  lemma ServerAnswers(s: System, accept: Option<U32>, events: seq<Event>)
    requires Run(events) == Running(s)
    ensures var r := ServeOne(s, accept); r.Running? && r.sys.table == s.table && r.sys.delivered == s.delivered
  {
    ServerOnly(s, accept);
    assert ServeOne(s, accept).Running? by {
      RunKeeps(events);
      KeepServe(s, accept);
    }
  }

  lemma ServerOnly(s: System, accept: Option<U32>)
    ensures var r := ServeOne(s, accept); r.Running? ==> r.sys.table == s.table && r.sys.delivered == s.delivered
  {
  }

  method Collects(x: ChannelTable, s: System, w: Found, ghost events: seq<Event>) returns (ok: bool)
    requires Run(events) == Running(s) && x.channels == s.table
    modifies x
    ensures ok <==> Step(s, Sweep(w)).Running?
    ensures ok ==> x.channels == Step(s, Sweep(w)).sys.table && Step(s, Sweep(w)).sys.delivered == s.delivered
  {
    RunKeeps(events);
    InvTable(s);
    SweepIsPass(s, 0, w);
    SweepTellsNobody(s, w);
    var closes;
    ok, closes := x.Handler(w);
  }

  /** Events at a client or the master itself; the others leave the table alone. */
  method Heed(x: ChannelTable, s: System, e: Event) returns (ok: bool)
    requires |s.births| == |s.stages| && x.channels == s.table && !e.Sweep? && !e.Deliver? && !e.Serve?
    modifies x
    ensures ok <==> Step(s, e).Running?
    ensures ok ==> x.channels == Step(s, e).sys.table && Step(s, e).sys.delivered == s.delivered
  {
    ok := true;
    match e
    case Connect(a) =>
      if !Connected(s.table, a) {
        ok := Place(x, Client(a));
      }
    case ClientOpen(i, d) =>
      if i < |x.channels| && x.channels[i].Client? {
        ok := Place(x, Chan(Mux(x.channels[i].addr, d), None, false, false));
      }
    case MasterOpen => ok := Place(x, Chan(Opening, None, false, false));
    case ClientConfirm(i, k, d) =>
      if MayConfirm(s, i, k) {
        ok := Place(x, Chan(Mux(x.channels[i].addr, d), Some(s.server[k].remote), false, false));
      }
    case ClientClose(k) =>
      if s.swept && Closable(s, k).Some? {
        x.ProxyClose(s.table[Closable(s, k).value].remote.value);
      }
    case _ =>
  }

  method Place(x: ChannelTable, t: Slot) returns (ok: bool)
    modifies x
    ensures match WithRoom(old(x.channels))
      case None => !ok
      case Some(room) => ok && FirstFree(room) < |room| && x.channels == room[FirstFree(room) := t]
  {
    var found := x.New(t);
    ok := found.Some?;
  }

  /** The next message from the server, if there is one. */
  method Hear(x: ChannelTable, s: System, ghost events: seq<Event>) returns (ok: bool, told: seq<Delivery>)
    requires Run(events) == Running(s) && x.channels == s.table
    modifies x
    ensures ok <==> Receive(s).Running?
    ensures ok ==> x.channels == Receive(s).sys.table && Receive(s).sys.delivered == s.delivered + told
  {
    ok, told := true, [];
    RunKeeps(events);
    if s.down != [] && s.down[0].Channel? {
      var m, to := s.down[0], None;
      assert m in s.down;
      ok, to := x.Input(m.slot, m.kind, m.remote);
      if ok && to.Some? {
        told := [Delivery(Reached(s.table, s.who, to.value.0), to.value.1, m.serial)];
      }
    } else if s.down != [] {
      assert s.down[0] in s.down;
    }
  }

  lemma SweepTellsNobody(s: System, w: Found)
    requires Inv(s)
    ensures Step(s, Sweep(w)).Running? ==> Step(s, Sweep(w)).sys.delivered == s.delivered
  {
    if Step(s, Sweep(w)).Running? {
      SweepDelivers(s, 0, w);
    }
  }

  lemma {:induction false} SweepDelivers(s: System, i: nat, w: Found)
    requires |s.births| == |s.stages| && SweepFrom(s, i, w).Running?
    ensures SweepFrom(s, i, w).sys.delivered == s.delivered
    decreases |s.table| - i
  {
    if i < |s.table| {
      SweepDelivers(VisitSlot(s, i, w).sys, i + 1, w);
    }
  }

  /**
   A table driven through any events of a run ends as the run's table, or stops where the run does. Every message it put
   towards a client carries the number of the client that opened the channel, and reached that client if no client was
   marked dead with a channel open.
   */
  method Drive(events: seq<Event>) returns (x: ChannelTable, ok: bool, told: seq<Delivery>)
    ensures fresh(x) && (ok <==> Run(events).Running?)
    ensures ok ==> x.channels == Run(events).sys.table && told == Run(events).sys.delivered
    ensures ok ==> forall d :: d in told ==> Routed(Run(events).sys, d, NeverAbandons(events))
  {
    x := new ChannelTable();
    var s := Start;
    ok, told := true, [];
    for n := 0 to |events|
      invariant ok && fresh(x) && Run(events[..n]) == Running(s) && x.channels == s.table && told == s.delivered
    {
      NextOf(events, n, s);
      var more;
      ok, more := Turn(x, s, events[n], events[..n]);
      if !ok {
        return;
      }
      s, told := Step(s, events[n]).sys, told + more;
    }
    assert events[..|events|] == events;
    DrivenRoutes(events);
  }

  lemma {:induction false} NextOf(events: seq<Event>, n: nat, s: System)
    requires n < |events| && Run(events[..n]) == Running(s)
    ensures Run(events[..n + 1]) == Step(s, events[n]) && (Step(s, events[n]).Stopped? ==> Run(events).Stopped?)
  {
    var p, q, e := events[..n], events[..n + 1], events[n];
    assert q == p + [e];
    assert Run(q) == Step(s, e) by { RunThen(p, e); }
    if Run(q).Stopped? {
      StoppedEnds(q, events);
    }
  }

  lemma StoppedEnds(q: seq<Event>, events: seq<Event>)
    requires q <= events && Run(q).Stopped?
    ensures Run(events).Stopped?
  {
    StoppedStays(q, events[|q|..]);
    assert q + events[|q|..] == events;
  }

  /** The message carries the number of the client that opened the channel and, if `all` did, reached that client. */
  predicate Routed(s: System, d: Delivery, all: bool) {
    && d.serial < |s.births| && s.births[d.serial].ByClient? && s.births[d.serial].downId == d.downId
    && (all ==> d.to == Some(s.births[d.serial].conn))
  }

  lemma DrivenRoutes(events: seq<Event>)
    requires Run(events).Running?
    ensures forall d :: d in Run(events).sys.delivered ==> Routed(Run(events).sys, d, NeverAbandons(events))
  {
    RunKeeps(events);
    NothingLostIff(events);
  }
}
