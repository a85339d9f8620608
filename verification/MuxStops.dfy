/**
 What the multiplexing master's table comes to over whole runs: when slots are freed, where messages go, and exactly
 when the master stops. A client that leaves behind a channel the server never numbered, because its OPEN is unanswered
 or was refused, takes the master down with it.
 */
module MuxStops {
  import opened Basics
  import opened MuxTable
  import opened MuxCollector
  import opened MuxPass
  import opened MuxProtocol
  import opened MuxSafety

  // ---- the table

  predicate Lingers(t: Slot) { t.Chan? && t.closeSent && t.closeRcvd }

  /**
   In every reachable table the server's numbers of occupied slots differ but for channels closed both ways, which are
   never a client's and are gone once the collector has run; and a proxied channel points at the client that opened it
   exactly if that client was not marked dead meanwhile.
   */
  lemma TableIsSound(events: seq<Event>, i: nat, j: nat, r: U32)
    requires Run(events).Running?
    ensures var s := Run(events).sys; var t := s.table;
      && (i < |t| && j < |t| && HasRemote(t[i], r) && HasRemote(t[j], r) && !Lingers(t[i]) && !Lingers(t[j]) ==> i == j)
      && (i < |t| && Lingers(t[i]) ==> !t[i].IsProxy() && !s.swept)
      && (i < |t| && t[i].IsProxy() ==>
            i in s.at && s.at[i] < |s.births| && (Here(t, s.who, s.births[s.at[i]]) <==> s.at[i] !in s.lost))
  {
    RunKeeps(events);
    var s := Run(events).sys;
    if i < |s.table| && j < |s.table| && HasRemote(s.table[i], r) && HasRemote(s.table[j], r)
       && !Lingers(s.table[i]) && !Lingers(s.table[j]) {
      NumbersAreUnique(s, i, j, r);
    }
  }

  /**
   A message for a proxied channel is put to the address of the client that opened it, under the number that client
   chose, and never stops the master. It reaches that client exactly if the channel is not lost; otherwise it reaches
   whichever client is at the address now, or nobody.
   */
  lemma ClientIsTold(s: System)
    requires Inv(s) && s.down != [] && s.down[0].Channel?
    ensures var m := s.down[0];
      && m.slot < |s.table| && s.table[m.slot].Chan? && m.serial < |s.births|
      && (s.table[m.slot].IsProxy() ==>
            && Receive(s).Running? && s.births[m.serial].ByClient?
            && var b := s.births[m.serial]; var to := Reached(s.table, s.who, b.addr);
            && Receive(s).sys.delivered == s.delivered + [Delivery(to, b.downId, m.serial)]
            && (to == Some(b.conn) <==> m.serial !in s.lost))
      && (!s.table[m.slot].IsProxy() && Receive(s).Running? ==> Receive(s).sys.delivered == s.delivered)
  {
    HeadStage(s);
  }

  // ---- when slots are freed

  /**
   One pass closes every channel whose client has left it before: freed if the server has closed it too, and else with
   the CLOSE sent. The channels of clients that stay are not touched, nor those of clients marked dead.
   */
  lemma OrphansAreClosed(s: System, w: Found, j: nat)
    requires Inv(s) && Step(s, Sweep(w)).Running? && j < |s.table| && s.table[j].Chan?
    ensures var t := Step(s, Sweep(w)).sys.table;
      && j < |t|
      && (s.table[j].owner == Orphan ==> if s.table[j].closeRcvd then t[j] == Free else t[j].Chan? && t[j].closeSent)
      && (s.table[j].IsProxy() && s.table[j].owner.client !in w.Leaving() ==> t[j] == s.table[j])
  {
    InvTable(s);
    SweepIsPass(s, 0, w);
    PassSlot(s.table, 0, w, j);
  }

  /** What a pass makes of every slot of a reachable table, and which CLOSEs it adds to the queue to the server. */
  lemma SweepOutcome(s: System, w: Found, j: nat)
    requires Inv(s) && Step(s, Sweep(w)).Running? && j < |s.table|
    ensures var t := Step(s, Sweep(w)).sys;
      && |t.table| == |s.table| && t.table[j] == Outcome(s.table, 0, w, j)
      && Byes(s.up, t.up, ClosesFrom(s.table, 0, w, 0))
  {
    InvTable(s);
    SweepIsPass(s, 0, w);
    PassOutcome(s.table, 0, w, j);
    PassSends(s.table, 0, w);
  }

  /** The message is that the server refuses an OPEN of the master's own. */
  predicate RefusesOwn(s: System) {
    && s.down != [] && s.down[0].Channel? && s.down[0].kind == Failure && s.down[0].slot < |s.table|
    && s.table[s.down[0].slot].Chan? && s.table[s.down[0].slot].owner == Opening
  }

  /** An OPEN of the master's own that is refused leaves a zombie. */
  lemma RefusedIsZombie(s: System)
    requires Inv(s) && RefusesOwn(s)
    ensures Receive(s).Running? && |Receive(s).sys.table| == |s.table|
    ensures var c := Receive(s).sys.table[s.down[0].slot]; c.Chan? && c.owner == Zombie
  {
    HeadStage(s);
  }

  /** A zombie gives its slot back with the next pass. */
  lemma ZombieIsFreed(s: System, w: Found, i: nat)
    requires Inv(s) && i < |s.table| && s.table[i].Chan? && s.table[i].owner == Zombie && Step(s, Sweep(w)).Running?
    ensures var t := Step(s, Sweep(w)).sys.table; i < |t| && t[i] == Free
  {
    SweepOutcome(s, w, i);
  }

  lemma OnlyClosesFree(s: System, e: Event, i: nat)
    requires |s.births| == |s.stages| && Step(s, e).Running? && i < |s.table| && s.table[i].Chan?
    requires !e.ClientClose? && !e.Deliver? && !e.Sweep?
    ensures var t := Step(s, e).sys.table; i < |t| && t[i] == s.table[i]
  {
  }

  lemma CloseFrees(table: seq<Slot>, l: nat, i: nat)
    requires l < |table| && i < |table| && table[l].Chan? && table[i].Chan? && !CloseUp(table, l)[i].Chan?
    ensures i == l && table[i].closeRcvd
  {
  }

  lemma FreedByClient(s: System, k: nat, i: nat)
    requires Inv(s) && i < |s.table| && s.table[i].Chan? && !Step(s, ClientClose(k)).sys.table[i].Chan?
    ensures s.table[i].IsProxy() && s.table[i].closeRcvd && k == s.at[i]
  {
    var l := Closable(s, k).value;
    ClosableMay(s, k, l);
    CloseFrees(s.table, l, i);
    SlotHeld(s, k);
  }

  lemma FreedByReceive(s: System, i: nat)
    requires Inv(s) && Receive(s).Running? && i < |s.table| && s.table[i].Chan? && !Receive(s).sys.table[i].Chan?
    ensures s.down != [] && s.down[0].Channel? && s.down[0].slot == i && s.down[0].serial == s.at[i]
    ensures s.down[0].kind == Close && s.table[i].closeSent && s.table[i].IsProxy()
  {
    HeadStage(s);
  }

  lemma FreedBySweep(s: System, w: Found, i: nat)
    requires Inv(s) && Step(s, Sweep(w)).Running? && i < |s.table| && s.table[i].Chan?
    ensures var t := Step(s, Sweep(w)).sys.table;
      i < |t| && (!t[i].Chan? ==> s.table[i].closeRcvd || s.table[i].owner == Zombie)
  {
    InvTable(s);
    SweepIsPass(s, 0, w);
    PassSlot(s.table, 0, w, i);
  }

  /**
   A step empties a slot with a channel in it only to finish a two-way CLOSE, at once for a client's channel and by the
   collector for the others, or to collect an OPEN of the master's own that was refused.
   */
  lemma FreedAfterBothCloses(s: System, e: Event, i: nat)
    requires Inv(s) && Step(s, e).Running? && i < |s.table| && s.table[i].Chan?
    requires i < |Step(s, e).sys.table| ==> !Step(s, e).sys.table[i].Chan?
    ensures match e
      case ClientClose(k) => s.table[i].IsProxy() && k == s.at[i] && s.table[i].closeRcvd
      case Deliver =>
        && s.table[i].IsProxy() && s.down != [] && s.down[0].Channel? && s.down[0].slot == i && s.down[0].serial == s.at[i]
        && s.down[0].kind == Close && s.table[i].closeSent
      case Sweep(_) => s.table[i].closeRcvd || s.table[i].owner == Zombie
      case _ => false
  {
    if e.Sweep? {
      FreedBySweep(s, e.w, i);
    } else if e.ClientClose? || e.Deliver? {
      FreedByEvent(s, e, i);
    } else {
      OnlyClosesFree(s, e, i);
    }
  }

  lemma FreedByEvent(s: System, e: Event, i: nat)
    requires Inv(s) && Step(s, e).Running? && i < |s.table| && s.table[i].Chan? && (e.ClientClose? || e.Deliver?)
    requires i < |Step(s, e).sys.table| ==> !Step(s, e).sys.table[i].Chan?
    ensures e.ClientClose? ==> s.table[i].IsProxy() && e.k == s.at[i] && s.table[i].closeRcvd
    ensures e.Deliver? ==>
      && s.table[i].IsProxy() && s.down != [] && s.down[0].Channel? && s.down[0].slot == i && s.down[0].serial == s.at[i]
      && s.down[0].kind == Close && s.table[i].closeSent
  {
    match e
    case ClientClose(k) => FreedByClient(s, k, i);
    case Deliver => FreedByReceive(s, i);
  }

  // ---- how large the table gets

  /** A new channel finds no room exactly if every slot is taken and there are more than 16384 of them. */
  lemma FullIff(table: seq<Slot>)
    ensures WithRoom(table) == None <==> Free !in table && |table| > 0x4000
    ensures WithRoom(table).Some? ==> |WithRoom(table).value| == |table| + if Free in table then 0 else 10
  {
    if Free in table {
      var i :| 0 <= i < |table| && table[i] == Free;
    }
  }

  lemma {:induction false} SweepLength(s: System, i: nat, w: Found)
    requires |s.births| == |s.stages| && SweepFrom(s, i, w).Running?
    ensures |SweepFrom(s, i, w).sys.table| == |s.table|
    decreases |s.table| - i
  {
    if i < |s.table| {
      SweepLength(VisitSlot(s, i, w).sys, i + 1, w);
    }
  }

  lemma OpenLength(s: System, owner: Owner, b: Birth)
    requires OpenChannel(s, owner, b).Running?
    ensures var t := OpenChannel(s, owner, b).sys.table; |t| == |s.table| || (|t| == |s.table| + 10 && |s.table| <= 0x4000)
  {
    FullIff(s.table);
  }

  lemma StepLength(s: System, e: Event)
    requires |s.births| == |s.stages| && Step(s, e).Running?
    ensures var t := Step(s, e).sys.table; |t| == |s.table| || (|t| == |s.table| + 10 && |s.table| <= 0x4000)
  {
    match e
    case Sweep(w) => SweepLength(s, 0, w);
    case Connect(_) => FullIff(s.table);
    case ClientConfirm(_, _, _) => FullIff(s.table);
    case ClientOpen(i, downId) =>
      if i < |s.table| && s.table[i].Client? {
        OpenLength(s, Mux(s.table[i].addr, downId), ByClient(ConnAt(s.who, s.table[i].addr), s.table[i].addr, downId));
      }
    case MasterOpen => OpenLength(s, Opening, ByMaster);
    case _ =>
  }

  predicate Sized(n: nat) { n % 10 == 0 && 10 <= n <= 16390 }

  lemma StepSized(s: System, e: Event, r: Result)
    requires |s.births| == |s.stages| && Sized(|s.table|) && r == Step(s, e)
    ensures r.Running? ==> Sized(|r.sys.table|)
  {
    if r.Running? {
      StepLength(s, e);
    }
  }

  /** In every run the table has a multiple of ten slots, and never more than 16390. */
  lemma {:induction false} TableBounded(events: seq<Event>, r: Result)
    requires r == Run(events) && r.Running?
    ensures Sized(|r.sys.table|)
    decreases |events|
  {
    if events == [] {
      assert |TenFree| == 10;
    } else {
      var q := Run(events[..|events| - 1]);
      TableBounded(events[..|events| - 1], q);
      StepSized(q.sys, events[|events| - 1], r);
    }
  }

  // ---- when the master stops

  /** What makes the master stop on an event. */
  ghost predicate Fatal(s: System, e: Event)
    requires |s.births| == |s.stages|
  {
    match e
    case Connect(a) => !Connected(s.table, a) && WithRoom(s.table) == None
    case MasterOpen => WithRoom(s.table) == None
    case ClientOpen(i, _) => i < |s.table| && s.table[i].Client? && WithRoom(s.table) == None
    case ClientConfirm(i, k, _) => MayConfirm(s, i, k) && WithRoom(s.table) == None
    case Sweep(w) => AnyStruck(s.table, 0, w)
    case Deliver =>
      && s.down != [] && s.down[0].Channel? && (s.down[0].kind == Confirm || s.down[0].kind == Failure)
      && s.down[0].slot < |s.table| && s.table[s.down[0].slot].Chan? && s.table[s.down[0].slot].owner == Orphan
    case _ => false
  }

  lemma ReceiveStopsIff(s: System)
    requires Inv(s)
    ensures Receive(s).Stopped? <==> Fatal(s, Deliver)
  {
    if s.down != [] {
      assert s.down[0] in s.down;
      if s.down[0].Channel? {
        var m := s.down[0];
        HeadStage(s);
        assert StageOk(s, m.serial) && OwnerOk(s.table[m.slot]);
        DownsPop(s.down, m.serial);
      }
    }
  }

  lemma SweepStopsIff(s: System, w: Found)
    requires Inv(s)
    ensures Step(s, Sweep(w)).Stopped? <==> AnyStruck(s.table, 0, w)
  {
    InvTable(s);
    SweepIsPass(s, 0, w);
    PassFatalIff(s.table, 0, w);
  }

  /**
   The master stops exactly when its table is full, when it is told the outcome of an OPEN whose client has left it, or
   when the collector comes to a channel without a client that the server never numbered. Nothing else the clients or
   the server send, in whatever order, stops it.
   */
  lemma StopsIff(s: System, e: Event)
    requires Inv(s)
    ensures Step(s, e).Stopped? <==> Fatal(s, e)
  {
    match e
    case Sweep(w) => SweepStopsIff(s, w);
    case Deliver => ReceiveStopsIff(s);
    case Serve(accept) => KeepServe(s, accept);
    case _ =>
  }

  // ---- clients that leave unnumbered channels behind

  ghost predicate Doomed(s: System) { AnyStranded(s.table) }

  /**
   A pass stops the master or leaves it doomed exactly when the client of some channel the server never numbered has left
   it or leaves it now. A client marked dead does not: it takes no leave.
   */
  lemma DoomIff(s: System, w: Found)
    requires Inv(s)
    ensures var r := Step(s, Sweep(w));
      (r.Stopped? || Doomed(r.sys)) <==> exists j: nat :: Unclaimed(s.table, w, j)
  {
    InvTable(s);
    SweepIsPass(s, 0, w);
    PassStrandsIff(s.table, 0, w);
    forall j: nat ensures Forsaken(s.table, 0, w, j) <==> Unclaimed(s.table, w, j) {
    }
    if AnyForsaken(s.table, 0, w) {
      var j: nat :| Forsaken(s.table, 0, w, j);
      assert Unclaimed(s.table, w, j);
    }
    if j: nat :| Unclaimed(s.table, w, j) {
      assert Forsaken(s.table, 0, w, j);
    }
  }

  /** A channel the server never numbered whose client has left or leaves in a pass that finds w. */
  predicate Unclaimed(table: seq<Slot>, w: Found, j: nat) {
    && j < |table| && table[j].Chan? && table[j].remote == None
    && (|| table[j].owner == Orphan
        || (table[j].owner.Mux? && table[j].owner.client in w.Leaving() && Connected(table, table[j].owner.client)))
  }

  /** That is a channel whose OPEN has not been answered yet as far as the master knows, or has been refused. */
  lemma UnnumberedStage(s: System, j: nat)
    requires Inv(s) && j < |s.table| && s.table[j].Chan?
    ensures s.table[j].remote == None <==>
      (s.stages[s.at[j]].Requested? || s.stages[s.at[j]].Accepted? || s.stages[s.at[j]].Refused?)
  {
    assert StageOk(s, s.at[j]);
  }

  /** Nothing but the end of the master saves it from a channel it is doomed by. */
  lemma DoomedStays(s: System, e: Event)
    requires Inv(s) && Doomed(s) && Step(s, e).Running?
    ensures !e.Sweep? && Doomed(Step(s, e).sys)
  {
    var j: nat :| Stranded(s.table, j);
    StopsIff(s, e);
    match e
    case Sweep(w) => assert Struck(s.table, 0, w, j);
    case Deliver => DoomedDeliver(s, j);
    case ClientClose(k) => DoomedClose(s, k, j);
    case _ => OnlyClosesFree(s, e, j); assert Stranded(Step(s, e).sys.table, j);
  }

  lemma UpstreamStrands(table: seq<Slot>, i: nat, kind: Kind, r: U32, u: seq<Slot>, j: nat)
    requires i < |table| && table[i].Chan? && Stranded(table, j) && Upstream(table, i, kind, r) == Some(u)
    requires i == j ==> kind == Confirm || kind == Failure
    ensures Stranded(u, j)
  {
  }

  lemma DoomedDeliver(s: System, j: nat)
    requires Inv(s) && Stranded(s.table, j) && Receive(s).Running?
    ensures Stranded(Receive(s).sys.table, j)
  {
    if s.down != [] && s.down[0].Channel? {
      var m := s.down[0];
      HeadStage(s);
      UnnumberedStage(s, m.slot);
      UpstreamStrands(s.table, m.slot, m.kind, m.remote, Receive(s).sys.table, j);
    }
  }

  lemma DoomedClose(s: System, k: nat, j: nat)
    requires Inv(s) && Stranded(s.table, j)
    ensures Doomed(Step(s, ClientClose(k)).sys)
  {
    if s.swept && Closable(s, k).Some? {
      var l := Closable(s, k).value;
      LookupFinds(s, l, s.table[l].remote.value);
    }
    assert Stranded(Step(s, ClientClose(k)).sys.table, j);
  }

  lemma {:induction false} RunThen(events: seq<Event>, e: Event)
    ensures Run(events + [e]) == if Run(events).Running? then Step(Run(events).sys, e) else Stopped
  {
    assert (events + [e])[..|events|] == events;
  }

  /** The run that goes on from s. */
  function Goes(s: System, events: seq<Event>): (r: Result)
    requires |s.births| == |s.stages|
    ensures r.Running? ==> |r.sys.births| == |r.sys.stages|
    decreases events
  {
    if events == [] then Running(s)
    else match Step(s, events[0])
      case Stopped => Stopped
      case Running(t) => Goes(t, events[1..])
  }

  lemma {:induction false} RunGoes(events: seq<Event>, more: seq<Event>)
    requires Run(events).Running?
    ensures Run(events + more) == Goes(Run(events).sys, more)
    decreases more
  {
    if more == [] {
      assert events + more == events;
    } else {
      var next, r := events + [more[0]], Step(Run(events).sys, more[0]);
      assert events + more == next + more[1..];
      RunNext(events, more[0], next, r);
      if r.Running? {
        RunGoes(next, more[1..]);
      } else {
        StoppedStays(next, more[1..]);
      }
    }
  }

  lemma {:induction false} RunNext(events: seq<Event>, e: Event, next: seq<Event>, r: Result)
    requires Run(events).Running? && next == events + [e] && r == Step(Run(events).sys, e)
    ensures Run(next) == r
  {
    RunThen(events, e);
  }

  lemma {:induction false} StoppedStays(events: seq<Event>, more: seq<Event>)
    requires Run(events).Stopped?
    ensures Run(events + more).Stopped?
    decreases more
  {
    if more == [] {
      assert events + more == events;
    } else {
      RunThen(events, more[0]);
      assert events + more == events + [more[0]] + more[1..];
      StoppedStays(events + [more[0]], more[1..]);
    }
  }

  lemma DoomedNext(s: System, e: Event) returns (t: System)
    requires Inv(s) && Doomed(s) && Step(s, e).Running?
    ensures Step(s, e) == Running(t) && !e.Sweep? && Inv(t) && Doomed(t)
  {
    DoomedStays(s, e);
    KeepStep(s, e);
    t := Step(s, e).sys;
  }

  /** Every step on one of these events keeps p. */
  ghost predicate KeptBySteps(p: System -> bool, q: Event -> bool) {
    forall x: System, e: Event :: |x.births| == |x.stages| && p(x) && q(e) && Step(x, e).Running? ==> p(Step(x, e).sys)
  }

  lemma {:induction false} GoesKeeps(p: System -> bool, q: Event -> bool, s: System, events: seq<Event>)
    requires KeptBySteps(p, q) && |s.births| == |s.stages| && p(s) && Goes(s, events).Running?
    requires forall i :: 0 <= i < |events| ==> q(events[i])
    ensures p(Goes(s, events).sys)
    decreases events
  {
    if events != [] {
      GoesKeeps(p, q, Step(s, events[0]).sys, events[1..]);
    }
  }

  /** Every step but a pass keeps p, and no pass survives it. */
  ghost predicate EndsInPass(p: System -> bool) {
    forall x: System, e: Event :: |x.births| == |x.stages| && p(x) && Step(x, e).Running? ==> !e.Sweep? && p(Step(x, e).sys)
  }

  lemma {:induction false} PassEnds(p: System -> bool, s: System, events: seq<Event>, i: nat)
    requires EndsInPass(p) && |s.births| == |s.stages| && p(s) && i < |events| && events[i].Sweep?
    ensures Goes(s, events).Stopped?
    decreases events
  {
    var r := Step(s, events[0]);
    if r.Running? {
      PassEnds(p, r.sys, events[1..], i - 1);
    }
  }

  /** A run that goes on from a doomed state ends at the latest with the next pass of the collector. */
  lemma DoomedStops(s: System, events: seq<Event>, i: nat)
    requires Inv(s) && Doomed(s) && i < |events| && events[i].Sweep?
    ensures Goes(s, events).Stopped?
  {
    var p := (x: System) => Inv(x) && Doomed(x);
    forall x: System, e: Event | |x.births| == |x.stages| && p(x) && Step(x, e).Running?
      ensures !e.Sweep? && p(Step(x, e).sys)
    {
      var t := DoomedNext(x, e);
    }
    PassEnds(p, s, events, i);
  }

  lemma DoomedRunStops(events: seq<Event>, more: seq<Event>, i: nat)
    requires Run(events).Running? && Doomed(Run(events).sys) && i < |more| && more[i].Sweep?
    ensures Run(events + more).Stopped?
  {
    RunKeeps(events);
    RunGoes(events, more);
    DoomedStops(Run(events).sys, more, i);
  }

  // ---- two such runs

  lemma FirstClient(a: nat)
    ensures var s := Step(Start, Connect(a));
      && s.Running? && s.sys.table == TenFree[0 := Client(a)] && s.sys.at == map[]
      && s.sys.conns == 1 && s.sys.who == map[a := 0] && s.sys.delivered == [] && s.sys.lost == {}
    ensures var s := Step(Start, Connect(a)).sys; s.up == [] && s.down == [] && s.births == [] && s.stages == [] && s.server == map[]
  {
    FirstFreeUnique(TenFree, 0);
  }

  lemma RunConnect(a: nat)
    ensures Run([Connect(a)]) == Step(Start, Connect(a))
  {
    var none: seq<Event> := [];
    RunThen(none, Connect(a));
    assert none + [Connect(a)] == [Connect(a)];
  }

  /** A client at address a has opened a channel, in slot 1. */
  lemma RunOpen(a: nat, downId: U32)
    ensures var r := Run([Connect(a), ClientOpen(0, downId)]);
      && r.Running? && r.sys.table == TenFree[0 := Client(a)][1 := Chan(Mux(a, downId), None, false, false)]
      && r.sys.at == map[1 := 0] && r.sys.births == [ByClient(0, a, downId)] && r.sys.stages == [Requested(1)]
      && r.sys.up == [Up(Ask, 1, 0, 0)] && r.sys.down == [] && r.sys.server == map[]
      && r.sys.conns == 1 && r.sys.who == map[a := 0] && r.sys.delivered == [] && r.sys.lost == {}
  {
    RunConnect(a);
    FirstClient(a);
    var s := Run([Connect(a)]).sys;
    FirstFreeUnique(s.table, 1);
    RunThen([Connect(a)], ClientOpen(0, downId));
    assert [Connect(a)] + [ClientOpen(0, downId)] == [Connect(a), ClientOpen(0, downId)];
  }

  /** A client that hangs up before its OPEN is answered takes the master down. */
  lemma UnansweredOpenStopsMaster(a: nat, downId: U32)
    ensures Run([Connect(a), ClientOpen(0, downId), Sweep(Found({a}, {}, {}))]) == Stopped
  {
    var es, w := [Connect(a), ClientOpen(0, downId)], Found({a}, {}, {});
    RunOpen(a, downId);
    RunKeeps(es);
    RunThen(es, Sweep(w));
    assert es + [Sweep(w)] == [Connect(a), ClientOpen(0, downId), Sweep(w)];
    StopsIff(Run(es).sys, Sweep(w));
    assert Run(es).sys.table[0] == Client(a);
    assert Struck(Run(es).sys.table, 0, w, 1);
  }

  lemma RunRefused(a: nat, downId: U32)
    ensures var r := Run([Connect(a), ClientOpen(0, downId), Serve(None), Deliver]);
      && r.Running? && |r.sys.table| == 10 && r.sys.table[0] == Client(a)
      && r.sys.table[1] == Chan(Mux(a, downId), None, false, false)
  {
    var es := [Connect(a), ClientOpen(0, downId)];
    RunOpen(a, downId);
    Refuses(Run(es).sys);
    RunGoes(es, [Serve(None), Deliver]);
    assert es + [Serve(None), Deliver] == [Connect(a), ClientOpen(0, downId), Serve(None), Deliver];
  }

  /** The OPEN for the channel in slot 1 is refused and the master told. */
  lemma Refuses(s: System)
    requires |s.births| == |s.stages| == 1 && |s.table| == 10 && s.table[1].IsProxy()
    requires s.up == [Up(Ask, 1, 0, 0)] && s.down == []
    ensures Goes(s, [Serve(None), Deliver]).Running? && Goes(s, [Serve(None), Deliver]).sys.table == s.table
  {
    var t := Step(s, Serve(None)).sys;
    assert t.down == [Channel(Failure, 1, 0, 0)] && t.table == s.table;
    assert [Serve(None), Deliver][1..] == [Deliver] && [Deliver][1..] == [];
    assert Goes(t, [Deliver]) == Step(t, Deliver);
  }

  /** So does one whose OPEN was refused: OPEN_FAILURE is passed on, but the slot stays taken. */
  lemma RefusedOpenStopsMaster(a: nat, downId: U32)
    ensures Run([Connect(a), ClientOpen(0, downId), Serve(None), Deliver, Sweep(Found({a}, {}, {}))]) == Stopped
  {
    var es, w := [Connect(a), ClientOpen(0, downId), Serve(None), Deliver], Found({a}, {}, {});
    RunRefused(a, downId);
    RunKeeps(es);
    RunThen(es, Sweep(w));
    assert es + [Sweep(w)] == [Connect(a), ClientOpen(0, downId), Serve(None), Deliver, Sweep(w)];
    StopsIff(Run(es).sys, Sweep(w));
    assert Struck(Run(es).sys.table, 0, w, 1);
  }
}
