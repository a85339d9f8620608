/**
 Clients that are marked dead. chan_mark_dead changes the type of a mux client's Channel, so that channel_free no longer
 takes it for one and leaves its channels pointing at memory that is free: at nobody, or at the next client to be given
 that address. Exactly when that happens, and what becomes of such channels.
 */
module MuxDangling {
  import opened Basics
  import opened MuxTable
  import opened MuxCollector
  import opened MuxProtocol
  import opened MuxSafety
  import opened MuxStops

  /** The proxied channel in slot j points at a client other than the one that opened it, or at none. */
  predicate Dangles(s: System, j: nat) {
    && j < |s.table| && s.table[j].IsProxy() && j in s.at && s.at[j] < |s.births|
    && !Here(s.table, s.who, s.births[s.at[j]])
  }

  /** The channel in slot j is open and its client, which is connected from slot i on, is marked dead. */
  predicate Abandoned(table: seq<Slot>, i: nat, w: Found, j: nat) {
    && j < |table| && table[j].IsProxy() && table[j].owner.client in w.dead
    && exists l :: i <= l < |table| && table[l] == Client(table[j].owner.client)
  }

  // ---- what a pass loses

  lemma VisitFrame(s: System, i: nat, w: Found)
    requires |s.births| == |s.stages| && i < |s.table| && VisitSlot(s, i, w).Running?
    ensures var t := VisitSlot(s, i, w).sys;
      && |t.table| == |s.table| && t.births == s.births && t.who == s.who && t.table == Visit(s.table, i, w).table
      && t.lost == s.lost + (if s.table[i].Client? && s.table[i].addr in w.dead then Served(s, s.table[i].addr) else {})
      && (t.at == s.at || t.at == Keep(s.at, t.table))
  {
  }

  lemma VisitAt(s: System, i: nat, w: Found, j: nat)
    requires SlotsOk(s) && i < |s.table| && VisitSlot(s, i, w).Running? && j < |s.table| && s.table[j].Chan?
    ensures var t := VisitSlot(s, i, w).sys; j < |t.table| && j in s.at && (t.table[j].Chan? ==> j in t.at && t.at[j] == s.at[j])
  {
    VisitFrame(s, i, w);
  }

  /** Visiting slot i abandons the channels of the client there, if it is marked dead; the others wait for theirs. */
  lemma AbandonedLater(table: seq<Slot>, i: nat, w: Found, j: nat)
    requires i < |table| && Visit(table, i, w).Kept? && j < |table| && table[j].IsProxy()
    ensures var u, a := Visit(table, i, w).table, table[j].owner.client;
      Abandoned(table, i, w, j) <==> (table[i] == Client(a) && a in w.dead) || Abandoned(u, i + 1, w, j)
  {
    var u, a := Visit(table, i, w).table, table[j].owner.client;
    if j != i {
      VisitOthers(table, i, w, j);
    }
    if Abandoned(table, i, w, j) && table[i] != Client(a) {
      var l :| i <= l < |table| && table[l] == Client(a);
      VisitOthers(table, i, w, l);
      assert u[l] == Client(a);
    }
    if Abandoned(u, i + 1, w, j) {
      var l :| i + 1 <= l < |u| && u[l] == Client(u[j].owner.client);
      VisitOthers(table, i, w, l);
      assert table[l] == Client(a);
    }
  }

  lemma VisitLoses(s: System, i: nat, w: Found, j: nat)
    requires SlotsOk(s) && i < |s.table| && VisitSlot(s, i, w).Running? && j < |s.table| && s.table[j].IsProxy()
    ensures var t := VisitSlot(s, i, w).sys;
      && j in s.at && j < |t.table|
      && (s.at[j] in s.lost || Abandoned(s.table, i, w, j) <==> s.at[j] in t.lost || Abandoned(t.table, i + 1, w, j))
  {
    VisitFrame(s, i, w);
    AbandonedLater(s.table, i, w, j);
    if s.table[i].Client? {
      ServedOnce(s, s.table[i].addr, j);
      assert s.table[i] == Client(s.table[i].addr);
    }
  }

  /** What a visit makes of a client's channel: still the client's, or nobody's. */
  lemma VisitProxy(s: System, i: nat, w: Found, j: nat)
    requires SlotsOk(s) && i < |s.table| && VisitSlot(s, i, w).Running? && SlotsOk(VisitSlot(s, i, w).sys)
    requires j < |s.table| && s.table[j].IsProxy()
    ensures var t := VisitSlot(s, i, w).sys;
      && j < |t.table| && t.table[j].Chan? && j in s.at && j in t.at && t.at[j] == s.at[j]
      && (!t.table[j].IsProxy() ==> Unserved(t, s.at[j]))
  {
    VisitFrame(s, i, w);
    VisitAt(s, i, w, j);
    DesertedLater(s.table, i, w, j);
    var t := VisitSlot(s, i, w).sys;
    if !t.table[j].IsProxy() {
      OnlySlot(t, j);
    }
  }

  lemma VisitStray(s: System, i: nat, w: Found, j: nat, t: System)
    requires Inv(s) && i < |s.table| && VisitSlot(s, i, w) == Running(t) && j < |s.table| && s.table[j].IsProxy()
    ensures Inv(t) && |t.table| == |s.table| && j in s.at && (!t.table[j].IsProxy() ==> Unserved(t, s.at[j]))
    ensures t.table[j].IsProxy() ==> j in t.at && t.at[j] == s.at[j]
    ensures s.at[j] in s.lost || Abandoned(s.table, i, w, j) <==> s.at[j] in t.lost || Abandoned(t.table, i + 1, w, j)
  {
    VisitLoses(s, i, w, j);
    KeepVisit(s, i, w);
    VisitProxy(s, i, w, j);
  }

  lemma SweepNext(s: System, i: nat, w: Found, t: System, end: System)
    requires |s.births| == |s.stages| && i < |s.table| && SweepFrom(s, i, w) == Running(end)
    ensures VisitSlot(s, i, w).Running? && (VisitSlot(s, i, w) == Running(t) ==>
      |t.births| == |t.stages| && SweepFrom(t, i + 1, w) == Running(end))
  {
  }

  lemma {:induction false} SweepLost(s: System, i: nat, w: Found, j: nat, end: System)
    requires Inv(s) && SweepFrom(s, i, w) == Running(end) && j < |s.table| && s.table[j].IsProxy()
    ensures j in s.at && (s.at[j] in end.lost <==> s.at[j] in s.lost || Abandoned(s.table, i, w, j))
    decreases |s.table| - i
  {
    if i < |s.table| {
      SweepNext(s, i, w, s, end);
      var t := VisitSlot(s, i, w).sys;
      SweepNext(s, i, w, t, end);
      VisitStray(s, i, w, j, t);
      if t.table[j].IsProxy() {
        SweepLost(t, i + 1, w, j, end);
      } else {
        SweepKeepsLost(t, i + 1, w, s.at[j]);
      }
    }
  }

  /** Channel k is no client's. */
  predicate Unserved(s: System, k: nat) { forall l :: l in s.at && s.at[l] == k ==> l < |s.table| && !s.table[l].IsProxy() }

  lemma OnlySlot(s: System, j: nat)
    requires SlotsOk(s) && j < |s.table| && s.table[j].Chan? && !s.table[j].IsProxy()
    ensures j in s.at && Unserved(s, s.at[j])
  {
    forall l | l in s.at && s.at[l] == s.at[j] ensures l < |s.table| && !s.table[l].IsProxy() {
      assert SlotOf(s.stages[s.at[l]]) == Some(l) && SlotOf(s.stages[s.at[j]]) == Some(j);
    }
  }

  lemma VisitUnserved(s: System, i: nat, w: Found, k: nat)
    requires SlotsOk(s) && i < |s.table| && VisitSlot(s, i, w).Running? && Unserved(s, k)
    ensures var t := VisitSlot(s, i, w).sys; Unserved(t, k) && (k in t.lost <==> k in s.lost)
  {
    var t := VisitSlot(s, i, w).sys;
    VisitFrame(s, i, w);
    VisitNoNewProxies(s.table, i, w);
    forall l | l in t.at && t.at[l] == k ensures l < |t.table| && !t.table[l].IsProxy() {
      assert l in s.at && s.at[l] == k;
    }
  }

  lemma VisitNoNewProxies(table: seq<Slot>, i: nat, w: Found)
    requires i < |table| && Visit(table, i, w).Kept?
    ensures var u := Visit(table, i, w).table; forall j :: 0 <= j < |u| && u[j].IsProxy() ==> table[j].IsProxy()
  {
    var u := Visit(table, i, w).table;
    forall j | 0 <= j < |u| && u[j].IsProxy() ensures table[j].IsProxy() {
      if j != i {
        VisitOthers(table, i, w, j);
      }
    }
  }

  /** A pass loses only channels that are a client's. */
  lemma SweepKeepsLost(s: System, i: nat, w: Found, k: nat)
    requires Inv(s) && SweepFrom(s, i, w).Running? && Unserved(s, k)
    ensures k in SweepFrom(s, i, w).sys.lost <==> k in s.lost
  {
    var lost := k in s.lost;
    var p := (x: System) => Inv(x) && Unserved(x, k) && (k in x.lost <==> lost);
    forall x: System, j: nat | |x.births| == |x.stages| && j < |x.table| && p(x) && VisitSlot(x, j, w).Running?
      ensures p(VisitSlot(x, j, w).sys)
    {
      VisitUnserved(x, j, w, k);
      KeepVisit(x, j, w);
    }
    PassKeeps(p, s, i, w);
  }

  lemma {:induction false} SweepAt(s: System, i: nat, w: Found, j: nat)
    requires Inv(s) && SweepFrom(s, i, w).Running? && j < |s.table| && s.table[j].Chan?
    ensures var t := SweepFrom(s, i, w).sys;
      && t.births == s.births && t.who == s.who && j < |t.table| && j in s.at
      && (t.table[j].Chan? ==> j in t.at && t.at[j] == s.at[j])
    decreases |s.table| - i
  {
    if i < |s.table| {
      var t := VisitSlot(s, i, w).sys;
      VisitFrame(s, i, w);
      VisitAt(s, i, w, j);
      KeepVisit(s, i, w);
      if t.table[j].Chan? {
        SweepAt(t, i + 1, w, j);
      } else {
        SweepLeaves(t, i + 1, w, j);
      }
    }
  }

  lemma {:induction false} SweepLeaves(s: System, i: nat, w: Found, j: nat)
    requires |s.births| == |s.stages| && SweepFrom(s, i, w).Running? && j < |s.table| && !s.table[j].Chan?
    ensures var t := SweepFrom(s, i, w).sys; t.births == s.births && t.who == s.who && j < |t.table| && !t.table[j].Chan?
    decreases |s.table| - i
  {
    if i < |s.table| {
      VisitFrame(s, i, w);
      if j != i {
        VisitOthers(s.table, i, w, j);
      }
      SweepLeaves(VisitSlot(s, i, w).sys, i + 1, w, j);
    }
  }

  /** The pass leaves the channel in slot j with a client, which is or becomes the wrong one. */
  predicate LeftDangling(s: System, w: Found, j: nat) {
    && j < |s.table| && s.table[j].IsProxy() && !Deserted(s.table, 0, w, s.table[j])
    && (Dangles(s, j) || Abandoned(s.table, 0, w, j))
  }

  /**
   Exactly which channels dangle after a pass: those of a client that is marked dead, and those that dangled before,
   unless another client in the place of theirs now takes leave of them.
   */
  lemma DanglesIff(s: System, w: Found, j: nat)
    requires Inv(s) && Step(s, Sweep(w)).Running?
    ensures Dangles(Step(s, Sweep(w)).sys, j) <==> LeftDangling(s, w, j)
  {
    var t := Step(s, Sweep(w)).sys;
    InvTable(s);
    SweepIsPass(s, 0, w);
    PassLength(s.table, 0, w);
    KeepSweep(s, w);
    if j < |s.table| {
      PassProxies(s.table, 0, w, j);
      if s.table[j].IsProxy() {
        SweepLost(s, 0, w, j, SweepFrom(s, 0, w).sys);
        SweepAt(s, 0, w, j);
        LostDangles(s, j);
        if t.table[j].IsProxy() {
          LostDangles(t, j);
        }
      }
    }
  }

  lemma LostDangles(s: System, j: nat)
    requires Inv(s) && j < |s.table| && s.table[j].IsProxy()
    ensures j in s.at && (Dangles(s, j) <==> s.at[j] in s.lost)
  {
  }

  ghost predicate AnyDangles(s: System) { exists j: nat :: Dangles(s, j) }

  /** A client that is connected and has an open channel is marked dead. */
  ghost predicate Abandons(s: System, w: Found) { exists j: nat :: Abandoned(s.table, 0, w, j) }

  /** From a table in which no channel dangles, a pass leaves one exactly if it finds a client dead that has a channel. */
  lemma PassDanglesIff(s: System, w: Found)
    requires Inv(s) && Step(s, Sweep(w)).Running? && !AnyDangles(s)
    ensures AnyDangles(Step(s, Sweep(w)).sys) <==> Abandons(s, w)
  {
    var t := Step(s, Sweep(w)).sys;
    if AnyDangles(t) {
      var j: nat :| Dangles(t, j);
      PassDangles(s, w, j);
    }
    if Abandons(s, w) {
      var j: nat :| Abandoned(s.table, 0, w, j);
      PassDangles(s, w, j);
    }
  }

  lemma PassDangles(s: System, w: Found, j: nat)
    requires Inv(s) && Step(s, Sweep(w)).Running? && !Dangles(s, j)
    ensures Dangles(Step(s, Sweep(w)).sys, j) <==> Abandoned(s.table, 0, w, j)
  {
    DanglesIff(s, w, j);
    if Abandoned(s.table, 0, w, j) {
      DeadStays(s.table, w, j);
    }
  }

  /** A client that is marked dead takes no leave of its channels. */
  lemma DeadStays(table: seq<Slot>, w: Found, j: nat)
    requires Abandoned(table, 0, w, j)
    ensures !Deserted(table, 0, w, table[j])
  {
  }

  // ---- whole runs

  lemma OthersLoseNothing(s: System, e: Event)
    requires |s.births| == |s.stages| && Step(s, e).Running? && !e.Sweep?
    ensures Step(s, e).sys.lost == s.lost
  {
  }

  lemma {:induction false} SweepOnlyAdds(s: System, i: nat, w: Found)
    requires |s.births| == |s.stages| && SweepFrom(s, i, w).Running?
    ensures s.lost <= SweepFrom(s, i, w).sys.lost
    decreases |s.table| - i
  {
    if i < |s.table| {
      VisitFrame(s, i, w);
      SweepOnlyAdds(VisitSlot(s, i, w).sys, i + 1, w);
    }
  }

  /** What a pass adds to the lost channels has a slot in its table. */
  lemma {:induction false} LostHadSlot(s: System, i: nat, w: Found, k: nat)
    requires Inv(s) && SweepFrom(s, i, w).Running? && k in SweepFrom(s, i, w).sys.lost && k !in s.lost
    ensures exists j: nat :: j < |s.table| && s.table[j].IsProxy() && j in s.at && s.at[j] == k
    decreases |s.table| - i
  {
    if !(exists j: nat :: j < |s.table| && s.table[j].IsProxy() && j in s.at && s.at[j] == k) {
      forall l | l in s.at && s.at[l] == k ensures l < |s.table| && !s.table[l].IsProxy() {
      }
      SweepKeepsLost(s, i, w, k);
    }
  }

  /** A pass loses a channel exactly if it abandons one. */
  lemma SweepLosesIff(s: System, w: Found)
    requires Inv(s) && Step(s, Sweep(w)).Running? && s.lost == {}
    ensures Step(s, Sweep(w)).sys.lost == {} <==> !Abandons(s, w)
  {
    var t := Step(s, Sweep(w)).sys;
    if Abandons(s, w) {
      var j: nat :| Abandoned(s.table, 0, w, j);
      SweepLost(s, 0, w, j, SweepFrom(s, 0, w).sys);
    }
    if k :| k in t.lost {
      LostHadSlot(s, 0, w, k);
      var j: nat :| j < |s.table| && s.table[j].IsProxy() && j in s.at && s.at[j] == k;
      SweepLost(s, 0, w, j, SweepFrom(s, 0, w).sys);
      assert Abandoned(s.table, 0, w, j);
    }
  }

  /** No pass of the run marks a client dead that has an open channel. */
  ghost predicate NeverAbandons(events: seq<Event>) {
    events == [] ||
    (var init, e := events[..|events| - 1], events[|events| - 1];
     NeverAbandons(init) && (e.Sweep? && Run(init).Running? ==> !Abandons(Run(init).sys, e.w)))
  }

  /** A run loses no channel exactly if no pass marks a client dead that has an open channel. */
  lemma {:induction false} NothingLostIff(events: seq<Event>)
    requires Run(events).Running?
    ensures Run(events).sys.lost == {} <==> NeverAbandons(events)
  {
    if events != [] {
      var init, e := events[..|events| - 1], events[|events| - 1];
      NothingLostIff(init);
      RunKeeps(init);
      var s := Run(init).sys;
      if e.Sweep? {
        SweepOnlyAdds(s, 0, e.w);
        if s.lost == {} {
          SweepLosesIff(s, e.w);
        }
      } else {
        OthersLoseNothing(s, e);
      }
    }
  }

  /** So in such a run every message reached the client that opened its channel, and no channel ever dangles. */
  lemma NeverAbandonsRoutes(events: seq<Event>)
    requires Run(events).Running? && NeverAbandons(events)
    ensures var s := Run(events).sys;
      && !AnyDangles(s)
      && forall d :: d in s.delivered ==>
           && d.serial < |s.births| && s.births[d.serial].ByClient?
           && d.downId == s.births[d.serial].downId && d.to == Some(s.births[d.serial].conn)
  {
    RunKeeps(events);
    NothingLostIff(events);
    var s := Run(events).sys;
    forall j: nat ensures !Dangles(s, j) {
      if Dangles(s, j) {
        LostDangles(s, j);
      }
    }
  }

  // ---- a lost channel is never collected

  /** Channel k in slot i, on which no CLOSE has been sent, points at address a, where there is no client. */
  predicate Stuck(s: System, i: nat, k: nat, a: nat) {
    && At(s, i, k) && s.table[i].IsProxy() && s.table[i].owner.client == a && !s.table[i].closeSent
    && !Connected(s.table, a)
  }

  /** It is so still, and what has been put to it since has reached nobody. */
  predicate StillStuck(s: System, t: System, i: nat, k: nat, a: nat) {
    && Stuck(t, i, k, a) && s.delivered <= t.delivered
    && forall n :: |s.delivered| <= n < |t.delivered| && t.delivered[n].serial == k ==> t.delivered[n].to == None
  }

  lemma {:induction false} SweepClients(s: System, i: nat, w: Found, a: nat)
    requires |s.births| == |s.stages| && SweepFrom(s, i, w).Running? && !Connected(s.table, a)
    ensures var t := SweepFrom(s, i, w).sys; !Connected(t.table, a) && t.delivered == s.delivered
    decreases |s.table| - i
  {
    if i < |s.table| {
      var t := VisitSlot(s, i, w).sys;
      VisitFrame(s, i, w);
      forall j | 0 <= j < |t.table| ensures t.table[j] != Client(a) {
        if j != i {
          VisitOthers(s.table, i, w, j);
        }
      }
      SweepClients(t, i + 1, w, a);
    }
  }

  lemma StuckSweep(s: System, w: Found, i: nat, k: nat, a: nat)
    requires Inv(s) && Stuck(s, i, k, a) && Step(s, Sweep(w)).Running?
    ensures StillStuck(s, Step(s, Sweep(w)).sys, i, k, a)
  {
    InvTable(s);
    SweepIsPass(s, 0, w);
    PassProxies(s.table, 0, w, i);
    SweepAt(s, 0, w, i);
    SweepClients(s, 0, w, a);
  }

  /** A message changes neither the owner of a proxied channel nor whether it has sent CLOSE. */
  lemma UpstreamKeeps(table: seq<Slot>, l: nat, kind: Kind, r: U32, u: seq<Slot>, i: nat)
    requires l < |table| && table[l].Chan? && i < |table| && table[i].IsProxy() && !table[i].closeSent
    requires Upstream(table, l, kind, r) == Some(u)
    ensures |u| == |table| && u[i].IsProxy() && u[i].owner == table[i].owner && !u[i].closeSent
  {
  }

  /** A message for a channel that points at nobody reaches nobody. */
  lemma ToldNobody(s: System, l: nat, m: nat, i: nat, k: nat, a: nat)
    requires SlotsOk(s) && Stuck(s, i, k, a) && At(s, l, m)
    ensures s.delivered <= Told(s, l, m)
    ensures forall n :: |s.delivered| <= n < |Told(s, l, m)| && Told(s, l, m)[n].serial == k ==> Told(s, l, m)[n].to == None
  {
    if m == k {
      assert SlotOf(s.stages[s.at[l]]) == Some(l) && SlotOf(s.stages[s.at[i]]) == Some(i);
    }
  }

  lemma ReceivedStuck(s: System, m: Down, t: System, i: nat, k: nat, a: nat)
    requires SlotsOk(s) && Stuck(s, i, k, a) && m.Channel? && At(s, m.slot, m.serial) && !Connected(t.table, a)
    requires Upstream(s.table, m.slot, m.kind, m.remote) == Some(t.table) && t.at == Keep(s.at, t.table)
    requires t.delivered == Told(s, m.slot, m.serial)
    ensures StillStuck(s, t, i, k, a)
  {
    UpstreamKeeps(s.table, m.slot, m.kind, m.remote, t.table, i);
    ToldNobody(s, m.slot, m.serial, i, k, a);
  }

  lemma StuckDeliver(s: System, i: nat, k: nat, a: nat)
    requires Inv(s) && Stuck(s, i, k, a) && Receive(s).Running?
    ensures StillStuck(s, Receive(s).sys, i, k, a)
  {
    if s.down != [] && s.down[0].Channel? {
      ReceivedElsewhere(s, a);
      ReceivedStuck(s, s.down[0], Receive(s).sys, i, k, a);
    }
  }

  lemma ReceivedElsewhere(s: System, a: nat)
    requires Inv(s) && s.down != [] && s.down[0].Channel? && Receive(s).Running? && !Connected(s.table, a)
    ensures At(s, s.down[0].slot, s.down[0].serial) && !Connected(Receive(s).sys.table, a)
  {
    HeadStage(s);
    ReceiveChanges(s);
    SameClients(s.table, Receive(s).sys.table);
  }

  /** A client that may close channel l is connected, so that its channel is another than the stuck one. */
  lemma ClosableElsewhere(s: System, l: nat, j: nat, i: nat, k: nat, a: nat)
    requires SlotsOk(s) && Held(s) && Stuck(s, i, k, a) && Closable(s, l) == Some(j)
    ensures j != i
  {
    assert At(s, j, l) && OpenedAs(s.births[s.at[i]], s.table[i].owner);
  }

  lemma CloseStuck(s: System, t: System, l: nat, j: nat, i: nat, k: nat, a: nat)
    requires Stuck(s, i, k, a) && j != i && Changed(s, t, j, l) && t.delivered == s.delivered
    ensures StillStuck(s, t, i, k, a)
  {
    SameClients(s.table, t.table);
  }

  lemma StuckClosed(s: System, l: nat, j: nat, i: nat, k: nat, a: nat)
    requires Inv(s) && Stuck(s, i, k, a) && Closable(s, l) == Some(j) && MayClose(s, l, j)
    ensures StillStuck(s, CloseChannel(s, l, j, CloseUp(s.table, j)), i, k, a)
  {
    InvHeld(s);
    ClosableElsewhere(s, l, j, i, k, a);
    CloseChanges(s, l, j);
    CloseStuck(s, CloseChannel(s, l, j, CloseUp(s.table, j)), l, j, i, k, a);
  }

  lemma StuckClose(s: System, l: nat, i: nat, k: nat, a: nat)
    requires Inv(s) && Stuck(s, i, k, a)
    ensures StillStuck(s, Step(s, ClientClose(l)).sys, i, k, a)
  {
    if s.swept && Closable(s, l).Some? {
      var j := Closable(s, l).value;
      ClosableMay(s, l, j);
      StuckClosed(s, l, j, i, k, a);
    }
  }

  lemma PlacedElsewhere(table: seq<Slot>, f: nat, c: Slot, u: seq<Slot>, a: nat)
    requires Placed(table, f, c, u) && c != Client(a) && !Connected(table, a)
    ensures !Connected(u, a)
  {
    forall j | 0 <= j < |u| ensures u[j] != Client(a) {
    }
  }

  lemma NewElsewhere(table: seq<Slot>, c: Slot, a: nat)
    requires WithRoom(table).Some? && c != Client(a) && !Connected(table, a)
    ensures var room := WithRoom(table).value; !Connected(room[FirstFree(room) := c], a)
  {
    var room := WithRoom(table).value;
    PlacedInRoom(table, c);
    PlacedElsewhere(table, FirstFree(room), c, room[FirstFree(room) := c], a);
  }

  lemma OtherEvents(s: System, e: Event, a: nat)
    requires |s.births| == |s.stages| && !Connected(s.table, a) && Step(s, e).Running? && e != Connect(a)
    requires !e.Sweep? && !e.Deliver? && !e.ClientClose?
    ensures var t := Step(s, e).sys; !Connected(t.table, a) && t.delivered == s.delivered
  {
    var t := Step(s, e).sys;
    if t.table != s.table {
      NewElsewhere(s.table, t.table[FirstFree(WithRoom(s.table).value)], a);
    }
  }

  lemma OtherSlots(s: System, e: Event, i: nat)
    requires |s.births| == |s.stages| && Step(s, e).Running? && i < |s.table| && s.table[i].Chan? && i in s.at
    requires !e.Sweep? && !e.Deliver? && !e.ClientClose?
    ensures var t := Step(s, e).sys; i in t.at && t.at[i] == s.at[i]
  {
  }

  lemma StuckOther(s: System, e: Event, i: nat, k: nat, a: nat)
    requires |s.births| == |s.stages| && Stuck(s, i, k, a) && Step(s, e).Running? && e != Connect(a)
    requires !e.Sweep? && !e.Deliver? && !e.ClientClose?
    ensures StillStuck(s, Step(s, e).sys, i, k, a)
  {
    OnlyClosesFree(s, e, i);
    OtherSlots(s, e, i);
    OtherEvents(s, e, a);
  }

  lemma StuckStep(s: System, e: Event, i: nat, k: nat, a: nat)
    requires Inv(s) && Stuck(s, i, k, a) && Step(s, e).Running? && e != Connect(a)
    ensures StillStuck(s, Step(s, e).sys, i, k, a)
  {
    match e
    case Sweep(w) => StuckSweep(s, w, i, k, a);
    case Deliver => StuckDeliver(s, i, k, a);
    case ClientClose(l) => StuckClose(s, l, i, k, a);
    case _ => StuckOther(s, e, i, k, a);
  }

  /**
   A channel that its client left behind by being marked dead before a CLOSE keeps its slot in every continuation, unless
   another client connects at the same address, and every message for it is lost.
   */
  lemma LostIsKept(s: System, events: seq<Event>, i: nat, k: nat, a: nat)
    requires Inv(s) && Stuck(s, i, k, a) && Goes(s, events).Running? && Connect(a) !in events
    ensures StillStuck(s, Goes(s, events).sys, i, k, a)
  {
    var p, q := (x: System) => Inv(x) && StillStuck(s, x, i, k, a), (e: Event) => e != Connect(a);
    forall x: System, e: Event | |x.births| == |x.stages| && p(x) && q(e) && Step(x, e).Running?
      ensures p(Step(x, e).sys)
    {
      StuckStep(x, e, i, k, a);
      KeepStep(x, e);
      StuckTwice(s, x, Step(x, e).sys, i, k, a);
    }
    GoesKeeps(p, q, s, events);
  }

  lemma StuckTwice(s: System, t: System, u: System, i: nat, k: nat, a: nat)
    requires StillStuck(s, t, i, k, a) && StillStuck(t, u, i, k, a)
    ensures StillStuck(s, u, i, k, a)
  {
  }

  // ---- runs

  /** A client at address a opens a channel and is marked dead. */
  lemma RunAbandon(a: nat, d: U32)
    ensures var r := Run([Connect(a), ClientOpen(0, d), Sweep(Found({}, {a}, {}))]);
      && r.Running? && r.sys.table == TenFree[1 := Chan(Mux(a, d), None, false, false)]
      && r.sys.at == map[1 := 0] && r.sys.births == [ByClient(0, a, d)] && r.sys.stages == [Requested(1)]
      && r.sys.up == [Up(Ask, 1, 0, 0)] && r.sys.down == [] && r.sys.server == map[]
      && r.sys.conns == 1 && r.sys.who == map[a := 0] && r.sys.delivered == [] && r.sys.lost == {0}
  {
    var es, w, c := [Connect(a), ClientOpen(0, d)], Found({}, {a}, {}), Chan(Mux(a, d), None, false, false);
    RunOpen(a, d);
    RunThen(es, Sweep(w));
    assert es + [Sweep(w)] == [Connect(a), ClientOpen(0, d), Sweep(w)];
    var s := Run(es).sys;
    AbandonSweep(s, a, d, s.(table := TenFree[1 := c], lost := {0}, swept := true));
  }

  lemma AbandonSweep(s: System, a: nat, d: U32, t: System)
    requires |s.births| == |s.stages| == 1 && s.table == TenFree[0 := Client(a)][1 := Chan(Mux(a, d), None, false, false)]
    requires s.at == map[1 := 0] && s.lost == {} && SlotOf(s.stages[0]) == Some(1)
    requires t == s.(table := TenFree[1 := Chan(Mux(a, d), None, false, false)], lost := {0}, swept := true)
    ensures Step(s, Sweep(Found({}, {a}, {}))) == Running(t)
  {
    var w, u := Found({}, {a}, {}), s.(table := t.table, lost := {0});
    AbandonVisit(s, a, d, u);
    QuietSweep(u, 1, w);
    assert SweepFrom(s, 0, w) == SweepFrom(u, 1, w);
  }

  lemma AbandonVisit(s: System, a: nat, d: U32, t: System)
    requires |s.births| == |s.stages| == 1 && s.table == TenFree[0 := Client(a)][1 := Chan(Mux(a, d), None, false, false)]
    requires s.at == map[1 := 0] && s.lost == {}
    requires t == s.(table := TenFree[1 := Chan(Mux(a, d), None, false, false)], lost := {0})
    ensures VisitSlot(s, 0, Found({}, {a}, {})) == Running(t)
  {
    assert FreeSlot(s.table[0 := MarkedDead], 0) == t.table;
    assert s.table[1].IsProxy() && s.at[1] == 0;
    assert Served(s, a) == {0};
  }

  /** A pass that finds no client and nothing ended changes nothing. */
  lemma {:induction false} QuietSweep(s: System, i: nat, w: Found)
    requires |s.births| == |s.stages| && Keep(s.at, s.table) == s.at
    requires forall j :: 0 <= j < |s.table| ==> s.table[j] == Free || s.table[j].IsProxy()
    requires forall j :: j in s.at && s.at[j] < |s.stages| ==> SlotOf(s.stages[s.at[j]]) == Some(j)
    ensures SweepFrom(s, i, w) == Running(s)
    decreases |s.table| - i
  {
    if i < |s.table| {
      if s.table[i].Chan? && i in s.at && s.at[i] < |s.stages| {
        assert s.stages[s.at[i] := s.stages[s.at[i]]] == s.stages;
      }
      assert VisitSlot(s, i, w) == Running(s);
      QuietSweep(s, i + 1, w);
    }
  }

  /** The server's answer is put into memory that has been freed. */
  lemma IntoFreedMemory(a: nat, d: U32, r: U32)
    ensures var es := [Connect(a), ClientOpen(0, d), Sweep(Found({}, {a}, {}))] + [Serve(Some(r)), Deliver];
      Run(es).Running? && Run(es).sys.delivered == [Delivery(None, d, 0)]
  {
    var first := [Connect(a), ClientOpen(0, d), Sweep(Found({}, {a}, {}))];
    RunAbandon(a, d);
    var s, c := Run(first).sys, Chan(Mux(a, d), None, false, false);
    NobodyThere(c, a);
    Answered(s, c, r);
    RunGoes(first, [Serve(Some(r)), Deliver]);
  }

  lemma NobodyThere(c: Slot, a: nat)
    requires c.Chan?
    ensures !Connected(TenFree[1 := c], a)
  {
  }

  /** Or to the next client that is given the address, which never opened the channel. */
  lemma ToAnotherClient(a: nat, d: U32, r: U32)
    ensures var es := [Connect(a), ClientOpen(0, d), Sweep(Found({}, {a}, {}))] + [Connect(a)] + [Serve(Some(r)), Deliver];
      Run(es).Running? && Run(es).sys.births == [ByClient(0, a, d)] && Run(es).sys.delivered == [Delivery(Some(1), d, 0)]
  {
    var first := [Connect(a), ClientOpen(0, d), Sweep(Found({}, {a}, {}))];
    RunAbandon(a, d);
    var s := Run(first).sys;
    RunThen(first, Connect(a));
    FirstFreeUnique(s.table, 0);
    var t := Run(first + [Connect(a)]).sys;
    assert t.table == s.table[0 := Client(a)] && t.table[0] == Client(a);
    Answered(t, Chan(Mux(a, d), None, false, false), r);
    RunGoes(first + [Connect(a)], [Serve(Some(r)), Deliver]);
    assert Connected(t.table, a);
  }

  /** The OPEN for the channel in slot 1 is accepted and the master told. */
  lemma Answered(s: System, c: Slot, r: U32)
    requires c.IsProxy() && |s.births| == |s.stages| == 1 && |s.table| == 10 && s.table[1] == c && s.server == map[]
    requires s.up == [Up(Ask, 1, 0, 0)] && s.down == [] && s.delivered == []
    ensures var g := Goes(s, [Serve(Some(r)), Deliver]);
      && g.Running? && g.sys.births == s.births
      && g.sys.delivered == [Delivery(Reached(s.table, s.who, c.owner.client), c.owner.downId, 0)]
  {
    var t := Step(s, Serve(Some(r))).sys;
    assert t.down == [Channel(Confirm, 1, 0, r)] && t.table == s.table;
    var u := Step(t, Deliver).sys;
    assert [Serve(Some(r)), Deliver][1..] == [Deliver] && [Deliver][1..] == [];
    assert Goes(t, [Deliver]) == Running(u);
  }
}
