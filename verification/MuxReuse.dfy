/**
 A run in which the server reuses a number so early that the master's table has it twice: the channel of a client that
 has gone, closed both ways but not yet collected, and a new channel of the master's own.
 */
module MuxReuse {
  import opened Basics
  import opened MuxTable
  import opened MuxProtocol
  import opened MuxStops

  const EightFree: seq<Slot> := [Free, Free, Free, Free, Free, Free, Free, Free]

  /** The parts of a state that the next step depends on; all slots but the first two are free. */
  predicate Shot(s: System, t0: Slot, t1: Slot, at: map<nat, nat>, n: nat, server: map<nat, Srv>, up: seq<Up>, down: seq<Down>) {
    && s.table == [t0, t1] + EightFree && s.at == at && |s.births| == |s.stages| == n
    && s.server == server && s.up == up && s.down == down
  }

  lemma Connects()
    ensures var r := Step(Start, Connect(0)); r.Running? && Shot(r.sys, Client(0), Free, map[], 0, map[], [], [])
  {
    FirstFreeUnique(TenFree, 0);
    assert TenFree[0 := Client(0)] == [Client(0), Free] + EightFree;
  }

  lemma Opens(s: System, d: U32)
    requires Shot(s, Client(0), Free, map[], 0, map[], [], [])
    ensures var r := Step(s, ClientOpen(0, d));
      r.Running? && Shot(r.sys, Client(0), Chan(Mux(0, d), None, false, false), map[1 := 0], 1, map[], [Up(Ask, 1, 0, 0)], [])
  {
    FirstFreeUnique(s.table, 1);
    var c := Chan(Mux(0, d), None, false, false);
    assert ([Client(0), Free] + EightFree)[1 := c] == [Client(0), c] + EightFree;
  }

  lemma Accepts(s: System, t0: Slot, t1: Slot, at: map<nat, nat>, n: nat, i: nat, k: nat, down: seq<Down>, r: U32)
    requires Shot(s, t0, t1, at, n, map[], [Up(Ask, i, k, 0)], down) && k < n
    ensures var o := Step(s, Serve(Some(r)));
      && o.Running?
      && Shot(o.sys, t0, t1, at, n, map[k := Srv(r, Some(i), false, false)], [], down + [Channel(Confirm, i, k, r)])
  {
    assert [Up(Ask, i, k, 0)][1..] == [];
  }

  lemma Confirms(s: System, d: U32, r: U32)
    requires Shot(s, Client(0), Chan(Mux(0, d), None, false, false), map[1 := 0], 1, map[0 := Srv(r, Some(1), false, false)],
                  [], [Channel(Confirm, 1, 0, r)])
    ensures var o := Step(s, Deliver);
      && o.Running?
      && Shot(o.sys, Client(0), Chan(Mux(0, d), Some(r), false, false), map[1 := 0], 1,
              map[0 := Srv(r, Some(1), false, false)], [], [])
  {
    var c := Chan(Mux(0, d), Some(r), false, false);
    assert s.table[1 := c] == [Client(0), c] + EightFree;
    assert Keep(s.at, s.table[1 := c]) == map[1 := 0];
    assert s.down[1..] == [];
  }

  lemma {:induction false} NothingLeft(s: System, i: nat, w: Found)
    requires |s.births| == |s.stages| && forall j :: i <= j < |s.table| ==> s.table[j] == Free
    ensures SweepFrom(s, i, w) == Running(s)
    decreases |s.table| - i
  {
    if i < |s.table| {
      NothingLeft(s, i + 1, w);
    }
  }

  lemma SweepStep(s: System, i: nat, w: Found, t: System)
    requires |s.births| == |s.stages| && i < |s.table| && VisitSlot(s, i, w) == Running(t)
    ensures SweepFrom(s, i, w) == SweepFrom(t, i + 1, w)
  {
  }

  const Gone0: Found := Found({0}, {}, {})

  lemma HangsUpFirst(s: System, d: U32, r: U32, server: map<nat, Srv>, t: System)
    requires Shot(s, Client(0), Chan(Mux(0, d), Some(r), false, false), map[1 := 0], 1, server, [], [])
    requires t == s.(table := [Free, Chan(Orphan, Some(r), false, false)] + EightFree)
    ensures VisitSlot(s, 0, Gone0) == Running(t)
  {
    assert FreeSlot(s.table, 0) == [Free, Chan(Orphan, Some(r), false, false)] + EightFree;
  }

  lemma HangsUpThen(t: System, r: U32, server: map<nat, Srv>) returns (u: System)
    requires Shot(t, Free, Chan(Orphan, Some(r), false, false), map[1 := 0], 1, server, [], [])
    ensures VisitSlot(t, 1, Gone0) == Running(u)
    ensures Shot(u, Free, Chan(Orphan, Some(r), true, false), map[1 := 0], 1, server, [Up(Bye, 1, 0, r)], [])
  {
    var c := Chan(Orphan, Some(r), true, false);
    var table := t.table[1 := c];
    assert table == [Free, c] + EightFree;
    assert Keep(t.at, table) == map[1 := 0];
    u := VisitSlot(t, 1, Gone0).sys;
    assert u.up == [] + [Up(Bye, 1, 0, r)] == [Up(Bye, 1, 0, r)];
  }

  lemma HangsUp(s: System, d: U32, r: U32, server: map<nat, Srv>)
    requires Shot(s, Client(0), Chan(Mux(0, d), Some(r), false, false), map[1 := 0], 1, server, [], [])
    ensures var o := Step(s, Sweep(Gone0));
      && o.Running?
      && Shot(o.sys, Free, Chan(Orphan, Some(r), true, false), map[1 := 0], 1, server, [Up(Bye, 1, 0, r)], [])
  {
    var t := s.(table := [Free, Chan(Orphan, Some(r), false, false)] + EightFree);
    HangsUpFirst(s, d, r, server, t);
    var u := HangsUpThen(t, r, server);
    SweepStep(s, 0, Gone0, t);
    SweepStep(t, 1, Gone0, u);
    NothingLeft(u, 2, Gone0);
  }

  lemma MasterOpens(s: System, c: Slot, server: map<nat, Srv>, u: Up)
    requires Shot(s, Free, c, map[1 := 0], 1, server, [u], []) && c != Free
    ensures var o := Step(s, MasterOpen);
      && o.Running?
      && Shot(o.sys, Chan(Opening, None, false, false), c, map[1 := 0, 0 := 1], 2, server, [u, Up(Ask, 0, 1, 0)], [])
  {
    FirstFreeUnique(s.table, 0);
    var m := Chan(Opening, None, false, false);
    assert s.table[0 := m] == [m, c] + EightFree;
  }

  lemma ServerHearsClose(s: System, t0: Slot, t1: Slot, at: map<nat, nat>, r: U32, u: Up)
    requires Shot(s, t0, t1, at, 2, map[0 := Srv(r, Some(1), false, false)], [Up(Bye, 1, 0, r), u], [])
    ensures var o := Step(s, Serve(None));
      o.Running? && Shot(o.sys, t0, t1, at, 2, map[0 := Srv(r, Some(1), false, true)], [u], [])
  {
    assert [Up(Bye, 1, 0, r), u][1..] == [u];
  }

  lemma ServerForgets(s: System, t0: Slot, t1: Slot, at: map<nat, nat>, r: U32, up: seq<Up>)
    requires Shot(s, t0, t1, at, 2, map[0 := Srv(r, Some(1), false, true)], up, [])
    ensures var o := Step(s, ServerClose(0));
      o.Running? && Shot(o.sys, t0, t1, at, 2, map[], up, [Channel(Close, 1, 0, r)])
  {
    assert s.server - {0} == map[];
    assert [] + [Channel(Close, 1, 0, r)] == [Channel(Close, 1, 0, r)];
  }

  lemma Closes(s: System, m: Slot, r: U32, server: map<nat, Srv>, d: Down)
    requires m.Chan?
    requires Shot(s, m, Chan(Orphan, Some(r), true, false), map[1 := 0, 0 := 1], 2, server, [], [Channel(Close, 1, 0, r), d])
    ensures var o := Step(s, Deliver);
      o.Running? && Shot(o.sys, m, Chan(Orphan, Some(r), true, true), map[1 := 0, 0 := 1], 2, server, [], [d])
  {
    var c := Chan(Orphan, Some(r), true, true);
    assert s.table[1 := c] == [m, c] + EightFree;
    assert Keep(s.at, s.table[1 := c]) == map[1 := 0, 0 := 1];
    assert [Channel(Close, 1, 0, r), d][1..] == [d];
  }

  lemma Reuses(s: System, c: Slot, r: U32, server: map<nat, Srv>)
    requires c.Chan?
    requires Shot(s, Chan(Opening, None, false, false), c, map[1 := 0, 0 := 1], 2, server, [], [Channel(Confirm, 0, 1, r)])
    ensures var o := Step(s, Deliver);
      o.Running? && o.sys.table == [Chan(Own, Some(r), false, false), c] + EightFree && !o.sys.swept
  {
    var m := Chan(Own, Some(r), false, false);
    assert s.table[0 := m] == [m, c] + EightFree;
  }

  /** A client opens a channel and the server accepts it. */
  lemma Begins(d: U32, r: U32) returns (t: System)
    ensures Goes(Start, [Connect(0), ClientOpen(0, d), Serve(Some(r))]) == Running(t)
    ensures Shot(t, Client(0), Chan(Mux(0, d), None, false, false), map[1 := 0], 1, map[0 := Srv(r, Some(1), false, false)],
                 [], [Channel(Confirm, 1, 0, r)])
  {
    Connects();
    var s1 := Step(Start, Connect(0)).sys;
    Opens(s1, d);
    var s2 := Step(s1, ClientOpen(0, d)).sys;
    Accepts(s2, Client(0), Chan(Mux(0, d), None, false, false), map[1 := 0], 1, 1, 0, [], r);
    t := Step(s2, Serve(Some(r))).sys;
    assert [] + [Channel(Confirm, 1, 0, r)] == [Channel(Confirm, 1, 0, r)];
    Then3(Start, s1, s2, t, Connect(0), ClientOpen(0, d), Serve(Some(r)));
  }

  /** The channel is confirmed, and closed when the client hangs up. */
  lemma Leaves(s: System, d: U32, r: U32) returns (t: System)
    requires Shot(s, Client(0), Chan(Mux(0, d), None, false, false), map[1 := 0], 1, map[0 := Srv(r, Some(1), false, false)],
                  [], [Channel(Confirm, 1, 0, r)])
    ensures Goes(s, [Deliver, Sweep(Gone0)]) == Running(t)
    ensures Shot(t, Free, Chan(Orphan, Some(r), true, false), map[1 := 0], 1, map[0 := Srv(r, Some(1), false, false)],
                 [Up(Bye, 1, 0, r)], [])
  {
    Confirms(s, d, r);
    var s4 := Step(s, Deliver).sys;
    HangsUp(s4, d, r, map[0 := Srv(r, Some(1), false, false)]);
    t := Step(s4, Sweep(Gone0)).sys;
    Then2(s, s4, t, Deliver, Sweep(Gone0));
  }

  /** The server closes it too and forgets its number, with a new OPEN on the way. */
  lemma Forgets(s: System, c: Slot, r: U32) returns (t: System)
    requires c != Free && Shot(s, Free, c, map[1 := 0], 1, map[0 := Srv(r, Some(1), false, false)], [Up(Bye, 1, 0, r)], [])
    ensures Goes(s, [MasterOpen, Serve(None), ServerClose(0)]) == Running(t)
    ensures Shot(t, Chan(Opening, None, false, false), c, map[1 := 0, 0 := 1], 2, map[], [Up(Ask, 0, 1, 0)], [Channel(Close, 1, 0, r)])
  {
    var m, u, at: map<nat, nat> := Chan(Opening, None, false, false), Up(Ask, 0, 1, 0), map[1 := 0, 0 := 1];
    MasterOpens(s, c, map[0 := Srv(r, Some(1), false, false)], Up(Bye, 1, 0, r));
    var s6 := Step(s, MasterOpen).sys;
    ServerHearsClose(s6, m, c, at, r, u);
    var s7 := Step(s6, Serve(None)).sys;
    ServerForgets(s7, m, c, at, r, [u]);
    t := Step(s7, ServerClose(0)).sys;
    Then3(s, s6, s7, t, MasterOpen, Serve(None), ServerClose(0));
  }

  /** The new OPEN gets the same number, and the master hears of both before the collector runs. */
  lemma Ends(s: System, r: U32) returns (t: System)
    requires Shot(s, Chan(Opening, None, false, false), Chan(Orphan, Some(r), true, false), map[1 := 0, 0 := 1], 2, map[],
                  [Up(Ask, 0, 1, 0)], [Channel(Close, 1, 0, r)])
    ensures Goes(s, [Serve(Some(r)), Deliver, Deliver]) == Running(t)
    ensures t.table == [Chan(Own, Some(r), false, false), Chan(Orphan, Some(r), true, true)] + EightFree
  {
    var m, at: map<nat, nat> := Chan(Opening, None, false, false), map[1 := 0, 0 := 1];
    var server := map[1 := Srv(r, Some(0), false, false)];
    Accepts(s, m, Chan(Orphan, Some(r), true, false), at, 2, 0, 1, [Channel(Close, 1, 0, r)], r);
    var s9 := Step(s, Serve(Some(r))).sys;
    assert [Channel(Close, 1, 0, r)] + [Channel(Confirm, 0, 1, r)] == [Channel(Close, 1, 0, r), Channel(Confirm, 0, 1, r)];
    Closes(s9, m, r, server, Channel(Confirm, 0, 1, r));
    var s10 := Step(s9, Deliver).sys;
    Reuses(s10, Chan(Orphan, Some(r), true, true), r, server);
    t := Step(s10, Deliver).sys;
    Then3(s, s9, s10, t, Serve(Some(r)), Deliver, Deliver);
  }

  /** The run: a lookup by number would now find the new channel, which has slot 0, for the old one. */
  lemma NumberIsThereTwice(d: U32, r: U32)
    ensures var es := [Connect(0), ClientOpen(0, d), Serve(Some(r))] + ([Deliver, Sweep(Gone0)]
                    + ([MasterOpen, Serve(None), ServerClose(0)] + [Serve(Some(r)), Deliver, Deliver]));
      && Run(es).Running?
      && Run(es).sys.table == [Chan(Own, Some(r), false, false), Chan(Orphan, Some(r), true, true)] + EightFree
  {
    var es, fs := [Connect(0), ClientOpen(0, d), Serve(Some(r))], [Deliver, Sweep(Gone0)];
    var gs, hs := [MasterOpen, Serve(None), ServerClose(0)], [Serve(Some(r)), Deliver, Deliver];
    var s := Begins(d, r);
    var t := Leaves(s, d, r);
    var u := Forgets(t, Chan(Orphan, Some(r), true, false), r);
    var v := Ends(u, r);
    GoesOn(t, gs, hs, u);
    GoesOn(s, fs, gs + hs, t);
    GoesOn(Start, es, fs + (gs + hs), s);
    FromStart(es + (fs + (gs + hs)));
  }

  lemma FromStart(es: seq<Event>)
    ensures Run(es) == Goes(Start, es)
  {
    RunGoes([], es);
    assert [] + es == es;
  }

  lemma ThenOne(s: System, e: Event, es: seq<Event>, all: seq<Event>, t: System)
    requires |s.births| == |s.stages| && Step(s, e) == Running(t) && all == [e] + es
    ensures Goes(s, all) == Goes(t, es)
  {
    assert all[1..] == es;
  }

  lemma Then3(s: System, t: System, u: System, v: System, e: Event, f: Event, g: Event)
    requires |s.births| == |s.stages| && Step(s, e) == Running(t) && Step(t, f) == Running(u) && Step(u, g) == Running(v)
    ensures Goes(s, [e, f, g]) == Running(v)
  {
    ThenOne(s, e, [f, g], [e, f, g], t);
    ThenOne(t, f, [g], [f, g], u);
    ThenOne(u, g, [], [g], v);
  }

  lemma Then2(s: System, t: System, u: System, e: Event, f: Event)
    requires |s.births| == |s.stages| && Step(s, e) == Running(t) && Step(t, f) == Running(u)
    ensures Goes(s, [e, f]) == Running(u)
  {
    ThenOne(s, e, [f], [e, f], t);
    ThenOne(t, f, [], [f], u);
  }

  lemma {:induction false} GoesOn(s: System, es: seq<Event>, fs: seq<Event>, t: System)
    requires |s.births| == |s.stages| && Goes(s, es) == Running(t)
    ensures Goes(s, es + fs) == Goes(t, fs)
    decreases es
  {
    if es == [] {
      assert es + fs == fs;
    } else {
      assert (es + fs)[1..] == es[1..] + fs;
      GoesOn(Step(s, es[0]).sys, es[1..], fs, t);
    }
  }
}
