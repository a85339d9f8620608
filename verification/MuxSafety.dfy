/** Every event keeps the invariant of MuxProtocol: messages find their channels, and those that are not lost their clients. */
module MuxSafety {
  import opened Basics
  import opened MuxTable
  import opened MuxCollector
  import opened MuxProtocol

  // ---- queues

  lemma {:induction false} UpsPush(q: seq<Up>, u: Up, k: nat)
    ensures Ups(q + [u], k) == if u.serial == k then Ups(q, k) + [u] else Ups(q, k)
  {
    if q == [] {
      assert [u][1..] == [];
    } else {
      assert (q + [u])[1..] == q[1..] + [u];
      UpsPush(q[1..], u, k);
    }
  }

  lemma {:induction false} DownsPush(q: seq<Down>, m: Down, k: nat)
    ensures Downs(q + [m], k) == if m.serial == k then Downs(q, k) + [m] else Downs(q, k)
  {
    if q == [] {
      assert [m][1..] == [];
    } else {
      assert (q + [m])[1..] == q[1..] + [m];
      DownsPush(q[1..], m, k);
    }
  }

  lemma UpsPop(q: seq<Up>, k: nat)
    requires q != []
    ensures Ups(q, k) == if q[0].serial == k then [q[0]] + Ups(q[1..], k) else Ups(q[1..], k)
    ensures q[0].serial == k ==> Ups(q, k)[0] == q[0] && Ups(q, k)[1..] == Ups(q[1..], k)
  {
    assert [] + Ups(q[1..], k) == Ups(q[1..], k);
  }

  lemma DownsPop(q: seq<Down>, k: nat)
    requires q != []
    ensures Downs(q, k) == if q[0].serial == k then [q[0]] + Downs(q[1..], k) else Downs(q[1..], k)
    ensures q[0].serial == k ==> Downs(q, k)[0] == q[0] && Downs(q, k)[1..] == Downs(q[1..], k)
  {
    assert [] + Downs(q[1..], k) == Downs(q[1..], k);
  }

  lemma {:induction false} FlowPush(ds: seq<Down>, i: nat, k: nat, r: U32)
    requires Flow(ds, i, k, r, false)
    ensures Flow(ds + [Channel(Traffic, i, k, 0)], i, k, r, false)
    ensures Flow(ds + [Channel(Close, i, k, r)], i, k, r, true)
  {
    if ds != [] {
      FlowPush(ds[1..], i, k, r);
      assert (ds + [Channel(Traffic, i, k, 0)])[1..] == ds[1..] + [Channel(Traffic, i, k, 0)];
      assert (ds + [Channel(Close, i, k, r)])[1..] == ds[1..] + [Channel(Close, i, k, r)];
    } else {
      assert [Channel(Traffic, i, k, 0)][1..] == [];
    }
  }

  lemma {:induction false} PrecedesPush(q: seq<Down>, m: Down, k: nat, j: nat)
    requires Precedes(q, k, j)
    ensures Precedes(q + [m], k, j)
  {
    assert (q + [m])[1..] == q[1..] + [m];
    if !(q[0].Channel? && q[0].kind == Close && q[0].serial == k) {
      PrecedesPush(q[1..], m, k, j);
    }
  }

  /** A flow that ends in CLOSE comes, CLOSE and all, before a channel with no messages yet. */
  lemma {:induction false} ClosePrecedes(q: seq<Down>, i: nat, k: nat, r: U32, j: nat)
    requires Flow(Downs(q, k), i, k, r, true) && Downs(q, j) == []
    ensures Precedes(q, k, j)
  {
    DownsPop(q, k);
    DownsPop(q, j);
    if q[0].serial != k || |Downs(q, k)| > 1 {
      ClosePrecedes(q[1..], i, k, r, j);
    }
  }

  // ---- channels an event does not touch

  /** Same slot, numbers and CLOSE flags, whoever the slot belongs to. */
  predicate SameLine(t: Slot, u: Slot) {
    && t.Chan? && u.Chan? && t.remote == u.remote && t.closeSent == u.closeSent && t.closeRcvd == u.closeRcvd
    && (u.owner == Zombie ==> t.owner == Zombie)
  }

  predicate Untouched(s: System, t: System, k: nat) {
    && k < |s.stages| && k < |t.stages| && t.stages[k] == s.stages[k]
    && Ups(t.up, k) == Ups(s.up, k) && Downs(t.down, k) == Downs(s.down, k)
    && (k in t.server <==> k in s.server) && (k in s.server ==> t.server[k] == s.server[k])
    && (match SlotOf(s.stages[k])
        case None => true
        case Some(i) => i < |s.table| && i < |t.table| && SameLine(s.table[i], t.table[i]) && i in t.at && t.at[i] == k)
  }

  lemma StageFrame(s: System, t: System, k: nat)
    requires |s.stages| == |s.births| && |t.stages| == |t.births| && Untouched(s, t, k) && StageOk(s, k)
    ensures StageOk(t, k)
  {
  }

  /** Channels that existed before and are not `k` keep their invariant. */
  lemma OthersKeep(s: System, t: System, k: nat)
    requires |s.stages| == |s.births| && |t.stages| == |t.births| && |s.stages| <= |t.stages|
    requires forall j :: 0 <= j < |s.stages| ==> StageOk(s, j)
    requires forall j :: 0 <= j < |s.stages| && j != k ==> Untouched(s, t, j)
    ensures forall j :: 0 <= j < |s.stages| && j != k ==> StageOk(t, j)
  {
    forall j | 0 <= j < |s.stages| && j != k ensures StageOk(t, j) {
      StageFrame(s, t, j);
    }
  }

  // ---- clients come and go

  lemma SlotHeld(s: System, k: nat)
    requires |s.stages| == |s.births| && k < |s.stages| && StageOk(s, k) && SlotOf(s.stages[k]).Some?
    ensures At(s, SlotOf(s.stages[k]).value, k)
  {
  }

  /** Every channel with a slot is found in it. */
  predicate Held(s: System) {
    forall k :: 0 <= k < |s.stages| && SlotOf(s.stages[k]).Some? ==> At(s, SlotOf(s.stages[k]).value, k)
  }

  lemma InvHeld(s: System)
    requires Inv(s)
    ensures Held(s)
  {
    forall k | 0 <= k < |s.stages| && SlotOf(s.stages[k]).Some? ensures At(s, SlotOf(s.stages[k]).value, k) {
      SlotHeld(s, k);
    }
  }

  predicate SameChannel(t: Slot, u: Slot) {
    SameLine(t, u) && (u.owner == t.owner || (u.owner == Orphan && t.owner.Mux?))
  }

  /** The channels in the table are the same, except that some may have lost their client. */
  predicate SameChannels(t: seq<Slot>, u: seq<Slot>) {
    && |t| <= |u|
    && (forall i :: 0 <= i < |t| && t[i].Chan? ==> SameChannel(t[i], u[i]))
    && (forall i :: 0 <= i < |u| && u[i].Chan? ==> i < |t| && t[i].Chan?)
  }

  lemma SameChannelsSlots(s: System, t: System)
    requires SlotsOk(s) && SameChannels(s.table, t.table)
    requires t == s.(table := t.table, conns := t.conns, who := t.who, lost := t.lost)
    ensures SlotsOk(t)
  {
    forall i | 0 <= i < |t.table| && t.table[i].IsProxy() && i in t.at && t.at[i] < |t.births|
      ensures OpenedAs(t.births[t.at[i]], t.table[i].owner)
    {
      assert SameChannel(s.table[i], t.table[i]);
    }
    forall i | i in t.at ensures i < |t.table| && t.table[i].Chan? {
      assert SameChannel(s.table[i], t.table[i]);
    }
    forall i | 0 <= i < |t.table| && t.table[i].Chan? ensures OwnerOk(t.table[i]) {
      assert SameChannel(s.table[i], t.table[i]);
    }
  }

  lemma SameChannelsLinger(t: seq<Slot>, u: seq<Slot>)
    requires SameChannels(t, u) && NoneLinger(t)
    ensures NoneLinger(u)
  {
    forall i | 0 <= i < |u| && u[i].Chan? ensures !(u[i].closeSent && u[i].closeRcvd) {
      assert SameChannel(t[i], u[i]);
    }
  }

  lemma SameChannelsStages(s: System, t: System)
    requires |s.births| == |s.stages| && SameChannels(s.table, t.table)
    requires t == s.(table := t.table, conns := t.conns, who := t.who, lost := t.lost)
    requires forall k :: 0 <= k < |s.stages| ==> StageOk(s, k)
    ensures forall k :: 0 <= k < |t.stages| ==> StageOk(t, k)
  {
    forall k | 0 <= k < |s.stages| ensures Untouched(s, t, k) {
      if SlotOf(s.stages[k]).Some? {
        SlotHeld(s, k);
        var i := SlotOf(s.stages[k]).value;
        assert SameChannel(s.table[i], t.table[i]);
      }
    }
    OthersKeep(s, t, |s.stages|);
  }

  lemma SameChannelsRemotes(s: System, t: System)
    requires RemotesOk(s) && SameChannels(s.table, t.table)
    requires t == s.(table := t.table, conns := t.conns, who := t.who, lost := t.lost)
    requires |s.births| == |s.stages| && forall k :: 0 <= k < |s.stages| ==> StageOk(s, k)
    ensures RemotesOk(t)
  {
    forall k: nat, r: U32 | Dying(t, k, r) ensures Dying(s, k, r) {
      var i := s.stages[k].slot;
      SlotHeld(s, k);
      assert SameChannel(s.table[i], t.table[i]);
    }
  }

  lemma SameChannelsKeep(s: System, t: System)
    requires Inv(s) && SameChannels(s.table, t.table) && s.lost <= t.lost
    requires ClientsOk(t.table, t.who, t.conns, t.births) && DanglingOk(t.table, t.at, t.births, t.who, t.lost)
    requires t == s.(table := t.table, conns := t.conns, who := t.who, lost := t.lost)
    ensures Inv(t)
  {
    SameChannelsSlots(s, t);
    SameChannelsStages(s, t);
    SameChannelsRemotes(s, t);
    if s.swept {
      SameChannelsLinger(s.table, t.table);
    }
  }

  /** The same clients are connected. */
  lemma SameClients(t: seq<Slot>, u: seq<Slot>)
    requires forall i :: 0 <= i < |t| && t[i].Client? ==> i < |u| && u[i] == t[i]
    requires forall i :: 0 <= i < |u| && u[i].Client? ==> i < |t| && t[i] == u[i]
    ensures forall a :: Connected(t, a) <==> Connected(u, a)
  {
    forall a ensures Connected(t, a) <==> Connected(u, a) {
      if Connected(t, a) {
        var i :| 0 <= i < |t| && t[i] == Client(a);
        assert u[i] == Client(a);
      }
      if Connected(u, a) {
        var i :| 0 <= i < |u| && u[i] == Client(a);
        assert t[i] == Client(a);
      }
    }
  }

  /** Only whether the client at address a is connected has changed. */
  lemma OtherClients(t: seq<Slot>, u: seq<Slot>, a: nat)
    requires forall i :: 0 <= i < |t| && t[i].Client? && t[i].addr != a ==> i < |u| && u[i] == t[i]
    requires forall i :: 0 <= i < |u| && u[i].Client? && u[i].addr != a ==> i < |t| && t[i] == u[i]
    ensures forall b :: b != a ==> (Connected(t, b) <==> Connected(u, b))
  {
    forall b | b != a ensures Connected(t, b) <==> Connected(u, b) {
      if Connected(t, b) {
        var i :| 0 <= i < |t| && t[i] == Client(b);
        assert u[i] == Client(b);
      }
      if Connected(u, b) {
        var i :| 0 <= i < |u| && u[i] == Client(b);
        assert t[i] == Client(b);
      }
    }
  }

  lemma ConnectPlaces(s: System, room: seq<Slot>, f: nat, a: nat, t: System)
    requires ClientsOk(s.table, s.who, s.conns, s.births) && s.table <= room && f < |room| && room[f] == Free && !Connected(s.table, a)
    requires forall j :: |s.table| <= j < |room| ==> room[j] == Free
    requires t == s.(table := room[f := Client(a)], conns := s.conns + 1, who := s.who[a := s.conns])
    ensures ClientsOk(t.table, t.who, t.conns, t.births) && SameChannels(s.table, t.table)
  {
  }

  /** A client that connects where another was takes none of its channels over, but stands where they point. */
  lemma ConnectDangling(s: System, a: nat, t: System)
    requires SlotsOk(s) && ClientsOk(s.table, s.who, s.conns, s.births) && DanglingOk(s.table, s.at, s.births, s.who, s.lost) && !Connected(s.table, a) && SameChannels(s.table, t.table)
    requires forall i :: 0 <= i < |s.table| && s.table[i].Chan? ==> t.table[i] == s.table[i]
    requires forall b :: b != a ==> (Connected(s.table, b) <==> Connected(t.table, b))
    requires t == s.(table := t.table, conns := s.conns + 1, who := s.who[a := s.conns])
    ensures DanglingOk(t.table, t.at, t.births, t.who, t.lost)
  {
    forall i | 0 <= i < |t.table| && t.table[i].IsProxy() && i in t.at && t.at[i] < |t.births|
      ensures t.at[i] in t.lost <==> !Here(t.table, t.who, t.births[t.at[i]])
    {
      assert SameChannel(s.table[i], t.table[i]) && s.table[i] == t.table[i];
    }
  }

  lemma ConnectSides(s: System, room: seq<Slot>, f: nat, a: nat, t: System)
    requires SlotsOk(s) && s.table <= room && f < |room| && room[f] == Free && !Connected(s.table, a)
    requires ClientsOk(s.table, s.who, s.conns, s.births) && DanglingOk(s.table, s.at, s.births, s.who, s.lost)
    requires forall j :: |s.table| <= j < |room| ==> room[j] == Free
    requires t == s.(table := room[f := Client(a)], conns := s.conns + 1, who := s.who[a := s.conns])
    ensures ClientsOk(t.table, t.who, t.conns, t.births) && DanglingOk(t.table, t.at, t.births, t.who, t.lost)
    ensures SameChannels(s.table, t.table)
  {
    ConnectPlaces(s, room, f, a, t);
    OtherClients(s.table, t.table, a);
    ConnectDangling(s, a, t);
  }

  lemma KeepConnected(s: System, room: seq<Slot>, f: nat, a: nat, t: System)
    requires Inv(s) && s.table <= room && f < |room| && room[f] == Free && !Connected(s.table, a)
    requires forall j :: |s.table| <= j < |room| ==> room[j] == Free
    requires t == s.(table := room[f := Client(a)], conns := s.conns + 1, who := s.who[a := s.conns])
    ensures Inv(t)
  {
    ConnectSides(s, room, f, a, t);
    SameChannelsKeep(s, t);
  }

  lemma KeepConnect(s: System, a: nat)
    requires Inv(s) && !Connected(s.table, a)
    ensures ConnectClient(s, a).Running? ==> Inv(ConnectClient(s, a).sys)
  {
    if WithRoom(s.table).Some? {
      var room := WithRoom(s.table).value;
      KeepConnected(s, room, FirstFree(room), a, ConnectClient(s, a).sys);
    }
  }

  /** The client in slot i has gone, and some of its channels may have been detached. */
  ghost predicate Departed(s: System, i: nat, table: seq<Slot>) {
    && i < |s.table| == |table| && s.table[i].Client? && table[i] == Free
    && forall j :: 0 <= j < |table| && j != i ==> table[j] == s.table[j] || table[j] == Detach(s.table[j], s.table[i].addr)
  }

  lemma DepartedClients(s: System, i: nat, table: seq<Slot>)
    requires ClientsOk(s.table, s.who, s.conns, s.births) && Departed(s, i, table)
    ensures ClientsOk(table, s.who, s.conns, s.births) && SameChannels(s.table, table) && !Connected(table, s.table[i].addr)
    ensures forall b :: b != s.table[i].addr ==> (Connected(s.table, b) <==> Connected(table, b))
  {
    OtherClients(s.table, table, s.table[i].addr);
    forall j | 0 <= j < |table| ensures table[j] != Client(s.table[i].addr) {
      if j < i && s.table[j].Client? {
        assert s.table[j].addr != s.table[i].addr;
      }
    }
  }

  lemma KeepLeave(s: System, i: nat)
    requires Inv(s) && i < |s.table| && s.table[i].Client?
    ensures Inv(s.(table := FreeSlot(s.table, i)))
  {
    var a, table := s.table[i].addr, FreeSlot(s.table, i);
    var t := s.(table := table);
    assert forall j :: 0 <= j < |table| && j != i ==> table[j] == Detach(s.table[j], a);
    DepartedClients(s, i, table);
    forall j | 0 <= j < |table| && table[j].IsProxy() && j in t.at && t.at[j] < |t.births|
      ensures t.at[j] in t.lost <==> !Here(t.table, t.who, t.births[t.at[j]])
    {
      assert s.table[j] == table[j] && s.table[j].owner.client != a && OpenedAs(s.births[s.at[j]], s.table[j].owner);
    }
    SameChannelsKeep(s, t);
  }

  /** A client marked dead leaves its channels behind, pointing at it. */
  lemma KeepDead(s: System, i: nat)
    requires Inv(s) && i < |s.table| && s.table[i].Client?
    ensures Inv(s.(table := s.table[i := Free], lost := s.lost + Served(s, s.table[i].addr)))
  {
    var a, table := s.table[i].addr, s.table[i := Free];
    var t := s.(table := table, lost := s.lost + Served(s, a));
    DepartedClients(s, i, table);
    forall j | 0 <= j < |table| && table[j].IsProxy() && j in t.at && t.at[j] < |t.births|
      ensures t.at[j] in t.lost <==> !Here(t.table, t.who, t.births[t.at[j]])
    {
      assert s.table[j] == table[j] && OpenedAs(s.births[s.at[j]], s.table[j].owner);
      ServedOnce(s, a, j);
    }
    ServedAreClients(s, a);
    SameChannelsKeep(s, t);
  }

  lemma ServedOnce(s: System, a: nat, j: nat)
    requires SlotsOk(s) && j < |s.table| && s.table[j].IsProxy() && j in s.at
    ensures s.at[j] in Served(s, a) <==> s.table[j].owner.client == a
  {
    if s.at[j] in Served(s, a) {
      var l :| 0 <= l < |s.table| && s.table[l].IsProxy() && s.table[l].owner.client == a && l in s.at && s.at[l] == s.at[j];
      assert SlotOf(s.stages[s.at[l]]) == Some(l) && SlotOf(s.stages[s.at[j]]) == Some(j);
    }
  }

  lemma ServedAreClients(s: System, a: nat)
    requires SlotsOk(s)
    ensures forall k :: k in Served(s, a) ==> k < |s.births| && s.births[k].ByClient?
  {
  }

  // ---- new channels

  lemma {:induction false} NoMessagesYet(up: seq<Up>, down: seq<Down>, k: nat)
    requires (forall u :: u in up ==> u.serial < k) && (forall m :: m in down ==> m.serial < k)
    ensures Ups(up, k) == [] && Downs(down, k) == []
    decreases |up| + |down|
  {
    if up != [] {
      NoMessagesYet(up[1..], down, k);
    } else if down != [] {
      NoMessagesYet(up, down[1..], k);
    }
  }

  /** A table with channel `t` put into its first free slot. */
  ghost predicate Placed(table: seq<Slot>, f: nat, t: Slot, u: seq<Slot>) {
    && |table| <= |u| && f < |u| && u[f] == t && (f < |table| ==> table[f] == Free)
    && (forall i :: 0 <= i < |table| && i != f ==> u[i] == table[i])
    && (forall i :: |table| <= i < |u| && i != f ==> u[i] == Free)
  }

  lemma PlacedInRoom(table: seq<Slot>, t: Slot)
    requires WithRoom(table).Some?
    ensures var room := WithRoom(table).value; Placed(table, FirstFree(room), t, room[FirstFree(room) := t])
  {
  }

  lemma PlacedSlots(s: System, t: System, f: nat, c: Slot, k: nat)
    requires SlotsOk(s) && c.Chan? && Placed(s.table, f, c, t.table) && t.at == s.at[f := k]
    requires |t.births| == |t.stages| && |s.stages| <= |t.stages| && k < |t.stages| && SlotOf(t.stages[k]) == Some(f)
    requires forall j :: 0 <= j < |s.stages| && j != k ==> t.stages[j] == s.stages[j] && t.births[j] == s.births[j]
    requires k < |s.stages| ==> SlotOf(s.stages[k]) == None
    requires c.IsProxy() ==> OpenedAs(t.births[k], c.owner)
    requires OwnerOk(c)
    ensures SlotsOk(t)
  {
    forall i | i in t.at ensures i < |t.table| && t.table[i].Chan? && t.at[i] < |t.stages| && SlotOf(t.stages[t.at[i]]) == Some(i) {
      if i != f {
        assert i in s.at && s.at[i] < |s.stages|;
      }
    }
    PlacedOwners(s, t, f, c, k);
  }

  lemma PlacedOwners(s: System, t: System, f: nat, c: Slot, k: nat)
    requires SlotsOk(s) && c.Chan? && OwnerOk(c) && Placed(s.table, f, c, t.table) && t.at == s.at[f := k]
    requires |s.births| <= |t.births| && k < |t.births|
    requires forall j :: 0 <= j < |s.births| && j != k ==> t.births[j] == s.births[j]
    requires k < |s.stages| ==> SlotOf(s.stages[k]) == None
    requires c.IsProxy() ==> OpenedAs(t.births[k], c.owner)
    ensures forall i :: 0 <= i < |t.table| && t.table[i].Chan? ==> i in t.at && OwnerOk(t.table[i])
    ensures forall i :: (0 <= i < |t.table| && t.table[i].IsProxy() && i in t.at && t.at[i] < |t.births|
      ==> OpenedAs(t.births[t.at[i]], t.table[i].owner))
  {
    forall i | 0 <= i < |t.table| && t.table[i].Chan?
      ensures i in t.at && OwnerOk(t.table[i]) && (t.table[i].IsProxy() && t.at[i] < |t.births| ==> OpenedAs(t.births[t.at[i]], t.table[i].owner))
    {
      if i != f {
        assert s.table[i] == t.table[i] && i in s.at;
      }
    }
  }

  lemma PlacedClients(s: System, t: System, f: nat, c: Slot)
    requires ClientsOk(s.table, s.who, s.conns, s.births) && c.Chan? && Placed(s.table, f, c, t.table) && t.conns == s.conns && t.who == s.who
    requires forall k :: 0 <= k < |t.births| && t.births[k].ByClient? ==> t.births[k].conn < s.conns
    ensures ClientsOk(t.table, t.who, t.conns, t.births) && forall a :: Connected(s.table, a) <==> Connected(t.table, a)
  {
    SameClients(s.table, t.table);
  }

  lemma PlacedDangling(s: System, t: System, f: nat, c: Slot, k: nat)
    requires SlotsOk(s) && DanglingOk(s.table, s.at, s.births, s.who, s.lost) && c.Chan? && Placed(s.table, f, c, t.table) && t.at == s.at[f := k]
    requires t.who == s.who && t.lost == s.lost && |s.births| <= |t.births| && k < |t.births|
    requires forall j :: 0 <= j < |s.births| && j != k ==> t.births[j] == s.births[j]
    requires k < |s.births| ==> !s.births[k].ByClient?
    requires forall a :: Connected(s.table, a) <==> Connected(t.table, a)
    requires c.IsProxy() ==> Here(s.table, s.who, t.births[k])
    requires k < |s.stages| ==> SlotOf(s.stages[k]) == None
    ensures DanglingOk(t.table, t.at, t.births, t.who, t.lost)
  {
  }

  lemma PlacedOthers(s: System, t: System, f: nat, c: Slot, k: nat)
    requires |s.births| == |s.stages| && |t.births| == |t.stages| && |s.stages| <= |t.stages|
    requires Placed(s.table, f, c, t.table) && t.at == s.at[f := k] && t.server == s.server
    requires forall j :: 0 <= j < |s.stages| ==> StageOk(s, j)
    requires forall j :: 0 <= j < |s.stages| && j != k ==>
      t.stages[j] == s.stages[j] && Ups(t.up, j) == Ups(s.up, j) && Downs(t.down, j) == Downs(s.down, j)
    ensures forall j :: 0 <= j < |s.stages| && j != k ==> StageOk(t, j)
  {
    forall j | 0 <= j < |s.stages| && j != k ensures Untouched(s, t, j) {
      if SlotOf(s.stages[j]).Some? {
        SlotHeld(s, j);
      }
    }
    OthersKeep(s, t, k);
  }

  /** A channel that is neither dying nor known to the server does not matter to the server's numbers. */
  lemma PlacedRemotes(s: System, t: System, f: nat, c: Slot, k: nat)
    requires RemotesOk(s) && Placed(s.table, f, c, t.table) && t.server == s.server && t.down == s.down
    requires |s.stages| <= |t.stages| && k < |t.stages| && !t.stages[k].Established?
    requires k in s.server ==> k < |s.stages| && !Announced(s.stages[k])
    requires forall j :: 0 <= j < |s.stages| && j != k ==> t.stages[j] == s.stages[j]
    requires |t.stages| == |s.stages| || (|t.stages| == |s.stages| + 1 && k == |s.stages|)
    requires |s.births| == |s.stages| && forall j :: 0 <= j < |s.stages| ==> StageOk(s, j)
    requires forall j :: j in s.server ==> j < |s.stages|
    ensures RemotesOk(t)
  {
    forall j: nat, r: U32 | Dying(t, j, r) ensures Dying(s, j, r) {
      SlotHeld(s, j);
    }
  }

  lemma PlacedRest(s: System, t: System, f: nat, c: Slot, k: nat)
    requires KnownOk(s) && DeliveredOk(s.delivered, s.births, s.lost) && (s.swept ==> NoneLinger(s.table))
    requires c.Chan? && !c.closeSent && Placed(s.table, f, c, t.table) && t.swept == s.swept && t.delivered == s.delivered
    requires t.lost == s.lost && |s.births| <= |t.births| && |s.stages| <= |t.stages| && k < |t.stages|
    requires t.server == s.server && t.down == s.down && exists u :: t.up == s.up + [u] && u.serial == k
    requires forall j :: 0 <= j < |s.births| && s.births[j].ByClient? ==> t.births[j] == s.births[j]
    ensures KnownOk(t) && DeliveredOk(t.delivered, t.births, t.lost) && (t.swept ==> NoneLinger(t.table))
  {
    var u :| t.up == s.up + [u] && u.serial == k;
    forall v | v in t.up ensures v.serial < |t.stages| {
      assert v in s.up || v == u;
    }
  }

  /** Clients, slots and owners when channel k has been put into slot f. */
  lemma PlacedSides(s: System, t: System, f: nat, c: Slot, k: nat)
    requires Inv(s) && c.Chan? && Placed(s.table, f, c, t.table) && t.at == s.at[f := k] && OwnerOk(c)
    requires t.who == s.who && t.lost == s.lost && t.conns == s.conns
    requires |t.births| == |t.stages| && |s.stages| <= |t.stages| && k < |t.stages| && SlotOf(t.stages[k]) == Some(f)
    requires forall j :: 0 <= j < |s.stages| && j != k ==> t.stages[j] == s.stages[j] && t.births[j] == s.births[j]
    requires |t.stages| == |s.stages| || (|t.stages| == |s.stages| + 1 && k == |s.stages|)
    requires k < |s.stages| ==> SlotOf(s.stages[k]) == None && !s.births[k].ByClient?
    requires c.IsProxy() ==> OpenedAs(t.births[k], c.owner) && Here(s.table, s.who, t.births[k])
    requires t.births[k].ByClient? ==> t.births[k].conn < s.conns
    ensures SlotsOk(t) && ClientsOk(t.table, t.who, t.conns, t.births) && DanglingOk(t.table, t.at, t.births, t.who, t.lost)
  {
    PlacedSlots(s, t, f, c, k);
    PlacedClients(s, t, f, c);
    PlacedDangling(s, t, f, c, k);
  }

  lemma PushedUp(s: System, t: System, u: Up)
    requires t.up == s.up + [u]
    ensures forall j: nat :: Ups(t.up, j) == if j == u.serial then Ups(s.up, j) + [u] else Ups(s.up, j)
  {
    forall j: nat ensures Ups(t.up, j) == if j == u.serial then Ups(s.up, j) + [u] else Ups(s.up, j) {
      UpsPush(s.up, u, j);
    }
  }

  lemma OpenedStages(s: System, t: System, f: nat, c: Slot)
    requires Inv(s) && Placed(s.table, f, c, t.table) && Blank(c) && c.owner != Zombie
    requires var k := |s.stages|;
      && t.at == s.at[f := k] && t.stages == s.stages + [Requested(f)] && |t.births| == k + 1
      && t.up == s.up + [Up(Ask, f, k, 0)] && t.down == s.down && t.server == s.server
    ensures forall j :: 0 <= j < |t.stages| ==> StageOk(t, j)
  {
    var k := |s.stages|;
    NoMessagesYet(s.up, s.down, k);
    PushedUp(s, t, Up(Ask, f, k, 0));
    PlacedOthers(s, t, f, c, k);
    assert StageOk(t, k);
  }

  lemma KeepOpened(s: System, owner: Owner, b: Birth, t: System, f: nat, c: Slot)
    requires Inv(s) && c == Chan(owner, None, false, false) && Placed(s.table, f, c, t.table)
    requires owner.Mux? ==> Here(s.table, s.who, b) && OpenedAs(b, owner) && b.conn < s.conns
    requires (owner.Mux? && b.ByClient?) || (owner == Opening && b == ByMaster)
    requires var k := |s.stages|;
      t == s.(table := t.table, at := s.at[f := k], births := s.births + [b], stages := s.stages + [Requested(f)],
              up := s.up + [Up(Ask, f, k, 0)])
    ensures Inv(t)
  {
    var k := |s.stages|;
    PlacedSides(s, t, f, c, k);
    PlacedRemotes(s, t, f, c, k);
    PlacedRest(s, t, f, c, k);
    OpenedStages(s, t, f, c);
  }

  lemma KeepOpen(s: System, owner: Owner, b: Birth)
    requires Inv(s)
    requires owner.Mux? ==> Here(s.table, s.who, b) && OpenedAs(b, owner) && b.conn < s.conns
    requires (owner.Mux? && b.ByClient?) || (owner == Opening && b == ByMaster)
    ensures OpenChannel(s, owner, b).Running? ==> Inv(OpenChannel(s, owner, b).sys)
  {
    if WithRoom(s.table).Some? {
      var c := Chan(owner, None, false, false);
      PlacedInRoom(s.table, c);
      KeepOpened(s, owner, b, OpenChannel(s, owner, b).sys, FirstFree(WithRoom(s.table).value), c);
    }
  }

  /** The client in slot i is there, under its number. */
  lemma ClientHere(s: System, i: nat, downId: U32)
    requires ClientsOk(s.table, s.who, s.conns, s.births) && i < |s.table| && s.table[i].Client?
    ensures var a := s.table[i].addr;
      ConnAt(s.who, a) < s.conns && Here(s.table, s.who, ByClient(ConnAt(s.who, a), a, downId))
  {
    assert Connected(s.table, s.table[i].addr);
  }

  lemma ConfirmedStages(s: System, t: System, f: nat, c: Slot, k: nat)
    requires Inv(s) && k < |s.stages| && s.stages[k] == Waiting && k in s.server && Placed(s.table, f, c, t.table)
    requires var r := s.server[k].remote;
      && c.Chan? && c.remote == Some(r) && !c.closeSent && !c.closeRcvd && t.at == s.at[f := k]
      && t.stages == s.stages[k := Confirming(f)] && |t.births| == |s.births|
      && t.up == s.up + [Up(Agree, f, k, r)] && t.down == s.down && t.server == s.server
    ensures forall j :: 0 <= j < |t.stages| ==> StageOk(t, j)
  {
    assert StageOk(s, k);
    PushedUp(s, t, Up(Agree, f, k, s.server[k].remote));
    PlacedOthers(s, t, f, c, k);
    assert StageOk(t, k);
  }

  lemma KeepConfirmed(s: System, i: nat, k: nat, downId: U32, t: System, f: nat, c: Slot)
    requires Inv(s) && MayConfirm(s, i, k) && Placed(s.table, f, c, t.table)
    requires var a, r := s.table[i].addr, s.server[k].remote;
      && c == Chan(Mux(a, downId), Some(r), false, false)
      && t == s.(table := t.table, at := s.at[f := k], births := s.births[k := ByClient(ConnAt(s.who, a), a, downId)],
                 stages := s.stages[k := Confirming(f)], up := s.up + [Up(Agree, f, k, r)])
    ensures Inv(t)
  {
    ConfirmedSides(s, i, k, downId, t, f, c);
    PlacedRemotes(s, t, f, c, k);
    PlacedRest(s, t, f, c, k);
    ConfirmedStages(s, t, f, c, k);
  }

  lemma ConfirmedSides(s: System, i: nat, k: nat, downId: U32, t: System, f: nat, c: Slot)
    requires Inv(s) && MayConfirm(s, i, k) && Placed(s.table, f, c, t.table)
    requires var a, r := s.table[i].addr, s.server[k].remote;
      && c == Chan(Mux(a, downId), Some(r), false, false) && t.at == s.at[f := k]
      && t.births == s.births[k := ByClient(ConnAt(s.who, a), a, downId)] && t.stages == s.stages[k := Confirming(f)]
      && t.who == s.who && t.lost == s.lost && t.conns == s.conns
    ensures SlotsOk(t) && ClientsOk(t.table, t.who, t.conns, t.births) && DanglingOk(t.table, t.at, t.births, t.who, t.lost)
  {
    ClientHere(s, i, downId);
    PlacedSides(s, t, f, c, k);
  }

  lemma KeepConfirm(s: System, i: nat, k: nat, downId: U32)
    requires Inv(s) && MayConfirm(s, i, k)
    ensures var r := ConfirmChannel(s, k, s.table[i].addr, downId); r.Running? ==> Inv(r.sys)
  {
    if WithRoom(s.table).Some? {
      var a := s.table[i].addr;
      var c := Chan(Mux(a, downId), Some(s.server[k].remote), false, false);
      PlacedInRoom(s.table, c);
      KeepConfirmed(s, i, k, downId, ConfirmChannel(s, k, a, downId).sys, FirstFree(WithRoom(s.table).value), c);
    }
  }

  // ---- CLOSE towards the server

  /** A slot with a server number, not yet closed both ways, belongs to a channel that is live at the server or dying. */
  lemma NumberedSlot(s: System, i: nat, r: U32)
    requires Inv(s) && i < |s.table| && HasRemote(s.table[i], r) && !(s.table[i].closeSent && s.table[i].closeRcvd)
    ensures i in s.at && s.at[i] < |s.stages| && SlotOf(s.stages[s.at[i]]) == Some(i)
    ensures var k := s.at[i]; !Announced(s.stages[k]) && ((k in s.server && s.server[k].remote == r) || Dying(s, k, r))
  {
    assert StageOk(s, s.at[i]);
  }

  /** Among occupied slots not yet closed both ways, no two have the same server number. */
  lemma NumbersAreUnique(s: System, i: nat, j: nat, r: U32)
    requires Inv(s) && i < |s.table| && j < |s.table| && HasRemote(s.table[i], r) && HasRemote(s.table[j], r)
    requires !(s.table[i].closeSent && s.table[i].closeRcvd) && !(s.table[j].closeSent && s.table[j].closeRcvd)
    ensures i == j
  {
    NumberedSlot(s, i, r);
    NumberedSlot(s, j, r);
    var k, l := s.at[i], s.at[j];
    assert k == l;
  }

  lemma LookupFinds(s: System, i: nat, r: U32)
    requires Inv(s) && s.swept && i < |s.table| && HasRemote(s.table[i], r)
    ensures ByRemote(s.table, r) == i
  {
    NumbersAreUnique(s, i, ByRemote(s.table, r), r);
  }

  // ---- events that change one slot

  /** Slot i of channel k has been updated or freed; no other slot or channel has changed. */
  predicate Changed(s: System, t: System, i: nat, k: nat) {
    && At(s, i, k) && k < |s.stages| && |t.table| == |s.table| && t.at == Keep(s.at, t.table)
    && t.births == s.births && t.conns == s.conns && t.who == s.who && t.lost == s.lost && |t.stages| == |s.stages|
    && (forall j :: 0 <= j < |s.table| && j != i ==> t.table[j] == s.table[j])
    && (forall j :: 0 <= j < |s.stages| && j != k ==> t.stages[j] == s.stages[j])
    && (t.table[i] == Free ==> SlotOf(t.stages[k]) == None)
    && (t.table[i] != Free ==> SlotOf(t.stages[k]) == Some(i) && t.table[i].Chan? && OwnerOk(t.table[i])
                               && (t.table[i].owner == s.table[i].owner || !t.table[i].IsProxy()))
  }

  lemma ChangedAt(s: System, t: System, i: nat, k: nat)
    requires SlotsOk(s) && Changed(s, t, i, k)
    ensures forall j :: j in t.at ==> j < |t.table| && t.table[j].Chan? && t.at[j] < |t.stages| && SlotOf(t.stages[t.at[j]]) == Some(j)
  {
    forall j | j in t.at ensures j < |t.table| && t.table[j].Chan? && t.at[j] < |t.stages| && SlotOf(t.stages[t.at[j]]) == Some(j) {
      assert j in s.at && s.at[j] == t.at[j];
      if j != i {
        assert SlotOf(s.stages[s.at[j]]) == Some(j) && SlotOf(s.stages[k]) == Some(i);
      }
    }
  }

  lemma ChangedOwners(s: System, t: System, i: nat, k: nat)
    requires SlotsOk(s) && Changed(s, t, i, k)
    ensures forall j :: 0 <= j < |t.table| && t.table[j].Chan? ==> j in t.at && OwnerOk(t.table[j])
    ensures forall j :: (0 <= j < |t.table| && t.table[j].IsProxy() && j in t.at && t.at[j] < |t.births| ==>
      OpenedAs(t.births[t.at[j]], t.table[j].owner))
  {
    forall j | 0 <= j < |t.table| && t.table[j].Chan?
      ensures j in t.at && t.at[j] == s.at[j] && OwnerOk(t.table[j])
      ensures t.table[j].IsProxy() && t.at[j] < |t.births|
        ==> OpenedAs(t.births[t.at[j]], t.table[j].owner)
    {
      assert s.table[j].Chan? && j in s.at;
    }
  }

  lemma ChangedSlots(s: System, t: System, i: nat, k: nat)
    requires SlotsOk(s) && Changed(s, t, i, k)
    ensures SlotsOk(t)
  {
    ChangedAt(s, t, i, k);
    ChangedOwners(s, t, i, k);
  }

  lemma ChangedClients(s: System, t: System, i: nat, k: nat)
    requires ClientsOk(s.table, s.who, s.conns, s.births) && Changed(s, t, i, k)
    ensures ClientsOk(t.table, t.who, t.conns, t.births) && forall a :: Connected(s.table, a) <==> Connected(t.table, a)
  {
    SameClients(s.table, t.table);
  }

  lemma HereStill(t: seq<Slot>, u: seq<Slot>, who: map<nat, nat>, b: Birth)
    requires forall a :: Connected(t, a) <==> Connected(u, a)
    ensures Here(t, who, b) <==> Here(u, who, b)
  {
  }

  /** A proxy that is still one is the same channel of the same client. */
  lemma ChangedProxy(s: System, t: System, i: nat, k: nat, j: nat)
    requires SlotsOk(s) && Changed(s, t, i, k) && j < |t.table| && t.table[j].IsProxy() && j in t.at
    ensures s.table[j].IsProxy() && j in s.at && s.at[j] == t.at[j]
  {
  }

  lemma ChangedProxies(s: System, t: System, i: nat, k: nat)
    requires SlotsOk(s) && DanglingOk(s.table, s.at, s.births, s.who, s.lost) && Changed(s, t, i, k)
    requires forall a :: Connected(s.table, a) <==> Connected(t.table, a)
    ensures DanglingOk(t.table, t.at, t.births, t.who, t.lost)
  {
    forall j | 0 <= j < |t.table| && t.table[j].IsProxy() && j in t.at && t.at[j] < |t.births|
      ensures t.at[j] in t.lost <==> !Here(t.table, t.who, t.births[t.at[j]])
    {
      ChangedProxy(s, t, i, k, j);
      HereStill(s.table, t.table, s.who, s.births[s.at[j]]);
    }
  }

  lemma ChangedDangling(s: System, t: System, i: nat, k: nat)
    requires SlotsOk(s) && ClientsOk(s.table, s.who, s.conns, s.births) && DanglingOk(s.table, s.at, s.births, s.who, s.lost) && Changed(s, t, i, k)
    ensures ClientsOk(t.table, t.who, t.conns, t.births) && DanglingOk(t.table, t.at, t.births, t.who, t.lost)
  {
    ChangedClients(s, t, i, k);
    ChangedProxies(s, t, i, k);
  }

  lemma ChangedOthers(s: System, t: System, i: nat, k: nat)
    requires SlotsOk(s) && Changed(s, t, i, k)
    requires forall j :: 0 <= j < |s.stages| ==> StageOk(s, j)
    requires forall j :: 0 <= j < |s.stages| && j != k ==>
      && Ups(t.up, j) == Ups(s.up, j) && Downs(t.down, j) == Downs(s.down, j)
      && (j in t.server <==> j in s.server) && (j in s.server ==> t.server[j] == s.server[j])
    ensures forall j :: 0 <= j < |s.stages| && j != k ==> StageOk(t, j)
  {
    forall j | 0 <= j < |s.stages| && j != k ensures Untouched(s, t, j) {
      if SlotOf(s.stages[j]).Some? {
        SlotHeld(s, j);
        assert s.at[SlotOf(s.stages[j]).value] == j && s.at[i] == k;
      }
    }
    OthersKeep(s, t, k);
  }

  /** The server's numbers when nothing that is dying now was not dying before. */
  lemma FewerDying(s: System, t: System, k: nat)
    requires RemotesOk(s) && t.server == s.server && t.down == s.down && k < |t.stages| == |s.stages| && !Announced(s.stages[k])
    requires forall j :: 0 <= j < |s.stages| && j != k ==> t.stages[j] == s.stages[j]
    requires forall j: nat, r: U32 :: Dying(t, j, r) ==> Dying(s, j, r)
    ensures RemotesOk(t)
  {
  }

  /** The server's numbers when a channel it knows is changed at the master. */
  lemma ChangedRemotes(s: System, t: System, i: nat, k: nat)
    requires RemotesOk(s) && Held(s) && Changed(s, t, i, k) && t.server == s.server && t.down == s.down && k in s.server
    requires !Announced(s.stages[k])
    ensures RemotesOk(t)
  {
    forall j: nat, r: U32 | Dying(t, j, r) ensures Dying(s, j, r) {
      assert At(s, s.stages[j].slot, j);
    }
    FewerDying(s, t, k);
  }

  /** Channel k in slot i has been confirmed and has not sent CLOSE. */
  predicate MayClose(s: System, k: nat, i: nat) {
    && k < |s.stages| && SlotOf(s.stages[k]) == Some(i) && i < |s.table| && s.table[i].Chan?
    && s.table[i].remote.Some? && !s.table[i].closeSent
  }

  lemma CloseUpChanges(table: seq<Slot>, i: nat)
    requires i < |table| && table[i].Chan? && OwnerOk(table[i]) && !table[i].closeSent
    ensures var u := CloseUp(table, i);
      && |u| == |table| && (forall j :: 0 <= j < |table| && j != i ==> u[j] == table[j])
      && (u[i] == Free || (u[i].Chan? && OwnerOk(u[i]) && u[i].owner == table[i].owner))
      && (NoneLinger(table) ==> NoneLinger(u))
  {
  }

  lemma CloseChanges(s: System, k: nat, i: nat)
    requires SlotsOk(s) && MayClose(s, k, i) && StageOk(s, k)
    ensures Changed(s, CloseChannel(s, k, i, CloseUp(s.table, i)), i, k) && k in s.server && !Announced(s.stages[k])
  {
    CloseUpChanges(s.table, i);
  }

  lemma CloseStages(s: System, k: nat, i: nat, t: System)
    requires Inv(s) && MayClose(s, k, i) && t == CloseChannel(s, k, i, CloseUp(s.table, i)) && Changed(s, t, i, k)
    ensures forall j :: 0 <= j < |t.stages| ==> StageOk(t, j)
  {
    PushedUp(s, t, Up(Bye, i, k, s.table[i].remote.value));
    CloseStage(s, t, i, k);
    ChangedOthers(s, t, i, k);
  }

  lemma CloseRest(s: System, k: nat, i: nat, t: System)
    requires SlotsOk(s) && KnownOk(s) && MayClose(s, k, i) && t == CloseChannel(s, k, i, CloseUp(s.table, i)) && (s.swept ==> NoneLinger(s.table))
    ensures KnownOk(t) && (t.swept ==> NoneLinger(t.table))
  {
    CloseUpChanges(s.table, i);
    forall u | u in t.up ensures u.serial < |t.stages| {
      assert u in s.up || u.serial == k;
    }
  }

  lemma KeepClose(s: System, k: nat, i: nat)
    requires Inv(s) && MayClose(s, k, i)
    ensures Inv(CloseChannel(s, k, i, CloseUp(s.table, i)))
  {
    var t := CloseChannel(s, k, i, CloseUp(s.table, i));
    InvHeld(s);
    CloseChanges(s, k, i);
    CloseStages(s, k, i, t);
    ChangedSlots(s, t, i, k);
    ChangedDangling(s, t, i, k);
    ChangedRemotes(s, t, i, k);
    CloseRest(s, k, i, t);
  }

  lemma ClosableMay(s: System, k: nat, i: nat)
    requires Inv(s) && s.swept && Closable(s, k) == Some(i)
    ensures MayClose(s, k, i) && DownstreamClose(s.table, s.table[i].remote.value) == CloseUp(s.table, i)
  {
    LookupFinds(s, i, s.table[i].remote.value);
  }

  lemma KeepClientClose(s: System, k: nat, i: nat)
    requires Inv(s) && s.swept && Closable(s, k) == Some(i)
    ensures Inv(CloseChannel(s, k, i, DownstreamClose(s.table, s.table[i].remote.value)))
  {
    ClosableMay(s, k, i);
    KeepClose(s, k, i);
  }

  lemma CloseStage(s: System, t: System, i: nat, k: nat)
    requires |s.births| == |s.stages| && k < |s.stages| && StageOk(s, k) && SlotOf(s.stages[k]) == Some(i)
    requires i < |s.table| && s.table[i].Chan? && s.table[i].remote.Some? && !s.table[i].closeSent
    requires Changed(s, t, i, k) && t.table == CloseUp(s.table, i) && t.server == s.server && t.down == s.down
    requires Ups(t.up, k) == Ups(s.up, k) + [Up(Bye, i, k, s.table[i].remote.value)]
    requires t.stages[k] == StageAfter(s.stages[k], t.table)
    ensures StageOk(t, k)
  {
  }

  // ---- messages from the server

  lemma KeepOffer(s: System)
    requires Inv(s) && s.down != [] && s.down[0].Offer?
    ensures Receive(s).Running? && Inv(Receive(s).sys)
  {
    var k := s.down[0].serial;
    assert s.down[0] in s.down;
    var t := s.(down := s.down[1..], stages := s.stages[k := Waiting], swept := false);
    OfferStages(s, t, k);
    OfferRemotes(s, t, k);
  }

  lemma OfferStage(s: System, t: System, k: nat)
    requires |s.births| == |s.stages| && s.down != [] && s.down[0].Offer? && s.down[0].serial == k < |s.stages| && StageOk(s, k)
    requires t == s.(down := s.down[1..], stages := s.stages[k := Waiting], swept := false)
    ensures SlotOf(s.stages[k]) == None && StageOk(t, k)
  {
    DownsPop(s.down, k);
  }

  lemma OfferStages(s: System, t: System, k: nat)
    requires Inv(s) && s.down != [] && s.down[0].Offer? && s.down[0].serial == k < |s.stages|
    requires t == s.(down := s.down[1..], stages := s.stages[k := Waiting], swept := false)
    ensures SlotOf(s.stages[k]) == None && forall j :: 0 <= j < |t.stages| ==> StageOk(t, j)
  {
    OfferStage(s, t, k);
    forall j | 0 <= j < |s.stages| && j != k ensures Untouched(s, t, j) {
      DownsPop(s.down, j);
      if SlotOf(s.stages[j]).Some? {
        SlotHeld(s, j);
      }
    }
    OthersKeep(s, t, k);
  }

  lemma OfferRemotes(s: System, t: System, k: nat)
    requires RemotesOk(s) && s.down != [] && s.down[0].Offer? && s.down[0].serial == k < |s.stages|
    requires t == s.(down := s.down[1..], stages := s.stages[k := Waiting], swept := false)
    ensures RemotesOk(t)
  {
    assert forall j: nat, r: U32 :: Dying(t, j, r) ==> Dying(s, j, r);
  }

  /** What the head of the queue says about its channel. */
  lemma HeadStage(s: System)
    requires Inv(s) && s.down != [] && s.down[0].Channel?
    ensures var m := s.down[0];
      && m.serial < |s.stages| && At(s, m.slot, m.serial) && SlotOf(s.stages[m.serial]) == Some(m.slot)
      && (m.kind == Confirm ==> s.stages[m.serial].Accepted? && m.serial in s.server && m.remote == s.server[m.serial].remote)
      && (m.kind == Failure ==> s.stages[m.serial].Refused?)
      && (m.kind == Traffic || m.kind == Close ==> s.stages[m.serial].Established?)
  {
    var m := s.down[0];
    assert m in s.down && StageOk(s, m.serial);
    DownsPop(s.down, m.serial);
  }

  lemma AnsweredStage(s: System, t: System, i: nat, k: nat)
    requires |s.births| == |s.stages| && k < |s.stages| && StageOk(s, k) && Changed(s, t, i, k)
    requires s.down != [] && s.down[0].Channel? && s.down[0].serial == k && s.down[0].slot == i && SlotOf(s.stages[k]) == Some(i)
    requires s.down[0].kind == Confirm || s.down[0].kind == Failure
    requires Upstream(s.table, i, s.down[0].kind, s.down[0].remote) == Some(t.table)
    requires t.stages[k] == StageReceived(s.stages[k], i, s.down[0].kind, t.table)
    requires t.server == s.server && t.up == s.up && t.down == s.down[1..]
    ensures StageOk(t, k)
  {
    DownsPop(s.down, k);
  }

  lemma ReceiveStage(s: System, t: System, i: nat, k: nat)
    requires |s.births| == |s.stages| && k < |s.stages| && StageOk(s, k) && Changed(s, t, i, k)
    requires s.down != [] && s.down[0].Channel? && s.down[0].serial == k && s.down[0].slot == i && SlotOf(s.stages[k]) == Some(i)
    requires Upstream(s.table, i, s.down[0].kind, s.down[0].remote) == Some(t.table)
    requires t.stages[k] == StageReceived(s.stages[k], i, s.down[0].kind, t.table)
    requires t.server == s.server && t.up == s.up && t.down == s.down[1..]
    ensures StageOk(t, k)
  {
    if s.down[0].kind == Confirm || s.down[0].kind == Failure {
      AnsweredStage(s, t, i, k);
    } else {
      DownsPop(s.down, k);
      assert s.stages[k].Established?;
    }
  }

  lemma UpstreamChanges(table: seq<Slot>, i: nat, kind: Kind, r: U32, u: seq<Slot>)
    requires i < |table| && table[i].Chan? && OwnerOk(table[i]) && Upstream(table, i, kind, r) == Some(u)
    requires kind == Confirm ==> table[i].remote == None && !table[i].closeSent && !table[i].closeRcvd
    ensures |u| == |table| && forall j :: 0 <= j < |table| && j != i ==> u[j] == table[j]
    ensures u[i] == Free || (u[i].Chan? && OwnerOk(u[i]) && (u[i].owner == table[i].owner || !u[i].IsProxy()))
    ensures u[i] == Free ==> kind == Close
  {
  }

  lemma ReceiveChanges(s: System)
    requires Inv(s) && s.down != [] && s.down[0].Channel? && Receive(s).Running?
    ensures Changed(s, Receive(s).sys, s.down[0].slot, s.down[0].serial)
  {
    var m := s.down[0];
    HeadStage(s);
    assert StageOk(s, m.serial);
    ReceivedChanges(s, m, Receive(s).sys);
  }

  lemma ReceivedChanges(s: System, m: Down, t: System)
    requires SlotsOk(s) && m.Channel? && At(s, m.slot, m.serial) && m.serial < |s.stages|
    requires SlotOf(s.stages[m.serial]) == Some(m.slot) && Upstream(s.table, m.slot, m.kind, m.remote) == Some(t.table)
    requires m.kind == Confirm ==> Blank(s.table[m.slot])
    requires var g := StageReceived(s.stages[m.serial], m.slot, m.kind, t.table);
      t == s.(table := t.table, at := Keep(s.at, t.table), stages := s.stages[m.serial := g],
              down := t.down, delivered := t.delivered, swept := false)
    ensures Changed(s, t, m.slot, m.serial)
  {
    UpstreamChanges(s.table, m.slot, m.kind, m.remote, t.table);
  }

  lemma ReceiveRemotes(s: System, t: System, i: nat, k: nat)
    requires RemotesOk(s) && Held(s) && Changed(s, t, i, k) && s.down != [] && s.down[0].Channel? && s.down[0].serial == k
    requires t.server == s.server && t.down == s.down[1..]
    requires k !in s.server && s.down[0].kind == Close ==> !t.stages[k].Established?
    requires t.stages[k].Established? && k !in s.server ==> s.stages[k].Established?
    requires t.table[i].Chan? && s.table[i].remote.Some? ==> t.table[i].remote == s.table[i].remote
    requires k !in s.server && s.stages[k].Established? ==> s.table[i].remote.Some?
    requires SlotOf(s.stages[k]) == Some(i)
    ensures RemotesOk(t)
  {
    forall j: nat, r: U32 | Dying(t, j, r) ensures Dying(s, j, r) && (s.down[0].kind == Close ==> j != k) {
      if j != k {
        assert At(s, s.stages[j].slot, j);
      }
    }
  }

  lemma ToldIsOk(s: System, i: nat, k: nat)
    requires SlotsOk(s) && DeliveredOk(s.delivered, s.births, s.lost) && At(s, i, k) && k < |s.births|
    requires DanglingOk(s.table, s.at, s.births, s.who, s.lost)
    ensures DeliveredOk(Told(s, i, k), s.births, s.lost)
  {
  }

  lemma ReceiveStages(s: System, i: nat, k: nat)
    requires Inv(s) && s.down != [] && s.down[0].Channel? && s.down[0].slot == i && s.down[0].serial == k && Receive(s).Running?
    requires Changed(s, Receive(s).sys, i, k) && SlotOf(s.stages[k]) == Some(i)
    ensures var t := Receive(s).sys; forall j :: 0 <= j < |t.stages| ==> StageOk(t, j)
  {
    var t := Receive(s).sys;
    forall j | 0 <= j < |s.stages| && j != k ensures Downs(t.down, j) == Downs(s.down, j) {
      DownsPop(s.down, j);
    }
    ReceiveStage(s, t, i, k);
    ChangedOthers(s, t, i, k);
  }

  lemma KeepReceive(s: System)
    requires Inv(s) && s.down != [] && s.down[0].Channel? && Receive(s).Running?
    ensures Inv(Receive(s).sys)
  {
    var i, k, t := s.down[0].slot, s.down[0].serial, Receive(s).sys;
    HeadStage(s);
    ReceiveChanges(s);
    ReceiveStages(s, i, k);
    ChangedSlots(s, t, i, k);
    ChangedDangling(s, t, i, k);
    ReceiveGone(s, t, i, k);
    InvHeld(s);
    ReceiveRemotes(s, t, i, k);
    ToldIsOk(s, i, k);
  }

  lemma ReceiveGone(s: System, t: System, i: nat, k: nat)
    requires |s.births| == |s.stages| && k < |s.stages| && StageOk(s, k) && Changed(s, t, i, k)
    requires s.down != [] && s.down[0].Channel? && s.down[0].serial == k && s.down[0].slot == i && SlotOf(s.stages[k]) == Some(i)
    requires Upstream(s.table, i, s.down[0].kind, s.down[0].remote) == Some(t.table)
    requires t.stages[k] == StageReceived(s.stages[k], i, s.down[0].kind, t.table)
    ensures k !in s.server && s.down[0].kind == Close ==> !t.stages[k].Established?
    ensures t.stages[k].Established? && k !in s.server ==> s.stages[k].Established?
    ensures t.table[i].Chan? && s.table[i].remote.Some? ==> t.table[i].remote == s.table[i].remote
    ensures k !in s.server && s.stages[k].Established? ==> s.table[i].remote.Some?
  {
    DownsPop(s.down, k);
  }

  // ---- the server's end

  /** Only channel k changed, and only on the links or at the server. */
  ghost predicate Remote(s: System, t: System, k: nat) {
    && t.table == s.table && t.at == s.at && t.births == s.births && t.conns == s.conns && t.who == s.who && t.lost == s.lost && t.delivered == s.delivered
    && t.swept == s.swept && k < |s.stages| == |t.stages| && SlotOf(t.stages[k]) == SlotOf(s.stages[k])
    && (forall j :: 0 <= j < |s.stages| && j != k ==> t.stages[j] == s.stages[j])
    && (forall j :: j != k ==> (j in t.server <==> j in s.server))
    && (forall j :: j != k && j in s.server ==> t.server[j] == s.server[j])
  }

  lemma RemoteKeeps(s: System, t: System, k: nat)
    requires Inv(s) && Remote(s, t, k) && StageOk(t, k) && RemotesOk(t) && KnownOk(t)
    requires forall j :: 0 <= j < |s.stages| && j != k ==> Ups(t.up, j) == Ups(s.up, j) && Downs(t.down, j) == Downs(s.down, j)
    ensures Inv(t)
  {
    forall j | 0 <= j < |s.stages| && j != k ensures Untouched(s, t, j) {
      if SlotOf(s.stages[j]).Some? {
        SlotHeld(s, j);
      }
    }
    OthersKeep(s, t, k);
  }

  /** A channel the server knows, or whose stage is not Established, is not dying. */
  lemma RemoteDying(s: System, t: System, k: nat)
    requires |s.births| == |s.stages| && Remote(s, t, k) && (k in t.server || !t.stages[k].Established?)
    ensures forall j: nat, r: U32 :: Dying(t, j, r) ==> Dying(s, j, r) && j != k
  {
  }

  /** A number announced for channel j now is announced behind every CLOSE still due for it. */
  lemma AnnouncedBehind(s: System, m: Down, j: nat, r: U32)
    requires Inv(s) && Downs(s.down, j) == []
    ensures forall k: nat :: Dying(s, k, r) ==> Precedes(s.down + [m], k, j)
  {
    forall k: nat | Dying(s, k, r) ensures Precedes(s.down + [m], k, j) {
      assert StageOk(s, k);
      ClosePrecedes(s.down, s.stages[k].slot, k, r, j);
      PrecedesPush(s.down, m, k, j);
    }
  }

  lemma PrecedesPushAll(q: seq<Down>, m: Down)
    ensures forall k, j :: Precedes(q, k, j) ==> Precedes(q + [m], k, j)
  {
    forall k: nat, j: nat | Precedes(q, k, j) ensures Precedes(q + [m], k, j) {
      PrecedesPush(q, m, k, j);
    }
  }

  /** Remotes that were announced in time are still, whatever is added to the queue. */
  lemma PrecedesKept(q: seq<Down>, r: seq<Down>)
    requires r == q || exists m :: r == q + [m]
    ensures forall k, j :: Precedes(q, k, j) ==> Precedes(r, k, j)
  {
    if r != q {
      var m :| r == q + [m];
      PrecedesPushAll(q, m);
    }
  }

  lemma AcceptRemotes(s: System, t: System, k: nat, r: U32, m: Down)
    requires Inv(s) && Remote(s, t, k) && k !in s.server && Unused(s.server, r) && Announced(t.stages[k])
    requires t.server.Keys == s.server.Keys + {k} && t.server[k].remote == r && t.down == s.down + [m] && Downs(s.down, k) == []
    ensures RemotesOk(t)
  {
    RemoteDying(s, t, k);
    AnnouncedBehind(s, m, k, r);
    PrecedesKept(s.down, t.down);
  }

  /** The server's numbers when channel k keeps its own and is not being announced. */
  lemma SameRemotes(s: System, t: System, k: nat)
    requires |s.births| == |s.stages| && RemotesOk(s) && Remote(s, t, k)
    requires (k in s.server <==> k in t.server) && (k in s.server ==> t.server[k].remote == s.server[k].remote)
    requires k in s.server ==> (Announced(s.stages[k]) ==> Announced(t.stages[k]))
    requires k !in s.server ==> !t.stages[k].Established?
    requires t.down == s.down || exists m :: t.down == s.down + [m]
    ensures RemotesOk(t)
  {
    RemoteDying(s, t, k);
    PrecedesKept(s.down, t.down);
  }

  /** Forgotten, channel k may be dying, under the number it had. */
  lemma ForgottenDying(s: System, t: System, k: nat)
    requires Remote(s, t, k) && k in s.server && t.server == s.server - {k} && t.stages[k] == s.stages[k]
    requires s.stages[k].Established? ==> s.stages[k].slot < |s.table| && HasRemote(s.table[s.stages[k].slot], s.server[k].remote)
    ensures forall j: nat, r: U32 :: Dying(t, j, r) ==> if j == k then r == s.server[k].remote else Dying(s, j, r)
  {
  }

  /** The server forgets channel k, whose CLOSE is still due at the master. */
  lemma ForgetRemotes(s: System, t: System, k: nat)
    requires RemotesOk(s) && Remote(s, t, k) && k in s.server && t.server == s.server - {k} && !Announced(s.stages[k])
    requires s.stages[k].Established? ==> s.stages[k].slot < |s.table| && HasRemote(s.table[s.stages[k].slot], s.server[k].remote)
    requires t.stages[k] == s.stages[k]
    requires t.down == s.down || exists m :: t.down == s.down + [m]
    ensures RemotesOk(t)
  {
    ForgottenDying(s, t, k);
    PrecedesKept(s.down, t.down);
  }

  lemma PushedDown(s: System, t: System, m: Down)
    requires t.down == s.down + [m]
    ensures forall j: nat :: Downs(t.down, j) == if j == m.serial then Downs(s.down, j) + [m] else Downs(s.down, j)
  {
    forall j: nat ensures Downs(t.down, j) == if j == m.serial then Downs(s.down, j) + [m] else Downs(s.down, j) {
      DownsPush(s.down, m, j);
    }
  }

  lemma PoppedUp(s: System, t: System)
    requires s.up != [] && t.up == s.up[1..]
    ensures forall j: nat :: Ups(s.up, j) == if j == s.up[0].serial then [s.up[0]] + Ups(t.up, j) else Ups(t.up, j)
    ensures Ups(s.up, s.up[0].serial)[1..] == Ups(t.up, s.up[0].serial)
  {
    forall j: nat ensures Ups(s.up, j) == if j == s.up[0].serial then [s.up[0]] + Ups(t.up, j) else Ups(t.up, j) {
      UpsPop(s.up, j);
    }
    UpsPop(s.up, s.up[0].serial);
  }

  /** What the message at the head of the queue to the server says about its channel. */
  lemma HeadUp(s: System)
    requires Inv(s) && s.up != []
    ensures var u := s.up[0];
      && u.serial < |s.stages| && Ups(s.up, u.serial) == [u] + Ups(s.up[1..], u.serial)
      && (u.kind == Ask ==> s.stages[u.serial] == Requested(u.slot))
      && (u.kind == Agree ==> s.stages[u.serial] == Confirming(u.slot) && u.serial in s.server)
      && (u.kind == Deny ==> s.stages[u.serial] == Declining && u.serial in s.server)
      && (u.kind == Bye ==> (s.stages[u.serial].Established? || s.stages[u.serial].Lingering? || s.stages[u.serial] == Gone)
                            && u.serial in s.server && s.server[u.serial].remote == u.remote)
  {
    var u := s.up[0];
    assert u in s.up && StageOk(s, u.serial);
    UpsPop(s.up, u.serial);
  }

  /** Once the OPEN of channel k has been taken off its queue, no message of k is on the way. */
  lemma AskedAlone(s: System, k: nat, rest: seq<Up>)
    requires |s.births| == |s.stages| && k < |s.stages| && StageOk(s, k) && s.stages[k].Requested? && s.up != []
    requires Ups(s.up, k) == [s.up[0]] + rest
    ensures rest == [] && Downs(s.down, k) == []
  {
    assert |Ups(s.up, k)| == 1;
  }

  lemma AskStage(s: System, accept: Option<U32>, t: System, k: nat)
    requires |s.births| == |s.stages| && s.up != [] && s.up[0].kind == Ask && s.up[0].serial == k < |s.stages|
    requires StageOk(s, k) && s.stages[k] == Requested(s.up[0].slot) && ServeOne(s, accept) == Running(t)
    requires Ups(s.up, k) == [s.up[0]] + Ups(t.up, k)
    ensures StageOk(t, k)
  {
    var i := s.up[0].slot;
    AskedAlone(s, k, Ups(t.up, k));
    if accept.Some? && Unused(s.server, accept.value) {
      OnlyMessage(s.down, Channel(Confirm, i, k, accept.value), k);
      AcceptedStage(s, t, k, i, accept.value);
    } else {
      OnlyMessage(s.down, Channel(Failure, i, k, 0), k);
      RefusedStage(s, t, k, i);
    }
  }

  lemma OnlyMessage(q: seq<Down>, m: Down, k: nat)
    requires Downs(q, k) == [] && m.serial == k
    ensures Downs(q + [m], k) == [m]
  {
    DownsPush(q, m, k);
  }

  lemma AcceptedStage(s: System, t: System, k: nat, i: nat, r: U32)
    requires |s.births| == |s.stages| && k < |s.stages| && StageOk(s, k) && s.stages[k] == Requested(i)
    requires t.table == s.table && t.at == s.at && |t.births| == |t.stages| == |s.stages| && t.stages[k] == Accepted(i)
    requires k in t.server && t.server[k] == Srv(r, Some(i), false, false)
    requires Ups(t.up, k) == [] && Downs(t.down, k) == [Channel(Confirm, i, k, r)]
    ensures StageOk(t, k)
  {
    assert [Channel(Confirm, i, k, r)][1..] == [];
  }

  lemma RefusedStage(s: System, t: System, k: nat, i: nat)
    requires |s.births| == |s.stages| && k < |s.stages| && StageOk(s, k) && s.stages[k] == Requested(i)
    requires t.table == s.table && t.at == s.at && |t.births| == |t.stages| == |s.stages| && t.stages[k] == Refused(i)
    requires k !in t.server && Ups(t.up, k) == [] && Downs(t.down, k) == [Channel(Failure, i, k, 0)]
    ensures StageOk(t, k)
  {
  }

  lemma AskFrame(s: System, accept: Option<U32>, t: System, k: nat)
    requires KnownOk(s) && s.up != [] && s.up[0].kind == Ask && s.up[0].serial == k < |s.stages|
    requires s.stages[k] == Requested(s.up[0].slot) && ServeOne(s, accept) == Running(t)
    ensures Remote(s, t, k) && KnownOk(t) && t.up == s.up[1..]
    ensures |t.down| == |s.down| + 1 && t.down == s.down + [t.down[|s.down|]] && t.down[|s.down|].serial == k
  {
  }

  lemma KeepAsk(s: System, accept: Option<U32>)
    requires Inv(s) && s.up != [] && s.up[0].kind == Ask
    ensures ServeOne(s, accept).Running? && Inv(ServeOne(s, accept).sys)
  {
    var k := s.up[0].serial;
    HeadUp(s);
    var t := ServeOne(s, accept).sys;
    AskFrame(s, accept, t, k);
    PoppedUp(s, t);
    assert StageOk(s, k);
    AskStage(s, accept, t, k);
    var m := t.down[|s.down|];
    PushedDown(s, t, m);
    AskRemotes(s, accept, t, k, m);
    RemoteKeeps(s, t, k);
  }

  lemma AskRemotes(s: System, accept: Option<U32>, t: System, k: nat, m: Down)
    requires Inv(s) && s.up != [] && s.up[0].kind == Ask && s.up[0].serial == k < |s.stages| && Remote(s, t, k)
    requires s.stages[k] == Requested(s.up[0].slot) && ServeOne(s, accept) == Running(t) && t.down == s.down + [m]
    ensures RemotesOk(t)
  {
    NotKnownYet(s, k);
    if accept.Some? && Unused(s.server, accept.value) {
      AcceptRemotes(s, t, k, accept.value, m);
    } else {
      RefuseRemotes(s, t, k, m);
    }
  }

  lemma NotKnownYet(s: System, k: nat)
    requires Inv(s) && k < |s.stages| && s.stages[k].Requested?
    ensures k !in s.server && Downs(s.down, k) == []
  {
    assert StageOk(s, k);
  }

  lemma RefuseRemotes(s: System, t: System, k: nat, m: Down)
    requires |s.births| == |s.stages| && RemotesOk(s) && Remote(s, t, k) && t.server == s.server && k !in s.server
    requires t.stages[k].Refused? && t.down == s.down + [m]
    ensures RemotesOk(t)
  {
    SameRemotes(s, t, k);
  }

  lemma AnswerStage(s: System, accept: Option<U32>, t: System, k: nat)
    requires |s.births| == |s.stages| && s.up != [] && s.up[0].kind != Ask && s.up[0].serial == k < |s.stages|
    requires StageOk(s, k) && ServeOne(s, accept) == Running(t) && Ups(s.up, k) == [s.up[0]] + Ups(t.up, k)
    requires s.up[0].kind == Agree ==> s.stages[k] == Confirming(s.up[0].slot)
    requires s.up[0].kind == Deny ==> s.stages[k] == Declining
    ensures StageOk(t, k)
  {
    assert Ups(t.up, k) == Ups(s.up, k)[1..] && Ups(s.up, k)[0] == s.up[0];
  }

  /** What the server does with an answer, or a CLOSE, for channel k. */
  lemma AnswerIs(s: System, accept: Option<U32>)
    requires Inv(s) && s.up != [] && s.up[0].kind != Ask
    ensures var k := s.up[0].serial;
      && k < |s.stages| && k in s.server && !Announced(s.stages[k])
      && (s.stages[k].Established? ==> s.stages[k].slot < |s.table| && HasRemote(s.table[s.stages[k].slot], s.server[k].remote))
      && ServeOne(s, accept).Running? && SlotOf(ServeOne(s, accept).sys.stages[k]) == SlotOf(s.stages[k])
  {
    HeadUp(s);
    assert StageOk(s, s.up[0].serial);
  }

  lemma AnswerRemotes(s: System, accept: Option<U32>, t: System, k: nat)
    requires |s.births| == |s.stages| && RemotesOk(s) && Remote(s, t, k)
    requires s.up != [] && s.up[0].kind != Ask && s.up[0].serial == k < |s.stages|
    requires k in s.server && ServeOne(s, accept) == Running(t) && !Announced(s.stages[k])
    requires s.stages[k].Established? ==> s.stages[k].slot < |s.table| && HasRemote(s.table[s.stages[k].slot], s.server[k].remote)
    ensures RemotesOk(t)
  {
    if s.up[0].kind == Bye && s.server[k].sent {
      ForgetRemotes(s, t, k);
    } else if s.up[0].kind == Deny {
      RemoteDying(s, t, k);
    } else {
      SameRemotes(s, t, k);
    }
  }

  lemma AnswerFrame(s: System, accept: Option<U32>, t: System, k: nat)
    requires KnownOk(s) && s.up != [] && s.up[0].kind != Ask && s.up[0].serial == k < |s.stages|
    requires ServeOne(s, accept) == Running(t) && SlotOf(s.stages[k]) == SlotOf(t.stages[k])
    ensures Remote(s, t, k) && KnownOk(t) && t.down == s.down && t.up == s.up[1..]
  {
    AnswerForm(s, accept, t, k);
  }

  lemma AnswerForm(s: System, accept: Option<U32>, t: System, k: nat)
    requires s.up != [] && s.up[0].kind != Ask && s.up[0].serial == k < |s.stages| && ServeOne(s, accept) == Running(t)
    ensures k in s.server && k < |t.stages|
    ensures t == s.(up := s.up[1..], stages := s.stages[k := t.stages[k]],
                    server := if k in t.server then s.server[k := t.server[k]] else s.server - {k})
  {
    assert s.stages[k := s.stages[k]] == s.stages;
  }

  lemma KeepAnswer(s: System, accept: Option<U32>)
    requires Inv(s) && s.up != [] && s.up[0].kind != Ask
    ensures ServeOne(s, accept).Running? && Inv(ServeOne(s, accept).sys)
  {
    var k := s.up[0].serial;
    AnswerIs(s, accept);
    var t := ServeOne(s, accept).sys;
    AnswerFrame(s, accept, t, k);
    PoppedUp(s, t);
    AnsweredServer(s, accept, t, k);
    AnswerRemotes(s, accept, t, k);
    RemoteKeeps(s, t, k);
  }

  lemma AnsweredServer(s: System, accept: Option<U32>, t: System, k: nat)
    requires Inv(s) && s.up != [] && s.up[0].kind != Ask && s.up[0].serial == k && ServeOne(s, accept) == Running(t)
    ensures k < |t.stages| == |t.births| && StageOk(t, k)
  {
    HeadUp(s);
    assert StageOk(s, k);
    AnswerStage(s, accept, t, k);
  }

  lemma FlowAfter(s: System, k: nat, m: Down)
    requires Inv(s) && k in s.server && s.server[k].peer.Some? && !s.server[k].sent
    requires var c := s.server[k]; m == Channel(Traffic, c.peer.value, k, 0) || m == Channel(Close, c.peer.value, k, c.remote)
    ensures k < |s.stages| && (s.stages[k].Accepted? || s.stages[k].Established?)
    ensures var ds, c := Downs(s.down, k), s.server[k];
      var rest := if s.stages[k].Accepted? && ds != [] then ds[1..] else ds;
      Flow(rest + [m], c.peer.value, k, c.remote, m.kind == Close)
  {
    assert StageOk(s, k);
    var ds, c := Downs(s.down, k), s.server[k];
    var rest := if s.stages[k].Accepted? && ds != [] then ds[1..] else ds;
    FlowPush(rest, c.peer.value, k, c.remote);
  }

  lemma SendStage(s: System, k: nat, t: System, m: Down)
    requires |s.births| == |s.stages| && k < |s.stages| && k in s.server && s.server[k].peer.Some? && !s.server[k].sent
    requires StageOk(s, k) && t == s.(down := s.down + [m]) && m.serial == k
    requires s.stages[k].Accepted? || s.stages[k].Established?
    requires var ds, c := Downs(s.down, k), s.server[k];
      var rest := if s.stages[k].Accepted? && ds != [] then ds[1..] else ds;
      Flow(rest + [m], c.peer.value, k, c.remote, false)
    ensures StageOk(t, k)
  {
    DownsPush(s.down, m, k);
    var ds := Downs(s.down, k);
    assert ds != [] ==> (ds + [m])[1..] == ds[1..] + [m];
  }

  lemma SentFrame(s: System, k: nat, t: System, m: Down)
    requires KnownOk(s) && k < |s.stages| && t == s.(down := s.down + [m]) && m.serial == k
    ensures Remote(s, t, k) && KnownOk(t)
  {
    forall v | v in t.down ensures v.serial < |t.stages| {
      assert v in s.down || v == m;
    }
  }

  lemma KeepSend(s: System, k: nat)
    requires Inv(s) && k in s.server && s.server[k].peer.Some? && !s.server[k].sent
    ensures Inv(s.(down := s.down + [Channel(Traffic, s.server[k].peer.value, k, 0)]))
  {
    var m := Channel(Traffic, s.server[k].peer.value, k, 0);
    var t := s.(down := s.down + [m]);
    FlowAfter(s, k, m);
    SendStage(s, k, t, m);
    SentFrame(s, k, t, m);
    PushedDown(s, t, m);
    SameRemotes(s, t, k);
    RemoteKeeps(s, t, k);
  }

  lemma ServerCloseStage(s: System, k: nat, t: System, m: Down)
    requires |s.births| == |s.stages| && k < |s.stages| && k in s.server && s.server[k].peer.Some? && !s.server[k].sent
    requires StageOk(s, k) && t == CloseServer(s, k).sys && t.down == s.down + [m] && m.serial == k
    requires var ds, c := Downs(s.down, k), s.server[k];
      var rest := if s.stages[k].Accepted? && ds != [] then ds[1..] else ds;
      Flow(rest + [m], c.peer.value, k, c.remote, true)
    ensures StageOk(t, k)
  {
    DownsPush(s.down, m, k);
    var ds := Downs(s.down, k);
    assert ds != [] ==> (ds + [m])[1..] == ds[1..] + [m];
  }

  lemma ServerCloseFrame(s: System, k: nat, t: System, m: Down)
    requires KnownOk(s) && k in s.server && s.server[k].peer.Some? && k < |s.stages|
    requires t == CloseServer(s, k).sys && t.down == s.down + [m] && m.serial == k
    ensures Remote(s, t, k) && KnownOk(t)
  {
    forall v | v in t.down ensures v.serial < |t.stages| {
      assert v in s.down || v == m;
    }
  }

  lemma ServerCloseRemotes(s: System, k: nat, t: System, m: Down)
    requires |s.births| == |s.stages| && RemotesOk(s) && k < |s.stages| && StageOk(s, k) && Remote(s, t, k)
    requires k in s.server && s.server[k].peer.Some? && !s.server[k].sent && t == CloseServer(s, k).sys && t.down == s.down + [m]
    ensures RemotesOk(t)
  {
    if s.server[k].got {
      ForgetRemotes(s, t, k);
    } else {
      SameRemotes(s, t, k);
    }
  }

  lemma KeepServerClose(s: System, k: nat)
    requires Inv(s) && k in s.server && s.server[k].peer.Some? && !s.server[k].sent
    ensures Inv(CloseServer(s, k).sys)
  {
    var m := Channel(Close, s.server[k].peer.value, k, s.server[k].remote);
    var t := CloseServer(s, k).sys;
    FlowAfter(s, k, m);
    assert StageOk(s, k);
    ServerCloseFrame(s, k, t, m);
    ServerCloseRemotes(s, k, t, m);
    ServerCloseStage(s, k, t, m);
    PushedDown(s, t, m);
    RemoteKeeps(s, t, k);
  }

  lemma KeepServerOffer(s: System, conn: nat, r: U32)
    requires Inv(s) && Unused(s.server, r)
    ensures Inv(OfferChannel(s, conn, r))
  {
    var k, t := |s.stages|, OfferChannel(s, conn, r);
    OfferedStages(s, t, k, conn, r);
    OfferedRemotes(s, t, conn, r);
    OfferedSides(s, t, k);
    OfferedKnown(s, t, k, Offer(k, r));
  }

  lemma OfferedStages(s: System, t: System, k: nat, conn: nat, r: U32)
    requires Inv(s) && k == |s.stages| && t == OfferChannel(s, conn, r)
    ensures SlotsOk(t) && forall j :: 0 <= j < |t.stages| ==> StageOk(t, j)
    ensures Downs(s.down, k) == []
  {
    NoMessagesYet(s.up, s.down, k);
    PushedDown(s, t, Offer(k, r));
    OfferedOthers(s, t, k);
    OfferedStage(s, t, k, conn, r);
  }

  lemma OfferedKnown(s: System, t: System, k: nat, m: Down)
    requires KnownOk(s) && k == |s.stages| && |t.stages| == k + 1 && t.up == s.up && t.down == s.down + [m] && m.serial == k
    requires k in t.server && t.server == s.server[k := t.server[k]]
    ensures KnownOk(t)
  {
    forall v | v in t.down ensures v.serial < |t.stages| {
      assert v in s.down || v == m;
    }
  }

  lemma OfferedSides(s: System, t: System, k: nat)
    requires Inv(s) && k == |s.births| && |t.births| == k + 1 && t.births[..k] == s.births && t.births[k].OfferedTo?
    requires t.table == s.table && t.at == s.at && t.who == s.who && t.lost == s.lost && t.conns == s.conns
    requires t.delivered == s.delivered
    ensures ClientsOk(t.table, t.who, t.conns, t.births) && DanglingOk(t.table, t.at, t.births, t.who, t.lost)
    ensures DeliveredOk(t.delivered, t.births, t.lost)
  {
    assert forall j :: 0 <= j < k ==> t.births[j] == s.births[j];
  }

  lemma OfferedStage(s: System, t: System, k: nat, conn: nat, r: U32)
    requires |s.births| == |s.stages| == k && t == OfferChannel(s, conn, r)
    requires Ups(s.up, k) == [] && Downs(t.down, k) == [] + [Offer(k, r)]
    ensures StageOk(t, k)
  {
  }

  lemma OfferedOthers(s: System, t: System, k: nat)
    requires Inv(s) && k == |s.stages| && |t.births| == |t.stages| == k + 1 && t.table == s.table && t.at == s.at && t.up == s.up
    requires t.stages[..k] == s.stages && t.births[..k] == s.births
    requires forall j :: 0 <= j < k ==> Downs(t.down, j) == Downs(s.down, j)
    requires k in t.server && t.server == s.server[k := t.server[k]]
    ensures SlotsOk(t) && forall j :: 0 <= j < k ==> StageOk(t, j)
  {
    assert forall j :: 0 <= j < k ==> t.stages[j] == s.stages[j] && t.births[j] == s.births[j];
    forall j | 0 <= j < |s.stages| ensures Untouched(s, t, j) {
      if SlotOf(s.stages[j]).Some? {
        SlotHeld(s, j);
      }
    }
    OthersKeep(s, t, k);
  }

  lemma OfferedDying(s: System, t: System, conn: nat, r: U32)
    requires t == OfferChannel(s, conn, r)
    ensures forall j: nat, x: U32 :: Dying(t, j, x) ==> Dying(s, j, x)
  {
  }

  lemma OfferedRemotes(s: System, t: System, conn: nat, r: U32)
    requires Inv(s) && Unused(s.server, r) && t == OfferChannel(s, conn, r) && Downs(s.down, |s.stages|) == []
    ensures RemotesOk(t)
  {
    OfferedDying(s, t, conn, r);
    AnnouncedBehind(s, Offer(|s.stages|, r), |s.stages|, r);
    PrecedesKept(s.down, t.down);
  }

  // ---- the garbage collector

  /** Slot i of channel k has been emptied by the collector. */
  function Emptied(s: System, i: nat, k: nat): System
    requires i < |s.table| && k < |s.stages|
  {
    var table := FreeSlot(s.table, i);
    s.(table := table, at := Keep(s.at, table), stages := s.stages[k := Gone])
  }

  lemma EmptiedChanges(s: System, i: nat, k: nat)
    requires At(s, i, k) && k < |s.stages|
    ensures Changed(s, Emptied(s, i, k), i, k)
  {
  }

  lemma EmptiedStages(s: System, t: System, i: nat, k: nat)
    requires SlotsOk(s) && k < |s.stages| && Changed(s, t, i, k) && t.stages[k] == Gone
    requires s.stages[k].Lingering? || (s.stages[k].Refused? && s.table[i].owner == Zombie)
    requires SlotOf(s.stages[k]) == Some(i) && t.server == s.server && t.up == s.up && t.down == s.down
    requires forall j :: 0 <= j < |s.stages| ==> StageOk(s, j)
    ensures forall j :: 0 <= j < |t.stages| ==> StageOk(t, j)
  {
    assert StageOk(s, k);
    assert StageOk(t, k);
    ChangedOthers(s, t, i, k);
  }

  lemma EmptiedRest(s: System, i: nat, k: nat)
    requires KnownOk(s) && At(s, i, k) && k < |s.stages| && (s.swept ==> NoneLinger(s.table))
    ensures var t := Emptied(s, i, k); KnownOk(t) && (t.swept ==> NoneLinger(t.table))
  {
  }

  /** A slot is emptied whose channel has nothing more to do with the server but at most a CLOSE on its way. */
  lemma KeepFree(s: System, i: nat, k: nat)
    requires Inv(s) && At(s, i, k) && k < |s.stages| && SlotOf(s.stages[k]) == Some(i)
    requires s.stages[k].Lingering? || (s.stages[k].Refused? && s.table[i].owner == Zombie)
    ensures Inv(Emptied(s, i, k))
  {
    var t := Emptied(s, i, k);
    EmptiedChanges(s, i, k);
    ChangedSlots(s, t, i, k);
    ChangedDangling(s, t, i, k);
    EmptiedStages(s, t, i, k);
    InvHeld(s);
    FreeRemotes(s, t, i, k);
    EmptiedRest(s, i, k);
  }

  lemma FreeRemotes(s: System, t: System, i: nat, k: nat)
    requires RemotesOk(s) && Held(s) && Changed(s, t, i, k) && t.server == s.server && t.down == s.down && t.stages[k] == Gone
    requires !Announced(s.stages[k])
    ensures RemotesOk(t)
  {
    forall j: nat, r: U32 | Dying(t, j, r) ensures Dying(s, j, r) {
      assert At(s, s.stages[j].slot, j);
    }
    FewerDying(s, t, k);
  }

  /** What a slot says about the stage of its channel. */
  lemma SlotStage(s: System, i: nat)
    requires Inv(s) && i < |s.table| && s.table[i].Chan?
    ensures i in s.at && s.at[i] < |s.stages| && At(s, i, s.at[i]) && SlotOf(s.stages[s.at[i]]) == Some(i)
    ensures s.table[i].closeSent && s.table[i].closeRcvd ==> s.stages[s.at[i]].Lingering?
    ensures s.table[i].owner == Zombie ==> s.stages[s.at[i]].Refused?
    ensures s.table[i].remote == None ==> Blank(s.table[i])
    ensures Keep(s.at, s.table) == s.at
  {
    assert StageOk(s, s.at[i]);
  }

  lemma VisitFrees(s: System, i: nat, w: Found, k: nat)
    requires |s.births| == |s.stages| && At(s, i, k) && k < |s.stages| && SlotOf(s.stages[k]) == Some(i)
    requires s.table[i].owner == Zombie || (Ended(s.table[i], i, w) && s.table[i].closeSent && s.table[i].closeRcvd)
    ensures VisitSlot(s, i, w) == Running(Emptied(s, i, k))
  {
  }

  lemma VisitCloses(s: System, i: nat, w: Found, k: nat)
    requires |s.births| == |s.stages| && At(s, i, k) && k < |s.stages|
    requires Ended(s.table[i], i, w) && !s.table[i].closeSent && VisitSlot(s, i, w).Running?
    ensures s.table[i].remote.Some? && VisitSlot(s, i, w) == Running(CloseChannel(s, k, i, CloseUp(s.table, i)))
  {
  }

  lemma VisitPasses(s: System, i: nat, w: Found, k: nat)
    requires |s.births| == |s.stages| && At(s, i, k) && k < |s.stages| && SlotOf(s.stages[k]) == Some(i)
    requires s.table[i].owner != Zombie && (Ended(s.table[i], i, w) ==> s.table[i].closeSent && !s.table[i].closeRcvd)
    requires Keep(s.at, s.table) == s.at
    ensures VisitSlot(s, i, w) == Running(s)
  {
    assert s.stages[k := s.stages[k]] == s.stages;
  }

  lemma KeepVisitChannel(s: System, i: nat, w: Found)
    requires Inv(s) && i < |s.table| && s.table[i].Chan? && VisitSlot(s, i, w).Running?
    ensures Inv(VisitSlot(s, i, w).sys)
  {
    var t, k := s.table[i], s.at[i];
    SlotStage(s, i);
    if t.owner == Zombie || (Ended(t, i, w) && t.closeSent && t.closeRcvd) {
      KeepFree(s, i, k);
      VisitFrees(s, i, w, k);
    } else if Ended(t, i, w) && !t.closeSent {
      VisitCloses(s, i, w, k);
      KeepClose(s, k, i);
    } else {
      VisitPasses(s, i, w, k);
    }
  }

  lemma KeepVisit(s: System, i: nat, w: Found)
    requires Inv(s) && i < |s.table| && VisitSlot(s, i, w).Running?
    ensures Inv(VisitSlot(s, i, w).sys)
  {
    if s.table[i].Chan? {
      KeepVisitChannel(s, i, w);
    } else if s.table[i].Client? {
      if s.table[i].addr in w.dead {
        KeepDead(s, i);
        assert FreeSlot(s.table[i := MarkedDead], i) == s.table[i := Free];
      } else if s.table[i].addr in w.eof {
        KeepLeave(s, i);
      }
    }
  }

  /** Every visit of a pass that finds w keeps p. */
  ghost predicate KeptByVisits(p: System -> bool, w: Found) {
    forall x: System, i: nat :: |x.births| == |x.stages| && i < |x.table| && p(x) && VisitSlot(x, i, w).Running?
      ==> p(VisitSlot(x, i, w).sys)
  }

  lemma {:induction false} PassKeeps(p: System -> bool, s: System, i: nat, w: Found)
    requires KeptByVisits(p, w) && |s.births| == |s.stages| && p(s) && SweepFrom(s, i, w).Running?
    ensures p(SweepFrom(s, i, w).sys)
    decreases |s.table| - i
  {
    if i < |s.table| {
      PassKeeps(p, VisitSlot(s, i, w).sys, i + 1, w);
    }
  }

  lemma SweepKeeps(s: System, i: nat, w: Found)
    requires Inv(s) && SweepFrom(s, i, w).Running?
    ensures Inv(SweepFrom(s, i, w).sys)
  {
    var p := (x: System) => Inv(x);
    forall x: System, j: nat | |x.births| == |x.stages| && j < |x.table| && p(x) && VisitSlot(x, j, w).Running?
      ensures p(VisitSlot(x, j, w).sys)
    {
      KeepVisit(x, j, w);
    }
    PassKeeps(p, s, i, w);
  }

  /** Every channel in the table has a serial number. */
  predicate Indexed(s: System) {
    |s.births| == |s.stages| && forall i :: 0 <= i < |s.table| && s.table[i].Chan? ==> i in s.at && s.at[i] < |s.stages|
  }

  lemma VisitIndexed(s: System, i: nat, w: Found)
    requires Indexed(s) && i < |s.table| && Visit(s.table, i, w).Kept?
    ensures VisitSlot(s, i, w).Running?
    ensures var t, v := VisitSlot(s, i, w).sys, Visit(s.table, i, w);
      && Indexed(t) && t.table == v.table
      && (v.close == None ==> t.up == s.up)
      && (v.close.Some? ==> exists u :: t.up == s.up + [u] && SendsBye(u, (i, v.close.value)))
  {
    var t := VisitSlot(s, i, w).sys;
    forall j | 0 <= j < |t.table| && t.table[j].Chan? ensures j in t.at && t.at[j] < |t.stages| {
      if j != i {
        VisitOthers(s.table, i, w, j);
      }
    }
  }

  predicate SendsBye(u: Up, c: (nat, U32)) { u.kind == Bye && u.slot == c.0 && u.remote == c.1 }

  /** These CLOSEs, by slot and number, have been added to the queue to the server. */
  predicate Byes(q: seq<Up>, r: seq<Up>, sent: seq<(nat, U32)>) {
    |r| == |q| + |sent| && r[..|q|] == q && forall n :: 0 <= n < |sent| ==> SendsBye(r[|q| + n], sent[n])
  }

  lemma ByesBehind(q: seq<Up>, u: Up, r: seq<Up>, c: (nat, U32), sent: seq<(nat, U32)>)
    requires Byes(q + [u], r, sent) && SendsBye(u, c)
    ensures Byes(q, r, [c] + sent)
  {
    assert r[..|q|] == r[..|q| + 1][..|q|];
    assert r[|q|] == r[..|q| + 1][|q|];
  }

  /** The CLOSE of slot i, if there is one, and then those. */
  lemma ByesFirst(q: seq<Up>, next: seq<Up>, r: seq<Up>, i: nat, close: Option<U32>, sent: seq<(nat, U32)>)
    requires Byes(next, r, sent) && (close == None ==> next == q)
    requires close.Some? ==> exists u :: next == q + [u] && SendsBye(u, (i, close.value))
    ensures Byes(q, r, (if close.Some? then [(i, close.value)] else []) + sent)
  {
    if close.Some? {
      var u :| next == q + [u] && SendsBye(u, (i, close.value));
      ByesBehind(q, u, r, (i, close.value), sent);
    } else {
      assert [] + sent == sent;
    }
  }

  /** The collector's steps on the system are the pass of ChannelTable.Handler over its table. */
  lemma {:induction false} SweepIsPass(s: System, i: nat, w: Found)
    requires Indexed(s)
    ensures match Pass(s.table, i, w)
      case None => SweepFrom(s, i, w).Stopped?
      case Some((table, sent)) =>
        && SweepFrom(s, i, w).Running? && SweepFrom(s, i, w).sys.table == table
        && Byes(s.up, SweepFrom(s, i, w).sys.up, sent)
    decreases |s.table| - i
  {
    if i < |s.table| && Visit(s.table, i, w).Kept? {
      VisitIndexed(s, i, w);
      var t, v := VisitSlot(s, i, w).sys, Visit(s.table, i, w);
      SweepIsPass(t, i + 1, w);
      match Pass(t.table, i + 1, w)
      case None =>
      case Some((table, sent)) =>
        ByesFirst(s.up, t.up, SweepFrom(t, i + 1, w).sys.up, i, v.close, sent);
    }
  }

  lemma InvTable(s: System)
    requires Inv(s)
    ensures Indexed(s) && TableOk(s.table)
  {
    forall i | 0 <= i < |s.table| && s.table[i].Chan?
      ensures OwnerOk(s.table[i]) && (s.table[i].remote == None ==> !s.table[i].closeSent && !s.table[i].closeRcvd)
    {
      SlotStage(s, i);
    }
  }

  lemma KeepSweep(s: System, w: Found)
    requires Inv(s) && Step(s, Sweep(w)).Running?
    ensures Inv(Step(s, Sweep(w)).sys)
  {
    InvTable(s);
    SweepIsPass(s, 0, w);
    PassLeavesNone(s.table, w);
    SweepKeeps(s, 0, w);
    SweptFlag(SweepFrom(s, 0, w).sys);
  }

  lemma SweptFlag(s: System)
    requires Inv(s) && NoneLinger(s.table)
    ensures Inv(s.(swept := true))
  {
    var t := s.(swept := true);
    forall k | 0 <= k < |s.stages| ensures Untouched(s, t, k) {
      if SlotOf(s.stages[k]).Some? {
        SlotHeld(s, k);
      }
    }
    OthersKeep(s, t, |s.stages|);
    assert forall j: nat, r: U32 :: Dying(t, j, r) ==> Dying(s, j, r);
  }

  lemma KeepDecline(s: System, k: nat)
    requires Inv(s) && k < |s.stages| && s.stages[k] == Waiting && k in s.server
    ensures Inv(DeclineChannel(s, k))
  {
    var u, t := Up(Deny, 0, k, s.server[k].remote), DeclineChannel(s, k);
    assert StageOk(s, k);
    forall j | 0 <= j < |s.stages| ensures Ups(t.up, j) == if j == k then Ups(s.up, k) + [u] else Ups(s.up, j) {
      UpsPush(s.up, u, j);
    }
    assert StageOk(t, k);
    SameRemotes(s, t, k);
    RemoteKeeps(s, t, k);
  }

  // ---- whole runs

  lemma KeepClientOpen(s: System, i: nat, downId: U32)
    requires Inv(s) && Step(s, ClientOpen(i, downId)).Running?
    ensures Inv(Step(s, ClientOpen(i, downId)).sys)
  {
    if i < |s.table| && s.table[i].Client? {
      var a := s.table[i].addr;
      ClientHere(s, i, downId);
      KeepOpen(s, Mux(a, downId), ByClient(ConnAt(s.who, a), a, downId));
    }
  }

  lemma KeepClientEvent(s: System, e: Event)
    requires Inv(s) && Step(s, e).Running? && (e.ClientConfirm? || e.Decline? || e.ClientClose?)
    ensures Inv(Step(s, e).sys)
  {
    match e
    case ClientConfirm(i, k, downId) =>
      if MayConfirm(s, i, k) {
        KeepConfirm(s, i, k, downId);
      }
    case Decline(k) =>
      if k < |s.stages| && s.stages[k] == Waiting && k in s.server {
        KeepDecline(s, k);
      }
    case ClientClose(k) =>
      if s.swept && Closable(s, k).Some? {
        KeepClientClose(s, k, Closable(s, k).value);
      }
  }

  lemma KeepServerSend(s: System, k: nat)
    requires Inv(s)
    ensures Step(s, ServerSend(k)).Running? && Inv(Step(s, ServerSend(k)).sys)
  {
    if k in s.server && s.server[k].peer.Some? && !s.server[k].sent {
      KeepSend(s, k);
    }
  }

  lemma KeepServerEnd(s: System, k: nat)
    requires Inv(s)
    ensures Step(s, ServerClose(k)).Running? && Inv(Step(s, ServerClose(k)).sys)
  {
    if k in s.server && s.server[k].peer.Some? && !s.server[k].sent {
      KeepServerClose(s, k);
    }
  }

  lemma KeepStep(s: System, e: Event)
    requires Inv(s) && Step(s, e).Running?
    ensures Inv(Step(s, e).sys)
  {
    if e.ClientConfirm? || e.Decline? || e.ClientClose? {
      KeepClientEvent(s, e);
    } else {
      match e
      case Connect(a) => if !Connected(s.table, a) { KeepConnect(s, a); }
      case Sweep(w) => KeepSweep(s, w);
      case ClientOpen(i, downId) => KeepClientOpen(s, i, downId);
      case MasterOpen => KeepOpen(s, Opening, ByMaster);
      case Deliver => KeepDeliver(s);
      case Serve(accept) => KeepServe(s, accept);
      case ServerSend(k) => KeepServerSend(s, k);
      case ServerClose(k) => KeepServerEnd(s, k);
      case ServerOffer(conn, r) => if Unused(s.server, r) { KeepServerOffer(s, conn, r); }
    }
  }

  lemma KeepDeliver(s: System)
    requires Inv(s) && Receive(s).Running?
    ensures Inv(Receive(s).sys)
  {
    if s.down != [] {
      if s.down[0].Offer? {
        KeepOffer(s);
      } else {
        KeepReceive(s);
      }
    }
  }

  lemma KeepServe(s: System, accept: Option<U32>)
    requires Inv(s)
    ensures ServeOne(s, accept).Running? && Inv(ServeOne(s, accept).sys)
  {
    if s.up != [] {
      if s.up[0].kind == Ask {
        KeepAsk(s, accept);
      } else {
        KeepAnswer(s, accept);
      }
    }
  }

  lemma StartKeeps()
    ensures Inv(Start)
  {
    assert |Start.table| == 10 && forall i :: 0 <= i < 10 ==> Start.table[i] == Free;
    assert SlotsOk(Start) && RemotesOk(Start) && NoneLinger(Start.table);
  }

  /** Every run the master survives ends in a state that satisfies the invariant. */
  lemma {:induction false} RunKeeps(events: seq<Event>)
    ensures Run(events).Running? ==> Inv(Run(events).sys)
  {
    if events == [] {
      StartKeeps();
    } else {
      var init := events[..|events| - 1];
      RunKeeps(init);
      if Run(init).Running? && Run(events).Running? {
        KeepStep(Run(init).sys, events[|events| - 1]);
      }
    }
  }

  /**
   Every message ever put towards a client carries the number that the client chose which opened the channel, and reached
   that client unless it was marked dead while the channel was open.
   */
  lemma RoutedToOwner(events: seq<Event>, d: Delivery)
    requires Run(events).Running? && d in Run(events).sys.delivered
    ensures var s := Run(events).sys;
      && d.serial < |s.births| && s.births[d.serial].ByClient? && s.births[d.serial].downId == d.downId
      && (d.serial !in s.lost ==> d.to == Some(s.births[d.serial].conn))
  {
    RunKeeps(events);
  }

  lemma {:induction false} DownsMember(q: seq<Down>, m: Down)
    requires m in q
    ensures m in Downs(q, m.serial)
  {
    DownsPop(q, m.serial);
    if q[0] != m {
      DownsMember(q[1..], m);
    }
  }

  lemma {:induction false} FlowMember(ds: seq<Down>, i: nat, k: nat, r: U32, closing: bool, m: Down)
    requires Flow(ds, i, k, r, closing) && m in ds
    ensures m.Channel? && m.slot == i
  {
    if ds[0] != m {
      FlowMember(ds[1..], i, k, r, closing, m);
    }
  }

  /** A message on its way always finds its own channel in the slot it names, although slots are reused. */
  lemma InFlightIsAddressed(events: seq<Event>, m: Down)
    requires Run(events).Running? && m in Run(events).sys.down && m.Channel?
    ensures At(Run(events).sys, m.slot, m.serial)
  {
    RunKeeps(events);
    AddressedStage(Run(events).sys, m);
  }

  lemma AddressedStage(s: System, m: Down)
    requires Inv(s) && m in s.down && m.Channel?
    ensures At(s, m.slot, m.serial)
  {
    var k := m.serial;
    var ds := Downs(s.down, k);
    DownsMember(s.down, m);
    assert StageOk(s, k);
    match s.stages[k]
    case Accepted(i) =>
      if ds[0] != m {
        FlowMember(ds[1..], i, k, s.server[k].remote, s.server[k].sent, m);
      }
    case Established(i) =>
      FlowMember(ds, i, k, s.table[i].remote.value, k !in s.server || s.server[k].sent, m);
    case _ =>
  }
}
