/** What one pass of the garbage collector does to a channel table, and exactly when it is fatal. */
module MuxCollector {
  import opened Basics
  import opened MuxTable

  /** What holds of every channel in a reachable table, whatever the messages on their way. */
  predicate TableOk(table: seq<Slot>) {
    forall i :: 0 <= i < |table| && table[i].Chan? ==>
      OwnerOk(table[i]) && (table[i].remote == None ==> !table[i].closeSent && !table[i].closeRcvd)
  }

  /** A visit leaves the other slots as they are, but for the channels of a client that is freed. */
  lemma VisitOthers(table: seq<Slot>, i: nat, w: Found, j: nat)
    requires i < |table| && j < |table| && j != i && Visit(table, i, w).Kept?
    ensures var u := Visit(table, i, w).table;
      u[j] == if table[i].Client? && table[i].addr in w.Leaving() then Detach(table[j], table[i].addr) else table[j]
  {
  }

  lemma VisitKeeps(table: seq<Slot>, i: nat, w: Found)
    requires TableOk(table) && i < |table| && Visit(table, i, w).Kept?
    ensures TableOk(Visit(table, i, w).table)
  {
    var u := Visit(table, i, w).table;
    forall j | 0 <= j < |u| && u[j].Chan?
      ensures OwnerOk(u[j]) && (u[j].remote == None ==> !u[j].closeSent && !u[j].closeRcvd)
    {
      if j != i {
        VisitOthers(table, i, w, j);
      }
    }
  }

  /** The table after the pass from slot i on. */
  function After(table: seq<Slot>, i: nat, w: Found): seq<Slot>
    requires Pass(table, i, w).Some?
  {
    Pass(table, i, w).value.0
  }

  // ---- slot by slot

  lemma {:induction false} StaysFree(table: seq<Slot>, i: nat, w: Found, j: nat)
    requires Pass(table, i, w).Some? && j < |table| && table[j] == Free
    ensures j < |After(table, i, w)| && After(table, i, w)[j] == Free
    decreases |table| - i
  {
    if i < |table| {
      if j != i {
        VisitOthers(table, i, w, j);
      }
      StaysFree(Visit(table, i, w).table, i + 1, w, j);
    }
  }

  /** What a pass from slot i on makes of the channel t. */
  predicate Collected(t: Slot, u: Slot, reached: bool, w: Found)
    requires t.Chan?
  {
    && (u == Free || (u.Chan? && u.remote == t.remote && u.closeRcvd == t.closeRcvd))
    && (u == Free ==> t.owner == Zombie || t.closeRcvd)
    && (reached && t.owner == Orphan ==> if t.closeRcvd then u == Free else u.Chan? && u.closeSent)
    && (t.owner.Mux? && t.owner.client !in w.Leaving() ==> u == t)
    && (reached && t.closeSent && t.closeRcvd ==> u == Free)
    && (u.Chan? && u.closeSent && u.closeRcvd ==> t.closeSent)
    && (u.Chan? && t.closeSent ==> u.closeSent)
  }

  lemma {:induction false} PassSlot(table: seq<Slot>, i: nat, w: Found, j: nat)
    requires TableOk(table) && Pass(table, i, w).Some? && j < |table| && table[j].Chan?
    ensures j < |After(table, i, w)| && Collected(table[j], After(table, i, w)[j], j >= i, w)
    decreases |table| - i
  {
    if i < |table| {
      var u := Visit(table, i, w).table;
      VisitKeeps(table, i, w);
      if j != i {
        VisitOthers(table, i, w, j);
      }
      if u[j].Chan? {
        PassSlot(u, i + 1, w, j);
      } else {
        StaysFree(u, i + 1, w, j);
      }
    }
  }

  /** The channel t of a client that the pass from slot i on comes to and that takes leave of it. */
  predicate Deserted(table: seq<Slot>, i: nat, w: Found, t: Slot) {
    t.IsProxy() && t.owner.client in w.Leaving() && exists l :: i <= l < |table| && table[l] == Client(t.owner.client)
  }

  lemma DesertedLater(table: seq<Slot>, i: nat, w: Found, j: nat)
    requires i < |table| && Visit(table, i, w).Kept? && j < |table| && table[j].IsProxy()
    ensures var u := Visit(table, i, w).table;
      if u[j].IsProxy() then u[j] == table[j] && (Deserted(table, i, w, table[j]) <==> Deserted(u, i + 1, w, u[j]))
      else u[j].Chan? && Deserted(table, i, w, table[j])
  {
    var u := Visit(table, i, w).table;
    if j != i {
      VisitOthers(table, i, w, j);
    }
    if u[j].IsProxy() {
      if Deserted(table, i, w, table[j]) {
        var l :| i <= l < |table| && table[l] == Client(table[j].owner.client);
        assert l != i;
        VisitOthers(table, i, w, l);
        assert u[l] == Client(table[j].owner.client);
      }
      if Deserted(u, i + 1, w, u[j]) {
        var l :| i + 1 <= l < |u| && u[l] == Client(u[j].owner.client);
        VisitOthers(table, i, w, l);
        assert table[l] == Client(table[j].owner.client);
      }
    }
  }

  /** A pass takes a client's channel away from it exactly if the client takes leave in the pass; it makes no new ones. */
  lemma {:induction false} PassProxies(table: seq<Slot>, i: nat, w: Found, j: nat)
    requires Pass(table, i, w).Some? && j < |table|
    ensures j < |After(table, i, w)|
    ensures var u := After(table, i, w)[j];
      if table[j].IsProxy() && !Deserted(table, i, w, table[j]) then u == table[j] else !u.IsProxy()
    decreases |table| - i
  {
    if i < |table| {
      var u := Visit(table, i, w).table;
      if table[j].IsProxy() {
        DesertedLater(table, i, w, j);
      } else if j != i {
        VisitOthers(table, i, w, j);
      }
      PassProxies(u, i + 1, w, j);
    }
  }

  lemma {:induction false} PassLength(table: seq<Slot>, i: nat, w: Found)
    requires Pass(table, i, w).Some?
    ensures |After(table, i, w)| == |table|
    ensures forall j :: 0 <= j < |table| && After(table, i, w)[j].Chan? ==> table[j].Chan?
    decreases |table| - i
  {
    if i < |table| {
      var u := Visit(table, i, w).table;
      PassLength(u, i + 1, w);
      forall j | 0 <= j < |table| && u[j].Chan? ensures table[j].Chan? {
        if j != i {
          VisitOthers(table, i, w, j);
        }
      }
    }
  }

  /** After a whole pass nothing that is closed both ways is left. */
  lemma PassLeavesNone(table: seq<Slot>, w: Found)
    requires TableOk(table) && Pass(table, 0, w).Some?
    ensures NoneLinger(After(table, 0, w))
  {
    PassLength(table, 0, w);
    var u := After(table, 0, w);
    forall j | 0 <= j < |u| && u[j].Chan? ensures !(u[j].closeSent && u[j].closeRcvd) {
      PassSlot(table, 0, w, j);
    }
  }

  // ---- when the pass is fatal

  /** The pass from slot i reaches slot j with the channel there unnumbered and without a client. */
  predicate Struck(table: seq<Slot>, i: nat, w: Found, j: nat) {
    && i <= j < |table| && table[j].Chan? && table[j].remote == None
    && (|| table[j].owner == Orphan
        || (&& table[j].owner.Mux? && table[j].owner.client in w.Leaving()
            && exists l :: i <= l < j && table[l] == Client(table[j].owner.client)))
  }

  lemma StruckLater(table: seq<Slot>, i: nat, w: Found, j: nat)
    requires i < |table| && Visit(table, i, w).Kept? && j != i
    ensures Struck(table, i, w, j) <==> Struck(Visit(table, i, w).table, i + 1, w, j)
  {
    var u := Visit(table, i, w).table;
    if i < j < |table| {
      VisitOthers(table, i, w, j);
      if Struck(table, i, w, j) && table[j].owner.Mux? && u[j] == table[j] {
        var l :| i <= l < j && table[l] == Client(table[j].owner.client);
        assert l != i;
        VisitOthers(table, i, w, l);
        assert u[l] == Client(u[j].owner.client);
      }
      if Struck(u, i + 1, w, j) && u[j].owner.Mux? {
        var l :| i + 1 <= l < j && u[l] == Client(u[j].owner.client);
        VisitOthers(table, i, w, l);
        assert table[l] == Client(table[j].owner.client);
      }
    }
  }

  ghost predicate AnyStruck(table: seq<Slot>, i: nat, w: Found) { exists j: nat :: Struck(table, i, w, j) }

  lemma AnyStruckLater(table: seq<Slot>, i: nat, w: Found)
    requires i < |table| && Visit(table, i, w).Kept? && !Struck(table, i, w, i)
    ensures AnyStruck(table, i, w) <==> AnyStruck(Visit(table, i, w).table, i + 1, w)
  {
    var u, n := Visit(table, i, w).table, i + 1;
    if AnyStruck(table, i, w) {
      var j: nat :| Struck(table, i, w, j);
      StruckLater(table, i, w, j);
      assert Struck(u, n, w, j);
    }
    if AnyStruck(u, n, w) {
      var j: nat :| Struck(u, n, w, j);
      StruckLater(table, i, w, j);
      assert Struck(table, i, w, j);
    }
  }

  lemma VisitFatalIff(table: seq<Slot>, i: nat, w: Found)
    requires TableOk(table) && i < |table|
    ensures Visit(table, i, w).Fatal? <==> Struck(table, i, w, i)
  {
  }

  lemma {:induction false} PassFatalIff(table: seq<Slot>, i: nat, w: Found)
    requires TableOk(table)
    ensures Pass(table, i, w) == None <==> AnyStruck(table, i, w)
    decreases |table| - i
  {
    if i < |table| {
      VisitFatalIff(table, i, w);
      if Visit(table, i, w).Kept? {
        var u := Visit(table, i, w).table;
        VisitKeeps(table, i, w);
        PassFatalIff(u, i + 1, w);
        AnyStruckLater(table, i, w);
      }
    }
  }

  /** A channel without a client that the server never numbered. */
  predicate Stranded(table: seq<Slot>, j: nat) {
    j < |table| && table[j].Chan? && table[j].owner == Orphan && table[j].remote == None
  }

  /** An unnumbered channel whose client has gone, or is one of those that the pass from slot i will find leaving. */
  predicate Forsaken(table: seq<Slot>, i: nat, w: Found, j: nat) {
    && j < |table| && table[j].Chan? && table[j].remote == None
    && (|| table[j].owner == Orphan
        || (&& table[j].owner.Mux? && table[j].owner.client in w.Leaving()
            && exists l :: i <= l < |table| && table[l] == Client(table[j].owner.client)))
  }

  lemma ForsakenLater(table: seq<Slot>, i: nat, w: Found, j: nat)
    requires TableOk(table) && i < |table| && Visit(table, i, w).Kept?
    ensures Forsaken(table, i, w, j) <==> Forsaken(Visit(table, i, w).table, i + 1, w, j)
  {
    var u := Visit(table, i, w).table;
    if j < |table| {
      if j != i {
        VisitOthers(table, i, w, j);
      }
      if Forsaken(table, i, w, j) && table[j].owner.Mux? && u[j] == table[j] {
        var l :| i <= l < |table| && table[l] == Client(table[j].owner.client);
        assert l != i;
        VisitOthers(table, i, w, l);
        assert u[l] == Client(u[j].owner.client);
      }
      if Forsaken(u, i + 1, w, j) && u[j].owner.Mux? {
        var l :| i + 1 <= l < |u| && u[l] == Client(u[j].owner.client);
        VisitOthers(table, i, w, l);
        assert table[l] == Client(table[j].owner.client);
      }
    }
  }

  ghost predicate AnyStranded(table: seq<Slot>) { exists j: nat :: Stranded(table, j) }

  ghost predicate AnyForsaken(table: seq<Slot>, i: nat, w: Found) { exists j: nat :: Forsaken(table, i, w, j) }

  lemma AnyForsakenLater(table: seq<Slot>, i: nat, w: Found)
    requires TableOk(table) && i < |table| && Visit(table, i, w).Kept?
    ensures AnyForsaken(table, i, w) <==> AnyForsaken(Visit(table, i, w).table, i + 1, w)
  {
    var u, n := Visit(table, i, w).table, i + 1;
    if AnyForsaken(table, i, w) {
      var j: nat :| Forsaken(table, i, w, j);
      ForsakenLater(table, i, w, j);
      assert Forsaken(u, n, w, j);
    }
    if AnyForsaken(u, n, w) {
      var j: nat :| Forsaken(u, n, w, j);
      ForsakenLater(table, i, w, j);
      assert Forsaken(table, i, w, j);
    }
  }

  /** A pass is fatal, or leaves a stranded channel for the next, exactly when some unnumbered channel has no client. */
  lemma {:induction false} PassStrandsIff(table: seq<Slot>, i: nat, w: Found)
    requires TableOk(table)
    ensures Pass(table, i, w) == None || AnyStranded(After(table, i, w)) <==> AnyForsaken(table, i, w)
    decreases |table| - i
  {
    if i >= |table| {
      assert forall j: nat {:trigger Stranded(table, j)} {:trigger Forsaken(table, i, w, j)} ::
          Forsaken(table, i, w, j) <==> Stranded(table, j);
    } else {
      VisitFatalIff(table, i, w);
      if Visit(table, i, w).Fatal? {
        assert Forsaken(table, i, w, i);
      } else {
        var u := Visit(table, i, w).table;
        VisitKeeps(table, i, w);
        PassStrandsIff(u, i + 1, w);
        AnyForsakenLater(table, i, w);
      }
    }
  }
}
