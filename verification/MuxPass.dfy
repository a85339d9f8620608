/**
 What a whole pass of the garbage collector makes of every slot and what it sends, said of the table it starts from:
 the pass itself changes the table as it goes, and a client that it frees changes slots before and behind it.
 */
module MuxPass {
  import opened Basics
  import opened MuxTable
  import opened MuxCollector

  /** The channel t is taken from its client by a client freed in the slots [lo, hi). */
  predicate TakenAway(table: seq<Slot>, lo: nat, hi: nat, w: Found, t: Slot) {
    t.IsProxy() && t.owner.client in w.Leaving() && exists l :: lo <= l < hi && l < |table| && table[l] == Client(t.owner.client)
  }

  /** A channel whose halves are both closed: freed when the server has closed it, else with the CLOSE sent. */
  function Shut(t: Slot): Slot
    requires t.Chan?
  {
    if t.closeRcvd then Free else t.(closeSent := true)
  }

  /**
   What the pass from slot i on makes of slot j. The master's own channels are closed if CLOSE has been sent on them
   or their slot is in `done`, and nothing happens to the others. A client's channel is closed at once if the client is
   freed in an earlier slot, and only taken from the client if that is in a later one.
   */
  function Outcome(table: seq<Slot>, i: nat, w: Found, j: nat): Slot
    requires j < |table|
  {
    match table[j]
    case Free => Free
    case Client(addr) => if j >= i && (addr in w.eof || addr in w.dead) then Free else table[j]
    case Chan(owner, remote, closeSent, closeRcvd) =>
      match owner
      case Opening => table[j]
      case Zombie => if j >= i then Free else table[j]
      case Own => if j >= i && (closeSent || j in w.done) then Shut(table[j]) else table[j]
      case Orphan => if j >= i then Shut(table[j]) else table[j]
      case Mux(_, _) =>
        var left := table[j].(owner := Orphan);
        if j >= i && TakenAway(table, i, j, w, table[j]) then Shut(left)
        else if TakenAway(table, i, |table|, w, table[j]) then left
        else table[j]
  }

  lemma TakenLater(table: seq<Slot>, i: nat, w: Found, t: Slot, hi: nat)
    requires i < |table| && Visit(table, i, w).Kept? && i < hi
    requires t.IsProxy() && !(t.owner.client in w.Leaving() && table[i] == Client(t.owner.client))
    ensures TakenAway(table, i, hi, w, t) <==> TakenAway(Visit(table, i, w).table, i + 1, hi, w, t)
  {
    var u := Visit(table, i, w).table;
    if TakenAway(table, i, hi, w, t) {
      var l :| i <= l < hi && l < |table| && table[l] == Client(t.owner.client);
      VisitOthers(table, i, w, l);
      assert u[l] == Client(t.owner.client);
    }
    if TakenAway(u, i + 1, hi, w, t) {
      var l :| i + 1 <= l < hi && l < |u| && u[l] == Client(t.owner.client);
      VisitOthers(table, i, w, l);
      assert table[l] == Client(t.owner.client);
    }
  }

  /** Visiting slot i changes nothing about what will have become of slot j. */
  lemma OutcomeLater(table: seq<Slot>, i: nat, w: Found, j: nat)
    requires i < |table| && Visit(table, i, w).Kept? && j < |table|
    ensures Outcome(table, i, w, j) == Outcome(Visit(table, i, w).table, i + 1, w, j)
  {
    if j == i {
      OutcomeHere(table, i, w);
    } else {
      VisitOthers(table, i, w, j);
      if table[j].IsProxy() {
        OutcomeProxy(table, i, w, j);
      }
    }
  }

  lemma OutcomeHere(table: seq<Slot>, i: nat, w: Found)
    requires i < |table| && Visit(table, i, w).Kept?
    ensures Outcome(table, i, w, i) == Outcome(Visit(table, i, w).table, i + 1, w, i)
  {
    if table[i].IsProxy() {
      TakenLater(table, i, w, table[i], |table|);
    }
  }

  lemma OutcomeProxy(table: seq<Slot>, i: nat, w: Found, j: nat)
    requires i < |table| && Visit(table, i, w).Kept? && j < |table| && j != i && table[j].IsProxy()
    ensures Outcome(table, i, w, j) == Outcome(Visit(table, i, w).table, i + 1, w, j)
  {
    var t := table[j];
    VisitOthers(table, i, w, j);
    if t.owner.client in w.Leaving() && table[i] == Client(t.owner.client) {
      assert TakenAway(table, i, |table|, w, t) && (j > i ==> TakenAway(table, i, j, w, t));
    } else {
      TakenLater(table, i, w, t, |table|);
      if j > i {
        TakenLater(table, i, w, t, j);
      }
    }
  }

  /** Every slot after the pass is what Outcome says of the table before it. */
  lemma {:induction false} PassOutcome(table: seq<Slot>, i: nat, w: Found, j: nat)
    requires Pass(table, i, w).Some? && j < |table|
    ensures |After(table, i, w)| == |table| && After(table, i, w)[j] == Outcome(table, i, w, j)
    decreases |table| - i
  {
    if i < |table| {
      OutcomeLater(table, i, w, j);
      PassOutcome(Visit(table, i, w).table, i + 1, w, j);
    }
  }

  // ---- what is sent

  /** The pass from slot i on sends a CLOSE on the channel in slot j. */
  predicate Closes(table: seq<Slot>, i: nat, w: Found, j: nat)
    requires j < |table|
  {
    var t := table[j];
    && j >= i && t.Chan? && !t.closeSent && t.remote.Some?
    && (t.owner == Orphan || (t.owner == Own && j in w.done) || TakenAway(table, i, j, w, t))
  }

  /** The CLOSEs for the slots from j on, in order, each with the server's number for the channel. */
  function ClosesFrom(table: seq<Slot>, i: nat, w: Found, j: nat): seq<(nat, U32)>
    decreases |table| - j
  {
    if j >= |table| then []
    else (if Closes(table, i, w, j) then [(j, table[j].remote.value)] else []) + ClosesFrom(table, i, w, j + 1)
  }

  lemma ClosesLater(table: seq<Slot>, i: nat, w: Found, j: nat)
    requires i < |table| && Visit(table, i, w).Kept? && i < j < |table|
    ensures var u := Visit(table, i, w).table;
      (Closes(table, i, w, j) <==> Closes(u, i + 1, w, j)) && (u[j].Chan? <==> table[j].Chan?) && (u[j].Chan? ==> u[j].remote == table[j].remote)
  {
    var t := table[j];
    VisitOthers(table, i, w, j);
    if t.IsProxy() {
      if t.owner.client in w.Leaving() && table[i] == Client(t.owner.client) {
        assert TakenAway(table, i, j, w, t);
      } else {
        TakenLater(table, i, w, t, j);
      }
    }
  }

  lemma {:induction false} ClosesFromLater(table: seq<Slot>, i: nat, w: Found, j: nat)
    requires i < |table| && Visit(table, i, w).Kept? && i < j
    ensures ClosesFrom(table, i, w, j) == ClosesFrom(Visit(table, i, w).table, i + 1, w, j)
    decreases |table| - j
  {
    if j < |table| {
      ClosesLater(table, i, w, j);
      ClosesFromLater(table, i, w, j + 1);
    }
  }

  lemma ClosesHere(table: seq<Slot>, i: nat, w: Found)
    requires i < |table| && Visit(table, i, w).Kept?
    ensures Visit(table, i, w).close == if Closes(table, i, w, i) then table[i].remote else None
  {
  }

  /** What the pass sends are those CLOSEs and no others. */
  lemma {:induction false} PassSends(table: seq<Slot>, i: nat, w: Found)
    requires Pass(table, i, w).Some?
    ensures Pass(table, i, w).value.1 == ClosesFrom(table, i, w, i)
    decreases |table| - i
  {
    if i < |table| {
      ClosesHere(table, i, w);
      ClosesFromLater(table, i, w, i + 1);
      PassSends(Visit(table, i, w).table, i + 1, w);
    }
  }

  /** The numbers of the CLOSEs sent for slot k. */
  function SentFor(sent: seq<(nat, U32)>, k: nat): seq<U32> {
    if sent == [] then [] else (if sent[0].0 == k then [sent[0].1] else []) + SentFor(sent[1..], k)
  }

  lemma SentFirst(c: (nat, U32), rest: seq<(nat, U32)>, k: nat)
    ensures SentFor([c] + rest, k) == if c.0 == k then [c.1] + SentFor(rest, k) else SentFor(rest, k)
  {
    assert ([c] + rest)[1..] == rest;
  }

  /** No slot sends more than one. */
  lemma {:induction false} ClosesOnce(table: seq<Slot>, i: nat, w: Found, j: nat, k: nat)
    requires k < |table|
    ensures SentFor(ClosesFrom(table, i, w, j), k) == if k >= j && Closes(table, i, w, k) then [table[k].remote.value] else []
    decreases |table| - j
  {
    if j < |table| {
      ClosesOnce(table, i, w, j + 1, k);
      var rest := ClosesFrom(table, i, w, j + 1);
      if Closes(table, i, w, j) {
        SentFirst((j, table[j].remote.value), rest, k);
      } else {
        assert ClosesFrom(table, i, w, j) == rest;
      }
    }
  }

  /**
   One of the master's own channels in a pass. If its halves are not both closed and no CLOSE has been sent, it stays
   as it is and sends nothing; if they are, it sends one CLOSE with its number, unless it has sent one before; and
   it is freed exactly if it has received one too.
   */
  lemma OwnInPass(table: seq<Slot>, i: nat, w: Found, j: nat)
    requires TableOk(table) && Pass(table, i, w).Some? && i <= j < |table| && table[j].Chan? && table[j].owner == Own
    ensures |After(table, i, w)| == |table|
    ensures var t, u, sent := table[j], After(table, i, w)[j], SentFor(Pass(table, i, w).value.1, j);
      if t.closeSent then sent == [] && u == (if t.closeRcvd then Free else t)
      else if j in w.done then sent == [t.remote.value] && u == (if t.closeRcvd then Free else t.(closeSent := true))
      else sent == [] && u == t
  {
    PassOutcome(table, i, w, j);
    PassSends(table, i, w);
    ClosesOnce(table, i, w, i, j);
  }
}
