/** The queue of callbacks for replies to global requests (clientloop.c), run-length coded, against a plain FIFO. */
module GlobalConfirm {
  import opened Basics

  /** A callback, possibly NULL, and its context. */
  datatype Item = Item(cb: Option<nat>, ctx: nat)

  /** struct global_confirm */
  datatype Confirm = Confirm(item: Item, refs: int)

  function Copies(x: Item, n: int): seq<Item> {
    if n <= 0 then [] else [x] + Copies(x, n - 1)
  }

  /** The queue without its run-length coding. */
  function Flat(q: seq<Confirm>): seq<Item> {
    if q == [] then [] else Copies(q[0].item, q[0].refs) + Flat(q[1..])
  }

  predicate RefsOk(q: seq<Confirm>) { forall i :: 0 <= i < |q| ==> 1 <= q[i].refs < INT_MAX }

  // ---- client_register_global_confirm and client_global_request_reply

  /** None when the reference count gets out of hand, which is fatal. */
  function Register(q: seq<Confirm>, x: Item): Option<seq<Confirm>> {
    var n := |q|;
    if n > 0 && q[n - 1].item == x then
      if q[n - 1].refs + 1 >= INT_MAX then None else Some(q[n - 1 := Confirm(x, q[n - 1].refs + 1)])
    else Some(q + [Confirm(x, 1)])
  }

  function RegisterAll(q: seq<Confirm>, xs: seq<Item>): Option<seq<Confirm>>
    decreases |xs|
  {
    if xs == [] then Some(q)
    else match Register(q, xs[0])
      case None => None
      case Some(r) => RegisterAll(r, xs[1..])
  }

  function Release(q: seq<Confirm>): seq<Confirm>
    requires q != []
  {
    var refs := q[0].refs - 1;
    if refs <= 0 then q[1..] else q[0 := Confirm(q[0].item, refs)]
  }

  /** A reply runs the first callback, which registers `inside`, and then drops one reference to it. */
  function Reply(q: seq<Confirm>, inside: seq<Item>): Option<seq<Confirm>> {
    if q == [] then Some(q)
    else match RegisterAll(q, if q[0].item.cb.Some? then inside else [])
      case None => None
      case Some(r) => if r == [] then None else Some(Release(r))
  }

  // ---- the FIFO it stands for

  lemma {:induction false} CopiesMore(x: Item, n: int)
    requires n >= 0
    ensures Copies(x, n + 1) == Copies(x, n) + [x] && |Copies(x, n)| == n
  {
    if n > 0 {
      CopiesMore(x, n - 1);
    }
  }

  lemma {:induction false} FlatPush(q: seq<Confirm>, c: Confirm)
    ensures Flat(q + [c]) == Flat(q) + Copies(c.item, c.refs)
  {
    if q != [] {
      FlatPush(q[1..], c);
      assert (q + [c])[1..] == q[1..] + [c];
    }
  }

  predicate SameFirst(q: seq<Confirm>, r: seq<Confirm>) {
    q != [] ==> r != [] && r[0].item == q[0].item && r[0].refs >= q[0].refs
  }

  lemma CoalescedFlat(init: seq<Confirm>, x: Item, n: int)
    requires n >= 0
    ensures Flat(init + [Confirm(x, n + 1)]) == Flat(init + [Confirm(x, n)]) + [x]
  {
    CopiesMore(x, n);
    FlatPush(init, Confirm(x, n));
    FlatPush(init, Confirm(x, n + 1));
    var a, b := Flat(init), Copies(x, n);
    assert a + (b + [x]) == (a + b) + [x];
  }

  lemma PushedFlat(q: seq<Confirm>, x: Item)
    ensures Flat(q + [Confirm(x, 1)]) == Flat(q) + [x]
  {
    FlatPush(q, Confirm(x, 1));
    assert Copies(x, 1) == [x] + Copies(x, 0);
  }

  /** A registration adds an entry or counts up the last one. */
  lemma RegisterForms(q: seq<Confirm>, x: Item, r: seq<Confirm>)
    requires Register(q, x) == Some(r)
    ensures var n := |q| - 1;
      if n >= 0 && q[n].item == x then q == q[..n] + [Confirm(x, q[n].refs)] && r == q[..n] + [Confirm(x, q[n].refs + 1)]
      else r == q + [Confirm(x, 1)]
  {
  }

  lemma RegisterFlat(q: seq<Confirm>, x: Item, r: seq<Confirm>)
    requires RefsOk(q) && Register(q, x) == Some(r)
    ensures Flat(r) == Flat(q) + [x]
  {
    var n := |q| - 1;
    RegisterForms(q, x, r);
    if n >= 0 && q[n].item == x {
      CoalescedFlat(q[..n], x, q[n].refs);
    } else {
      PushedFlat(q, x);
    }
  }

  lemma RegisterAppends(q: seq<Confirm>, x: Item, r: seq<Confirm>)
    requires RefsOk(q) && Register(q, x) == Some(r)
    ensures RefsOk(r) && SameFirst(q, r) && Flat(r) == Flat(q) + [x]
  {
    RegisterFlat(q, x, r);
  }

  lemma Regroup(a: seq<Item>, b: seq<Item>)
    requires b != []
    ensures (a + [b[0]]) + b[1..] == a + b
  {
  }

  lemma {:induction false} RegisterAllAppends(q: seq<Confirm>, xs: seq<Item>, r: seq<Confirm>)
    requires RefsOk(q) && RegisterAll(q, xs) == Some(r)
    ensures RefsOk(r) && SameFirst(q, r) && Flat(r) == Flat(q) + xs
    decreases |xs|
  {
    if xs != [] {
      var next := Register(q, xs[0]).value;
      RegisterAppends(q, xs[0], next);
      RegisterAllAppends(next, xs[1..], r);
      Regroup(Flat(q), xs);
    }
  }

  lemma FlatCons(c: Confirm, rest: seq<Confirm>)
    ensures Flat([c] + rest) == Copies(c.item, c.refs) + Flat(rest)
  {
    assert ([c] + rest)[1..] == rest;
  }

  /** What is left of the queue once its first item has run. */
  function Left(q: seq<Confirm>): seq<Item>
    requires q != []
  {
    Copies(q[0].item, q[0].refs - 1) + Flat(q[1..])
  }

  lemma Regrouped(x: Item, a: seq<Item>, b: seq<Item>)
    ensures ([x] + a) + b == [x] + (a + b)
  {
  }

  lemma FlatFirst(q: seq<Confirm>)
    requires q != [] && q[0].refs >= 1
    ensures Flat(q) == [q[0].item] + Left(q)
  {
    Regrouped(q[0].item, Copies(q[0].item, q[0].refs - 1), Flat(q[1..]));
  }

  lemma ReleasedFlat(q: seq<Confirm>)
    requires q != [] && q[0].refs >= 1
    ensures Flat(Release(q)) == Left(q)
  {
    var x, n, rest := q[0].item, q[0].refs, q[1..];
    if n > 1 {
      assert Release(q) == [Confirm(x, n - 1)] + rest;
      FlatCons(Confirm(x, n - 1), rest);
    } else {
      assert Copies(x, 0) + Flat(rest) == Flat(rest);
    }
  }

  lemma ReleaseDrops(q: seq<Confirm>)
    requires RefsOk(q) && q != []
    ensures RefsOk(Release(q)) && Flat(q) != [] && Flat(q)[0] == q[0].item && Flat(Release(q)) == Flat(q)[1..]
  {
    FlatFirst(q);
    ReleasedFlat(q);
    HeadOff(q[0].item, Left(q));
  }

  lemma TailOff(a: seq<Item>, b: seq<Item>)
    requires a != []
    ensures (a + b)[1..] == a[1..] + b
  {
  }

  lemma HeadOff(x: Item, a: seq<Item>)
    ensures ([x] + a)[0] == x && ([x] + a)[1..] == a
  {
  }

  /** A reply takes the oldest registration off the FIFO and adds what its callback registered. */
  lemma ReplyTakesFirst(q: seq<Confirm>, inside: seq<Item>)
    requires RefsOk(q) && q != []
    ensures Flat(q) != [] && Flat(q)[0] == q[0].item
    ensures var xs := if q[0].item.cb.Some? then inside else [];
      Reply(q, inside).None? <==> RegisterAll(q, xs).None?
    ensures Reply(q, inside).Some? ==>
      var r := Reply(q, inside).value;
      RefsOk(r) && Flat(r) == Flat(q)[1..] + if q[0].item.cb.Some? then inside else []
  {
    var xs := if q[0].item.cb.Some? then inside else [];
    ReleaseDrops(q);
    if RegisterAll(q, xs).Some? {
      var r := RegisterAll(q, xs).value;
      RegisterAllAppends(q, xs, r);
      ReleaseDrops(r);
      TailOff(Flat(q), xs);
    }
  }

  // ---- whole runs

  datatype Event = Registered(x: Item) | Replied(inside: seq<Item>)

  /** The queue, everything ever registered and every callback run, in order. */
  datatype Trace = Trace(q: seq<Confirm>, registered: seq<Item>, ran: seq<Item>) | Fatal

  function Step(t: Trace, e: Event): Trace
    requires t.Trace?
  {
    match e
    case Registered(x) =>
      (match Register(t.q, x) case None => Fatal case Some(r) => Trace(r, t.registered + [x], t.ran))
    case Replied(inside) =>
      if t.q == [] then t
      else match Reply(t.q, inside)
        case None => Fatal
        case Some(r) =>
          Trace(r, t.registered + (if t.q[0].item.cb.Some? then inside else []), t.ran + [t.q[0].item])
  }

  function Run(events: seq<Event>): Trace {
    if events == [] then Trace([], [], [])
    else
      var t := Run(events[..|events| - 1]);
      if t.Fatal? then Fatal else Step(t, events[|events| - 1])
  }

  /** What has run and what waits is what was registered. */
  lemma {:induction false} RunKeeps(events: seq<Event>)
    requires Run(events).Trace?
    ensures var t := Run(events); RefsOk(t.q) && t.ran + Flat(t.q) == t.registered
  {
    if events != [] {
      var init := events[..|events| - 1];
      RunKeeps(init);
      StepKeeps(Run(init), events[|events| - 1]);
    }
  }

  lemma StepKeeps(t: Trace, e: Event)
    requires t.Trace? && RefsOk(t.q) && t.ran + Flat(t.q) == t.registered && Step(t, e).Trace?
    ensures var u := Step(t, e); RefsOk(u.q) && u.ran + Flat(u.q) == u.registered
  {
    match e
    case Registered(x) =>
      RegisterAppends(t.q, x, Register(t.q, x).value);
      assert t.ran + (Flat(t.q) + [x]) == (t.ran + Flat(t.q)) + [x];
    case Replied(inside) =>
      if t.q != [] {
        ReplyTakesFirst(t.q, inside);
        Moved(t.ran, Flat(t.q), if t.q[0].item.cb.Some? then inside else []);
      }
  }

  lemma Moved(a: seq<Item>, b: seq<Item>, c: seq<Item>)
    requires b != []
    ensures (a + [b[0]]) + (b[1..] + c) == (a + b) + c
  {
  }

  /** The k-th reply runs the k-th registration, however registrations and replies interleave. */
  lemma RepliesInOrder(events: seq<Event>, k: nat)
    requires Run(events).Trace? && k < |Run(events).ran|
    ensures var t := Run(events); k < |t.registered| && t.ran[k] == t.registered[k]
  {
    RunKeeps(events);
  }

  /** A reply finds nothing to run exactly when every registration has been answered. */
  lemma NothingWaitsIff(events: seq<Event>)
    requires Run(events).Trace?
    ensures var t := Run(events); t.q == [] <==> |t.ran| == |t.registered|
  {
    RunKeeps(events);
    var t := Run(events);
    if t.q != [] {
      ReleaseDrops(t.q);
    }
  }

  // ---- the coding itself

  /** No two neighbouring entries could be one. */
  predicate Coalesced(q: seq<Confirm>) { forall i :: 0 <= i < |q| - 1 ==> q[i].item != q[i + 1].item }

  lemma RegisterCoalesces(q: seq<Confirm>, x: Item, r: seq<Confirm>)
    requires Coalesced(q) && Register(q, x) == Some(r)
    ensures Coalesced(r)
  {
    RegisterForms(q, x, r);
  }

  lemma {:induction false} RegisterAllCoalesces(q: seq<Confirm>, xs: seq<Item>, r: seq<Confirm>)
    requires Coalesced(q) && RegisterAll(q, xs) == Some(r)
    ensures Coalesced(r)
    decreases |xs|
  {
    if xs != [] {
      RegisterCoalesces(q, xs[0], Register(q, xs[0]).value);
      RegisterAllCoalesces(Register(q, xs[0]).value, xs[1..], r);
    }
  }

  lemma StepCoalesces(t: Trace, e: Event)
    requires t.Trace? && Coalesced(t.q) && Step(t, e).Trace?
    ensures Coalesced(Step(t, e).q)
  {
    match e
    case Registered(x) => RegisterCoalesces(t.q, x, Register(t.q, x).value);
    case Replied(inside) =>
      if t.q != [] {
        var xs := if t.q[0].item.cb.Some? then inside else [];
        RegisterAllCoalesces(t.q, xs, RegisterAll(t.q, xs).value);
      }
  }

  lemma {:induction false} RunCoalesces(events: seq<Event>)
    requires Run(events).Trace?
    ensures Coalesced(Run(events).q)
  {
    if events != [] {
      RunCoalesces(events[..|events| - 1]);
      StepCoalesces(Run(events[..|events| - 1]), events[|events| - 1]);
    }
  }

  /** The last n items are all x. */
  predicate EndsWith(xs: seq<Item>, x: Item, n: nat) {
    n <= |xs| && forall i :: |xs| - n <= i < |xs| ==> xs[i] == x
  }

  lemma {:induction false} CopiesAre(x: Item, n: nat)
    ensures |Copies(x, n)| == n && forall i :: 0 <= i < n ==> Copies(x, n)[i] == x
  {
    if n > 0 {
      CopiesAre(x, n - 1);
    }
  }

  /** A sequence that ends in exactly m copies of y. */
  lemma EndsIn(xs: seq<Item>, y: Item, m: nat, x: Item, n: nat)
    requires n > 0 && m > 0 && (xs == [] || xs[|xs| - 1] != y)
    ensures EndsWith(xs + Copies(y, m), x, n) <==> x == y && n <= m
  {
    CopiesAre(y, m);
    var all := xs + Copies(y, m);
    assert all[|all| - 1] == y;
    if n > m && xs != [] {
      assert all[|xs| - 1] == xs[|xs| - 1];
    }
  }

  /** The last entry of the queue covers exactly the items at the end that are the same. */
  lemma LastEntry(q: seq<Confirm>, x: Item, n: nat)
    requires RefsOk(q) && Coalesced(q) && n > 0
    ensures EndsWith(Flat(q), x, n) <==> q != [] && q[|q| - 1].item == x && q[|q| - 1].refs >= n
  {
    if q != [] {
      var init, last := q[..|q| - 1], q[|q| - 1];
      assert q == init + [last];
      FlatPush(init, last);
      BeforeLast(init, last);
      EndsIn(Flat(init), last.item, last.refs, x, n);
    }
  }

  lemma BeforeLast(init: seq<Confirm>, last: Confirm)
    requires RefsOk(init) && Coalesced(init + [last]) && last.refs >= 1
    ensures Flat(init) == [] || Flat(init)[|Flat(init)| - 1] != last.item
  {
    if init != [] {
      var most, c := init[..|init| - 1], init[|init| - 1];
      assert init == most + [c] && (init + [last])[|init| - 1] == c && (init + [last])[|init|] == last;
      FlatPush(most, c);
      CopiesAre(c.item, c.refs);
    }
  }

  /** A registration is fatal exactly if the callbacks waiting end with 2^31 - 2 of the same kind. */
  lemma FatalIff(events: seq<Event>, x: Item)
    requires Run(events).Trace?
    ensures Step(Run(events), Registered(x)).Fatal? <==> EndsWith(Flat(Run(events).q), x, 0x7fff_fffe)
  {
    RunKeeps(events);
    RunCoalesces(events);
    LastEntry(Run(events).q, x, 0x7fff_fffe);
  }

  // ---- the queue as an object

  class ConfirmQueue {
    var q: seq<Confirm>

    constructor ()
      ensures q == []
    {
      q := [];
    }

    /** client_register_global_confirm; false when it is fatal */
    method RegisterConfirm(x: Item) returns (ok: bool)
      modifies this
      ensures Register(old(q), x) == if ok then Some(q) else None
      ensures ok && RefsOk(old(q)) ==> RefsOk(q) && Flat(q) == Flat(old(q)) + [x]
    {
      if RefsOk(q) && Register(q, x).Some? {
        RegisterAppends(q, x, Register(q, x).value);
      }
      if |q| > 0 && q[|q| - 1].item == x {
        var last := q[|q| - 1];
        q := q[|q| - 1 := Confirm(x, last.refs + 1)];
        return last.refs + 1 < INT_MAX;
      }
      q := q + [Confirm(x, 1)];
      return true;
    }

    /** The registrations a callback makes; false when one is fatal. */
    method RegisterInside(inside: seq<Item>) returns (ok: bool)
      requires RefsOk(q)
      modifies this
      ensures RegisterAll(old(q), inside) == if ok then Some(q) else None
    {
      var i := 0;
      while i < |inside|
        invariant 0 <= i <= |inside| && RefsOk(q) && RegisterAll(q, inside[i..]) == RegisterAll(old(q), inside)
      {
        ok := RegisterConfirm(inside[i]);
        if !ok {
          return;
        }
        assert inside[i..][1..] == inside[i + 1..];
        i := i + 1;
      }
      ok := true;
    }

    /** client_global_request_reply, with what the callback registers while it runs */
    method RequestReply(inside: seq<Item>) returns (ok: bool, ran: Option<Item>)
      requires RefsOk(q)
      modifies this
      ensures ok <==> Reply(old(q), inside).Some?
      ensures ok ==> Some(q) == Reply(old(q), inside)
      ensures ran == if old(q) == [] then None else Some(old(q)[0].item)
    {
      if q == [] {
        return true, None;
      }
      ran := Some(q[0].item);
      if q[0].item.cb.Some? {
        ok := RegisterInside(inside);
        if !ok {
          return;
        }
      }
      RegisterAllAppends(old(q), if old(q)[0].item.cb.Some? then inside else [], q);
      var refs := q[0].refs - 1;
      if refs <= 0 {
        q := q[1..];
      } else {
        q := q[0 := Confirm(q[0].item, refs)];
      }
      ok := true;
    }
  }
}
