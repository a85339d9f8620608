/**
 The channel table of a multiplexing master (channels.c): slot allocation and reuse, lookup by the server's
 channel number, and what the proxy does to the table for each message in either direction.
 */
module MuxTable {
  import opened Basics

  const MAX_CHANNELS := 16 * 1024

  /**
   Who handles a channel: a mux client (SSH_CHANNEL_MUX_PROXY), under the number that client chose; the master, which is
   opening it or has it open; nobody any more, the client having gone; or nobody, the channel being marked dead
   (SSH_CHANNEL_ZOMBIE). A mux client is known by the address of its Channel (mux_ctx), which may be used again once
   that Channel has been freed.
   */
  datatype Owner = Mux(client: nat, downId: U32) | Opening | Own | Orphan | Zombie

  /** A table entry: the connection to a mux client, at its address, or a channel shared with the server. */
  datatype Slot = Free | Client(addr: nat) | Chan(owner: Owner, remote: Option<U32>, closeSent: bool, closeRcvd: bool)
  {
    predicate IsProxy() { Chan? && owner.Mux? }
  }

  predicate HasRemote(t: Slot, r: U32) { t.Chan? && t.remote == Some(r) }

  // ---- channel_new, channel_by_remote_id, channel_free

  function FirstFree(table: seq<Slot>): (i: nat)
    ensures i <= |table| && (i < |table| ==> table[i] == Free) && forall j :: 0 <= j < i ==> table[j] != Free
  {
    if table == [] || table[0] == Free then 0 else 1 + FirstFree(table[1..])
  }

  const TenFree: seq<Slot> := [Free, Free, Free, Free, Free, Free, Free, Free, Free, Free]

  /** The table with room for one more channel at FirstFree; None when it is too big. */
  function WithRoom(table: seq<Slot>): (r: Option<seq<Slot>>)
    ensures r.Some? ==> FirstFree(r.value) < |r.value| && table <= r.value
    ensures r.Some? ==> forall j :: |table| <= j < |r.value| ==> r.value[j] == Free
  {
    if FirstFree(table) < |table| then Some(table)
    else if |table| > MAX_CHANNELS then None
    else
      assert (table + TenFree)[|table|] == Free;
      Some(table + TenFree)
  }

  function ByRemote(table: seq<Slot>, r: U32): (i: nat)
    ensures i <= |table| && (i < |table| ==> HasRemote(table[i], r)) && forall j :: 0 <= j < i ==> !HasRemote(table[j], r)
  {
    if table == [] || HasRemote(table[0], r) then 0 else 1 + ByRemote(table[1..], r)
  }

  /** A proxy channel whose client goes away: no client, both directions closed, otherwise unchanged. */
  function Detach(t: Slot, addr: nat): Slot {
    if t.IsProxy() && t.owner.client == addr then t.(owner := Orphan) else t
  }

  /** channel_free, which first detaches the channels of a mux client */
  function FreeSlot(table: seq<Slot>, i: nat): (r: seq<Slot>)
    requires i < |table|
    ensures |r| == |table|
  {
    var cleared := if table[i].Client? then seq(|table|, j requires 0 <= j < |table| => Detach(table[j], table[i].addr)) else table;
    cleared[i := Free]
  }

  // ---- CLOSE in both directions

  /** A CLOSE sent towards the server on the channel in slot i. */
  function CloseUp(table: seq<Slot>, i: nat): (r: seq<Slot>)
    requires i < |table| && table[i].Chan?
    ensures |r| == |table|
  {
    if table[i].closeRcvd then FreeSlot(table, i) else table[i := table[i].(closeSent := true)]
  }

  /** A CLOSE received from the server for the channel in slot i: one of the master's own is left for the collector. */
  function CloseDown(table: seq<Slot>, i: nat): (r: seq<Slot>)
    requires i < |table| && table[i].Chan?
    ensures |r| == |table|
  {
    if table[i].closeSent && table[i].IsProxy() then FreeSlot(table, i) else table[i := table[i].(closeRcvd := true)]
  }

  /** channel_proxy_downstream on CLOSE: the channel is found by the server's number. */
  function DownstreamClose(table: seq<Slot>, r: U32): (t: seq<Slot>) {
    var i := ByRemote(table, r);
    if i < |table| then CloseUp(table, i) else table
  }

  // ---- messages from the server

  datatype Kind = Confirm | Failure | Traffic | Close

  /** The table after a message for slot i; None when the master disconnects. */
  function Upstream(table: seq<Slot>, i: nat, kind: Kind, r: U32): Option<seq<Slot>>
    requires i < |table| && table[i].Chan?
  {
    var t := table[i];
    match kind
    case Traffic => Some(table)
    case Close => Some(CloseDown(table, i))
    case Confirm =>
      if t.IsProxy() then Some(table[i := t.(remote := Some(r))])
      else if t.owner == Opening then Some(table[i := t.(remote := Some(r), owner := Own)])
      else None
    case Failure =>
      if t.IsProxy() then Some(table)
      else if t.owner == Opening then Some(table[i := t.(owner := Zombie)])
      else None
  }

  /** Where channel_proxy_upstream puts the message: the client and the number that client chose. */
  function Route(t: Slot): Option<(nat, U32)> {
    if t.IsProxy() then Some((t.owner.client, t.owner.downId)) else None
  }

  // ---- channel_handler: one pass of the garbage collector over the slots

  /**
   What a pass finds: the clients, by address, whose connection has ended and whose output is written, those that are
   marked dead because a write to them or a message from them failed, and the slots where both halves of one of the
   master's own channels are closed.
   */
  datatype Found = Found(eof: set<nat>, dead: set<nat>, done: set<nat>)
  {
    /** The clients that take leave of their channels: one marked dead is no longer a mux client when it is freed. */
    function Leaving(): set<nat> { eof - dead }
  }

  /** What chan_mark_dead makes of a slot. */
  const MarkedDead: Slot := Chan(Zombie, None, false, false)

  datatype Visited = Fatal | Kept(table: seq<Slot>, close: Option<U32>)

  /** Both halves of the channel are closed. */
  predicate Ended(t: Slot, i: nat, w: Found) {
    t.Chan? && (t.owner == Orphan || (t.owner == Own && (t.closeSent || i in w.done)))
  }

  /**
   Slot i is visited: a client that has gone is freed, and so is a zombie; a channel that has ended sends its CLOSE,
   for which it must have a server number, and is freed once it has received one too.
   */
  function Visit(table: seq<Slot>, i: nat, w: Found): (v: Visited)
    requires i < |table|
    ensures v.Kept? ==> |v.table| == |table|
  {
    var t := table[i];
    if t.Client? then
      Kept(if t.addr in w.dead then FreeSlot(table[i := MarkedDead], i)
           else if t.addr in w.eof then FreeSlot(table, i) else table, None)
    else if t.Chan? && t.owner == Zombie then Kept(FreeSlot(table, i), None)
    else if !Ended(t, i, w) then Kept(table, None)
    else if t.closeSent then Kept(if t.closeRcvd then FreeSlot(table, i) else table, None)
    else if t.remote == None then Fatal
    else Kept(CloseUp(table, i), t.remote)
  }

  /** The pass from slot i on: the table it leaves and the CLOSEs it sends, by slot. */
  function Pass(table: seq<Slot>, i: nat, w: Found): Option<(seq<Slot>, seq<(nat, U32)>)>
    decreases |table| - i
  {
    if i >= |table| then Some((table, []))
    else match Visit(table, i, w)
      case Fatal => None
      case Kept(u, close) => Behind(if close.Some? then [(i, close.value)] else [], Pass(u, i + 1, w))
  }

  /** The same pass with `sent` before what it sends. */
  function Behind(sent: seq<(nat, U32)>, p: Option<(seq<Slot>, seq<(nat, U32)>)>): Option<(seq<Slot>, seq<(nat, U32)>)> {
    match p
    case None => None
    case Some((table, closes)) => Some((table, sent + closes))
  }

  lemma BehindBoth(x: seq<(nat, U32)>, y: seq<(nat, U32)>, p: Option<(seq<Slot>, seq<(nat, U32)>)>)
    ensures Behind(x, Behind(y, p)) == Behind(x + y, p) && (x == [] ==> Behind(x, p) == p)
  {
    if p.Some? {
      assert x + (y + p.value.1) == x + y + p.value.1;
      assert x == [] ==> x + p.value.1 == p.value.1;
    }
  }

  /** Only a confirmed channel is one of the master's own; no client's channel outlives its two CLOSEs. */
  predicate OwnerOk(t: Slot)
    requires t.Chan?
  {
    && (t.owner == Own ==> t.remote.Some?) && (t.owner == Opening || t.owner == Zombie ==> t.remote == None)
    && (t.owner.Mux? ==> !(t.closeSent && t.closeRcvd))
  }

  predicate NoneLinger(table: seq<Slot>) {
    forall i :: 0 <= i < |table| && table[i].Chan? ==> !(table[i].closeSent && table[i].closeRcvd)
  }

  // ---- the table as an object

  class ChannelTable {
    var channels: seq<Slot>

    constructor ()
      ensures channels == TenFree
    {
      channels := TenFree;
    }

    /** channel_new */
    method New(t: Slot) returns (found: Option<nat>)
      modifies this
      ensures match WithRoom(old(channels))
        case None => found == None && channels == old(channels)
        case Some(room) => found == Some(FirstFree(room)) && FirstFree(room) < |room| && channels == room[FirstFree(room) := t]
    {
      var i := 0;
      while i < |channels| && channels[i] != Free
        invariant 0 <= i <= |channels|
        invariant forall j :: 0 <= j < i ==> channels[j] != Free
      {
        i := i + 1;
      }
      FirstFreeUnique(channels, i);
      if i >= |channels| {
        if |channels| > MAX_CHANNELS {
          return None;
        }
        channels := channels + TenFree;
        FirstFreeUnique(channels, i);
      }
      channels := channels[i := t];
      return Some(i);
    }

    /** channel_by_remote_id */
    method ByRemoteId(r: U32) returns (found: Option<nat>)
      ensures var i := ByRemote(channels, r); found == if i < |channels| then Some(i) else None
    {
      for i := 0 to |channels|
        invariant forall j :: 0 <= j < i ==> !HasRemote(channels[j], r)
      {
        if HasRemote(channels[i], r) {
          ByRemoteUnique(channels, r, i);
          return Some(i);
        }
      }
      ByRemoteUnique(channels, r, |channels|);
      return None;
    }

    /** channel_free */
    method FreeChannel(i: nat)
      requires i < |channels|
      modifies this
      ensures channels == FreeSlot(old(channels), i)
    {
      ghost var was := channels;
      var c := channels[i];
      if c.Client? {
        for j := 0 to |channels|
          invariant |channels| == |was| && i < |channels|
          invariant forall k :: 0 <= k < |was| ==> channels[k] == if k < j then Detach(was[k], c.addr) else was[k]
        {
          var other := channels[j];
          if other.IsProxy() && other.owner.client == c.addr {
            channels := channels[j := other.(owner := Orphan)];
          }
        }
      }
      channels := channels[i := Free];
    }

    /** The CLOSE branch of channel_proxy_downstream */
    method ProxyClose(r: U32)
      modifies this
      ensures channels == DownstreamClose(old(channels), r)
    {
      var found := ByRemoteId(r);
      if found.Some? {
        var c := channels[found.value];
        if c.closeRcvd {
          FreeChannel(found.value);
        } else {
          channels := channels[found.value := c.(closeSent := true)];
        }
      }
    }

    /** channel_proxy_upstream: where the message goes, after the table has been updated */
    method ProxyUpstream(i: nat, kind: Kind, r: U32) returns (to: (nat, U32))
      requires i < |channels| && channels[i].IsProxy()
      modifies this
      ensures Some(to) == Route(old(channels)[i])
      ensures Upstream(old(channels), i, kind, r) == Some(channels)
    {
      var c := channels[i];
      to := (c.owner.client, c.owner.downId);
      match kind
      case Confirm => channels := channels[i := c.(remote := Some(r))];
      case Close =>
        if c.closeSent {
          FreeChannel(i);
        } else {
          channels := channels[i := c.(closeRcvd := true)];
        }
      case Traffic =>
      case Failure =>
    }

    /** The channel_input handlers as far as the table goes; `ok` is false when they disconnect. */
    method Input(i: nat, kind: Kind, r: U32) returns (ok: bool, to: Option<(nat, U32)>)
      modifies this
      ensures old(i < |channels| && channels[i].Chan?) ==>
        && Upstream(old(channels), i, kind, r) == (if ok then Some(channels) else None)
        && (ok ==> to == Route(old(channels)[i]))
      ensures !old(i < |channels| && channels[i].Chan?) ==> !ok
    {
      ok, to := true, None;
      if i >= |channels| || !channels[i].Chan? {
        return false, None;
      }
      var c := channels[i];
      if c.IsProxy() {
        var where := ProxyUpstream(i, kind, r);
        return true, Some(where);
      }
      match kind
      case Traffic =>
      case Close => channels := channels[i := c.(closeRcvd := true)];
      case Confirm =>
        if c.owner == Opening {
          channels := channels[i := c.(remote := Some(r), owner := Own)];
        } else {
          ok := false;
        }
      case Failure =>
        if c.owner == Opening {
          channels := channels[i := c.(owner := Zombie)];
        } else {
          ok := false;
        }
    }

    /** channel_garbage_collect; `ok` is false when it is fatal */
    method Collect(i: nat, w: Found) returns (ok: bool, close: Option<U32>)
      requires i < |channels|
      modifies this
      ensures Visit(old(channels), i, w) == if ok then Kept(channels, close) else Fatal
    {
      ok, close := true, None;
      var c := channels[i];
      if c.Client? {
        if c.addr in w.dead {
          channels := channels[i := MarkedDead];
          FreeChannel(i);
        } else if c.addr in w.eof {
          FreeChannel(i);
        }
      } else if c.Chan? {
        if c.owner == Zombie {
          FreeChannel(i);
        } else if Ended(c, i, w) {
          if !c.closeSent {
            if c.remote == None {
              return false, None;
            }
            close := c.remote;
            c := c.(closeSent := true);
          }
          if c.closeRcvd {
            FreeChannel(i);
          } else {
            channels := channels[i := c];
          }
        }
      }
    }

    /** channel_handler, as far as it frees channels */
    method Handler(w: Found) returns (ok: bool, sent: seq<(nat, U32)>)
      modifies this
      ensures match Pass(old(channels), 0, w)
        case None => !ok
        case Some((table, closes)) => ok && channels == table && sent == closes
    {
      ok, sent := true, [];
      var i: nat := 0;
      ghost var was := channels;
      BehindBoth([], [], Pass(channels, 0, w));
      while i < |channels|
        invariant i <= |channels|
        invariant Pass(was, 0, w) == Behind(sent, Pass(channels, i, w))
        decreases |channels| - i
      {
        ghost var before, table := sent, channels;
        var close;
        ok, close := Collect(i, w);
        if !ok {
          return;
        }
        ghost var more: seq<(nat, U32)> := if close.Some? then [(i, close.value)] else [];
        assert Pass(table, i, w) == Behind(more, Pass(channels, i + 1, w));
        BehindBoth(before, more, Pass(channels, i + 1, w));
        if close.Some? {
          sent := sent + [(i, close.value)];
        }
        assert sent == before + more;
        i := i + 1;
      }
    }
  }

  lemma {:induction false} FirstFreeUnique(table: seq<Slot>, i: nat)
    requires i <= |table| && (i < |table| ==> table[i] == Free) && forall j :: 0 <= j < i ==> table[j] != Free
    ensures FirstFree(table) == i
  {
    var k := FirstFree(table);
    if table != [] && i > 0 {
      assert table[0] != Free;
      FirstFreeUnique(table[1..], i - 1);
    }
  }

  lemma {:induction false} ByRemoteUnique(table: seq<Slot>, r: U32, i: nat)
    requires i <= |table| && (i < |table| ==> HasRemote(table[i], r)) && forall j :: 0 <= j < i ==> !HasRemote(table[j], r)
    ensures ByRemote(table, r) == i
  {
    if table != [] && i > 0 {
      assert !HasRemote(table[0], r);
      ByRemoteUnique(table[1..], r, i - 1);
    }
  }
}
