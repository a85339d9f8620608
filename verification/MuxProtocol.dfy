/**
 A multiplexing master between any number of clients and a server, joined to the server by two FIFO links.
 Every logical channel has a serial number that neither side ever sees; messages are tagged with it here so
 that routing can be stated.
 */
module MuxProtocol {
  import opened Basics
  import opened MuxTable

  /** Who a channel belongs to. Clients are counted as they connect; the address of one is used again after it. */
  datatype Birth = ByClient(conn: nat, addr: nat, downId: U32) | ByMaster | OfferedTo(conn: nat)

  /** How far a channel has come, and the slot it has at the master. */
  datatype Stage =
    | Requested(slot: nat)     // OPEN on its way to the server
    | Refused(slot: nat)
    | Accepted(slot: nat)      // OPEN_CONFIRMATION on its way to the master
    | Established(slot: nat)
    | Offered                  // the server's OPEN on its way
    | Waiting                  // with the client it was offered to
    | Confirming(slot: nat)    // the client's OPEN_CONFIRMATION on its way
    | Declining                // the client's OPEN_FAILURE on its way
    | Lingering(slot: nat)     // closed both ways, waiting for the garbage collector
    | Gone                     // the slot has been freed

  function SlotOf(g: Stage): Option<nat> {
    match g
    case Requested(i) => Some(i)
    case Refused(i) => Some(i)
    case Accepted(i) => Some(i)
    case Established(i) => Some(i)
    case Confirming(i) => Some(i)
    case Lingering(i) => Some(i)
    case _ => None
  }

  datatype UpKind = Ask | Agree | Deny | Bye      // OPEN, OPEN_CONFIRMATION, OPEN_FAILURE, CLOSE
  datatype Up = Up(kind: UpKind, slot: nat, serial: nat, remote: U32)

  datatype Down = Channel(kind: Kind, slot: nat, serial: nat, remote: U32) | Offer(serial: nat, remote: U32)

  /** The server's end: its own number, the master's number once known, CLOSE sent and received. */
  datatype Srv = Srv(remote: U32, peer: Option<nat>, sent: bool, got: bool)

  /** A message put towards a client: the client it reached, if its address was still one, and the number it carries. */
  datatype Delivery = Delivery(to: Option<nat>, downId: U32, serial: nat)

  datatype System = System(
    table: seq<Slot>, at: map<nat, nat>,
    births: seq<Birth>, stages: seq<Stage>,
    server: map<nat, Srv>,
    up: seq<Up>, down: seq<Down>,
    conns: nat,                // clients that have ever connected
    who: map<nat, nat>,        // the last client to connect at each address
    delivered: seq<Delivery>,
    lost: set<nat>,            // channels whose client was marked dead while they were open
    swept: bool)               // the garbage collector has run since the last message from the server

  const Start := System(TenFree, map[], [], [], map[], [], [], 0, map[], [], {}, true)

  datatype Event =
    | Connect(addr: nat)                      // at an address that no connected client has
    | Sweep(w: Found)                         // one pass of channel_handler
    | ClientOpen(i: nat, downId: U32)
    | MasterOpen
    | ClientConfirm(i: nat, k: nat, downId: U32)
    | Decline(k: nat)
    | ClientClose(k: nat)
    | Deliver
    | Serve(accept: Option<U32>)
    | ServerSend(k: nat)
    | ServerClose(k: nat)
    | ServerOffer(conn: nat, remote: U32)

  datatype Result = Running(sys: System) | Stopped

  // ---- clients

  predicate Connected(table: seq<Slot>, addr: nat) { exists i :: 0 <= i < |table| && table[i] == Client(addr) }

  /** Which client is at an address, if one is. */
  function ConnAt(who: map<nat, nat>, addr: nat): nat { if addr in who then who[addr] else 0 }

  function Reached(table: seq<Slot>, who: map<nat, nat>, addr: nat): Option<nat> {
    if Connected(table, addr) then Some(ConnAt(who, addr)) else None
  }

  /** The client that opened the channel is connected. */
  predicate Here(table: seq<Slot>, who: map<nat, nat>, b: Birth) {
    b.ByClient? && Reached(table, who, b.addr) == Some(b.conn)
  }

  // ---- the master

  /** The slots that still hold a channel. */
  function Keep(at: map<nat, nat>, table: seq<Slot>): map<nat, nat> {
    map i | i in at && i < |table| && table[i].Chan? :: at[i]
  }

  function ConnectClient(s: System, addr: nat): Result {
    match WithRoom(s.table)
    case None => Stopped
    case Some(room) =>
      Running(s.(table := room[FirstFree(room) := Client(addr)], conns := s.conns + 1, who := s.who[addr := s.conns]))
  }

  /** A new channel for `owner`, the OPEN for it being sent. */
  function OpenChannel(s: System, owner: Owner, b: Birth): Result {
    match WithRoom(s.table)
    case None => Stopped
    case Some(room) =>
      var i, k := FirstFree(room), |s.stages|;
      Running(s.(table := room[i := Chan(owner, None, false, false)], at := s.at[i := k],
                 births := s.births + [b], stages := s.stages + [Requested(i)], up := s.up + [Up(Ask, i, k, 0)]))
  }

  /** The client accepts an offered channel: OPEN_CONFIRMATION through channel_proxy_downstream. */
  function ConfirmChannel(s: System, k: nat, addr: nat, downId: U32): Result
    requires k < |s.stages| == |s.births| && k in s.server
  {
    match WithRoom(s.table)
    case None => Stopped
    case Some(room) =>
      var i, r := FirstFree(room), s.server[k].remote;
      Running(s.(table := room[i := Chan(Mux(addr, downId), Some(r), false, false)], at := s.at[i := k],
                 births := s.births[k := ByClient(ConnAt(s.who, addr), addr, downId)], stages := s.stages[k := Confirming(i)],
                 up := s.up + [Up(Agree, i, k, r)]))
  }

  /** The stage of channel k once the table has become `table`. */
  function StageAfter(g: Stage, table: seq<Slot>): Stage {
    match SlotOf(g)
    case Some(i) => if i < |table| && table[i].Chan? then g else Gone
    case None => g
  }

  /** CLOSE is sent on channel k in slot i, the table having become `table`. */
  function CloseChannel(s: System, k: nat, i: nat, table: seq<Slot>): System
    requires k < |s.stages| && i < |s.table| && s.table[i].Chan? && s.table[i].remote.Some?
  {
    s.(table := table, at := Keep(s.at, table), stages := s.stages[k := StageAfter(s.stages[k], table)],
       up := s.up + [Up(Bye, i, k, s.table[i].remote.value)])
  }

  /** The slot of channel k, if it is a client's and the client, being connected, may still send CLOSE on it. */
  function Closable(s: System, k: nat): Option<nat> {
    if k < |s.stages| && k < |s.births| && SlotOf(s.stages[k]).Some? && Here(s.table, s.who, s.births[k]) then
      var i := SlotOf(s.stages[k]).value;
      if i < |s.table| && s.table[i].IsProxy() && s.table[i].remote.Some? && !s.table[i].closeSent then Some(i) else None
    else None
  }

  /** Channel k has been offered to the client in slot i. */
  predicate MayConfirm(s: System, i: nat, k: nat) {
    && k < |s.stages| && s.stages[k] == Waiting && k in s.server && k < |s.births| && s.births[k].OfferedTo?
    && i < |s.table| && s.table[i].Client? && ConnAt(s.who, s.table[i].addr) == s.births[k].conn
  }

  /** The offered channel k is refused: OPEN_FAILURE passes through unchanged. */
  function DeclineChannel(s: System, k: nat): System
    requires k < |s.stages| && k in s.server
  {
    s.(stages := s.stages[k := Declining], up := s.up + [Up(Deny, 0, k, s.server[k].remote)])
  }

  // ---- the master's garbage collector

  /** The open channels of the client at an address. */
  function Served(s: System, addr: nat): set<nat> {
    set j | 0 <= j < |s.table| && s.table[j].IsProxy() && s.table[j].owner.client == addr && j in s.at :: s.at[j]
  }

  function VisitSlot(s: System, i: nat, w: Found): (r: Result)
    requires i < |s.table| && |s.births| == |s.stages|
    ensures r.Running? ==> |r.sys.births| == |r.sys.stages| && |r.sys.table| == |s.table|
  {
    match Visit(s.table, i, w)
    case Fatal => Stopped
    case Kept(table, close) =>
      if s.table[i].Chan? && i in s.at && s.at[i] < |s.stages| then
        var k := s.at[i];
        if close.Some? then Running(CloseChannel(s, k, i, table))
        else Running(s.(table := table, at := Keep(s.at, table), stages := s.stages[k := StageAfter(s.stages[k], table)]))
      else if s.table[i].Client? && s.table[i].addr in w.dead then
        Running(s.(table := table, lost := s.lost + Served(s, s.table[i].addr)))
      else Running(s.(table := table))
  }

  function SweepFrom(s: System, i: nat, w: Found): (r: Result)
    requires |s.births| == |s.stages|
    ensures r.Running? ==> |r.sys.births| == |r.sys.stages|
    decreases |s.table| - i
  {
    if i >= |s.table| then Running(s)
    else match VisitSlot(s, i, w)
      case Stopped => Stopped
      case Running(t) => SweepFrom(t, i + 1, w)
  }

  // ---- messages from the server

  function Told(s: System, i: nat, k: nat): seq<Delivery>
    requires i < |s.table|
  {
    match Route(s.table[i])
    case Some((addr, downId)) => s.delivered + [Delivery(Reached(s.table, s.who, addr), downId, k)]
    case None => s.delivered
  }

  /** The stage of the channel in slot i after a message from the server. */
  function StageReceived(g: Stage, i: nat, kind: Kind, table: seq<Slot>): Stage {
    if kind == Confirm then Established(i)
    else if kind == Close && i < |table| && table[i].Chan? && table[i].closeSent then Lingering(i)
    else StageAfter(g, table)
  }

  /** The next message from the server; one for a slot without a channel disconnects. */
  function Receive(s: System): Result {
    if s.down == [] then Running(s)
    else match s.down[0]
      case Offer(k, _) =>
        if k < |s.stages| then Running(s.(down := s.down[1..], stages := s.stages[k := Waiting], swept := false))
        else Stopped
      case Channel(kind, i, k, r) =>
        if i >= |s.table| || !s.table[i].Chan? || k >= |s.stages| then Stopped
        else match Upstream(s.table, i, kind, r)
          case None => Stopped
          case Some(table) =>
            var g := StageReceived(s.stages[k], i, kind, table);
            Running(s.(table := table, at := Keep(s.at, table), stages := s.stages[k := g],
                       down := s.down[1..], delivered := Told(s, i, k), swept := false))
  }

  // ---- the server

  predicate Unused(server: map<nat, Srv>, r: U32) { forall k :: k in server ==> server[k].remote != r }

  function ServeOne(s: System, accept: Option<U32>): Result {
    if s.up == [] then Running(s)
    else
      var u := s.up[0]; var k := u.serial; var t := s.(up := s.up[1..]);
      if k >= |s.stages| then Stopped
      else match u.kind
        case Ask =>
          if accept.Some? && Unused(s.server, accept.value) then
            Running(t.(server := s.server[k := Srv(accept.value, Some(u.slot), false, false)],
                       stages := s.stages[k := Accepted(u.slot)],
                       down := s.down + [Channel(Confirm, u.slot, k, accept.value)]))
          else
            Running(t.(stages := s.stages[k := Refused(u.slot)], down := s.down + [Channel(Failure, u.slot, k, 0)]))
        case Agree =>
          if k !in s.server then Stopped
          else Running(t.(server := s.server[k := s.server[k].(peer := Some(u.slot))],
                          stages := s.stages[k := Established(u.slot)]))
        case Deny =>
          if k !in s.server then Stopped
          else Running(t.(server := s.server - {k}, stages := s.stages[k := Gone]))
        case Bye =>
          if k !in s.server || s.server[k].remote != u.remote then Stopped
          else if s.server[k].sent then Running(t.(server := s.server - {k}))
          else Running(t.(server := s.server[k := s.server[k].(got := true)]))
  }

  function CloseServer(s: System, k: nat): Result
    requires k in s.server && s.server[k].peer.Some?
  {
    var c := s.server[k];
    Running(s.(server := if c.got then s.server - {k} else s.server[k := c.(sent := true)],
               down := s.down + [Channel(Close, c.peer.value, k, c.remote)]))
  }

  /** The server opens a channel that is meant for the client with that number. */
  function OfferChannel(s: System, conn: nat, r: U32): System {
    var k := |s.stages|;
    s.(births := s.births + [OfferedTo(conn)], stages := s.stages + [Offered],
       server := s.server[k := Srv(r, None, false, false)], down := s.down + [Offer(k, r)])
  }

  // ---- steps and runs

  function Step(s: System, e: Event): (r: Result)
    requires |s.births| == |s.stages|
    ensures r.Running? ==> |r.sys.births| == |r.sys.stages|
  {
    match e
    case Connect(addr) => if Connected(s.table, addr) then Running(s) else ConnectClient(s, addr)
    case Sweep(w) =>
      (match SweepFrom(s, 0, w) case Running(t) => Running(t.(swept := true)) case Stopped => Stopped)
    case ClientOpen(i, downId) =>
      if i < |s.table| && s.table[i].Client? then
        var addr := s.table[i].addr;
        OpenChannel(s, Mux(addr, downId), ByClient(ConnAt(s.who, addr), addr, downId))
      else Running(s)
    case MasterOpen => OpenChannel(s, Opening, ByMaster)
    case ClientConfirm(i, k, downId) =>
      if MayConfirm(s, i, k) then ConfirmChannel(s, k, s.table[i].addr, downId) else Running(s)
    case Decline(k) =>
      if k < |s.stages| && s.stages[k] == Waiting && k in s.server then Running(DeclineChannel(s, k)) else Running(s)
    case ClientClose(k) =>
      if s.swept && Closable(s, k).Some? then
        var i := Closable(s, k).value;
        Running(CloseChannel(s, k, i, DownstreamClose(s.table, s.table[i].remote.value)))
      else Running(s)
    case Deliver => Receive(s)
    case Serve(accept) => ServeOne(s, accept)
    case ServerSend(k) =>
      if k in s.server && s.server[k].peer.Some? && !s.server[k].sent
      then Running(s.(down := s.down + [Channel(Traffic, s.server[k].peer.value, k, 0)])) else Running(s)
    case ServerClose(k) =>
      if k in s.server && s.server[k].peer.Some? && !s.server[k].sent then CloseServer(s, k) else Running(s)
    case ServerOffer(conn, r) =>
      if Unused(s.server, r) then Running(OfferChannel(s, conn, r)) else Running(s)
  }

  function Run(events: seq<Event>): (r: Result)
    ensures r.Running? ==> |r.sys.births| == |r.sys.stages|
  {
    if events == [] then Running(Start)
    else
      match Run(events[..|events| - 1])
      case Stopped => Stopped
      case Running(s) => Step(s, events[|events| - 1])
  }

  // ---- the messages of one channel

  function Ups(q: seq<Up>, k: nat): seq<Up> {
    if q == [] then [] else (if q[0].serial == k then [q[0]] else []) + Ups(q[1..], k)
  }

  function Downs(q: seq<Down>, k: nat): seq<Down> {
    if q == [] then [] else (if q[0].serial == k then [q[0]] else []) + Downs(q[1..], k)
  }

  /** Traffic for slot i, ending in a CLOSE exactly if `closing`. */
  predicate Flow(ds: seq<Down>, i: nat, k: nat, r: U32, closing: bool) {
    if ds == [] then !closing
    else if |ds| == 1 && closing then ds[0] == Channel(Close, i, k, r)
    else ds[0] == Channel(Traffic, i, k, 0) && Flow(ds[1..], i, k, r, closing)
  }

  // ---- the invariant

  predicate At(s: System, i: nat, k: nat) { i < |s.table| && s.table[i].Chan? && i in s.at && s.at[i] == k }

  predicate Blank(t: Slot) { t.Chan? && t.remote == None && !t.closeSent && !t.closeRcvd }

  predicate EstablishedOk(t: Slot, i: nat, k: nat, ups: seq<Up>, ds: seq<Down>, server: map<nat, Srv>)
    requires t.Chan? && t.remote.Some?
  {
    var r := t.remote.value;
    && !(t.closeSent && t.closeRcvd)
    && if k in server then
         var c := server[k];
         && c.remote == r && c.peer == Some(i) && !(c.sent && c.got) && (c.got ==> t.closeSent)
         && ups == (if t.closeSent && !c.got then [Up(Bye, i, k, r)] else [])
         && (t.closeRcvd ==> c.sent && ds == [])
         && (!t.closeRcvd ==> Flow(ds, i, k, r, c.sent))
       else t.closeSent && ups == [] && Flow(ds, i, k, r, true)
  }

  /** At most the CLOSE to the server is left of a channel. */
  predicate OnlyByeLeft(server: map<nat, Srv>, k: nat, ups: seq<Up>) {
    && (k !in server ==> ups == [])
    && (k in server ==>
          && server[k].peer.Some? && server[k].sent && !server[k].got
          && |ups| == 1 && ups[0].kind == Bye && ups[0].serial == k && ups[0].remote == server[k].remote)
  }

  /** What channel k's stage says about its slot, its messages and the server's end. */
  predicate StageOk(s: System, k: nat)
    requires k < |s.stages| == |s.births|
  {
    var ups, ds := Ups(s.up, k), Downs(s.down, k);
    match s.stages[k]
    case Requested(i) =>
      At(s, i, k) && Blank(s.table[i]) && s.table[i].owner != Zombie && ups == [Up(Ask, i, k, 0)] && ds == [] && k !in s.server
    case Refused(i) =>
      && At(s, i, k) && Blank(s.table[i]) && ups == [] && k !in s.server && (ds == [] || ds == [Channel(Failure, i, k, 0)])
      && (s.table[i].owner == Zombie ==> ds == [])
    case Accepted(i) =>
      && At(s, i, k) && Blank(s.table[i]) && s.table[i].owner != Zombie && ups == [] && k in s.server
      && var c := s.server[k];
      && c.peer == Some(i) && !c.got
      && ds != [] && ds[0] == Channel(Confirm, i, k, c.remote) && Flow(ds[1..], i, k, c.remote, c.sent)
    case Established(i) =>
      At(s, i, k) && s.table[i].remote.Some? && EstablishedOk(s.table[i], i, k, ups, ds, s.server)
    case Confirming(i) =>
      && At(s, i, k) && s.table[i].remote.Some? && !s.table[i].closeRcvd && ds == []
      && var r := s.table[i].remote.value;
      && k in s.server && s.server[k] == Srv(r, None, false, false)
      && ups == [Up(Agree, i, k, r)] + if s.table[i].closeSent then [Up(Bye, i, k, r)] else []
    case Offered =>
      ups == [] && k in s.server && s.server[k] == Srv(s.server[k].remote, None, false, false)
      && ds == [Offer(k, s.server[k].remote)]
    case Waiting =>
      ups == [] && ds == [] && k in s.server && s.server[k] == Srv(s.server[k].remote, None, false, false)
    case Declining =>
      && ds == [] && k in s.server && s.server[k] == Srv(s.server[k].remote, None, false, false)
      && ups == [Up(Deny, 0, k, s.server[k].remote)]
    case Lingering(i) =>
      && At(s, i, k) && s.table[i].remote.Some? && s.table[i].closeSent && s.table[i].closeRcvd
      && ds == [] && OnlyByeLeft(s.server, k, ups)
    case Gone => ds == [] && OnlyByeLeft(s.server, k, ups)
  }

  /** A proxied channel's owner is the address and number that its client opened it with. */
  predicate OpenedAs(b: Birth, o: Owner) { b.ByClient? && o.Mux? && b.addr == o.client && b.downId == o.downId }

  /** Slots and stages name each other; a proxied channel carries what its client opened it with. */
  predicate SlotsOk(s: System) {
    && |s.births| == |s.stages|
    && (forall i :: i in s.at ==> i < |s.table| && s.table[i].Chan? && s.at[i] < |s.stages| && SlotOf(s.stages[s.at[i]]) == Some(i))
    && (forall i :: 0 <= i < |s.table| && s.table[i].Chan? ==> i in s.at)
    && (forall i :: 0 <= i < |s.table| && s.table[i].IsProxy() && i in s.at && s.at[i] < |s.births|
          ==> OpenedAs(s.births[s.at[i]], s.table[i].owner))
    && (forall i :: 0 <= i < |s.table| && s.table[i].Chan? ==> OwnerOk(s.table[i]))
  }

  /** Connected clients have different addresses, and every client its own number. */
  predicate ClientsOk(table: seq<Slot>, who: map<nat, nat>, conns: nat, births: seq<Birth>) {
    && (forall i, j :: 0 <= i < j < |table| && table[i].Client? && table[j].Client? ==> table[i].addr != table[j].addr)
    && (forall a :: a in who ==> who[a] < conns)
    && (forall i :: 0 <= i < |table| && table[i].Client? ==> table[i].addr in who)
    && (forall k :: 0 <= k < |births| && births[k].ByClient? ==> births[k].conn < conns)
  }

  /** A proxied channel points at a client that has gone, or at another one in its place, exactly if it is lost. */
  predicate DanglingOk(table: seq<Slot>, at: map<nat, nat>, births: seq<Birth>, who: map<nat, nat>, lost: set<nat>) {
    && (forall k :: k in lost ==> k < |births| && births[k].ByClient?)
    && (forall i :: 0 <= i < |table| && table[i].IsProxy() && i in at && at[i] < |births|
          ==> (at[i] in lost <==> !Here(table, who, births[at[i]])))
  }

  /** In the queue, the CLOSE of k comes before anything of j. */
  predicate Precedes(q: seq<Down>, k: nat, j: nat) {
    q != [] && ((q[0].Channel? && q[0].kind == Close && q[0].serial == k) || (q[0].serial != j && Precedes(q[1..], k, j)))
  }

  /** The server has forgotten channel k, whose CLOSE is still on its way to the slot with that number. */
  predicate Dying(s: System, k: nat, r: U32) {
    k < |s.stages| && k !in s.server && s.stages[k].Established? && s.stages[k].slot < |s.table| && HasRemote(s.table[s.stages[k].slot], r)
  }

  predicate Announced(g: Stage) { g.Accepted? || g.Offered? }

  /** The server's numbers are unique at its end, and a number it reuses is announced behind the old CLOSE. */
  ghost predicate RemotesOk(s: System) {
    && (forall j, k :: j in s.server && k in s.server && j != k ==> s.server[j].remote != s.server[k].remote)
    && (forall k, j :: j in s.server && j < |s.stages| && Dying(s, k, s.server[j].remote)
          ==> Announced(s.stages[j]) && Precedes(s.down, k, j))
    && (forall k, j, r :: Dying(s, k, r) && Dying(s, j, r) ==> k == j)
  }

  /** Only channels that exist are spoken of. */
  predicate KnownOk(s: System) {
    && (forall k :: k in s.server ==> k < |s.stages|)
    && (forall u :: u in s.up ==> u.serial < |s.stages|)
    && (forall m :: m in s.down ==> m.serial < |s.stages|)
  }

  predicate DeliveredOk(delivered: seq<Delivery>, births: seq<Birth>, lost: set<nat>) {
    forall d :: d in delivered ==>
      && d.serial < |births| && births[d.serial].ByClient? && births[d.serial].downId == d.downId
      && (d.serial !in lost ==> d.to == Some(births[d.serial].conn))
  }

  ghost predicate Inv(s: System) {
    && SlotsOk(s) && KnownOk(s) && RemotesOk(s)
    && ClientsOk(s.table, s.who, s.conns, s.births) && DanglingOk(s.table, s.at, s.births, s.who, s.lost)
    && DeliveredOk(s.delivered, s.births, s.lost)
    && (s.swept ==> NoneLinger(s.table))
    && forall k :: 0 <= k < |s.stages| ==> StageOk(s, k)
  }
}
