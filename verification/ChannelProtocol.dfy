/**
 Two endpoints of one channel joined by two FIFO links. Every run keeps the window credit, the
 receiver's accounting, the byte streams and the EOF/CLOSE discipline.
 */
module ChannelProtocol {
  import opened Basics
  import opened ChannelEndpoint

  // ---- what a link carries

  function DataIn(q: seq<Message>): Bytes {
    if q == [] then [] else (if q[0].Data? then q[0].data else []) + DataIn(q[1..])
  }

  function ExtendedIn(q: seq<Message>): Bytes {
    if q == [] then [] else (if q[0].Extended? then q[0].data else []) + ExtendedIn(q[1..])
  }

  function CreditIn(q: seq<Message>): nat {
    if q == [] then 0 else (if q[0].Adjust? then q[0].amount else 0) + CreditIn(q[1..])
  }

  lemma {:induction false} LinkAppend(q: seq<Message>, r: seq<Message>)
    ensures DataIn(q + r) == DataIn(q) + DataIn(r)
    ensures ExtendedIn(q + r) == ExtendedIn(q) + ExtendedIn(r)
    ensures CreditIn(q + r) == CreditIn(q) + CreditIn(r)
  {
    if q == [] {
      assert q + r == r;
    } else {
      assert (q + r)[1..] == q[1..] + r && (q + r)[0] == q[0];
      LinkAppend(q[1..], r);
      Associative(if q[0].Data? then q[0].data else [], DataIn(q[1..]), DataIn(r));
      Associative(if q[0].Extended? then q[0].data else [], ExtendedIn(q[1..]), ExtendedIn(r));
    }
  }

  lemma Associative(x: Bytes, y: Bytes, z: Bytes)
    ensures x + (y + z) == x + y + z
  {
  }

  lemma LinkOne(m: Message)
    ensures DataIn([m]) == if m.Data? then m.data else []
    ensures ExtendedIn([m]) == if m.Extended? then m.data else []
    ensures CreditIn([m]) == if m.Adjust? then m.amount else 0
  {
    assert [m][1..] == [];
  }

  // ---- one direction of traffic

  /** What has happened so far on one direction, sender's descriptors to receiver's descriptors. */
  datatype History = History(
    read: Bytes,         // read from the sender's rfd
    received: Bytes,     // DATA payload that reached the receiver
    written: Bytes,      // written to the receiver's wfd
    extRead: Bytes,      // read from the sender's efd
    extReceived: Bytes,
    extWritten: Bytes,
    ignored: nat,        // payload bytes the receiver ignored without touching its window
    dropped: nat)        // buffered output bytes discarded when a write failed

  const NoHistory := History([], [], [], [], [], [], 0, 0)

  /** The part of a channel that takes part in sending. */
  datatype Sender = Sender(window: nat, maxPacket: nat, input: Bytes, extended: Bytes,
                           eofSent: bool, closeSent: bool)

  /** The part of a channel that takes part in receiving. */
  datatype Receiver = Receiver(larval: bool, open: bool, efd: bool,
                               window: nat, windowMax: nat, maxPacket: nat, consumed: nat,
                               output: Bytes, extended: Bytes, eofRcvd: bool, closeRcvd: bool)

  function SenderOf(c: Chan): Sender {
    Sender(c.remoteWindow, c.remoteMaxPacket, c.input, if c.usage == Read then c.extended else [],
           c.eofSent, c.closeSent)
  }

  function ReceiverOf(c: Chan): Receiver {
    Receiver(c.kind == Larval, c.ostate == OutputOpen, c.usage == Write && c.efd,
             c.localWindow, c.localWindowMax, c.localMaxPacket, c.localConsumed,
             c.output, if c.usage == Write then c.extended else [], c.eofRcvd, c.closeRcvd)
  }

  predicate Payload(m: Message) { m.Data? || m.Extended? }

  predicate Quiet(q: seq<Message>) {
    q == [] || (!Payload(q[0]) && q[0] != Eof && Quiet(q[1..]))
  }

  /** Every packet has 1..limit bytes; no payload and no second EOF follows EOF; nothing follows CLOSE. */
  predicate Disciplined(q: seq<Message>, limit: nat) {
    q == [] ||
    (&& (Payload(q[0]) ==> 0 < |q[0].data| <= limit)
     && (q[0] == Eof ==> Quiet(q[1..]))
     && (q[0] == Close ==> q[1..] == [])
     && Disciplined(q[1..], limit))
  }

  /** Sender's remote_window + bytes in flight + adjusts in flight + ignored = receiver's local_window. */
  predicate Credit(snd: Sender, rcv: Receiver, fwd: seq<Message>, back: seq<Message>, h: History) {
    snd.window + |DataIn(fwd)| + |ExtendedIn(fwd)| + CreditIn(back) + h.ignored == rcv.window
  }

  /** Window + consumed + buffered + dropped = local_window_max. */
  predicate Conserved(rcv: Receiver, h: History) {
    && rcv.window + rcv.consumed + |rcv.output| + |rcv.extended| + h.dropped == rcv.windowMax
    && (rcv.larval ==> rcv.windowMax == 0)
  }

  /** Nothing but a failed write loses data; an output stops being open only for that or for EOF or CLOSE. */
  predicate Stream(snd: Sender, rcv: Receiver, fwd: seq<Message>, h: History) {
    && h.received + DataIn(fwd) + snd.input == h.read
    && h.written + rcv.output <= h.received
    && (h.dropped == 0 ==> h.written + rcv.output == h.received)
    && (rcv.open ==> h.dropped == 0)
    && (!rcv.open ==> h.dropped > 0 || rcv.eofRcvd || rcv.closeRcvd)
  }

  predicate ExtendedStream(snd: Sender, rcv: Receiver, fwd: seq<Message>, h: History) {
    && h.extReceived + ExtendedIn(fwd) + snd.extended == h.extRead
    && h.extWritten + rcv.extended <= h.extReceived
    && (rcv.efd ==> h.extWritten + rcv.extended == h.extReceived)
    && (rcv.larval ==> h.extReceived == [])
  }

  /** Where the one EOF and the one CLOSE of a sender are. */
  predicate Teardown(snd: Sender, rcv: Receiver, fwd: seq<Message>) {
    && ((Eof in fwd || rcv.eofRcvd) <==> snd.eofSent)
    && ((Close in fwd || rcv.closeRcvd) <==> snd.closeSent)
    && (rcv.eofRcvd ==> Quiet(fwd))
    && (rcv.closeRcvd ==> fwd == [])
  }

  predicate Direction(snd: Sender, rcv: Receiver, fwd: seq<Message>, back: seq<Message>, h: History) {
    && snd.maxPacket == rcv.maxPacket
    && Disciplined(fwd, rcv.maxPacket)
    && Credit(snd, rcv, fwd, back, h)
    && Conserved(rcv, h)
    && Stream(snd, rcv, fwd, h)
    && ExtendedStream(snd, rcv, fwd, h)
    && Teardown(snd, rcv, fwd)
  }

  /** What holds of one endpoint by itself. */
  predicate ChanOk(c: Chan) {
    && (c.eofSent ==> c.istate == InputClosed)
    && (c.closeSent ==> c.istate == InputClosed && c.ostate == OutputClosed)
    && (c.ostate == OutputClosed ==> c.output == [])
    && (c.kind == Larval ==> c.usage == Ignore)
    && (c.usage == Ignore ==> c.extended == [])
    && c.localExceeded == 0
  }

  // ---- the system

  datatype System = System(a: Chan, b: Chan, ab: seq<Message>, ba: seq<Message>, hab: History, hba: History)
  {
    function Mirror(): System { System(b, a, ba, ab, hba, hab) }
  }

  datatype Event =
    | ReadReady(ready: Bytes)
    | WriteReady(room: nat)
    | ExtReadReady(ready: Bytes)
    | ExtWriteReady(room: nat)
    | DoPreOpen
    | DoCheckWindow
    | DoPollInput
    | DoPollExtended
    | DoActivate(usage: ExtendedUsage, efd: bool, window: U32)
    | DoCollect
    | Deliver              // the next message on the incoming link

  datatype Result = Running(sys: System) | Disconnected

  /** The endpoint reaction `r` of `a`, with its messages appended to the outgoing link. */
  function Reacted(s: System, r: Reaction): Result {
    match r
    case Disconnect => Disconnected
    case Reaction(c, sent) => Running(s.(a := c, ab := s.ab + sent))
  }

  /** History of `a` as a receiver after the message at the head of `ba`. */
  function Noted(a: Chan, m: Message, h: History): History {
    match m
    case Data(data) =>
      h.(received := h.received + data, ignored := h.ignored + if IgnoresData(a, data) then |data| else 0)
    case Extended(data) =>
      h.(extReceived := h.extReceived + data, ignored := h.ignored + if AcceptsExtended(a, data) then 0 else |data|)
    case _ => h
  }

  /** History of `a` as a receiver after a write that found `room`. */
  function WriteHistory(s: System, room: nat): History {
    var lost := if WantsWrite(s.a) && room == 0 then |s.a.output| else 0;
    s.hba.(written := s.hba.written + Written(s.a, room), dropped := s.hba.dropped + lost)
  }

  /**
   An event at endpoint `a`. A channel that has been freed cannot be opened, and a message for it disconnects, unless it
   is an adjust, which is only logged.
   */
  function StepA(s: System, e: Event): Result {
    match e
    case ReadReady(ready) =>
      Running(s.(a := HandleRead(s.a, ready), hab := s.hab.(read := s.hab.read + Taken(s.a, ready))))
    case WriteReady(room) =>
      Reacted(s.(hba := WriteHistory(s, room)), HandleWrite(s.a, room))
    case ExtReadReady(ready) =>
      Running(s.(a := HandleExtendedRead(s.a, ready),
                 hab := s.hab.(extRead := s.hab.extRead + ExtendedTaken(s.a, ready))))
    case ExtWriteReady(room) =>
      Running(s.(a := HandleExtendedWrite(s.a, room),
                 hba := s.hba.(extWritten := s.hba.extWritten + ExtendedWritten(s.a, room))))
    case DoPreOpen => Running(s.(a := PreOpen(s.a)))
    case DoCheckWindow => Reacted(s, CheckWindow(s.a))
    case DoPollInput => Reacted(s, PollInput(s.a))
    case DoPollExtended => Reacted(s, PollExtended(s.a))
    case DoActivate(usage, efd, window) =>
      if s.a.kind == Larval && !s.a.Dead() then Reacted(s, Activate(s.a, usage, efd, window)) else Running(s)
    case DoCollect => Reacted(s, CollectGarbage(s.a))
    case Deliver =>
      if s.ba == [] then Running(s)
      else if s.a.Dead() then
        if s.ba[0].Adjust? then Running(s.(ba := s.ba[1..])) else Disconnected
      else Reacted(s.(ba := s.ba[1..], hba := Noted(s.a, s.ba[0], s.hba)), Receive(s.a, s.ba[0]))
  }

  /** (true, e) is event e at endpoint a, (false, e) the same at endpoint b. */
  function Step(s: System, e: (bool, Event)): Result {
    if e.0 then StepA(s, e.1)
    else match StepA(s.Mirror(), e.1)
      case Running(t) => Running(t.Mirror())
      case Disconnected => Disconnected
  }

  function Run(s: System, es: seq<(bool, Event)>): Result
    decreases es
  {
    if es == [] then Running(s)
    else match Step(s, es[0])
      case Running(t) => Run(t, es[1..])
      case Disconnected => Disconnected
  }

  /** A channel as the open handshake leaves it; a larval one is a server's session, whose input is never drained by force. */
  predicate FreshChan(c: Chan, peer: Chan) {
    && c.istate == InputOpen && c.ostate == OutputOpen
    && !c.closeSent && !c.closeRcvd && !c.eofSent && !c.eofRcvd
    && c.input == c.output == c.extended == []
    && c.remoteWindow == peer.localWindow && c.remoteMaxPacket == peer.localMaxPacket
    && c.localWindow == c.localWindowMax && c.localConsumed == 0 && c.localExceeded == 0
    && (c.kind == Larval ==> c.usage == Ignore && c.localWindow == 0 && !c.forceDrain)
  }

  predicate Initial(s: System) {
    FreshChan(s.a, s.b) && FreshChan(s.b, s.a) && s.ab == s.ba == [] && s.hab == s.hba == NoHistory
  }

  /** Both directions are in balance and both ends in order. */
  predicate Balanced(s: System) {
    && ChanOk(s.a) && ChanOk(s.b)
    && Direction(SenderOf(s.a), ReceiverOf(s.b), s.ab, s.ba, s.hab)
    && Direction(SenderOf(s.b), ReceiverOf(s.a), s.ba, s.ab, s.hba)
  }

  /** A larval channel has read nothing, hears no EOW, and has its input closed only by CLOSE. */
  predicate Unopened(c: Chan, incoming: seq<Message>, h: History) {
    c.kind == Larval ==> !c.forceDrain && (c.istate == InputClosed ==> c.closeRcvd) && h.read == [] && Eow !in incoming
  }

  predicate Inv(s: System) { Balanced(s) && Unopened(s.a, s.ba, s.hab) && Unopened(s.b, s.ab, s.hba) }
}
