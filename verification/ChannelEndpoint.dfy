/**
 One endpoint of an SSH connection-protocol channel (channels.c and nchan.c): the value of a
 `Channel` and, for every handler, the new value and the messages it sends.
 */
module ChannelEndpoint {
  import opened Basics

  const MAX_READ := 32 * 1024          // CHANNEL_MAX_READ
  const READ_BUFFER := 16 * 1024       // CHAN_RBUF
  const INPUT_MAX := 16 * 1024 * 1024  // CHAN_INPUT_MAX

  datatype ChannelType = Larval | Open
  datatype InputState = InputOpen | InputWaitDrain | InputClosed
  datatype OutputState = OutputOpen | OutputWaitDrain | OutputClosed
  datatype ExtendedUsage = Ignore | Read | Write

  datatype Message =
    | Data(data: Bytes)
    | Extended(data: Bytes)   // type code SSH2_EXTENDED_DATA_STDERR
    | Adjust(amount: U32)
    | Eof
    | Close
    | Eow                     // the eow@openssh.com channel request

  datatype Chan = Chan(
    kind: ChannelType,
    istate: InputState,
    ostate: OutputState,
    closeSent: bool, closeRcvd: bool, eofSent: bool, eofRcvd: bool,
    usage: ExtendedUsage,
    efd: bool,                // efd != -1
    forceDrain: bool,
    sendsEow: bool,           // a session channel towards a peer that knows eow@openssh.com
    input: Bytes, output: Bytes, extended: Bytes,
    remoteWindow: U32, remoteMaxPacket: U32,
    localWindow: U32, localWindowMax: U32, localMaxPacket: U32,
    localConsumed: U32, localExceeded: U32)
  {
    /** CHANNEL_EFD_INPUT_ACTIVE */
    predicate EfdInputActive() { usage == Read && (efd || |extended| > 0) }

    /** CHANNEL_EFD_OUTPUT_ACTIVE */
    predicate EfdOutputActive() { usage == Write && efd && (!(eofRcvd || closeRcvd) || |extended| > 0) }

    predicate AnyClose() { closeSent || closeRcvd }

    /** What chan_is_dead requires before the channel is freed. */
    predicate Dead() { istate == InputClosed && ostate == OutputClosed && closeSent && closeRcvd }
  }

  /** A handler either returns, having possibly sent messages, or disconnects. */
  datatype Reaction = Reaction(chan: Chan, sent: seq<Message>) | Disconnect

  function Min(x: nat, y: nat): nat { if x < y then x else y }

  function Wrap(n: nat): U32 { n % TWO_TO_32 }

  // ---- nchan.c

  function ReadFailed(c: Chan): Chan {
    if c.istate == InputOpen then c.(istate := InputWaitDrain) else c
  }

  function InputBufferEmpty(c: Chan): Reaction {
    if |c.input| == 0 && c.istate == InputWaitDrain then
      if c.closeSent then Reaction(c.(istate := InputClosed), [])
      else Reaction(c.(eofSent := true, istate := InputClosed), [Eof])
    else Reaction(c, [])
  }

  function OutputBufferEmpty(c: Chan): Chan {
    if |c.output| == 0 && c.ostate == OutputWaitDrain then c.(ostate := OutputClosed) else c
  }

  function ReceivedEow(c: Chan): Chan {
    if c.istate == InputOpen then c.(istate := InputClosed) else c
  }

  function ReceivedEofState(c: Chan): Chan {
    var d := c.(eofRcvd := true, ostate := if c.ostate == OutputOpen then OutputWaitDrain else c.ostate);
    if d.ostate == OutputWaitDrain && |d.output| == 0 && !d.EfdOutputActive() then OutputBufferEmpty(d) else d
  }

  /** chan_rcvd_ieof, then the forced input drain of channel_input_ieof */
  function ReceivedEof(c: Chan): Reaction {
    var d := ReceivedEofState(c);
    if d.forceDrain && d.istate == InputOpen then
      InputBufferEmpty(d.(istate := InputWaitDrain))
    else Reaction(d, [])
  }

  /**
   chan_rcvd_oclose on a channel that is not CHAN_LOCAL: a draining input sends its EOF at once, and an
   input that was not yet closed also closes an efd that is read from
   */
  function ReceivedClose(c: Chan): Reaction {
    if c.kind == Larval then Reaction(c.(closeRcvd := true, ostate := OutputClosed, istate := InputClosed), [])
    else Reaction(c.(closeRcvd := true,
                     ostate := if c.ostate == OutputOpen then OutputWaitDrain else c.ostate,
                     istate := InputClosed,
                     efd := c.efd && (c.istate == InputClosed || c.usage == Write),
                     eofSent := c.eofSent || c.istate == InputWaitDrain),
                  if c.istate == InputWaitDrain then [Eof] else [])
  }

  /** chan_write_failed: chan_shutdown_write empties the output buffer */
  function WriteFailed(c: Chan): Reaction {
    if c.ostate == OutputClosed then Reaction(c, [])
    else Reaction(c.(output := [], ostate := OutputClosed), if c.sendsEow then [Eow] else [])
  }

  /** channel_garbage_collect: chan_is_dead(do_send) sends the CLOSE of a fully closed channel */
  function CollectGarbage(c: Chan): Reaction {
    if c.istate == InputClosed && c.ostate == OutputClosed && !c.closeSent then
      Reaction(c.(closeSent := true), [Close])
    else Reaction(c, [])
  }

  // ---- channels.c, file descriptors

  function ReadLimit(c: Chan): nat
    requires |c.input| < c.remoteWindow && |c.input| < INPUT_MAX
  {
    Min(Min(MAX_READ, c.remoteWindow - |c.input|), INPUT_MAX - |c.input|)
  }

  /** channel_pre_open asks for rfd only while the input buffer has room for CHAN_RBUF more bytes. */
  predicate WantsRead(c: Chan) {
    c.kind == Open && c.istate == InputOpen && |c.input| < c.remoteWindow && |c.input| + READ_BUFFER <= INPUT_MAX
  }

  /** What read(2) hands over when `ready` is waiting on rfd. */
  function Taken(c: Chan, ready: Bytes): Bytes {
    if WantsRead(c) then ready[..Min(|ready|, ReadLimit(c))] else []
  }

  /** channel_handle_rfd; an empty `ready` is end of file or a read error */
  function HandleRead(c: Chan, ready: Bytes): Chan {
    if !WantsRead(c) then c
    else if |ready| == 0 then ReadFailed(c)
    else c.(input := c.input + Taken(c, ready))
  }

  predicate WantsWrite(c: Chan) { c.kind == Open && c.ostate != OutputClosed && |c.output| > 0 }

  /** What write(2) accepts of the output buffer when it has room for `room` bytes. */
  function Written(c: Chan, room: nat): Bytes {
    if WantsWrite(c) then c.output[..Min(room, |c.output|)] else []
  }

  /** channel_handle_wfd; no room at all stands for a failed write */
  function HandleWrite(c: Chan, room: nat): Reaction {
    if !WantsWrite(c) then Reaction(c, [])
    else if room == 0 then WriteFailed(c)
    else
      var n := |Written(c, room)|;
      Reaction(c.(output := c.output[n..], localConsumed := Wrap(c.localConsumed + n)), [])
  }

  predicate WantsExtendedWrite(c: Chan) {
    && c.kind == Open && c.efd && c.usage == Write && |c.extended| > 0
    && !(c.istate == InputClosed && c.ostate == OutputClosed)
  }

  function ExtendedWritten(c: Chan, room: nat): Bytes {
    if WantsExtendedWrite(c) then c.extended[..Min(room, |c.extended|)] else []
  }

  /** channel_handle_efd_write; no room at all stands for a failed write, which closes efd */
  function HandleExtendedWrite(c: Chan, room: nat): Chan {
    if !WantsExtendedWrite(c) then c
    else if room == 0 then c.(efd := false)
    else
      var n := |ExtendedWritten(c, room)|;
      c.(extended := c.extended[n..], localConsumed := Wrap(c.localConsumed + n))
  }

  predicate WantsExtendedRead(c: Chan) {
    && c.kind == Open && c.efd && c.usage != Write && !c.eofSent && |c.extended| < c.remoteWindow
    && !(c.istate == InputClosed && c.ostate == OutputClosed)
  }

  /** What channel_handle_efd_read appends to the extended buffer. */
  function ExtendedTaken(c: Chan, ready: Bytes): Bytes {
    if WantsExtendedRead(c) && c.usage == Read then ready[..Min(|ready|, READ_BUFFER)] else []
  }

  function HandleExtendedRead(c: Chan, ready: Bytes): Chan {
    if !WantsExtendedRead(c) then c
    else if |ready| == 0 then c.(efd := false)
    else c.(extended := c.extended + ExtendedTaken(c, ready))
  }

  /** channel_pre_open's check for a drained output */
  function PreOpen(c: Chan): Chan {
    if c.kind == Open && c.ostate == OutputWaitDrain && |c.output| == 0 && !c.EfdOutputActive()
    then OutputBufferEmpty(c) else c
  }

  // ---- channels.c, windows

  predicate WindowLow(c: Chan) {
    || Wrap(c.localWindowMax + TWO_TO_32 - c.localWindow) > Wrap(c.localMaxPacket * 3)
    || c.localWindow < c.localWindowMax / 2
  }

  function CheckWindow(c: Chan): Reaction {
    if c.kind == Open && !c.AnyClose() && WindowLow(c) && c.localConsumed > 0 then
      Reaction(c.(localWindow := Wrap(c.localWindow + c.localConsumed), localConsumed := 0),
               [Adjust(c.localConsumed)])
    else Reaction(c, [])
  }

  predicate MayPoll(c: Chan) { c.kind == Open && !c.AnyClose() }

  function PacketLength(c: Chan, buffered: nat): nat {
    Min(Min(buffered, c.remoteWindow), c.remoteMaxPacket)
  }

  /** channel_output_poll_input_open under the guards of channel_output_poll */
  function PollInput(c: Chan): Reaction {
    if !MayPoll(c) || c.istate == InputClosed then Reaction(c, [])
    else if |c.input| == 0 then
      if c.istate == InputWaitDrain && !c.EfdInputActive() then InputBufferEmpty(c) else Reaction(c, [])
    else
      var len := PacketLength(c, |c.input|);
      if len == 0 then Reaction(c, [])
      else Reaction(c.(input := c.input[len..], remoteWindow := c.remoteWindow - len), [Data(c.input[..len])])
  }

  /** channel_output_poll_extended_read under the guards of channel_output_poll */
  function PollExtended(c: Chan): Reaction {
    var len := PacketLength(c, |c.extended|);
    if !MayPoll(c) || c.eofSent || c.usage != Read || len == 0 then Reaction(c, [])
    else Reaction(c.(extended := c.extended[len..], remoteWindow := c.remoteWindow - len),
                  [Extended(c.extended[..len])])
  }

  /** channel_set_fds: a larval session is given its descriptors and announces its window */
  function Activate(c: Chan, usage: ExtendedUsage, efd: bool, window: U32): Reaction {
    if c.kind != Larval then Disconnect
    else Reaction(c.(kind := Open, usage := usage, efd := efd, localWindow := window, localWindowMax := window),
                  [Adjust(window)])
  }

  // ---- channels.c, protocol input

  function Monus(x: nat, y: nat): nat { if y > x then 0 else x - y }

  /** The packet is dropped without touching the window. */
  predicate IgnoresData(c: Chan, data: Bytes) {
    c.kind != Open || (c.ostate == OutputOpen && |data| > c.localMaxPacket)
  }

  /** local_window_exceeded after a packet for an open output */
  function Exceeded(c: Chan, n: nat): U32 {
    if n > c.localWindow then Wrap(c.localExceeded + (n - c.localWindow)) else 0
  }

  /** A packet for an output that is no longer open counts as consumed at once and is not stored. */
  function InputData(c: Chan, data: Bytes): Reaction {
    var open := c.ostate == OutputOpen;
    if IgnoresData(c, data) then Reaction(c, [])
    else if open && Exceeded(c, |data|) > c.localWindowMax / 10 then Disconnect
    else Reaction(c.(localWindow := Monus(c.localWindow, |data|),
                     localConsumed := if open then c.localConsumed else Wrap(c.localConsumed + |data|),
                     localExceeded := if open then Exceeded(c, |data|) else c.localExceeded,
                     output := if open then c.output + data else c.output), [])
  }

  /** The packet is counted and stored, rather than logged and ignored. */
  predicate AcceptsExtended(c: Chan, data: Bytes) {
    c.kind == Open && c.efd && c.usage == Write && |data| <= c.localWindow
  }

  function InputExtended(c: Chan, data: Bytes): Reaction {
    if c.kind == Open && c.eofRcvd then Disconnect
    else if !AcceptsExtended(c, data) then Reaction(c, [])
    else Reaction(c.(extended := c.extended + data, localWindow := c.localWindow - |data|), [])
  }

  function InputAdjust(c: Chan, amount: U32): Reaction {
    var window := Wrap(c.remoteWindow + amount);
    if window < c.remoteWindow then Disconnect else Reaction(c.(remoteWindow := window), [])
  }

  function Receive(c: Chan, m: Message): Reaction {
    match m
    case Data(data) => InputData(c, data)
    case Extended(data) => InputExtended(c, data)
    case Adjust(amount) => InputAdjust(c, amount)
    case Eof => ReceivedEof(c)
    case Close => ReceivedClose(c)
    case Eow => Reaction(ReceivedEow(c), [])
  }
}
