/**
 The `Channel` structure of channels.h and the handlers of channels.c and nchan.c that update it in place.
 Each handler is proved to do what ChannelEndpoint says.
 */
module ChannelObject {
  import opened Basics
  import E = ChannelEndpoint
  import opened ChannelEndpoint

  class Channel {
    var kind: ChannelType
    var istate: InputState
    var ostate: OutputState
    var closeSent: bool
    var closeRcvd: bool
    var eofSent: bool
    var eofRcvd: bool
    var usage: ExtendedUsage
    var efd: bool
    var forceDrain: bool
    var sendsEow: bool
    var input: Bytes
    var output: Bytes
    var extended: Bytes
    var remoteWindow: U32
    var remoteMaxPacket: U32
    var localWindow: U32
    var localWindowMax: U32
    var localMaxPacket: U32
    var localConsumed: U32
    var localExceeded: U32

    function View(): Chan
      reads this
    {
      Chan(kind, istate, ostate, closeSent, closeRcvd, eofSent, eofRcvd, usage, efd, forceDrain, sendsEow,
           input, output, extended, remoteWindow, remoteMaxPacket,
           localWindow, localWindowMax, localMaxPacket, localConsumed, localExceeded)
    }

    // ---- nchan.c

    method ReadFailed()
      modifies `istate
      ensures View() == E.ReadFailed(old(View()))
    {
      if istate == InputOpen {
        istate := InputWaitDrain;
      }
    }

    method SendEof() returns (sent: seq<Message>)
      modifies `eofSent
      ensures istate == InputWaitDrain ==> sent == [Eof] && eofSent
      ensures istate != InputWaitDrain ==> sent == [] && eofSent == old(eofSent)
    {
      sent := [];
      if istate == InputWaitDrain {
        sent := [Eof];
        eofSent := true;
      }
    }

    method InputBufferEmpty() returns (sent: seq<Message>)
      modifies `istate, `eofSent
      ensures E.InputBufferEmpty(old(View())) == Reaction(View(), sent)
    {
      sent := [];
      if |input| != 0 {
        return;
      }
      if istate == InputWaitDrain {
        if !closeSent {
          sent := SendEof();
        }
        istate := InputClosed;
      }
    }

    method ShutdownWrite()
      modifies `output
      ensures output == []
    {
      output := [];
    }

    method OutputBufferEmpty()
      modifies `ostate, `output
      ensures View() == E.OutputBufferEmpty(old(View()))
    {
      if |output| != 0 {
        return;
      }
      if ostate == OutputWaitDrain {
        ShutdownWrite();
        ostate := OutputClosed;
      }
    }

    method ReceivedEow()
      modifies `istate
      ensures View() == E.ReceivedEow(old(View()))
    {
      if istate == InputOpen {
        istate := InputClosed;
      }
    }

    method ReceivedIeof()
      modifies `eofRcvd, `ostate, `output
      ensures View() == ReceivedEofState(old(View()))
    {
      eofRcvd := true;
      if ostate == OutputOpen {
        ostate := OutputWaitDrain;
      }
      if ostate == OutputWaitDrain && |output| == 0 && !View().EfdOutputActive() {
        OutputBufferEmpty();
      }
    }

    /** channel_input_ieof */
    method InputIeof() returns (sent: seq<Message>)
      modifies `eofRcvd, `ostate, `output, `istate, `eofSent
      ensures ReceivedEof(old(View())) == Reaction(View(), sent)
    {
      sent := [];
      ReceivedIeof();
      if forceDrain && istate == InputOpen {
        istate := InputWaitDrain;
        if |input| == 0 {
          sent := InputBufferEmpty();
        }
      }
    }

    method ShutdownExtendedRead()
      modifies `efd
      ensures efd == (old(efd) && (kind == Larval || usage == Write))
    {
      if kind == Larval || !efd {
        return;
      }
      if usage != Read && usage != Ignore {
        return;
      }
      efd := false;
    }

    /** The input half of chan_rcvd_oclose. */
    method CloseInput() returns (sent: seq<Message>)
      requires kind != Larval
      modifies `istate, `efd, `eofSent
      ensures istate == InputClosed
      ensures efd == (old(efd) && (old(istate) == InputClosed || usage == Write))
      ensures eofSent == (old(eofSent) || old(istate) == InputWaitDrain)
      ensures sent == if old(istate) == InputWaitDrain then [Eof] else []
    {
      sent := [];
      match istate
      case InputOpen =>
        ShutdownExtendedRead();
        istate := InputClosed;
      case InputWaitDrain =>
        sent := SendEof();
        ShutdownExtendedRead();
        istate := InputClosed;
      case InputClosed =>
    }

    /** chan_rcvd_oclose on a channel that is not larval */
    method CloseActive() returns (sent: seq<Message>)
      requires kind != Larval
      modifies `closeRcvd, `ostate, `istate, `efd, `eofSent
      ensures ReceivedClose(old(View())) == Reaction(View(), sent)
    {
      CloseOutput();
      sent := CloseInput();
    }

    /** The output half of chan_rcvd_oclose. */
    method CloseOutput()
      modifies `closeRcvd, `ostate
      ensures View() == old(View()).(closeRcvd := true, ostate := if old(ostate) == OutputOpen then OutputWaitDrain else old(ostate))
    {
      closeRcvd := true;
      if ostate == OutputOpen {
        ostate := OutputWaitDrain;
      }
    }

    method ReceivedOclose() returns (sent: seq<Message>)
      modifies `closeRcvd, `ostate, `istate, `efd, `eofSent
      ensures ReceivedClose(old(View())) == Reaction(View(), sent)
    {
      if kind == Larval {
        closeRcvd := true;
        ostate, istate, sent := OutputClosed, InputClosed, [];
      } else {
        sent := CloseActive();
      }
    }

    method WriteFailed() returns (sent: seq<Message>)
      modifies `ostate, `output
      ensures E.WriteFailed(old(View())) == Reaction(View(), sent)
    {
      sent := [];
      if ostate == OutputOpen || ostate == OutputWaitDrain {
        ShutdownWrite();
        if sendsEow {
          sent := [Eow];
        }
        ostate := OutputClosed;
      }
    }

    /** channel_garbage_collect; `dead` says that the channel is then freed */
    method CollectGarbage() returns (dead: bool, sent: seq<Message>)
      modifies `closeSent
      ensures E.CollectGarbage(old(View())) == Reaction(View(), sent)
      ensures dead <==> View().Dead()
    {
      sent := [];
      if istate != InputClosed || ostate != OutputClosed {
        return false, sent;
      }
      if !closeSent {
        sent := [Close];
        closeSent := true;
      }
      dead := closeSent && closeRcvd;
    }

    // ---- channels.c, file descriptors

    method HandleRfd(ready: Bytes) returns (got: Bytes)
      modifies `input, `istate
      ensures View() == HandleRead(old(View()), ready) && got == Taken(old(View()), ready)
    {
      got := [];
      if kind != Open || istate != InputOpen || |input| + READ_BUFFER > INPUT_MAX {
        return;
      }
      var avail, maxlen := INPUT_MAX - |input|, MAX_READ;
      if |input| >= remoteWindow {
        return;
      }
      if maxlen > remoteWindow - |input| {
        maxlen := remoteWindow - |input|;
      }
      if maxlen > avail {
        maxlen := avail;
      }
      if |ready| == 0 {
        ReadFailed();
        return;
      }
      got := ready[..if |ready| < maxlen then |ready| else maxlen];
      input := input + got;
    }

    method HandleWfd(room: nat) returns (wrote: Bytes, sent: seq<Message>)
      modifies `output, `ostate, `localConsumed
      ensures HandleWrite(old(View()), room) == Reaction(View(), sent) && wrote == Written(old(View()), room)
    {
      wrote, sent := [], [];
      if kind != Open || ostate == OutputClosed || |output| == 0 {
        return;
      }
      var olen := |output|;
      if room == 0 {
        sent := WriteFailed();
        return;
      }
      var len := if room < olen then room else olen;
      wrote := output[..len];
      output := output[len..];
      localConsumed := (localConsumed + (olen - |output|)) % TWO_TO_32;
    }

    method HandleEfdWrite(room: nat) returns (wrote: Bytes)
      modifies `extended, `efd, `localConsumed
      ensures View() == HandleExtendedWrite(old(View()), room) && wrote == ExtendedWritten(old(View()), room)
    {
      wrote := [];
      if kind != Open || !efd || usage != Write || (istate == InputClosed && ostate == OutputClosed) {
        return;
      }
      if |extended| == 0 {
        return;
      }
      wrote := WriteExtended(room);
    }

    method WriteExtended(room: nat) returns (wrote: Bytes)
      requires WantsExtendedWrite(View())
      modifies `extended, `efd, `localConsumed
      ensures View() == HandleExtendedWrite(old(View()), room) && wrote == ExtendedWritten(old(View()), room)
    {
      var len := if room < |extended| then room else |extended|;
      wrote := extended[..len];
      if len == 0 {
        efd := false;
        return;
      }
      extended := extended[len..];
      localConsumed := (localConsumed + len) % TWO_TO_32;
    }

    method HandleEfdRead(ready: Bytes) returns (got: Bytes)
      modifies `extended, `efd
      ensures View() == HandleExtendedRead(old(View()), ready) && got == ExtendedTaken(old(View()), ready)
    {
      got := [];
      if WantsExtendedRead(View()) {
        got := ReadExtended(ready);
      }
    }

    method ReadExtended(ready: Bytes) returns (got: Bytes)
      requires WantsExtendedRead(View())
      modifies `extended, `efd
      ensures View() == HandleExtendedRead(old(View()), ready) && got == ExtendedTaken(old(View()), ready)
    {
      var data := ready[..if |ready| < READ_BUFFER then |ready| else READ_BUFFER];
      got := if usage == Ignore then [] else data;
      if |data| == 0 {
        efd := false;
      } else {
        extended := extended + got;
      }
    }

    method PreOpen()
      modifies `ostate, `output
      ensures View() == E.PreOpen(old(View()))
    {
      if kind == Open && (ostate == OutputOpen || ostate == OutputWaitDrain) {
        if |output| == 0 && ostate == OutputWaitDrain && !View().EfdOutputActive() {
          OutputBufferEmpty();
        }
      }
    }

    // ---- channels.c, windows

    method CheckWindow() returns (sent: seq<Message>)
      modifies `localWindow, `localConsumed
      ensures E.CheckWindow(old(View())) == Reaction(View(), sent)
    {
      sent := [];
      if kind == Open && !(closeSent || closeRcvd) &&
         ((localWindowMax + TWO_TO_32 - localWindow) % TWO_TO_32 > (localMaxPacket * 3) % TWO_TO_32
          || localWindow < localWindowMax / 2) &&
         localConsumed > 0 {
        sent := [Adjust(localConsumed)];
        localWindow := (localWindow + localConsumed) % TWO_TO_32;
        localConsumed := 0;
      }
    }

    method OutputPollInput() returns (sent: seq<Message>)
      modifies `input, `remoteWindow, `istate, `eofSent
      ensures PollInput(old(View())) == Reaction(View(), sent)
    {
      sent := [];
      if kind != Open || closeSent || closeRcvd || (istate != InputOpen && istate != InputWaitDrain) {
        return;
      }
      var len := |input|;
      if len == 0 {
        if istate == InputWaitDrain && !View().EfdInputActive() {
          sent := InputBufferEmpty();
        }
        return;
      }
      if len > remoteWindow {
        len := remoteWindow;
      }
      if len > remoteMaxPacket {
        len := remoteMaxPacket;
      }
      if len == 0 {
        return;
      }
      sent := [Data(input[..len])];
      input := input[len..];
      remoteWindow := remoteWindow - len;
    }

    method OutputPollExtended() returns (sent: seq<Message>)
      modifies `extended, `remoteWindow
      ensures PollExtended(old(View())) == Reaction(View(), sent)
    {
      sent := [];
      if kind != Open || closeSent || closeRcvd || eofSent || usage != Read {
        return;
      }
      var len := |extended|;
      if len > remoteWindow {
        len := remoteWindow;
      }
      if len > remoteMaxPacket {
        len := remoteMaxPacket;
      }
      if len == 0 {
        return;
      }
      sent := [Extended(extended[..len])];
      extended := extended[len..];
      remoteWindow := remoteWindow - len;
    }

    // ---- channels.c, protocol input

    /** `ok` is false when the peer is disconnected for ignoring the window */
    method InputData(data: Bytes) returns (ok: bool)
      modifies `localWindow, `localConsumed, `localExceeded, `output
      ensures E.InputData(old(View()), data) == if ok then Reaction(View(), []) else Disconnect
    {
      ok := true;
      var winLen := |data|;
      if kind != Open {
        return;
      }
      if ostate != OutputOpen {
        CountDiscarded(winLen);
        return;
      }
      if winLen > localMaxPacket {
        return;
      }
      ok := ChargeWindow(winLen);
      if ok {
        output := output + data;
      }
    }

    /** Data for an output that is not open any more. */
    method CountDiscarded(winLen: nat)
      modifies `localWindow, `localConsumed
      ensures View() == old(View()).(localWindow := Monus(old(localWindow), winLen), localConsumed := Wrap(old(localConsumed) + winLen))
    {
      localWindow := if winLen > localWindow then 0 else localWindow - winLen;
      localConsumed := (localConsumed + winLen) % TWO_TO_32;
    }

    method ChargeWindow(winLen: nat) returns (ok: bool)
      modifies `localWindow, `localExceeded
      ensures View() == old(View()).(localWindow := Monus(old(localWindow), winLen), localExceeded := Exceeded(old(View()), winLen))
      ensures ok <==> localExceeded <= localWindowMax / 10
    {
      if winLen > localWindow {
        localExceeded := (localExceeded + (winLen - localWindow)) % TWO_TO_32;
        localWindow := 0;
      } else {
        localWindow := localWindow - winLen;
        localExceeded := 0;
      }
      ok := localExceeded <= localWindowMax / 10;
    }

    /** `stderr` is tcode == SSH2_EXTENDED_DATA_STDERR */
    method InputExtendedData(stderr: bool, data: Bytes) returns (ok: bool)
      modifies `extended, `localWindow
      ensures stderr ==> InputExtended(old(View()), data) == if ok then Reaction(View(), []) else Disconnect
      ensures !stderr ==> View() == old(View()) && ok == !(kind == Open && eofRcvd)
    {
      ok := true;
      if kind != Open {
        return;
      }
      if eofRcvd {
        return false;
      }
      if !efd || usage != Write || !stderr {
        return;
      }
      if |data| > localWindow {
        return;
      }
      extended := extended + data;
      localWindow := localWindow - |data|;
    }

    method InputWindowAdjust(amount: U32) returns (ok: bool)
      modifies `remoteWindow
      ensures InputAdjust(old(View()), amount) == if ok then Reaction(View(), []) else Disconnect
    {
      var window: U32 := (remoteWindow + amount) % TWO_TO_32;
      if window < remoteWindow {
        return false;
      }
      remoteWindow := window;
      ok := true;
    }

    /** channel_register_fds */
    method RegisterFds(extusage: ExtendedUsage, efd': bool)
      modifies `usage, `efd
      ensures View() == old(View()).(usage := extusage, efd := efd')
    {
      usage, efd := extusage, efd';
    }

    method SetWindow(windowMax: U32)
      modifies `localWindow, `localWindowMax
      ensures View() == old(View()).(localWindow := windowMax, localWindowMax := windowMax)
    {
      localWindow, localWindowMax := windowMax, windowMax;
    }

    /** channel_set_fds; `ok` is false when it is fatal */
    method SetFds(extusage: ExtendedUsage, efd': bool, windowMax: U32) returns (ok: bool, sent: seq<Message>)
      modifies `usage, `efd, `kind, `localWindow, `localWindowMax
      ensures Activate(old(View()), extusage, efd', windowMax) == if ok then Reaction(View(), sent) else Disconnect
    {
      if kind != Larval {
        return false, [];
      }
      RegisterFds(extusage, efd');
      kind := Open;
      SetWindow(windowMax);
      ok, sent := true, [Adjust(localWindow)];
    }
  }
}
