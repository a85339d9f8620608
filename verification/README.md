# Verified models of OpenSSH's protocol and data cores

This project models thirteen pieces of OpenSSH in Dafny and proves what they promise. Where C code updates a
structure step by step, the model is a class or a method with loops, proved against a function on values; whole-run
theorems are then proved about those functions.

**Channel flow control** (`Channel*.dfy`). Two complete channel endpoints, with their half-close state machine, windows,
buffers and descriptors, are joined by two FIFO links. Every interleaving of partial reads, partial writes, packet
splits, window adjusts, EOF, EOW and CLOSE is a run. In every run the window credit at the sender, on the links and at
the receiver adds up exactly, so no packet overruns a window, no adjust overflows and no endpoint disconnects, and bytes
come out in order; two `Channel` objects driven through the same events do the same. Progress is settled exactly: a
direction with data to send is stuck if and only if its window is used up and the receiver has no credit that it would
return, and then for good. Whatever has happened to a channel before, and in whatever order things happen from then on,
both ends are dead after finitely many events if and only if no direction is stuck; and of a channel that ends by EOF
everything read has then been written. Which events end reading and writing, and that they do so for good, is exact too.

**Mux routing** (`Mux*.dfy`). A multiplexing master, any number of clients with clashing channel numbers, and a server
that numbers its own channels, joined to the master by two FIFO links. Slots are reused, clients hang up or are marked
dead at any time, the address of one that has gone is given to another, and the garbage collector passes over the table
as `channel_handler` does. The server's numbers are assumed distinct only among channels live *at the server*; that a
lookup by number finds the right slot of the master's table is proved, although a number may be reused while the old
CLOSE is still on its way. When the master stops, and when a channel is left pointing at a client that is not its own, is
characterised exactly, event by event and for whole runs. A table object driven through any run does the same.

**SOCKS** (`Socks*.dfy`). The resumable decoder, with the exact set of inputs whose result does not depend on how they
are cut into chunks, and exactly which bytes it opens, rejects and fails at.

**User authentication** (`MethodLists.dfy`, `UserAuth*.dfy`, `AuthObject.dfy`). Method lists edited as strings, and the
request loop around them. What every request of every run comes to is characterised exactly, and every counted success
is traced to the request that earned it.

**Bit vectors** (`Bitmap.dfy`), **key options on the wire** (`Wire.dfy`, `AuthOptions*.dfy`), **ciphers**
(`CounterMode.dfy`, `ChaCha*.dfy`, `Chacha*.dfy`, `Cbc.dfy`, `AesCtr.dfy`), **addresses**
(`Addr.dfy`), **modulus selection** (`Dh.dfy`) and the **queue of global-request callbacks** (`GlobalConfirm.dfy`) each
refine a simple specification: a set of numbers, a record, a byte-wise stream, an integer, a choice rule, a FIFO.
`Basics.dfy` holds shared types and `Words.dfy` C's bitwise operators by binary digits.

Inputs from outside are parameters: what a descriptor has ready and has room for, the verdict of an authentication method
and of policy, the chunk that arrives, the block cipher and MAC of the ciphers, the random number of `choose_dh`, which
clients have hung up or failed, and what a callback registers while it runs.

## Where the code does not do what one would expect

Each of these has an exact condition and an input or run that shows it.

- Ignored stderr, output discarded by a failed write and stderr whose descriptor has failed are never counted as consumed.
  A channel with data unsent is stuck exactly when nothing is in flight or left to write, the sender's window is empty,
  and either these losses add up to the whole window or the ignored part alone is at least half of it and at most three
  packets short of it, so that no adjust is due (`StalledIff`). A window below two bytes is the smallest case. The stall is
  for good (`StallIsFinal`), and every window can be run into one by stderr (`StallIsReachable`,
  `PartialStallIsReachable`).
- `chan_shutdown_write` discards buffered output without counting it as consumed. The loss is exact in the receiver's
  accounting, and a whole window lost this way is never granted again (`LostWindowIsFinal`); every window can be lost so
  (`LostWindowIsReachable`).
- A peer that sends beyond its window is disconnected once it has exceeded it by more than a tenth of the maximum, but an
  empty data packet resets the count, so that with empty packets in between it may go on without end (`OverrunIff`,
  `OverrunWithoutEmpties`, `EmptyForgives`).
- A SOCKS4 user or host name of exactly 1024 bytes is accepted in one piece and refused if cut before its NUL; a byte
  other than 5 after SOCKS5 authentication is fatal in one piece but not if it arrives alone (`CutInsensitiveIff`).
- A mux client that hangs up, with all its output written, while a channel of its own has no server number leaves a
  channel for which the collector cannot send CLOSE, which is fatal: in the same pass if the channel's slot comes after
  the client's, in the next one otherwise, or with the answer to the OPEN if that comes first (`StopsIff`, `DoomIff`,
  `DoomedRunStops`). It is enough that an OPEN is unanswered (`UnansweredOpenStopsMaster`) or was refused, since
  OPEN_FAILURE leaves the slot taken (`RefusedOpenStopsMaster`).
- A mux client to which a write fails, or whose message is refused, is marked dead, and is then no longer a mux client when
  it is freed: its channels are not detached and go on pointing at its memory. A pass leaves a channel so exactly if it
  finds a client dead that has one open (`DanglesIff`, `PassDanglesIff`), and a run loses none exactly if no pass does
  (`NothingLostIff`); then every message is routed to the client that opened its channel (`NeverAbandonsRoutes`). A message
  misses that client exactly if its channel has been lost (`ClientIsTold`): it goes into freed memory, for good, since
  the channel is never collected (`LostIsKept`, `IntoFreedMemory`), or, once another client has been given the address,
  to that client (`ToAnotherClient`).
- A channel of the master's own, or of a client that has left it, keeps its slot and number from its second CLOSE until the
  next pass of the collector. In that time a reused number may be in the table twice, which is why a lookup by number is
  only proved right once the collector has run (`TableIsSound`, `LookupFinds`, `NumberIsThereTwice`).
- `bitmap_set_bit` allows bit 1<<24, whose export is one byte longer than `bitmap_from_string` accepts (`ExportImport`,
  `SetAndTrip`).
- Key options with a tunnel number below -1 come back with tunnel 0, and flags come back modulo 256 (`RoundTripIff`,
  `LostOnTheWay`); such a tunnel number can also be read from the wire and is then not relayed (`RelayIff`,
  `SomeTunnelNotRelayed`).
- `choose_dh` takes the size asked for only if it is the first large enough size in the file (`WantedIff`,
  `WantedPassedOver`).
- `addr_and` and `addr_or` copy the first operand into the destination before they read the second. If the destination is
  the second operand, the result is the first: 3 & 1 stored so is 3 (`ThreeAndOne`). It is the conjunction exactly if the
  first has no bit the second lacks, the disjunction exactly if it is the other way round (`AndIntoSecond`,
  `OrIntoSecond`). No caller in the repository does this.

## Model

| member | source | states |
|---|---|---|
| ChannelSafety.RunsNeverDisconnect | channels.c:3489-3774 | every run of two endpoints from the open handshake keeps running: the ignored-window, extended-data-after-EOF, unknown-channel and adjust-overflow disconnects are unreachable; in both directions sender window + bytes in flight + adjusts in flight + ignored bytes = receiver window, and receiver window + consumed + buffered + discarded = maximum window |
| ChannelSafety.DeliveredInOrder | channels.c:2217-2361 | in every run and both directions what was written is a prefix of what was read, for data and for stderr; unless a write has failed, written ++ buffered ++ in flight ++ unsent is exactly what was read |
| ChannelSafety.RunKeeps | channels.c:3036-3774 | every run, of any length and interleaving, keeps the credit, conservation, stream and teardown invariant of both directions |
| ChannelSafety.KeepStep | channels.c:2190-2468 | each single event at either end keeps that invariant |
| ChannelSafety.DeadHearsNothing | nchan.c:332-371 | once a channel may be freed, nothing is left on its way to it |
| ChannelSafety.SendData | channels.c:3088-3102 | sending a packet within the remote window moves its bytes from sender to link without changing the total credit or the stream |
| ChannelSafety.ArriveData | channels.c:3521-3555 | a data packet that arrives fits the window and maximum packet, and moves from link to buffer, or counts as consumed at once if the output is not open |
| ChannelSafety.ArriveExtended | channels.c:3600-3609 | stderr that is kept moves from link to buffer within the same window |
| ChannelSafety.ExtendedIgnored | channels.c:3588-3592 | stderr that is not wanted is lost together with exactly its credit |
| ChannelSafety.GrantWindow | channels.c:2447-2465 | an adjust moves what was consumed from the receiver's account to the link, no more and no less |
| ChannelSafety.ArriveBack | channels.c:3762-3772 | an adjust that arrives cannot carry the sender's window past what the receiver granted, so it cannot wrap |
| ChannelSafety.StopWriting | nchan.c:254-305 | EOF or CLOSE stops the output without losing what it buffers |
| ChannelSafety.LoseOutput | nchan.c:307-324 | a failed write loses the buffered bytes and adds exactly their number to the discarded credit |
| ChannelSafety.LarvalCloseIsLast | nchan.c:277-282 | a larval channel, a server session that is not open yet, sends CLOSE only after it has received one and is then dead: in no run can it be opened behind its own CLOSE |
| ChannelSafety.ArriveControl | nchan.c:254-305 | EOF arrives once, nothing but control messages follows it, and nothing follows CLOSE |
| ChannelTeardown.RunCloses | nchan.c:254-324 | in every run, failed writes and CLOSEs at any time included: an input is closed only with its EOF sent, a CLOSE received or the other end's output closed; EOF received ends an open output, CLOSE received ends both halves; an EOW is only on its way from an end whose output is closed (what an EOW does: ChannelShut.NothingReadAfter) |
| ChannelShut.ReadingEndsIff | nchan.c:170-305 | an event ends reading from rfd if and only if it is end of file there, an EOW, a CLOSE, or an EOF where the input is drained by force; an input that has ended reads nothing |
| ChannelShut.NothingReadAfter | nchan.c:170-179 | after every run, once an EOW or another of those events has happened at either end, no continuation of any events reads another byte from that end's rfd |
| ChannelShut.ReadingExtendedEndsIff | nchan.c:291-304 | reading from efd ends if and only if it is at its end, or by a CLOSE that found the input not yet closed |
| ChannelShut.NothingReadExtendedAfter | nchan.c:291-304 | and then for good, in every continuation of every run |
| ChannelShut.WritingEndsIff | nchan.c:254-324 | the output stops being open if and only if EOF or CLOSE arrives or a write fails; from then on nothing new is there to be written |
| ChannelShut.NothingWrittenAfter | nchan.c:254-324 | so in every continuation of every run an end writes after EOF or CLOSE at most what it had buffered, and after a failed write nothing |
| ChannelShut.DrainingEndsIff | nchan.c:125-146 | an input that has seen end of file closes if and only if it is polled with nothing left to send, stderr included, or a CLOSE arrives, and an open channel sends its EOF as it does |
| ChannelShut.DrainingSendsEof | nchan.c:125-146 | so in every continuation it is still draining or its EOF has been sent, whatever arrives meanwhile, an EOW included |
| ChannelShut.OutputClosesIff | nchan.c:148-167 | an output closes if and only if a write fails, EOF arrives or has arrived and nothing is left to be written to either descriptor, or a larval channel gets a CLOSE |
| ChannelShut.EowSentIff | nchan.c:307-324 | an event puts an EOW on the link if and only if it is a failed write of a session channel whose peer knows the request |
| ChannelShut.FailedWriteStopsPeer | nchan.c:229-248 | after such a write, in every continuation, the EOW is on its way or the peer has stopped reading |
| ChannelShut.OthersSendNoEow | nchan.c:315-316 | ends of other channels never send one |
| ChannelLimits.ReadTakesMost | channels.c:2190-2217 | a read takes all that is ready unless 32 KB, the peer's window or the 16 MB of buffer is less, and then just that |
| ChannelLimits.ExtendedReadTakesMost | channels.c:2395-2440 | a read from efd likewise, 16 KB at a time |
| ChannelLimits.PollSendsMost | channels.c:3036-3107 | buffered input is sent if and only if the channel is open, no CLOSE has passed and there is window and packet size for a byte; the packet takes all of it, or all the window, or the whole packet size |
| ChannelLimits.PollExtendedSendsMost | channels.c:3110-3140 | stderr likewise |
| ChannelLimits.OverrunIff | channels.c:3530-3549 | a peer that sends any sequence of data packets without being granted window is disconnected if and only if at some packet those since the last empty one exceed what was left of the window by more than a tenth of its maximum |
| ChannelLimits.OverrunWithoutEmpties | channels.c:3530-3549 | without empty packets, if and only if their sum exceeds window plus that tenth |
| ChannelLimits.EmptyForgives | channels.c:3530-3549 | after any tolerated packets, an empty one and another tenth are tolerated again |
| ChannelLimits.DisconnectsIff | channels.c:3489-3774 | in whatever state, an event disconnects if and only if it delivers data beyond that tenth, stderr after EOF, an adjust past 2^32, or anything but an adjust to a channel that has been freed |
| ChannelLimits.ActivatedIs | channels.c:1294-1315 | a larval session that is given its descriptors is open for what they are for and announces its window |
| ChannelProgress.ProgressOnwards | channels.c:2190-2468 | at any channel, every event that ends a file, writes, sends, grants, closes or delivers strictly reduces the remaining work at both ends and on both links; a channel that ends by EOF goes on doing so, and what decides whether its window can run out is left alone |
| ChannelProgress.EveryWayEnds | nchan.c:332-371 | after failed writes, EOWs, and CLOSEs before EOF, too: in whatever order such events come there are at most Work(s) of them, and when no more can follow both ends are dead if and only if neither direction has an open input without any hope of window |
| ChannelProgress.EveryChannelEnds | nchan.c:332-371 | so it is after every run from the open handshake in which both ends have been opened |
| ChannelProgress.StalledIff | channels.c:2442-2468 | a channel whose sender still holds data or stderr cannot move any if and only if nothing is in flight, the receiver has nothing it could write, the sender's window is 0, and ignored + discarded + unwritable bytes are the whole window, or the ignored ones alone are at least half of it and within three packets of it |
| ChannelProgress.EveryWayDelivers | channels.c:2303-2465 | of a channel that ends by EOF, when no more such events can follow, all that was read has been written, stderr included where the receiver takes it, and the output is closed, if and only if this direction has not stalled; it does not if the credit suffices |
| ChannelProgress.EveryWayFinishes | nchan.c:332-371 | if both directions' credit suffices, both ends are then dead: EOF and CLOSE have gone both ways |
| ChannelProgress.ShutdownCompletes | nchan.c:332-371 | and a run that gets there exists from every such state |
| ChannelProgress.FreshIsHealthy | channels.c:3655-3695 | a fresh channel between open ends is such a state, and its credit suffices if and only if its window is at least two bytes or exceeds three packets in 32 bits |
| ChannelStall.StallIsFinal | channels.c:2442-2468 | from a stalled state no continuation, of any events at either end, opens the sender's window or writes another byte |
| ChannelStall.DroughtIsFinal | channels.c:2442-2468 | the same from every state in which the receiver's window holds nothing but ignored bytes and no adjust is due |
| ChannelStall.StallIsReachable | channels.c:3588-3592 | for every window, a run of stderr that the peer ignores ends in a stall with a data byte unsent |
| ChannelStall.PartialStallIsReachable | channels.c:2442-2468 | the same with any number of ignored bytes from half the window on, if the rest is at most three packets, all of it written |
| ChannelStall.LostWindowIsFinal | nchan.c:374-379 | once failed writes have discarded a whole window, no continuation opens the sender's window again or writes another byte |
| ChannelStall.LostWindowIsReachable | nchan.c:307-324 | for every window, a run that ends in such a state |
| ChannelDriver.Drive | channels.c:2190-3774 | two Channel objects and their packet queues, driven through any sequence of events from the open handshake: no handler disconnects, both windows stay accounted for exactly, and what each end has written is, in order, a prefix of what the other has read |
| ChannelDriver.Advance | channels.c:2190-3774 | one event on the objects, from any state of the protocol, neither disconnects nor leaves the protocol's states |
| ChannelDriver.OnPacket | channels.c:3489-3774 | the next packet is handled by type; one for a channel that has been freed disconnects, unless it is an adjust, which is passed over |
| ChannelObject.Channel.ReceivedOclose | nchan.c:267-305 | CLOSE from the peer: output drains, input is shut with at most one EOF sent first |
| ChannelObject.Channel.CollectGarbage | channels.c:2658-2679 | a fully closed channel sends its one CLOSE and is dead once CLOSE has gone both ways |
| ChannelObject.Channel.HandleRfd | channels.c:2190-2273 | what is taken is a prefix of what is ready, bounded by the read limit; end of file or error stops the input |
| ChannelObject.Channel.HandleWfd | channels.c:2275-2364 | what is written is a prefix of the output buffer and is counted as consumed; a failed write closes the output |
| ChannelObject.Channel.HandleEfdWrite | channels.c:2366-2393 | the same for stderr |
| ChannelObject.Channel.OutputPollInput | channels.c:3036-3107 | the packet is the longest prefix of the input that window and packet limit allow, and the window shrinks by its length; a drained input sends EOF |
| ChannelObject.Channel.OutputPollExtended | channels.c:3110-3140 | the same for stderr, never after EOF |
| ChannelObject.Channel.InputData | channels.c:3489-3558 | which packets are ignored, stored, counted as consumed at once, or make the peer disconnect after exceeding a tenth of the window |
| ChannelObject.Channel.InputExtendedData | channels.c:3560-3611 | which stderr packets are stored, ignored or fatal |
| MuxSafety.RoutedToOwner | channels.c:3377-3453 | in every run, every message ever put towards a client belonged to a channel that a client opened or accepted and carries the number that client chose; it reached that client unless the client was marked dead with the channel open |
| MuxSafety.InFlightIsAddressed | channels.c:508-565 | in every run, every message on its way from the server finds its own channel in the slot it names, although slots are reused |
| MuxStops.ClientIsTold | channels.c:3377-3453 | a message for a proxied channel is put to the address of the client that opened it, under its number, and never stops the master; it reaches that client if and only if the channel has not been lost by marking the client dead, and otherwise whoever is at the address; other messages are put towards nobody |
| MuxStops.TableIsSound | channels.c:261-273 | in every reachable table no two channels have the same server number but those closed both ways, which are never a client's and gone after a pass of the collector; a proxied channel points at the connected client that opened it if and only if that client was not marked dead meanwhile |
| MuxStops.StopsIff | channels.c:2658-3745 | for every event, the master stops if and only if the table is full, the message answers an OPEN whose client has left it, or the collector reaches an unnumbered channel whose client has left it or does in this pass from an earlier slot; a client marked dead does not stop it |
| MuxStops.DoomIff | nchan.c:204-227 | a pass stops the master or leaves it a channel to stop on if and only if the client of some channel without a server number has left it, or leaves it now by hanging up |
| MuxStops.UnnumberedStage | channels.c:3428-3449 | a channel has no server number exactly when its OPEN is unanswered, its answer is on its way, or it was refused |
| MuxStops.DoomedRunStops | channels.c:2683-2739 | every run that goes on from such a state stops at the latest with the next pass |
| MuxStops.UnansweredOpenStopsMaster | nchan.c:217-218 | a run of three events that does so, the OPEN being unanswered |
| MuxStops.RefusedOpenStopsMaster | channels.c:3428-3449 | one of five events, the OPEN having been refused |
| MuxStops.OrphansAreClosed | channels.c:2658-2679 | one pass frees every channel whose client left it earlier if the server has closed it, and sends its CLOSE otherwise; channels of clients that stay or are marked dead are not touched |
| MuxStops.FreedAfterBothCloses | channels.c:3335-3345 | a step empties a channel's slot only on the second of the two CLOSEs, at once for a client's channel and in a pass of the collector for others, or to collect an OPEN of the master's own that was refused |
| MuxSafety.NumbersAreUnique | channels.c:261-273 | distinct server numbers among channels not closed both ways, from numbers distinct at the server and FIFO links |
| MuxSafety.LookupFinds | channels.c:261-273 | once the collector has run, looking up a channel's server number finds that channel |
| MuxReuse.NumberIsThereTwice | channels.c:2658-2679 | a run that leaves two slots with the same server number until the collector runs, the older of them closed both ways |
| MuxSafety.SweepIsPass | channels.c:2683-2739 | the collector's steps in a run are exactly the pass of ChannelTable.Handler: same table, same CLOSEs, same stop |
| MuxCollector.PassFatalIff | nchan.c:204-227 | a pass from any slot is fatal if and only if it reaches an unnumbered channel without a client, or one whose client leaves it in an earlier slot of the same pass |
| MuxCollector.PassStrandsIff | channels.c:765-790 | a pass is fatal or leaves such a channel behind if and only if an unnumbered channel has no client or its client leaves it in the pass |
| MuxCollector.PassSlot | channels.c:2658-2679 | what a pass makes of each channel: freed only after a CLOSE from the server or as a zombie, closed if its client has left it, untouched if its client stays or is marked dead |
| MuxCollector.PassProxies | channels.c:775-786 | a pass takes a channel away from its client if and only if the client leaves it by hanging up, not if it is marked dead |
| MuxPass.PassOutcome | channels.c:2658-2739 | every slot after a pass, said of the table before it: the master's own channels are closed exactly if a CLOSE has been sent on them or both their halves are closed, and else stay; a client's channel is closed at once if its client is freed in an earlier slot, only taken from it if in a later one; zombies and clients that have gone are freed |
| MuxPass.PassSends | nchan.c:332-371 | the CLOSEs a pass sends, in order of slots, each with the channel's server number: one for every channel it closes that has not sent one, and no other |
| MuxPass.OwnInPass | nchan.c:339-371 | one of the master's own channels: left alone with nothing sent unless both halves are closed or CLOSE was sent; exactly one CLOSE with its number otherwise, unless sent before; freed if and only if CLOSE was received |
| MuxStops.SweepOutcome | channels.c:2683-2739 | in every reachable state a pass leaves every slot so and adds exactly those CLOSEs to the queue to the server |
| MuxStops.RefusedIsZombie | channels.c:3710-3745 | when the server refuses an OPEN of the master's own, its slot holds a zombie |
| MuxStops.ZombieIsFreed | channels.c:2658-2679 | which every pass that goes through frees |
| MuxStops.FullIff | channels.c:508-530 | there is no room for a channel if and only if every slot is taken and there are more than 16384; otherwise ten slots are added exactly if none is free |
| MuxStops.TableBounded | channels.c:508-530 | in every run the table has a multiple of ten slots and at most 16390 |
| MuxDangling.DanglesIff | channels.c:775-786 | for every pass and slot, the channel there points afterwards at a client other than its own, or at none, if and only if its client is marked dead in the pass or it did so before, and no client in the place of its own leaves it now |
| MuxDangling.PassDanglesIff | channels.c:2542-2558 | from a table without such a channel, a pass leaves one if and only if it finds a connected client dead that has a channel open |
| MuxDangling.NothingLostIff | nchan.c:326-330 | a run has lost no channel if and only if no pass in it found a client dead that had a channel open |
| MuxDangling.NeverAbandonsRoutes | channels.c:3377-3453 | in such a run every message ever put towards a client reached the client that opened the channel, under its number, and no channel points at another |
| MuxDangling.LostIsKept | channels.c:775-786 | a channel lost before a CLOSE was sent on it keeps its slot in every continuation in which nobody connects at its client's address, and everything the server sends on it reaches nobody |
| MuxDangling.IntoFreedMemory | channels.c:3392-3428 | a run in which the answer to an OPEN is put into freed memory |
| MuxDangling.ToAnotherClient | channels.c:3392-3428 | a run in which it is put to another client that has the address |
| MuxDriver.Drive | channels.c:2658-3453 | a table object driven through any events stops exactly where the run does and otherwise has the run's table and deliveries; every message carries the number of the client that opened its channel, and reached it if no client was marked dead with a channel open |
| MuxDriver.Turn | channels.c:2658-3453 | one event on the object is one step of the run |
| MuxSafety.RunKeeps | channels.c:2658-3453 | every run the master survives, collector passes, hang-ups, clients marked dead and reused addresses included, keeps the invariant that ties slots, clients, messages and the server's end together |
| MuxSafety.AnnouncedBehind | channels.c:3440-3449 | a number the server reuses is announced behind the CLOSE of its previous channel |
| MuxTable.FirstFree | channels.c:517-530 | the slot is free and all before it are taken |
| MuxTable.ByRemote | channels.c:261-273 | the slot has the number and none before it does |
| MuxTable.ChannelTable.New | channels.c:508-565 | the channel goes to the first free slot, after ten more slots if none is free, and nowhere if the table is too big |
| MuxTable.ChannelTable.ByRemoteId | channels.c:261-273 | the first slot with the number, or none |
| MuxTable.ChannelTable.FreeChannel | channels.c:765-828 | the slot is free, and if it still held a mux client every channel of that client is detached |
| MuxTable.ChannelTable.ProxyClose | channels.c:3335-3345 | CLOSE from a client: free the channel with that number if CLOSE has been received, otherwise mark it sent |
| MuxTable.ChannelTable.ProxyUpstream | channels.c:3377-3453 | the message goes to the channel's client under the client's number, read before the table changes; the number is recorded on confirmation and CLOSE tracked |
| MuxTable.ChannelTable.Collect | channels.c:2658-2679 | one slot: a client that hung up is freed with its channels detached, one marked dead is freed without; an ended channel sends CLOSE, fatally if it has no number, and is freed after both (over a whole pass: MuxPass.PassOutcome) |
| MuxTable.ChannelTable.Input | channels.c:3655-3745 | a message for a slot without a channel, and an answer for a channel that is not being opened, disconnect; otherwise the table is updated and the message goes to the channel's client, if it has one |
| MuxTable.ChannelTable.Handler | channels.c:2683-2739 | the slots in order, each seeing what earlier ones left |
| Socks.CutInsensitiveIff | channels.c:1531-1842 | an input decodes the same however it is cut if and only if its bytes are not a SOCKS4 CONNECT with a user or host name of exactly 1024 bytes and no longer one, nor a SOCKS5 authentication followed by a byte other than 5 |
| Socks.CutsAgree | channels.c:1797-1842 | outside those inputs every way of cutting gives the state that one piece gives: host, port, replies and remaining bytes |
| Socks.RejectedHoweverCut | channels.c:1797-1842 | inputs rejected in one piece are rejected in any pieces |
| Socks.SomeCutDisagrees | channels.c:1549-1600 | for every other input a cut that changes the result |
| Socks.Socks4HoweverCut | channels.c:1531-1605 | every SOCKS4 CONNECT with a user name below 1024 bytes, in any pieces, gives its address and port, is answered with the bytes 0, 90 and six zeros, and leaves exactly what follows it |
| Socks.Socks4AHoweverCut | channels.c:1577-1592 | the same for SOCKS4A with its host name |
| Socks.Socks5HoweverCut | channels.c:1660-1769 | the same for a SOCKS5 exchange without authentication, for all three address types: the answer is 5, 0, then 5, 0, 0, 1, four zeros and two bytes that read as the port |
| Socks.MoreConsumesNoPartialMessage | channels.c:1804-1841 | asking for more input consumes nothing but a complete authentication message |
| Socks.Parses4 | channels.c:1531-1605 | decoding inverts the encoding of a SOCKS4 request, whatever follows |
| Socks.Parses4A | channels.c:1577-1592 | the same with a host name |
| Socks.Parses5 | channels.c:1685-1769 | the same for a SOCKS5 request |
| Socks.ParsesAuth | channels.c:1621-1658 | an authentication message is consumed if it offers no authentication, and refused otherwise |
| SocksExact.Recovers4 | channels.c:1531-1605 | whatever is opened as SOCKS4 is a CONNECT: its bytes are the request for the destination and port decoded, followed by what is left |
| SocksExact.Recovers5 | channels.c:1621-1769 | the same for SOCKS5, with an offer of no authentication in front; a name is read up to its first NUL |
| SocksExact.RejectsIff | channels.c:1531-1842 | exactly which inputs are rejected, by their bytes: another version, a user or host name over 1024 bytes, no CONNECT, no offer of going without authentication, a reserved byte set or an unknown address type |
| SocksExact.CrashesIff | channels.c:1685-1692 | the fatal error comes if and only if an accepted authentication is followed by a byte other than 5 |
| SocksExact.RejectedUnanswered | channels.c:1531-1769 | a rejected client has been sent at most the answer about authentication, and nothing is opened for it |
| SocksObject.DynamicChannel.DecodeSocks4 | channels.c:1531-1605 | decoding on a duplicate of the input, committed only when complete |
| SocksObject.DynamicChannel.Socks5CheckAuth | channels.c:1621-1658 | the search for the no-authentication method |
| SocksObject.DynamicChannel.DecodeRequest | channels.c:1685-1769 | the request after authentication, with its reply (whose bytes are those of Socks.Socks5HoweverCut) |
| SocksObject.DynamicChannel.DecodeSocks5 | channels.c:1660-1769 | authentication once, then the request |
| SocksObject.DynamicChannel.PreDynamic | channels.c:1797-1842 | the first byte selects the protocol; fewer than three bytes wait |
| MethodLists.RemoveIsTail | auth2.c:614-664 | on a comma-separated list, removing a method is dropping the first token if and only if the token names the method, with its submethod where one is given |
| MethodLists.CompleteIff | auth2.c:614-695 | greedy removal empties a list if and only if the list's tokens embed in order into the successes |
| MethodLists.ConsumedEmbeds | auth2.c:641-664 | what greedy removal has consumed embeds in order into the successes |
| MethodLists.GreedyIsComplete | auth2.c:641-664 | no other embedding consumes more of a list than greedy removal |
| MethodLists.JoinTokens | auth2-methods.c:92-134 | a string is its tokens joined by commas |
| MethodLists.TokensJoin | auth2-methods.c:92-134 | and comma-free tokens are recovered from the joined string |
| UserAuth.CheckMethodsValid | auth2-methods.c:92-134 | a list is valid if and only if it is not empty and every token's base name is a known method, the first of that name being enabled if asked |
| UserAuth.CheckListed | auth2-methods.c:112-123 | the search of the method table for one name |
| UserAuthSafety.SuccessCompletesAList | auth2.c:401-449 | every run that ends in success has a configured, fully enabled list whose tokens embed in order into the accepted events, the last token at the last event |
| UserAuthSafety.NoListMetWithoutSuccess | auth2.c:401-406 | in a run without success no configured list is embedded in the accepted events |
| UserAuthSafety.StoredListsAreResiduals | auth2.c:672-695 | until success each stored string is, after every request, the greedy residual of its configured list |
| UserAuthSafety.RunLimits | auth2.c:299-356 | a run that goes on without success has served at most 1024 authentication requests, counted in the input; failures stay below max_authtries between requests; no two publickey successes use the same public key |
| UserAuthSafety.RecordedKeyNeverCounts | auth2.c:758-776 | a key on record at any point of a run is never the key of a later publickey success, also if the options had refused it |
| UserAuthSafety.VerifiedIsRecorded | auth2-pubkey.c:262-305 | a key that passed all its checks is on record afterwards, whether or not the options then refuse it |
| UserAuthSafety.UserIsFixed | auth2.c:332-337 | user and service never change after the first request |
| UserAuthSafety.UpdateAgrees | auth2.c:672-695 | one update keeps every list a residual or names the list that it completes |
| UserAuthSafety.RunKeeps | auth2.c:277-476 | every run keeps the invariant on lists, counters and keys |
| UserAuthVerdict.SuccessesAreEarned | auth2-pubkey.c:224-231 | in every run each counted success belongs to a request of its own, in order: a publickey success to one with a signature that verified, by the key in the log, allowed, with certificate, security-key details and options accepted; any other to one whose method or exchange said yes; never for an invalid user or where root is refused |
| UserAuthVerdict.FailuresAreCounted | auth2.c:452-476 | the failure count of every run is the number of its requests that were neither accepted nor left pending, did not fail by the server's own fault and were not a first "none" |
| UserAuthVerdict.ByNameIs | auth2-methods.c:40-83 | each method answers to its name, publickey also to the host-bound one, and is enabled by its own option |
| UserAuthVerdict.MethodsValidIff | auth2-methods.c:92-134 | a list is valid if and only if every token, up to a colon, is the own name of a known method, enabled by its option if asked |
| UserAuthVerdict.AnyIsNone | auth2.c:575-612 | every run with the lone list "any" is the run without lists |
| UserAuthCounts.RequestIsJudged | auth2.c:277-476 | after every run a request is counted, is the last one needed, ends the connection or does neither exactly as follows from the configured lists less the successes so far, the request's own checks and the counters |
| UserAuthCounts.UpdateIs | auth2.c:672-695 | a success completes a list if and only if some list has nothing else left, and is found if and only if it is next in some list |
| UserAuthCounts.AllowedIs | auth2.c:483-501 | a method may be tried if and only if no list is configured or it is the method of the next token of some list |
| UserAuthCounts.NoneSucceedsOnce | auth2-none.c:53-65 | in every run "none" succeeds at most once, and is disabled once it has been called |
| AuthObject.Authctxt.SetupMethodsLists | auth2.c:575-612 | the stored lists are the valid configured ones in order; no list left is a failure |
| AuthObject.Authctxt.RemoveFrom | auth2.c:646-664 | one stored list loses its head exactly when the method matches |
| AuthObject.Authctxt.UpdateMethodsLists | auth2.c:672-695 | all lists are tried in order until one becomes empty |
| AuthObject.Authctxt.KeyAlreadyUsed | auth2.c:758-776 | whether an equal public key is on record |
| AuthObject.Authctxt.UserauthPubkey | auth2-pubkey.c:89-317 | reuse check, then verification, then recording; a probe only postpones (what a success takes: UserAuthVerdict.SuccessesAreEarned) |
| AuthObject.Authctxt.MethodAllowed | auth2.c:483-501 | allowed without lists, otherwise if some stored list starts with the method |
| AuthObject.Authctxt.UserauthFinish | auth2.c:369-476 | update of lists, success flag and failure count, with every fatal path |
| AuthObject.Authctxt.Admit | auth2.c:299-349 | the attempt limit, the first request's set-up and the fixed user and service |
| AuthObject.Authctxt.LookupMethod | auth2.c:548-566 | a method is found only if enabled and allowed by the stored lists |
| AuthObject.Authctxt.TryMethod | auth2.c:351-356 | the method is called only if enabled, allowed and below the failure limit |
| AuthObject.Authctxt.InputUserauthRequest | auth2.c:277-367 | one request from start to finish |
| Bitmap.BitVector.constructor | bitmap.c:37-51 | a new bitmap is the empty set |
| Bitmap.BitVector.Zero | bitmap.c:64-69 | the empty set, with the array kept |
| Bitmap.BitVector.TestBit | bitmap.c:71-79 | membership |
| Bitmap.BitVector.Reserve | bitmap.c:81-98 | room for the bit exactly up to 1<<24, the set unchanged across reallocation |
| Bitmap.BitVector.SetBit | bitmap.c:100-113 | insertion, or failure above the limit with the set unchanged |
| Bitmap.BitVector.Retop | bitmap.c:116-123 | top moves down over zero words only, so the words above it stay zero and the set is unchanged |
| Bitmap.BitVector.ClearBit | bitmap.c:125-138 | deletion |
| Bitmap.BitVector.NBits | bitmap.c:140-159 | the highest element plus one, 0 for the empty set |
| Bitmap.BitVector.NBytes | bitmap.c:161-165 | that width in bytes, rounded up |
| Bitmap.BitVector.ToString | bitmap.c:167-186 | the big-endian bytes of the set, as few as possible, or failure with the buffer untouched |
| Bitmap.BitVector.FromString | bitmap.c:188-214 | the set that a big-endian byte string denotes, or failure with the set unchanged |
| Bitmap.ExportImport | bitmap.c:167-214 | import after export restores the set if and only if it has at most 1<<24 bits |
| Bitmap.SetAndTrip | bitmap.c:81-98 | of all bits that can be set, exactly 1<<24 does not survive export and import |
| Bitmap.ImportExport | bitmap.c:167-214 | export after import gives the bytes without exactly the leading zero ones |
| Bitmap.DecodedUnique | bitmap.c:167-186 | a byte string without leading zeros is determined by its set |
| AuthOptions.RoundTripIff | auth-options.c:795-910 | serialise then deserialise, with any suffix, gives back the record and exactly the suffix if and only if the flags fit a byte and the tunnel number is at least -1 |
| AuthOptions.DecodeEncode | auth-options.c:795-910 | for every record the trip gives its normal form: flags modulo 256, tunnel numbers below -1 as 0, NULL apart from the empty string |
| AuthOptions.RelayIff | auth-options.c:847-910 | options read from any bytes are read the same again after being sent on, if and only if their tunnel number is at least -1 |
| AuthOptions.LostOnTheWay | auth-options.c:795-845 | a record with tunnel -2 comes back with 0, one with a flag of 256 with 0 |
| AuthOptions.TunnelNotRelayed | auth-options.c:847-910 | for every record with a tunnel number below -1 there are bytes that are read as it, and relaying it changes the number to 0 |
| AuthOptions.SomeTunnelNotRelayed | auth-options.c:847-910 | one such record |
| AuthOptions.ArrayTrip | auth-options.c:703-768 | an array of NUL-free strings survives, with what follows it |
| AuthOptions.NullableTrip | auth-options.c:771-793 | a string or NULL survives, with what follows it |
| AuthOptionsWire.FixedLayout | auth-options.c:802-822 | the first 22 bytes: nine flags in order, the expiry time and the tunnel device, most significant byte first |
| AuthOptionsWire.VariableLayout | auth-options.c:821-842 | behind them four strings or NULLs and three arrays, in order |
| AuthOptionsWire.NullableLayout | auth-options.c:771-780 | a one for NULL, or a zero, the length and the bytes |
| AuthOptionsWire.ArrayLayout | auth-options.c:703-728 | the number of strings, the length of what follows, and the strings, each with its length |
| AuthOptionsWire.UntrustedReads | auth-options.c:821-840 | whatever the options are, an untrusted receiver reads the principals "yes", the command "true", no source restrictions and empty lists |
| AuthOptionsWire.UntrustedCannotTell | auth-options.c:821-840 | the bytes sent to it, always 73, are the same for any two options that agree in flags, expiry time and tunnel device |
| AuthOptionsObject.SerialiseArray | auth-options.c:703-728 | count and length-prefixed elements are appended, or the buffer limit is hit |
| AuthOptionsObject.DeserialiseArray | auth-options.c:730-768 | the array is consumed, or an error says what is wrong with it |
| AuthOptionsObject.SerialiseNullable | auth-options.c:771-780 | the NULL flag and the string are appended |
| AuthOptionsObject.DeserialiseNullable | auth-options.c:782-793 | they are consumed again |
| AuthOptionsObject.Serialise | auth-options.c:795-845 | the encoding of the record, or of its censored form, is appended exactly if it fits the buffer |
| AuthOptionsObject.Convey | auth-options.c:795-910 | options written to a buffer, with anything behind them, and read back give their normal form, or that of their censored form, and leave the rest; they are unchanged if and only if the flags fit a byte and the tunnel number is at least -1, and do not come through if and only if the buffer is too small |
| AuthOptionsObject.Deserialise | auth-options.c:847-910 | the record at the front of the buffer is consumed, or the first error reported |
| Wire.GetPutInt | sshbuf-getput-basic.c:48-75 | a big-endian integer survives, with what follows it |
| Wire.LengthDecides | sshbuf-getput-basic.c:250-282 | a length in front of other bytes: too large above 2^27 - 4, incomplete if more than there are, else a string and the rest |
| Wire.GetPutCString | sshbuf-getput-basic.c:288-325 | a NUL-free string survives, with what follows it |
| CounterMode.CryptUndoes | chacha.c:88-218 | encrypting twice from the same state gives the input back |
| CounterMode.CryptComposes | chacha.c:88-218 | splitting at a multiple of the block size changes nothing |
| ChaChaCore.QuarterRound | chacha.c:45-49 | the four lines in place, on any column or diagonal |
| ChaChaCore.TwentyRounds | chacha.c:139-148 | the loop over the sixteen words makes ten double rounds, columns before diagonals |
| ChaCha.MixedOctet | chacha.c:149-181 | xor of a keystream word with a little-endian load, stored little-endian, is xor of the bytes |
| ChaCha.WholeBlock | chacha.c:123-204 | rounds, feed-forward, loads, xor and stores: 64 bytes, each the input xor ChaCha20's block byte, also in place; nothing else is written |
| ChaCha.EncryptRange | chacha.c:88-218 | for any length, also in place, byte i becomes the input xor byte i mod 64 of the ChaCha20 block i/64 counts on, the last part by way of a buffer; nothing else is written; the counter ends ceil(n/64) on |
| ChaChaCore.RotateIs | chacha.c:23-24 | ROTL32 exchanges the high and the low part of a word, as numbers |
| ChaChaCore.QuarterBack | chacha.c:45-49 | the quarter round has an inverse |
| ChaChaCore.RoundsPermute | chacha.c:139-148 | the twenty rounds map different states to different states |
| ChaChaRfc.ColumnsAlone | chacha.c:140-143 | a column round is the quarter round on each column of the matrix by itself |
| ChaChaRfc.DiagonalIsSkewedColumn | chacha.c:144-147 | a diagonal round is a column round of the matrix with row r rotated by r |
| ChaChaRfc.RoundsAreTwenty | chacha.c:139-148 | the rounds are ten of these pairs |
| ChaChaRfc.ConstantsAreText | chacha.c:51-52 | the constants are the texts "expand 32-byte k" and "expand 16-byte k", loaded little-endian |
| ChaCha.AdvanceCounts | chacha.c:187-191 | one block adds one modulo 2^64 to the counter in words 12 and 13, carry included, and changes no other word |
| ChaCha.CryptUndoes | chacha.c:88-218 | ChaCha encryption is its own inverse |
| ChaCha.CryptComposes | chacha.c:88-218 | calls on whole blocks compose, counter included |
| ChaCha.StatesDiffer | chacha.c:54-86 | different keys of 128 or 256 bits, nonces or counters make different states: no byte is dropped or loaded twice |
| ChaCha.ChachaCtx.IvSetup | chacha.c:79-86 | the counter is the little-endian number given, or 0, the nonce is loaded, and constants and key are kept |
| ChachaPoly.OpensIff | cipher-chachapoly.c:68-120 | a packet opens to m if and only if it is m sealed under the same keys and sequence number (what that is byte by byte: ChachaPacket.SealedByte) |
| ChachaPoly.LengthOfSealed | cipher-chachapoly.c:122-136 | the length read from a sealed packet is the number in the plaintext's first four bytes, most significant first |
| ChachaPacket.SealedByte | cipher-chachapoly.c:68-120 | every byte of a sealed packet: length and payload xor their keystreams, and byte i of the tag the MAC of all the bytes before the tag |
| ChachaPacket.OpensWhenTagged | cipher-chachapoly.c:88-97 | a packet is opened if and only if every one of its last 16 bytes is that of the MAC of all the bytes before them |
| ChachaPacket.StatesAre | cipher-chachapoly.c:82-107 | length under the second key from block 0, payload under the first from block 1, tag key from block 0 of the first, the sequence number as nonce of all three |
| ChachaPacket.PolyKeyIs | cipher-chachapoly.c:82-86 | the tag's key is the first 32 bytes of that block |
| ChachaPacket.LengthFromFour | cipher-chachapoly.c:122-136 | the length can be read if and only if four bytes have come, and depends on no others |
| ChachaPoly.CountersApart | cipher-chachapoly.c:82-107 | for every u_int length the MAC key comes from counter 0 and the payload from counters 1 and up |
| ChachaPoly.RoundsApart | cipher-chachapoly.c:82-107 | so the rounds, before the state is added, never give the same words for both |
| ChachaPoly.NewContext | cipher-chachapoly.c:39-51 | two 256-bit keys in order, or NULL |
| ChachaPoly.PolyCtx.CryptPacket | cipher-chachapoly.c:68-120 | encryption writes the sealed packet; decryption writes the plaintext if the tag matches and otherwise leaves the destination unchanged; also in place, and whatever packets the context has handled before |
| ChachaPoly.GetLength | cipher-chachapoly.c:122-136 | the decrypted length, or an error for fewer than four bytes |
| ChachaPoly.Convey | cipher-chachapoly.c:68-136 | a packet sealed in one context and, in another with the same key, read for its length and opened, gives the length and the plaintext, whatever packets either has handled before |
| Cbc.DecryptEncrypt | cipher-aes.c:87-112 | decryption restores the plaintext of any number of blocks if the block cipher pair is inverse |
| Cbc.EncryptDecrypt | cipher-aes.c:87-112 | and the other way round |
| Cbc.EncryptSplits | cipher-aes.c:87-99 | encrypting in two calls, split at any block, is encrypting in one |
| Cbc.DecryptSplits | cipher-aes.c:100-112 | the same for decryption |
| Cbc.CbcCtx.EncryptBlocks | cipher-aes.c:87-99 | the forward loop, also in place; the IV becomes the last ciphertext block |
| Cbc.CbcCtx.DecryptBlocks | cipher-aes.c:100-112 | the backward loop, also in place; the IV becomes the last ciphertext block |
| Cbc.CbcCtx.Crypt | cipher-aes.c:70-114 | either direction, nothing for length 0, fatal for a partial block |
| Cbc.Convey | cipher-aes.c:70-114 | a buffer encrypted in one context and decrypted in place in another that is in step comes back, and they stay in step |
| AesCtr.IncCounts | cipher-aesctr.c:32-54 | incrementing a counter of n bytes adds one modulo 256^n to its big-endian value |
| AesCtr.IncEarly | cipher-aesctr.c:37-40 | the early-exit loop increments |
| AesCtr.IncConstant | cipher-aesctr.c:41-53 | the constant-time loop increments, too |
| AesCtr.AdvanceCounts | cipher-aesctr.c:32-54 | n increments add n modulo 256^len |
| AesCtr.CryptUndoes | cipher-aesctr.c:68-82 | counter mode is its own inverse |
| AesCtr.CryptComposes | cipher-aesctr.c:68-82 | calls on whole blocks compose, counter included |
| AesCtr.EncryptBytes | cipher-aesctr.c:68-82 | for any length, also in place, the output is the input xor the keystream and the counter ends ceil(n/16) on |
| Addr.XAddr.Netmask | addr.c:167-194 | the mask as a number is 2^w - 2^(w-l), for exactly the valid lengths |
| Addr.XAddr.Invert | addr.c:141-160 | the complement as a number |
| Addr.XAddr.Hostmask | addr.c:196-202 | the host mask as a number is 2^(w-l) - 1 |
| Addr.XAddr.SetAnd | addr.c:208-229 | conjunction of the whole numbers, for equal families, also into the first operand; into the second it is the first |
| Addr.XAddr.SetOr | addr.c:231-251 | disjunction of the whole numbers, likewise |
| Addr.AndIntoSecond | addr.c:208-229 | stored into its second operand, the result is the conjunction exactly if the first has no bit the second lacks |
| Addr.OrIntoSecond | addr.c:231-251 | and the disjunction exactly if the second has no bit the first lacks |
| Addr.ThreeAndOne | addr.c:216-219 | the addresses 3 and 1, whose conjunction so stored is 3 |
| Addr.XAddr.Cmp | addr.c:253-284 | the sign of the difference of two integers, one for each address: a total order on both families |
| Addr.KeyIdentifies | addr.c:253-284 | that integer is the same only for the same family and address, and for IPv6 the same scope |
| Addr.XAddr.IsAllZeros | addr.c:286-302 | whether the number is zero |
| Addr.XAddr.Increment | addr.c:304-325 | plus one modulo 2^32 or 2^128 |
| Addr.HostIsAllZeros | addr.c:333-344 | whether clearing the host bits changes nothing |
| Addr.HostToAllOnes | addr.c:360-370 | the highest address of the network |
| Addr.Netmatch | addr.c:497-510 | zero if and only if family and scope agree and the address without its host bits is the network |
| Addr.MatchIsRange | addr.c:497-510 | which is so if and only if the network has no host bits, scopes agree and the address lies, under addr_cmp, between the network and its highest address |
| Addr.WholeAndNone | addr.c:497-510 | with the whole width an address matches itself and no other, with length 0 all of the family match, and beyond the width none |
| Dh.FindBest | dh.c:218-237 | the first pass finds the best size and counts all entries of that size |
| Dh.Fetch | dh.c:251-267 | the second pass finds the entry with the given number among those of the best size |
| Dh.ChooseDh | dh.c:162-276 | a random entry of the best size, counted in the first reading and fetched from the second, or the fallback if that has too few; no suitable group if and only if the file can be read and nothing is in range or wanted |
| Dh.PoolEmptyIff | dh.c:239-249 | nothing can be chosen if and only if no line is in range or the size wanted is not positive |
| Dh.CandidatesAre | dh.c:218-226 | the candidates are the entries whose size is within both bounds |
| Dh.BestOfSmall | dh.c:228-232 | if every size in range is below the one wanted, the largest is best |
| Dh.BestIsWanted | dh.c:228-232 | if the first large enough size is the one wanted, it is best |
| Dh.BestIsSmallestAbove | dh.c:228-232 | if the first large enough size is larger, the smallest size above the one wanted is best |
| Dh.WantedIff | dh.c:228-232 | the size wanted is chosen if and only if it is the first large enough one |
| Dh.WantedPassedOver | dh.c:228-232 | a file in which the size wanted comes after a larger one, and is passed over |
| GlobalConfirm.RepliesInOrder | clientloop.c:477-493 | in every run the k-th reply runs the k-th registered callback and context, with registrations inside callbacks counted when they happen |
| GlobalConfirm.NothingWaitsIff | clientloop.c:482-483 | a reply finds nothing exactly when every registration has been answered |
| GlobalConfirm.FatalIff | clientloop.c:911-916 | after every run a registration is fatal if and only if the callbacks waiting end with 2^31 - 2 of the same kind |
| GlobalConfirm.RunCoalesces | clientloop.c:910-917 | in every run no two neighbouring entries could be one |
| GlobalConfirm.RunKeeps | clientloop.c:477-924 | what ran, then what waits, is what was registered; every reference count is at least 1 and below INT_MAX |
| GlobalConfirm.ReplyTakesFirst | clientloop.c:477-493 | a reply takes the oldest registration off and adds what its callback registered, even when that coalesces with the running entry |
| GlobalConfirm.ConfirmQueue.RegisterConfirm | clientloop.c:905-924 | the FIFO that the queue stands for gains exactly this registration at its end, coalesced or not, or the count is fatal |
| GlobalConfirm.ConfirmQueue.RequestReply | clientloop.c:477-493 | the first callback runs, what it registers is queued and one reference is dropped |

## Left out

- Datagram and filtered channels, text injected locally into stderr, and CHAN_LOCAL channels: their window accounting differs or they do not use windows.
- The SSH_BUG_EXTEOF compatibility exceptions: the model is of peers without that bug.
- Sockets, poll, listeners, X11, name resolution and process handling: reads and writes are arbitrary partial transfers.
- channel_force_close, which an inactivity timeout, a failed connection or an escape calls: it empties both buffers, marks both halves failed and may abandon the channel.
- ChannelObject.Channel.CollectGarbage: a session with a detach callback may hold back its CLOSE until its process has ended; here the collector sends it at once.
- ChannelSafety.RunsNeverDisconnect: larval channels are server sessions, which are never drained by force (force_drain is set only for channels of other kinds).
- ChannelProgress.EveryWayDelivers: is about channels that end by EOF; a failed write, an EOW, a CLOSE before EOF, or a forced drain with stderr still unsent may lose data, and what is lost is only counted.
- MuxSafety.RoutedToOwner: global requests and the payload bytes after the channel number are not modelled; a message is its type, its slot and the server's number.
- MuxStops.StopsIff: client events are taken between passes of channel_handler, where the source takes them within a pass at the client's slot; a client's CLOSE is read only after a pass since the last message from the server, which is the order of client_loop; a client that closes another's channel by its number is not modelled, and a message from a client that cannot be parsed only marks the client dead.
- MuxDangling.ToAnotherClient: only mux clients are given addresses; memory of a client marked dead that is reused for anything else counts as freed, and the forwarding permissions of such a client, which point at it likewise, are not modelled.
- MuxTable.ChannelTable.Handler: a pass during a key exchange, which leaves every channel that is not open, so also clients and zombies, until it is over, is not modelled.
- MuxTable.ChannelTable.Collect: which of the master's own channels have closed both halves is a parameter; their own life cycle is the channel flow control part.
- Keyboard-interactive, password, GSSAPI, host-based and PAM conversations, audit, delays, banners and logging: reduced to a verdict, whether the method postponed, and the device name.
- UserAuthCounts.RequestIsJudged: an answer to an exchange is taken whenever the last request was left pending; that the packet dispatcher knows only the answers of the method that is pending is not modelled.
- AuthObject.Authctxt.UserauthPubkey: parsing of the request and the signature check itself are verdicts; their order and effect on state are modelled.
- sshauthopt_parse and sshauthopt_merge: parsing of authorized_keys options is not part of this model.
- AuthOptionsObject.Deserialise: allocation failure is not modelled, so an array count up to INT_MAX is always allocated.
- Allocation failure elsewhere, and clearing of secrets from memory.
- Poly1305 and Rijndael internals: the MAC and the block cipher are parameters, and every property holds for any of them, for CBC if the pair is inverse.
- ChachaPoly.RoundsApart: is about the words before the state is added to them; the sums could in principle agree.
- Addr.XAddr.Netmask: words are kept in host order; the conversions with htonl and ntohl are left implicit.
- addr_pton, addr_ntop and CIDR parsing: library calls.
- Dh.ChooseDh: parse_prime is reduced to which lines parse and with what size; the big numbers are not modelled, nor the two paths and the permission check on Windows, which decide only whether there is a file.
- GlobalConfirm.ConfirmQueue.RequestReply: callbacks are what they register; other effects and the alive timer are not modelled.
