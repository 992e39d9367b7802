# Verification of the worker platform layer

The two firmware workers of this repository put genuine Trezor firmware behind a
privileged USB supervisor: the Safe 3 worker (`platform/safe3/usb_supervisor.c`) and
the legacy worker (`platform/raspberry-pi/`). Between the firmware and the kernel they
run helper threads, hand packets over through one-packet slots, follow a
configure / quiesce / endpoints / serving protocol, keep a clock that excludes
suspended time, and keep a panel showing the last frame. This project models that code
in Dafny and proves what it relies on.

| file | models |
|---|---|
| `Common.dfy` | bytes, packets, slots, mutex owners |
| `Safe3Out.dfy`, `Safe3In.dfy` | one Safe 3 endpoint each way: helper thread, Core, kernel and cancellation as a step machine with one program counter per thread, down to single bytes of each copy |
| `LegacyOut.dfy` | the legacy OUT endpoint at the same level, the event loop, nested passes and helpers started over each other included |
| `Safe3OutRuns.dfy`, `Safe3InRuns.dfy`, `LegacyOutDelivery.dfy` | what these machines get done: delivery of a packet from end to end, what a call that found a packet or room must do, stops that come to their end |
| `LegacyOutRuns.dfy` | a run that ends badly for each hypothesis of `LegacyOut` |
| `Scripts.dfy` | runs of a step function put together from pieces |
| `Wire.dfy`, `EndpointMap.dfy`, `ResourceList.dfy` | the UGSP record, the endpoint map, the initial resource list |
| `Generation.dfy`, `GenerationFacts.dfy` | the endpoint table and the generation protocol of both workers, as the C code (class `Port`) and as functions on a log of everything sent, received, spawned, joined, closed and forgotten |
| `Ledger.dfy` | what can be read off such a log: descriptors in and out, helpers spawned and not joined, request ids, the last bus event |
| `Safe3Usb.dfy`, `Safe3Driver.dfy`, `Safe3Facts.dfy` | the Safe 3 driver as functions, as a class proved against them, and the theorems over all its runs |
| `Safe3Calls.dfy` | what its single calls and passes come to, in terms of records, descriptors and slots |
| `LegacyUsb.dfy`, `LegacyDriver.dfy`, `LegacyFacts.dfy` | the same for the legacy driver, with callbacks that may enter the event loop again |
| `LegacyLoop.dfy` | when the legacy loop's poll results stay good, and how helpers come to be started twice |
| `LegacyRuns.dfy` | concrete runs of the legacy driver |
| `Control.dfy`, `Safe3Ep0.dfy` | the Safe 3 EP0 request handler, on its own and over whole runs of the driver |
| `WorkerTimer.dfy`, `Display.dfy`, `Parking.dfy` | awake time, display recovery, and the wait loops that keep them in step |

`exit` is absorbing: a state that has ended stays as it is, a theorem speaks about
states that have not, and the inputs that lead to it are characterised. An inbox that
runs out leaves the process blocked in `receive_record`. Descriptors are numbers handed
over by records; the log and the table account for each of them.

## Hypotheses and findings

- Beginning of a run. The statics of both workers are zero-initialised, so before usb_init
  every slot holds descriptor 0. `Safe3Facts.EarlyRecordExactly` and
  `LegacyFacts.EarlyRecordExactly` say which records act on it. The Safe 3 descriptor
  balance and lifecycle theorems assume that none of those is handled before the first
  usb_init (`RecordsAfterInit`), and the theorems about a single call or pass start from a
  driver with that balance and lifecycle (`Safe3Usb.Inv`) where they need it; the other
  theorems over all Safe 3 runs hold from boot on. Runs of the legacy worker begin with
  usbInit.
- Stale poll results. The Safe 3 drain loop trusts poll results taken before the control
  record of the same pass was handled. `Safe3Facts.StalePollKills` says exactly when that
  ends the process, `Safe3Facts.StalePollRun` is a run that gets there, and
  `StaleExactly` of `Safe3Out` and `Safe3In` is the same for one endpoint. The legacy loop
  tests `usb_enabled` first. That is enough as long as no callback enters the event loop
  again and no helper was started over another (`LegacyLoop.EnabledGuardsPoll`, with
  hypotheses `NoneReenters` and `Sole`).
- Re-entry. A legacy callback that polls enters the event loop again. A nested pass can
  read the notification of an endpoint that the outer loop has yet to come to, and the
  outer loop then ends the process. `LegacyLoop.OuterLoopSurvivesExactly` has no hypothesis
  and tells what must hold at each turn; where no callback polls,
  `LegacyLoop.RestOfLoopExactly` decides it from the slots and the helpers' own steps.
- Callbacks. The legacy notification proof needs each OUT callback to read one packet
  before it does anything else and nothing to be read outside (`LegacyOut.Polite`), and no
  ENABLE that finds a helper running with the bus not enabled (`LegacyOut.CleanRun`); that
  every eventfd read returns exactly 1 also needs `LegacyOut.NoReentry`. `LegacyOutRuns`
  has a failing run for each: a callback that reads nothing, a read outside a callback, a
  callback that polls before it reads, a nested pass, and a helper started over another.
- Double start. The legacy worker can clear `usb_enabled` without stopping its helpers;
  the next ENABLE then starts a second helper on the same file, the handle of the first
  is lost, and a later takedown closes the file and frees the buffers under it.
  `LegacyFacts.DoubleStartExactly`, `LegacyFacts.FilesCloseAfterJoin` and
  `LegacyFacts.BuffersGoUnderHelperExactly` give the exact conditions. Until then both
  helpers share slot, buffers and eventfd: a notification may come late
  (`LegacyRuns.LateNotificationRun`), and a packet may be copied from the wrong buffer
  (`LegacyOutRuns.WrongBytesDelivered`). The Safe 3 worker never starts a helper over
  another (`Safe3Facts.HelpersNeverDouble`).
- Re-initialisation. usb_init and usbInit overwrite descriptors without closing them, so
  the balance of both workers counts them as forgotten. Over running helpers usb_init
  leaves threads without files: `Safe3Usb.StepKeepsInv` has the exact step, and
  `Safe3Facts.FailedStartCanOrphan` a run that reaches it. `Safe3Facts.LifecycleSafety`
  assumes that this does not happen (`NoOrphans`). `Safe3Out`, `Safe3In` and `LegacyOut`
  let it happen: the helper's next notification then ends the process, and until it is
  stopped its slot may go unannounced (`NoReset` in `OnlyResetForgets` excludes that). Of
  the legacy worker only a process still blocked inside such a second usbInit is exempt
  from `LegacyFacts.LifecycleSafety`.
- Rejected restart. usb_start on a started device runs usb_stop before it asks the
  supervisor. Generation, table, bus and suspend state survive a rejection exactly when
  the device was not both started and enabled (`Safe3Facts.RejectedStart`).
- Start while ejected. usb_start does not clear `ejected` (`Safe3Facts.StartWhileEjected`).
- Repeated resource names are accepted and lose the earlier descriptor, except that the
  Safe 3 worker refuses a second display.
- The Safe 3 `hid_protocol` begins as 0 and no bus event resets it, although section 7.2.6
  of HID 1.11 has devices default to the report protocol. The model follows the code:
  without a SET, GET_PROTOCOL returns the initial value.
- Class requests select their interface by the low byte of wIndex only.
- usbFlush may return while suspended when the suspend arrives in the output poll just
  before its check; only the wait loop excludes that. Its lower bound on awake time needs
  no hypothesis about wrap-around; the bound on each poll is stated modulo 2^32.
- The legacy wait loop assumes 64-bit clock readings that do not overflow.
- iface_write returns 0 both for an accepted empty packet and for a refusal.

## Model

| member | source | states |
|---|---|---|
| Safe3Out.OutIsFifo | platform/safe3/usb_supervisor.c:427-467 | For every interleaving of the reader thread, Core, the kernel and cancellation: what `iface_read` returned in this activation is, packet by packet and each cut to the caller's length, a prefix of what was read from FunctionFS; at most two packets are behind, and they are the slot, the read buffer and what a stop dropped, in that order |
| Safe3Out.StepRefinesFifo | platform/safe3/usb_supervisor.c:1144-1165 | Each step of the byte-and-lock-level machine is a step of an abstract queue or none: the host appends, a consuming `iface_read` removes the head, only a stop forgets a tail |
| Safe3Out.ClearRefinesGet | platform/safe3/usb_supervisor.c:1153-1164 | Clearing `occupied` after the copy takes exactly the head of the queue, cut to the caller's length |
| Safe3Out.StepKeepsInv | platform/safe3/usb_supervisor.c:427-467 | Every action from every program counter keeps mutual exclusion, live buffers, the partial copies, the queue equation, the wake-up and the announcement invariants |
| Safe3Out.StartForgets | platform/safe3/usb_supervisor.c:552-582 | Starting a helper yields the same fresh activation whatever an earlier one left: empty slot, zero counter, free mutex, no history |
| Safe3Out.DiesExactlyWhen | platform/safe3/usb_supervisor.c:436-464 | A step ends the process if and only if FunctionFS failed, the helper's eventfd would overflow or has been overwritten by usb_init, or Core drains an eventfd that a stop has closed since the poll; no step touches a freed buffer |
| Safe3Out.StaleExactly | platform/safe3/usb_supervisor.c:958-988 | Core comes to drain a closed eventfd if and only if a stop came between the poll that reported it and the drain, and the pass did not return early |
| Safe3Out.OnlyResetForgets | platform/safe3/usb_supervisor.c:1233-1237 | Without usb_init over a running helper its eventfd stays open for as long as it runs |
| Safe3OutRuns.ResetKillsNotifier | platform/safe3/usb_supervisor.c:1233-1237 | After usb_init over a helper about to notify, the notification ends the process |
| Safe3Out.NoSilentPacket | platform/safe3/usb_supervisor.c:454-464 | A packet in the slot has been announced to Core, or has a pending eventfd count, or its thread is about to notify, or Core has just drained, or usb_init has overwritten the eventfd; passes that return early for an ejection or insertion included |
| Safe3Out.NoDeadlock | platform/safe3/usb_supervisor.c:446-459 | A sleeping helper has a full slot or a coming signal; a helper that is not asleep or reading can move unless Core holds the mutex; Core can always move unless it joins a helper that can |
| Safe3Out.CancelledHelperWindsDown | platform/safe3/usb_supervisor.c:527-537 | While a cancellation is pending, no action of anybody raises the number of moves the helper has left |
| Safe3Out.CancelledHelperMoves | platform/safe3/usb_supervisor.c:423-425 | From any program counter a cancelled helper has a move that lowers that number, the cleanup handler of the condition wait included |
| Safe3Out.JoinReturns | platform/safe3/usb_supervisor.c:527-537 | From every program counter cancel and join can finish within the ranked number of steps, with the endpoint mutex free afterwards |
| Safe3OutRuns.ReadDelivers | platform/safe3/usb_supervisor.c:1144-1165 | From every state in which Core is between operations and the mutex free, an undisturbed iface_read returns after a stated number of steps with the mutex free: from a full slot it has taken the head of the queue, cut to the caller's length, emptied the slot and woken a sleeping helper; from an empty one it has changed nothing |
| Safe3OutRuns.FoundPacketIsDelivered | platform/safe3/usb_supervisor.c:1150-1164 | In every interleaving, an iface_read that finds `occupied` set under the lock does not return without having taken the packet that was there |
| Safe3OutRuns.ReadHasReason | platform/safe3/usb_supervisor.c:1144-1165 | In every interleaving, an iface_read that has returned took a packet, or found the slot empty while it held the mutex |
| Safe3OutRuns.PacketReachesSlot | platform/safe3/usb_supervisor.c:441-453 | A packet read from the host in front of an empty slot is published within as many helper steps as it has bytes and five more, not counting those during which Core holds the mutex, whatever happens in between |
| Safe3OutRuns.HostPacketIsDelivered | platform/safe3/usb_supervisor.c:427-467 | The whole way of one packet, for every packet that fits and every caller's length: sent, stored, announced, drained, signalled and returned by iface_read, with the helper back in read in front of an empty slot |
| Safe3OutRuns.ReadyAnswers | platform/safe3/usb_supervisor.c:1090-1103 | iface_read_ready answers whether the slot is full and disturbs nothing |
| Safe3OutRuns.ReadyPacketWaits | platform/safe3/usb_supervisor.c:1098-1102 | A positive answer does not go stale: in every interleaving the same packet stays in the slot until Core reads or stops |
| Safe3OutRuns.InterruptedReadIsRetried | platform/safe3/usb_supervisor.c:432-439 | A read interrupted by a signal is taken up again with nothing else changed |
| Safe3OutRuns.SpuriousWakeIsHarmless | platform/safe3/usb_supervisor.c:446-449 | A helper that wakes up in front of a full slot for no reason goes back to sleep |
| Safe3OutRuns.EndedHelperStaysEnded | platform/safe3/usb_supervisor.c:436-438 | When FunctionFS ends the generation under a read, the helper ends and stays ended in every run until the endpoint is stopped |
| Safe3OutRuns.StopCompletes | platform/safe3/usb_supervisor.c:523-550 | From every state in which a stop can begin, a bounded run leads to its end: no helper, no buffer, no eventfd, an empty slot and a free mutex |
| Safe3In.InIsExact | platform/safe3/usb_supervisor.c:469-521 | For every interleaving, with the kernel reading the buffer byte by byte outside the lock: the transfers FunctionFS completed are exactly a prefix of the packets `iface_write` accepted, at most one outstanding, only a stop drops it |
| Safe3In.NothingDisturbsTheTransfer | platform/safe3/usb_supervisor.c:487-510 | Between the unlock and the re-lock no action of Core, kernel or helper changes the buffer, its length or `occupied` |
| Safe3In.CoreLeavesFullSlot | platform/safe3/usb_supervisor.c:1167-1187 | No step of Core changes a full slot while the helper exists |
| Safe3In.StepKeepsInv | platform/safe3/usb_supervisor.c:469-521 | Every action from every program counter keeps the lock, lifetime, transfer, copy, queue, wake-up and announcement invariants |
| Safe3In.StartForgets | platform/safe3/usb_supervisor.c:552-582 | Starting a helper yields the same fresh activation whatever an earlier one left |
| Safe3In.DiesExactlyWhen | platform/safe3/usb_supervisor.c:489-519 | A step ends the process if and only if the transfer failed or was short, the helper's eventfd would overflow or has been overwritten by usb_init, or Core drains an eventfd that a stop has closed since the poll |
| Safe3In.StaleExactly | platform/safe3/usb_supervisor.c:958-988 | Core comes to drain a closed eventfd if and only if a stop came between the poll that reported it and the drain, and the pass did not return early |
| Safe3In.OnlyResetForgets | platform/safe3/usb_supervisor.c:1233-1237 | Without usb_init over a running helper its eventfd stays open for as long as it runs |
| Safe3InRuns.ResetKillsNotifier | platform/safe3/usb_supervisor.c:1233-1237 | After usb_init over a helper about to notify, the notification ends the process |
| Safe3In.NoSilentRoom | platform/safe3/usb_supervisor.c:504-519 | A freed slot is announced to the writer in every interleaving, unless usb_init has overwritten the eventfd |
| Safe3In.NoDeadlock | platform/safe3/usb_supervisor.c:478-487 | A sleeping helper has an empty slot or a coming signal; somebody can always move |
| Safe3In.AcceptedPacketIsOffered | platform/safe3/usb_supervisor.c:478-495 | Each helper step brings an accepted packet closer to the kernel unless Core holds the mutex, and no action of anybody takes it back |
| Safe3In.AcceptedPacketReachesKernel | platform/safe3/usb_supervisor.c:478-495 | Over every run from an accepted packet on: once the helper has taken nine steps while Core did not hold the mutex, the packet has been handed to the kernel, unless a stop or the end of the process came first |
| Safe3In.CancelledHelperWindsDown | platform/safe3/usb_supervisor.c:527-537 | A cancelled helper only gets closer to its end |
| Safe3In.JoinReturns | platform/safe3/usb_supervisor.c:527-537 | Cancel and join can finish from every program counter, the mutex free afterwards |
| Safe3InRuns.WriteAcceptsExactly | platform/safe3/usb_supervisor.c:1167-1187 | From every state in which Core is between operations and the mutex free, an undisturbed iface_write returns after a stated number of steps; it has put the packet into the slot whole and woken a sleeping helper if and only if the helper runs on an open eventfd, the packet fits and the slot is empty, and has changed nothing otherwise |
| Safe3InRuns.FoundRoomIsFilled | platform/safe3/usb_supervisor.c:1174-1186 | In every interleaving, an iface_write that finds `occupied` clear under the lock does not return without the packet having been accepted |
| Safe3InRuns.TakenPacketFreesSlot | platform/safe3/usb_supervisor.c:504-510 | The slot of a packet the host has taken is empty within three helper steps, not counting those during which Core holds the mutex |
| Safe3InRuns.AcceptedPacketIsTransferred | platform/safe3/usb_supervisor.c:469-521 | The whole way of an accepted packet: the host gets exactly its bytes, the slot is emptied, the room announced and drained |
| Safe3InRuns.ReadyAnswers | platform/safe3/usb_supervisor.c:1105-1118 | iface_write_ready answers whether the slot is empty and disturbs nothing |
| Safe3InRuns.RoomStays | platform/safe3/usb_supervisor.c:1113-1117 | A positive answer does not go stale: in every interleaving the slot stays empty until Core writes |
| Safe3InRuns.InterruptedWriteIsRetried | platform/safe3/usb_supervisor.c:489-497 | A write interrupted by a signal is taken up again from the first byte |
| Safe3InRuns.SpuriousWakeIsHarmless | platform/safe3/usb_supervisor.c:478-482 | A helper that wakes up in front of an empty slot for no reason goes back to sleep |
| Safe3InRuns.EndedHelperStaysEnded | platform/safe3/usb_supervisor.c:498-501 | When FunctionFS ends the generation under a write, the helper ends and stays ended in every run until the endpoint is stopped |
| Safe3InRuns.CompletedTransferIsNotLost | platform/safe3/usb_supervisor.c:527-537 | A cancellation that comes between the end of a transfer and the return of write loses nothing: the packet counts as sent |
| Safe3InRuns.StopCompletes | platform/safe3/usb_supervisor.c:523-550 | From every state in which a stop can begin, a bounded run leads to its end, nothing of the activation left |
| LegacyOut.PoliteHandoff | platform/raspberry-pi/usb_functionfs.c:604-654 | Over every run in which each callback reads one packet before anything else, nothing is read outside and no ENABLE finds a helper running with the bus not enabled (`CleanRun`), nested passes of other endpoints and usbInit included: at most one notification is pending, the slot is full exactly while its notification is about to be written, pending, or read but unserved, and firmware sees the packets in order and uncut; if moreover no callback enters the event loop again, the `notification != 1` exit is unreachable |
| LegacyOut.DiesExactlyWhen | platform/raspberry-pi/usb_functionfs.c:623-633 | A step of such a run ends the process if and only if the host completes a transfer before the last was taken, firmware's buffer is too short, FunctionFS fails, the endpoint's turn comes when its eventfd does not hold 1, or usbInit has overwritten the eventfd that the helper writes; straight after poll the eventfd holds 1 |
| LegacyOut.StepKeepsInv | platform/raspberry-pi/usb_functionfs.c:438-479 | Every polite action but an ENABLE over a running helper keeps the ledger between slot, eventfd and callback, or is one of those deaths |
| LegacyOutDelivery.HostPacketIsDelivered | platform/raspberry-pi/usb_functionfs.c:604-654 | The whole way of one packet, from every state of a polite run in which the endpoint is at rest and for every packet that fits: stored, announced, read by the loop, and taken by firmware's callback uncut, with nothing owed afterwards |
| LegacyOutDelivery.StartIsFresh | platform/raspberry-pi/usb_functionfs.c:683-711 | An ENABLE over no helper starts a fresh activation, whatever the one before has left |
| LegacyOutDelivery.CancelledHelperMoves | platform/raspberry-pi/usb_functionfs.c:656-667 | A cancelled helper always has a move that brings it closer to its end, or it finds the slot full and ends the process |
| LegacyOutDelivery.StopCompletes | platform/raspberry-pi/usb_functionfs.c:656-681 | From every state of a polite run in which a stop can begin, a bounded run leads to its end, nothing of the activation left, or to the exit on an overrun |
| LegacyOutDelivery.ResetKillsNotifier | platform/raspberry-pi/usb_functionfs.c:1003-1011 | After usbInit over a helper about to notify, the notification ends the process |
| LegacyOutDelivery.InterruptedReadIsRetried | platform/raspberry-pi/usb_functionfs.c:608-611 | A read interrupted by a signal is taken up again with nothing else changed |
| LegacyOutDelivery.NullReadFails | platform/raspberry-pi/usb_functionfs.c:606-617 | A read into the NULL that a stop has left ends the process for every packet with bytes |
| LegacyOutDelivery.EndedHelperStaysEnded | platform/raspberry-pi/usb_functionfs.c:612-617 | When FunctionFS ends the generation under a read, the helper ends and stays ended until a stop or a start |
| LegacyOutRuns.EarlyReadBreaksNotification | platform/raspberry-pi/usb_functionfs.c:977-989 | From the start of any activation, a script with one read outside a callback makes the next notification read 2 and ends the process although nothing was overrun |
| LegacyOutRuns.NestedServeBreaksNotification | platform/raspberry-pi/usb_functionfs.c:483-488 | With a packet waiting, another endpoint's callback that polls lets a nested pass serve it, and the outer loop then ends the process on the empty eventfd although every packet was read exactly once |
| LegacyOutRuns.ExecIsRun | platform/raspberry-pi/usb_functionfs.c:604-654 | Executing such a script is the run of its actions in order |
| LegacyOutRuns.StartIsQuiet | platform/raspberry-pi/usb_functionfs.c:683-711 | That state is where every activation begins |
| LegacyOutRuns.SkippedReadOverruns | platform/raspberry-pi/usb_functionfs.c:629-633 | A callback that reads nothing makes the helper end the process on the next packet, whatever it is |
| LegacyOutRuns.UnreadReentryBreaksNotification | platform/raspberry-pi/usb_functionfs.c:483-488 | A callback that polls before it reads, with DISABLE and ENABLE in nested passes, takes a packet before its notification: the next notification reads 2 |
| LegacyOutRuns.LateNotificationBreaks | platform/raspberry-pi/usb_functionfs.c:683-711 | From any state in which the helper is about to notify: the bus drops, ENABLE starts another helper over it, its late notification comes for an empty slot, and the next one reads 2, although firmware is polite and nothing polls |
| LegacyOutRuns.WrongBytesDelivered | platform/raspberry-pi/usb_functionfs.c:604-650 | From any state in which the helper sits in read: after such a start it copies from the new read buffer, and firmware gets a packet that the host never sent |
| Wire.DecodeAcceptsExactlyFrames | platform/safe3/usb_supervisor.c:208-268 | A record is accepted if and only if the bytes are the frame of that record, untruncated, with as many descriptors as announced and at most 32 |
| Wire.RecordRoundTrip | platform/safe3/usb_supervisor.c:270-296 | Whatever `send_record` sends decodes to the same kind, generation, request id and body |
| Wire.DecodedByteByByte | platform/safe3/usb_supervisor.c:208-268 | Where each field of an accepted record stands, byte by byte: "UGSP", version, kind, and the big-endian counts, generation, request id and body length |
| Wire.SendRecord | platform/raspberry-pi/usb_functionfs.c:219-245 | Builds exactly that frame in a buffer, or exits for a body over 1 MiB |
| Wire.ReceiveRecord | platform/raspberry-pi/usb_functionfs.c:160-217 | The checks on the received buffer, in program order, decide as the specification does |
| Wire.PutBe32 | platform/safe3/usb_supervisor.c:192-197 | Writes the big-endian image of the word at the offset and nothing else |
| Wire.PutBe16 | platform/safe3/usb_supervisor.c:187-190 | Writes the big-endian image of the half word at the offset and nothing else |
| Wire.Be32Injective | platform/safe3/usb_supervisor.c:178-181 | Reading a word loses nothing: writing it back restores the bytes |
| EndpointMap.MeasuresIffEncoding | platform/safe3/usb_supervisor.c:598-607 | The length checks pass and the loop reads these entries if and only if the body is their encoding, one entry per descriptor, the whole body consumed |
| EndpointMap.EncodeDecodes | platform/safe3/usb_supervisor.c:598-607 | Every encoding passes the checks and decodes to its entries |
| EndpointMap.EntriesByteByByte | platform/safe3/usb_supervisor.c:598-607 | Where each field of an entry stands: address, transfer type and big-endian packet size, four bytes per endpoint behind the count |
| EndpointMap.AddressesAndSlots | platform/safe3/usb_supervisor.c:402-408 | Valid addresses and table slots correspond one to one |
| ResourceList.ReceiveResources | platform/safe3/usb_supervisor.c:340-396 | The record is accepted if and only if it announces some list of names, with every name paired with its own descriptor and every required role present; the result is determined by that list |
| ResourceList.ReadNames | platform/raspberry-pi/usb_functionfs.c:265-300 | The loop terminates on an increasing in-bounds offset, and refuses only records that no list of names explains |
| ResourceList.AcceptedByName | platform/safe3/usb_supervisor.c:298-396 | What the accepted announcements are, in terms of names alone: every name known; for Safe 3 one display, and one that can be selected; and a display, "display-control", "buttons" and, for Safe 3, "reconnect-button" among them |
| ResourceList.EncodeIsInjective | platform/safe3/usb_supervisor.c:361-385 | No two lists of names have the same body |
| ResourceList.EachRoleHoldsItsLastDescriptor | platform/safe3/usb_supervisor.c:298-338 | Each named role ends up with the descriptor of the last name of that role |
| ResourceList.NothingLeaksIffRolesDistinct | platform/raspberry-pi/usb_functionfs.c:247-263 | Every transferred descriptor is held in the end if and only if no two names have the same role |
| ResourceList.RepeatedButtonsLeak | platform/safe3/usb_supervisor.c:298-396 | For each worker a complete announcement with "buttons" twice that it accepts, ending up with fewer descriptors than it was sent |
| Generation.Port.constructor | platform/safe3/usb_supervisor.c:132-149 | A port begins with the zero-initialised table, in which every slot holds descriptor 0, and request id 1 |
| Generation.Port.ResetEndpoints | platform/safe3/usb_supervisor.c:1233-1237 | The loop of usb_init and virtual_init drops file and eventfd of every slot without closing them and logs each file it drops |
| Generation.Port.StopEndpointThreads | platform/safe3/usb_supervisor.c:523-550 | The loop over the table stops and joins exactly the running helpers and empties their slots, as specified |
| Generation.Port.StartEndpointThreads | platform/raspberry-pi/usb_functionfs.c:683-711 | The loop starts exactly the endpoints with an open file; the legacy worker exits on a zero packet size |
| Generation.Port.CloseFiles | platform/safe3/usb_supervisor.c:584-596 | The loop closes every open file once and leaves the rest of each slot |
| Generation.Port.CloseAllEndpoints | platform/safe3/usb_supervisor.c:584-596 | Stops the helpers, then closes the files |
| Generation.Port.InstallLoop | platform/safe3/usb_supervisor.c:608-619 | The loop fills the table with the decoded map, or refuses it exactly when an address is invalid or repeated |
| Generation.Port.InstallEndpoints | platform/safe3/usb_supervisor.c:598-623 | Agrees with the specification of an installation on accepted and refused records |
| Generation.Port.SendConfigure | platform/safe3/usb_supervisor.c:625-640 | Takes a request id; the id after 2^32 - 1 ends the process instead of wrapping |
| Generation.Port.ConfigureUntilEndpoints | platform/safe3/usb_supervisor.c:642-674 | The loop over an unbounded inbox agrees with its specification: result, log, and records left over |
| GenerationFacts.ReplacementTrace | platform/safe3/usb_supervisor.c:642-674 | If a replacement ends in SERVING, the records received were exactly QUIESCE and ENDPOINTS with this request's id, and the log is CONFIGURE, QUIESCE, joins and closes of the whole old generation, QUIESCED for the old generation, ENDPOINTS, SERVING for the new one |
| GenerationFacts.FirstConfigurationTrace | platform/raspberry-pi/usb_functionfs.c:755-786 | The same for a first configuration, which hears only ENDPOINTS |
| GenerationFacts.TakedownClosesAll | platform/safe3/usb_supervisor.c:584-596 | The takedown in those traces closes every open file |
| GenerationFacts.QuiesceLog | platform/safe3/usb_supervisor.c:660-665 | QUIESCED is sent after every join and close, with nothing left to take down |
| GenerationFacts.RejectionIsEarlyOrEmpty | platform/safe3/usb_supervisor.c:642-674 | A rejection that comes first changes nothing but the id counter and the log; one after QUIESCE leaves nothing open and the bus not enabled; there is no third kind |
| GenerationFacts.ReplacementOutcome | platform/safe3/usb_supervisor.c:642-674 | A replacement is served if and only if QUIESCE and then good ENDPOINTS answer the request, rejected if and only if a rejection comes first or right after QUIESCE; it waits if the records run out before, and any other record ends the process |
| GenerationFacts.FirstOutcome | platform/raspberry-pi/usb_functionfs.c:755-786 | The same for a first configuration, which is served by good ENDPOINTS alone |
| GenerationFacts.ForeignRecordEndsIt | platform/safe3/usb_supervisor.c:642-674 | A record with another request id, or of another generation without opening a new one, ends the process |
| GenerationFacts.ActivationIsBigEndian | platform/safe3/usb_supervisor.c:870-877 | The activation is the last eight bytes of a bus event, most significant first |
| GenerationFacts.InstallAcceptsExactly | platform/safe3/usb_supervisor.c:598-623 | ENDPOINTS is accepted if and only if its body encodes valid and pairwise different addresses, one per descriptor |
| GenerationFacts.InstalledTable | platform/safe3/usb_supervisor.c:608-622 | Each entry is then in the slot of its address with its own descriptor, and no other slot holds one |
| GenerationFacts.ConfigureIsQuiet | platform/safe3/usb_supervisor.c:642-674 | A configuration, however it ends short of exit, moves no descriptor out of the balance, closes no file under a running helper, starts no helper, and takes its request id once |
| GenerationFacts.ResetMovesFds | platform/safe3/usb_supervisor.c:1233-1237 | A re-initialisation moves exactly the open descriptors from the table to the forgotten ones; the first one, over the zeroed table, forgets none |
| GenerationFacts.CloseMovesFds | platform/safe3/usb_supervisor.c:584-596 | Closing moves exactly the open descriptors from the table to the closed ones |
| Ledger.InstallOpensAll | platform/safe3/usb_supervisor.c:608-622 | Installing opens each received descriptor in exactly one slot |
| Ledger.ClosedUnderHelperExactly | platform/safe3/usb_supervisor.c:584-596 | In any log in which joins follow the thread flag and closes find it clear: a file is closed while a helper of its slot lives if and only if one had been started over another on that slot |
| Ledger.OverwrittenHelperStays | platform/raspberry-pi/usb_functionfs.c:700-709 | A helper that was started over another is never joined: from then on the slot has at least one helper more than its flag says |
| Ledger.OnceIffNever | platform/raspberry-pi/usb_functionfs.c:700-709 | The flag discipline "no start over a live helper" along a log is equivalent to the absence of any such event |
| Ledger.IdsStrictlyIncrease | platform/safe3/usb_supervisor.c:625-640 | In any log kept by the protocol, configuration ids are nonzero and strictly increasing |
| Safe3Usb.StepKeepsInv | platform/safe3/usb_supervisor.c:870-926 | A call that does not end the process keeps lifecycle consistency, descriptor balance, join order and port alternation if and only if it is not usb_init over running helpers, which always leaves a thread without its file |
| Safe3Usb.StepKeepsOrder | platform/safe3/usb_supervisor.c:870-926 | Every call whatever, usb_init over running helpers included, keeps join order, single helpers, ids and port alternation, and loses no descriptor once the table has been reset |
| Safe3Facts.LifecycleSafety | platform/safe3/usb_supervisor.c:523-582 | In every state reached after usb_init by a run that handles no record acting on endpoints before it and calls it over no running helper: enabled means file, thread, eventfd and buffers are there together; not enabled means no thread, eventfd, buffer or packet; a packet fits a live buffer |
| Safe3Facts.DescriptorsAreLinear | platform/safe3/usb_supervisor.c:584-623 | Over every run that handles no record acting on endpoints before usb_init, each received descriptor is in one slot, closed once, or forgotten by a later re-initialisation |
| Safe3Facts.EarlyRecordExactly | platform/safe3/usb_supervisor.c:908-926 | A record survived before the first usb_init leaves the zeroed table alone if and only if it is a control request, a suspend or a resume; any other acts on descriptor 0 |
| Safe3Facts.FilesCloseAfterJoin | platform/safe3/usb_supervisor.c:584-596 | Over every run no endpoint file is closed while any helper ever started on its slot has not been joined |
| Safe3Facts.HelpersNeverDouble | platform/safe3/usb_supervisor.c:552-582 | Over every run each slot has as many unjoined helpers as its flag says, one or none, and none is ever started over another |
| Safe3Facts.BusStateFollows | platform/safe3/usb_supervisor.c:870-906 | Over every run `activation` and `suspended` are those of the last bus event received, and enabled implies that the last one other than suspend and resume was ENABLE |
| Safe3Facts.RequestIdsNeverRepeat | platform/safe3/usb_supervisor.c:676-683 | Over every run configuration ids are nonzero, strictly increasing and never reused |
| Safe3Facts.NothingAfterLastId | platform/safe3/usb_supervisor.c:625-640 | Over every run nothing is configured after id 2^32 - 1 |
| Safe3Facts.NewGenerationStartsEmpty | platform/safe3/usb_supervisor.c:642-674 | After SERVING no slot holds a thread, a buffer or a packet: nothing crosses from a retired generation |
| Safe3Facts.PortChangesAlternate | platform/safe3/usb_supervisor.c:676-707 | Over every run ejections and insertions alternate, starting with an ejection, and `ejected` tells which came last |
| Safe3Facts.PassConverges | platform/safe3/usb_supervisor.c:963-981 | After a completed pass with USB started, `ejected` equals the last sampled level, unless the supervisor has just rejected the ejection |
| Safe3Facts.RejectedStart | platform/safe3/usb_supervisor.c:1361-1404 | A usb_start rejected before QUIESCE keeps generation, files, suspension and ejection; it keeps the whole table and `enabled` if and only if the device was not both started and enabled, because usb_stop comes first |
| Safe3Facts.StartWhileEjected | platform/safe3/usb_supervisor.c:1388-1399 | A served usb_start leaves "ejected means no endpoint descriptors" true if and only if it was not ejected or the record carried none |
| Safe3Facts.StalePollKills | platform/safe3/usb_supervisor.c:982-988 | A pass that reaches the drain loop ends the process if and only if an eventfd was reported and the control record just handled stopped the helpers |
| Safe3Facts.StalePollRun | platform/safe3/usb_supervisor.c:982-988 | A run from boot that gets there: one OUT endpoint, ENABLE, then DISABLE in the pass that poll reported the endpoint for |
| Safe3Facts.FailedStartCanOrphan | platform/safe3/usb_supervisor.c:1395-1418 | A run from boot that leaves a helper on an endpoint the driver no longer knows |
| Safe3Facts.DrainSignalsOwner | platform/safe3/usb_supervisor.c:989-996 | Endpoint n signals interface n-1, readable or writable, and that interface uses this very slot |
| Safe3Calls.StartOutcome | platform/safe3/usb_supervisor.c:1361-1404 | usb_start is served by good ENDPOINTS alone before the first generation and by QUIESCE and good ENDPOINTS after it; it survives if and only if it is served or rejected, and the device is started if and only if it was served and its handles registered |
| Safe3Calls.StartAsksExactly | platform/safe3/usb_supervisor.c:1361-1387 | usb_start before usb_init, or for what is being served already, changes nothing; one that cannot build its personality has stopped the device |
| Safe3Calls.RestartStopsFirst | platform/safe3/usb_supervisor.c:1388-1399 | usb_start of a started device is usb_start of the stopped device |
| Safe3Calls.DeinitStops | platform/safe3/usb_supervisor.c:1265-1274 | usb_deinit and usb_stop leave a started device disabled, every helper joined, no eventfd, buffer or packet, and every file kept |
| Safe3Calls.InitAsksExactly | platform/safe3/usb_supervisor.c:1209-1263 | usb_init sends one CONFIGURE if and only if it was not done before, its personality could be built and its handle registered, and has gone through the whole table then |
| Safe3Calls.KeyIsReadToTheEnd | platform/safe3/usb_supervisor.c:709-747 | Edges and interrupted reads do not end the drain of KEY3, however many; a read that would block ends it and the level is sampled; a closed, failing or partial read ends the process |
| Safe3Calls.PressEjects | platform/safe3/usb_supervisor.c:676-707 | KEY3 sampled as pressed while started: QUIESCE takes every endpoint down, is acknowledged and ejects, with the exact log; a rejection leaves table, generation and bus as they were; anything else ends the process |
| Safe3Calls.ReleaseInserts | platform/safe3/usb_supervisor.c:971-981 | KEY3 sampled as released while ejected: good ENDPOINTS put a new generation in service and end the ejection, with the exact log; anything else ends the process |
| Safe3Calls.SteadyKeyKeepsPort | platform/safe3/usb_supervisor.c:963-981 | KEY3 as it should be, or before usb_start, asks for nothing |
| Safe3Calls.OnlyCurrentRecordsSurvive | platform/safe3/usb_supervisor.c:870-926 | A runtime record that is survived is of the current generation, of one of three kinds and in its form: no record of a retired generation is acted upon |
| Safe3Calls.BusEventExactly | platform/safe3/usb_supervisor.c:870-906 | Which bus events are survived, byte by byte, and what they make of activation, suspension and `enabled`; helpers then run on exactly the open endpoints of an enabled bus |
| Safe3Calls.QuiesceIsAcknowledged | platform/safe3/usb_supervisor.c:908-926 | A runtime QUIESCE closes every file and is acknowledged under its id, with the exact log; with id 0 the process then ends |
| Safe3Calls.ControlRequestIsAnsweredOnce | platform/safe3/usb_supervisor.c:764-785 | A well-formed control request gets exactly one response, under its id and the current generation, and touches no endpoint |
| Safe3Calls.WriteAcceptsExactly | platform/safe3/usb_supervisor.c:1167-1187 | iface_write accepts a packet if and only if the bus is enabled and not suspended, the IN endpoint of the interface has a file and an empty slot, and the packet fits; it changes that slot and nothing else |
| Safe3Calls.ReadTakesExactly | platform/safe3/usb_supervisor.c:1144-1165 | iface_read empties the OUT slot of its interface if and only if it holds a packet, suspended or not |
| Safe3Calls.HelperMovesExactly | platform/safe3/usb_supervisor.c:427-521 | The other side of a slot as the driver model has it: a helper that runs fills an empty OUT slot with a packet that fits and empties a full IN slot, and does nothing else |
| Safe3Driver.UsbDriver.constructor | platform/safe3/usb_supervisor.c:132-149 | The driver begins with zero-initialised statics, descriptor 0 in every slot |
| Safe3Driver.UsbDriver.UsbInit | platform/safe3/usb_supervisor.c:1209-1263 | usb_init as specified, for every outcome of personality builder and handle registration |
| Safe3Driver.UsbDriver.UsbDeinit | platform/safe3/usb_supervisor.c:1265-1274 | usb_deinit as specified |
| Safe3Driver.UsbDriver.UsbStart | platform/safe3/usb_supervisor.c:1361-1404 | usb_start as specified; it returns whether USB is started |
| Safe3Driver.UsbDriver.UsbStop | platform/safe3/usb_supervisor.c:1406-1418 | usb_stop as specified |
| Safe3Driver.UsbDriver.HandleBusEvent | platform/safe3/usb_supervisor.c:870-906 | The bus event handler as specified, exits included |
| Safe3Driver.UsbDriver.HandleRuntimeRecord | platform/safe3/usb_supervisor.c:908-926 | The record dispatcher as specified, with exit after a QUIESCE of id 0; a control request is answered from the interfaces, the bus state and the generation of that moment |
| Safe3Driver.UsbDriver.HandleControlRequest | platform/safe3/usb_supervisor.c:749-868 | Answers and updates the interfaces as specified, or exits for exactly the malformed requests |
| Safe3Driver.UsbDriver.UnconfigureUntilQuiesced | platform/safe3/usb_supervisor.c:676-707 | Ejection as specified: only QUIESCE of this request ejects, only a rejection does nothing |
| Safe3Driver.UsbDriver.RefreshReconnectState | platform/safe3/usb_supervisor.c:709-747 | However many edges are queued, the level sampled after the drain counts; a failed, partial or ended read exits |
| Safe3Driver.UsbDriver.ServiceController | platform/safe3/usb_supervisor.c:928-988 | One pass as specified: the record, then KEY3 with the edges it reads and the level it samples, the exit on unexpected KEY3 poll events, then the rest |
| Safe3Driver.UsbDriver.FinishPass | platform/safe3/usb_supervisor.c:963-988 | Ejection, insertion or drain, as the sampled level and the state have it |
| Safe3Driver.UsbDriver.ReadInterface | platform/safe3/usb_supervisor.c:1144-1165 | Frees the slot and returns the cut length, or 0 on an empty one |
| Safe3Driver.UsbDriver.WriteInterface | platform/safe3/usb_supervisor.c:1167-1187 | Fills the slot and returns the length, or changes nothing and returns 0 |
| LegacyFacts.DoubleStartExactly | platform/raspberry-pi/usb_functionfs.c:683-711 | Over every run from usbInit on, a helper is started on a slot that still has one if and only if some ENABLE, at whatever depth of nested passes, found helpers running with the bus not enabled |
| LegacyFacts.FilesCloseAfterJoin | platform/raspberry-pi/usb_functionfs.c:713-724 | Over every such run a file is closed while a helper of its slot lives if and only if a helper had been started over another there; never in a run without a double start |
| LegacyLoop.StopsPreventDoubleStart | platform/raspberry-pi/usb_functionfs.c:803-828 | If BIND, UNBIND, DISABLE or QUIESCE comes between every drop of `usb_enabled` and the next ENABLE, nested ones included, no helper is ever started over another |
| LegacyLoop.LingeringEnableStartsOver | platform/raspberry-pi/usb_functionfs.c:818-828 | An ENABLE that finds helpers running with the bus not enabled starts each of them over |
| LegacyLoop.QuiesceClosesUnderHelper | platform/raspberry-pi/usb_functionfs.c:903-911 | QUIESCE then closes the file of such a slot although the overwritten helper has not been joined |
| LegacyRuns.LostTransferClosesUnderHelper | platform/raspberry-pi/usb_functionfs.c:430-432 | A run from usbInit on in which a lost IN transfer, ENABLE and QUIESCE lead there |
| LegacyRuns.LateNotificationRun | platform/raspberry-pi/usb_functionfs.c:971-989 | A run from usbInit on in which no callback polls and the loop still ends the process: a packet is stored, the bus drops and is enabled again, the late notification and the next one make 2 |
| LegacyLoop.EnabledGuardsPoll | platform/raspberry-pi/usb_functionfs.c:971-989 | While no callback enters the loop again and no helper was started over another on these endpoints, poll results never go stale: whatever record came with them, though callbacks disconnect or reconnect and helpers store and notify, the loop ends before it would read an eventfd without its one notification |
| LegacyLoop.OuterLoopSurvivesExactly | platform/raspberry-pi/usb_functionfs.c:971-989 | From any state, whatever the callbacks do, polling included, at any depth and in any number of them: the loop survives its poll results if and only if each eventfd that it comes to holds exactly 1 then |
| LegacyLoop.RestOfLoopExactly | platform/raspberry-pi/usb_functionfs.c:971-989 | Where no callback polls, that is decided slot by slot: the loop survives if and only if for each endpoint it comes to the eventfd holds 1 once the helpers' own stores and notifications on that slot in the callbacks before are counted in |
| LegacyLoop.NestedPassSteals | platform/raspberry-pi/usb_functionfs.c:483-488 | From any state with two endpoints reported: if the first callback polls and the nested pass serves the second, the outer loop ends the process |
| LegacyLoop.NestedRestartEmpties | platform/raspberry-pi/usb_functionfs.c:683-711 | A nested DISABLE and ENABLE leave no endpoint with a notification to read |
| LegacyRuns.NestedPassRun | platform/raspberry-pi/usb_functionfs.c:954-991 | A run from usbInit on in which two packets arrive and the first callback polls |
| LegacyFacts.LifecycleSafety | platform/raspberry-pi/usb_functionfs.c:656-724 | In every live state of such a run thread flag, eventfd and buffers come and go together over an open OUT file and while enabled every OUT file has its thread; unless a helper was started over another one there, the slot's packet has exactly one notification, written or about to be; and the flag counts the unjoined helpers if and only if none was |
| LegacyFacts.BuffersGoUnderHelperExactly | platform/raspberry-pi/usb_functionfs.c:656-681 | In every such state: where the buffers are gone, a helper is still unjoined if and only if one had been started over another there |
| LegacyFacts.OrphansExactly | platform/raspberry-pi/usb_functionfs.c:700-709 | A slot has helpers that its handle no longer names if and only if one was started over another, and with the flag they count the unjoined ones |
| LegacyFacts.StoreExactly | platform/raspberry-pi/usb_functionfs.c:604-637 | What a helper's store comes to: a full slot, or bytes copied into freed memory, end the process, anything else fills the slot |
| LegacyFacts.NotifyExactly | platform/raspberry-pi/usb_functionfs.c:639-651 | What its notification comes to: a closed eventfd ends the process, an open one counts one more |
| LegacyFacts.DescriptorsAreLinear | platform/raspberry-pi/usb_functionfs.c:713-753 | Over every such run each received descriptor is in one slot, closed once, or forgotten by a later usbInit |
| LegacyFacts.RequestIdsNeverRepeat | platform/raspberry-pi/usb_functionfs.c:582-598 | Over every such run configuration ids are nonzero and strictly increasing |
| LegacyFacts.BusStateFollows | platform/raspberry-pi/usb_functionfs.c:788-857 | Over every such run `activation` is that of the last bus event, `usb_enabled` implies that the last one other than suspend and resume was ENABLE, and the worker is suspended if and only if the last one of enable, suspend and resume was SUSPEND |
| LegacyFacts.SleepsExactlyAfterSuspend | platform/raspberry-pi/usb_functionfs.c:788-857 | Over every such run clock and panel are suspended if and only if a SUSPEND was received and no ENABLE, SUSPEND or RESUME after it: BIND, UNBIND and DISABLE change neither, and ENABLE resumes an enabled bus too |
| LegacyFacts.BusEventExactly | platform/raspberry-pi/usb_functionfs.c:788-857 | What a survived bus event makes of the bus: ENABLE leaves a helper on every open OUT endpoint, BIND, UNBIND and DISABLE leave none, SUSPEND and RESUME are of the current activation and leave the endpoints alone |
| LegacyFacts.EnableSurvivesExactly | platform/raspberry-pi/usb_functionfs.c:683-711 | An ENABLE of a disabled bus is survived if and only if firmware names only endpoints that exist, accepts the configuration, and leaves no open OUT endpoint with packets of size 0 |
| LegacyFacts.LastSetUpWins | platform/raspberry-pi/usb_functionfs.c:337-359 | The last virtual_ep_setup of a slot decides its address, type and packet size; a slot that is not named keeps them |
| LegacyFacts.ReconnectReplaces | platform/raspberry-pi/usb_functionfs.c:1027 | usbReconnect answered by QUIESCE and good ENDPOINTS puts the new generation in service: QUIESCED for the old one after its takedown, then SERVING, with the exact log, and nothing else of the driver changed |
| LegacyFacts.RejectedReconnect | platform/raspberry-pi/usb_functionfs.c:755-786 | A rejection that comes first leaves table, generation and `usb_enabled` as they were |
| LegacyFacts.ReconnectSurvivesExactly | platform/raspberry-pi/usb_functionfs.c:755-786 | usbReconnect survives exactly a replacement and a rejection; ENDPOINTS without QUIESCE end the process |
| LegacyFacts.InitSurvivesExactly | platform/raspberry-pi/usb_functionfs.c:1003-1011 | usbInit survives exactly good ENDPOINTS for its request |
| LegacyFacts.QuiesceIsAcknowledged | platform/raspberry-pi/usb_functionfs.c:903-911 | A runtime QUIESCE closes every file and is acknowledged under its id, whatever that is, with the exact log |
| LegacyFacts.ControlRequestIsAnsweredOnce | platform/raspberry-pi/usb_functionfs.c:859-901 | A well-formed control request gets exactly one response, under its id and the current generation |
| LegacyFacts.OnlyCurrentRecordsSurvive | platform/raspberry-pi/usb_functionfs.c:903-924 | A runtime record that is survived is of the current generation, of one of three kinds and in its form |
| LegacyFacts.EarlyRecordExactly | platform/raspberry-pi/usb_functionfs.c:913-924 | A record survived before usbInit leaves the zeroed files and threads alone if and only if it is a control request, a suspend or a resume |
| LegacyDriver.UsbDriver.UsbInit | platform/raspberry-pi/usb_functionfs.c:1003-1011 | usbInit as specified: virtual_init goes through the table first, a rejected first configuration exits |
| LegacyDriver.UsbDriver.SetUpEndpoints | platform/raspberry-pi/usb_functionfs.c:337-359 | The calls of virtual_ep_setup overwrite address, type and packet size of their slots and exit on an address without a slot |
| LegacyDriver.UsbDriver.UsbReconnect | platform/raspberry-pi/usb_functionfs.c:1027 | usbReconnect as specified, the verdict ignored; `LegacyFacts.ReconnectReplaces` says what that comes to |
| LegacyDriver.UsbDriver.HandleBusEvent | platform/raspberry-pi/usb_functionfs.c:788-857 | The bus event handler as specified, for any endpoint set-up and either answer to SET_CONFIGURATION; `View` takes suspension from the clock and `Valid` has the panel agree, so the run theorems speak about both; the panel is shown again, darkened or left alone as the kind says |
| LegacyDriver.UsbDriver.SwitchBus | platform/raspberry-pi/usb_functionfs.c:802-857 | Its switch, case by case, clock and panel included |
| LegacyDriver.UsbDriver.EnableEndpoints | platform/raspberry-pi/usb_functionfs.c:818-828 | The rest of ENABLE: firmware's set-up, the exit on a stall, the helpers |
| LegacyDriver.UsbDriver.HandleRuntimeRecord | platform/raspberry-pi/usb_functionfs.c:903-924 | The record dispatcher as specified; QUIESCE never exits here |
| LegacyDriver.UsbDriver.ServiceController | platform/raspberry-pi/usb_functionfs.c:926-991 | One pass as specified, whatever happens in its callbacks, nested passes included |
| LegacyDriver.UsbDriver.DrainReported | platform/raspberry-pi/usb_functionfs.c:971-989 | The loop over ready endpoints stops as soon as `usb_enabled` drops and exits on an eventfd that is closed, empty or above 1 |
| Control.OnlyMalformedRequestsKill | platform/safe3/usb_supervisor.c:764-785 | A history of control requests, bus events and configurations is survived if and only if every request is well-formed under the generation of its moment |
| Control.AnswerKindExactly | platform/safe3/usb_supervisor.c:786-868 | By the bytes of the setup packet: which requests are acknowledged, which answered with data, and that exactly the others stall |
| Control.AnswerDataExactly | platform/safe3/usb_supervisor.c:794-860 | The data of each answer by literal request number, cut to wLength: report descriptor, 0xee string, status, configuration, alternate setting, empty report, HID state, landing page |
| Control.ChangesExactly | platform/safe3/usb_supervisor.c:830-845 | SET_IDLE and SET_PROTOCOL store the high and the low byte of wValue with the interface they name, nothing else changes anything, and a request that changes something is acknowledged |
| Control.WellFormedExactly | platform/safe3/usb_supervisor.c:764-785 | Which records the handler answers, by their bytes |
| Control.FirstAddWins | platform/safe3/usb_supervisor.c:1276-1359 | Over any history an interface is what the first call that adds it says |
| Control.OneResponseEach | platform/safe3/usb_supervisor.c:764-868 | The responses are exactly one per request, in order, each under its request's id |
| Control.NeverLongerThanAsked | platform/safe3/usb_supervisor.c:862-867 | No response exceeds wLength (section 9.3.5 of USB 2.0), and a shorter one is complete |
| Control.GetReturnsLatestSet | platform/safe3/usb_supervisor.c:822-845 | GET_IDLE and GET_PROTOCOL return what the latest matching SET on that interface carried, across any other requests, bus events and configurations (sections 7.2.3 to 7.2.6 of HID 1.11) |
| Control.StandardReads | platform/safe3/usb_supervisor.c:790-815 | GET_CONFIGURATION tells the latest enabled state and a HID report descriptor reads back cut to wLength, after any history |
| Control.Pipe.AnswerControlRequest | platform/safe3/usb_supervisor.c:749-868 | Updates the interface array and answers as specified, or exits for exactly the malformed requests |
| Control.Pipe.Respond | platform/safe3/usb_supervisor.c:786-861 | The answer before it is cut to wLength, and what it changes |
| Control.Pipe.AnswerPlainRequest | platform/safe3/usb_supervisor.c:797-853 | The standard requests, branch by branch |
| Control.Pipe.AnswerHidRequest | platform/safe3/usb_supervisor.c:822-845 | The HID class requests, branch by branch, updating idle rate and protocol |
| Safe3Ep0.HandlerFollows | platform/safe3/usb_supervisor.c:908-926 | Over every run of the driver, registrations of interfaces interleaved, the handler survives as long as the process and sees the driver's bus state and generation |
| Safe3Ep0.GetReturnsLatestSet | platform/safe3/usb_supervisor.c:822-845 | Over every run of the driver: GET_IDLE and GET_PROTOCOL return the latest SET since any moment at which the interface was a HID interface, across bus events, ejection, insertion, usb_stop, usb_start and re-initialisation |
| Safe3Ep0.OneResponseEach | platform/safe3/usb_supervisor.c:764-868 | Over every run of the driver each control request handled got exactly one response, in order, under its id |
| WorkerTimer.ValueIsAwakeTime | platform/raspberry-pi/timer_linux.h:15-44 | For any sequence of suspends and resumes, duplicates included, the value is the number of milliseconds not spent suspended, counted one by one, and timer_ms its low 32 bits |
| WorkerTimer.ValueIsMonotone | platform/raspberry-pi/timer_linux.h:39-44 | Later readings are never smaller, across any further calls, and differ by at most the raw time passed |
| WorkerTimer.ValueAdvances | platform/raspberry-pi/timer_linux.h:39-44 | Between calls time stands still while suspended and advances with the raw clock otherwise |
| WorkerTimer.ValueIsContinuous | platform/raspberry-pi/timer_linux.h:21-37 | A suspend or resume is no jump, so a deadline keeps its remaining duration |
| WorkerTimer.TimerState.SuspendNow | platform/raspberry-pi/timer_linux.h:21-28 | Updates the state as specified; a second suspend changes nothing |
| WorkerTimer.TimerState.ResumeNow | platform/raspberry-pi/timer_linux.h:30-37 | Updates the state as specified in 64-bit arithmetic; a second resume changes nothing |
| WorkerTimer.TimerState.Read | platform/raspberry-pi/timer_linux.c:26-28 | The 64-bit value and its truncation to 32 bits |
| Display.NoFrameIsForgotten | platform/raspberry-pi/display_linux.c:94-170 | Over every run: a live handle is not suspended, has no retry pending, and the panel last took the most recently submitted frame; without one the panel shows nothing; an unsuspended driver with a frame is live or has a retry scheduled, which `DueRetryIsMade` carries out |
| Display.DueRetryIsMade | platform/raspberry-pi/display_linux.c:182-190 | In every run state that is awake and has a frame: emulatorPoll does nothing with a live handle or before the deadline; without one and from the deadline on it asks for a backend, and ends with the frame's current bytes on the panel if backend and panel agree, and with the next attempt a second away otherwise |
| Display.SubmittedFrameIsTried | platform/raspberry-pi/display_linux.c:113-123 | In every awake run state a submitted frame is displayed with a live handle, or a backend is asked for, unless a retry is pending and its time has not come |
| Display.ResumeTriesAtOnce | platform/raspberry-pi/display_linux.c:163-170 | In every suspended run state a resume with a frame asks for a backend whatever retry was pending |
| Display.DarkWhileSuspended | platform/raspberry-pi/display_linux.c:125-161 | Suspend and shutdown blank the panel of a live handle, and until the next resume nothing is asked of backend or panel |
| Display.RetriesAreSpaced | platform/raspberry-pi/display_linux.c:61-92 | Over every run no backend is created within 1000 ms after a failure unless a resume intervenes |
| Display.PanelShowsCurrentBytes | platform/raspberry-pi/display_linux.c:94-123 | A submit, resume or retry that ends live has put the bytes the frame buffer holds now on the panel |
| Display.EveryRunKeeps | platform/raspberry-pi/display_linux.c:182-190 | The invariants behind both, for every chronological sequence of calls |
| Display.RetryTimeout | platform/raspberry-pi/display_linux.c:192-202 | -1 exactly without a pending retry; otherwise never past the deadline, and reaching it unless capped at INT_MAX |
| Display.Driver.WriteLastFrame | platform/raspberry-pi/display_linux.c:94-111 | Updates the statics as specified |
| Display.Driver.InitializeDisplay | platform/raspberry-pi/display_linux.c:72-92 | Creates a backend only when no retry is pending or its time has come |
| Display.Driver.WriteFrame | platform/raspberry-pi/display_linux.c:113-123 | Remembers the frame before trying to show it |
| Display.Driver.SuspendDisplay | platform/raspberry-pi/display_linux.c:142-161 | Blanks and releases once; a second suspend changes nothing |
| Display.Driver.ResumeDisplay | platform/raspberry-pi/display_linux.c:163-170 | Cancels the retry and shows the last frame; a second resume changes nothing |
| Display.Driver.ShutdownDisplay | platform/raspberry-pi/display_linux.c:125-140 | Blanks, releases and stays suspended |
| Display.Driver.EmulatorPoll | platform/raspberry-pi/display_linux.c:182-190 | As specified by `Poll`, whose effect in every run state is `DueRetryIsMade` |
| Parking.PollTimeout | platform/raspberry-pi/poll_timeout.h:15-27 | -1 exactly while suspended; otherwise the longest wait that firmware's bound, the display's retry and INT_MAX allow |
| Parking.Platform.HandleBusEvent | platform/raspberry-pi/usb_functionfs.c:788-857 | SUSPEND suspends clock and panel, ENABLE and RESUME resume both, the others leave both alone, and no event moves awake time |
| Parking.Platform.ServiceUntilResumed | platform/raspberry-pi/usb_functionfs.c:994-1001 | Returns only when not suspended; only its first poll can be timed, and that one is made whenever there is anything to wake up for and waits exactly as long as firmware and the display allow |
| Parking.Platform.WaitAndProcess | platform/raspberry-pi/usb_functionfs.c:1015-1025 | A display retry that is due is made first; then the first poll waits exactly as long as firmware and the retry that is left allow; the wait returns to firmware with neither timer nor display suspended |
| Parking.Platform.FirmwareUsbPoll | platform/raspberry-pi/usb_functionfs.c:1013 | However often firmware polls the controller, it never waits there |
| Parking.Platform.FlushPoll | platform/raspberry-pi/usb_functionfs.c:1031-1041 | One round, for any number of polls in it: the elapsed time it computes in 32 bits is the awake time since the start modulo 2^32, hence never more than it |
| Parking.Platform.UsbFlush | platform/raspberry-pi/usb_functionfs.c:1031-1041 | However often firmware polls in each round: returns only after `millis` of awake time, whatever the 32-bit counter did in between; no timed poll outlasts what was left or the display's retry |
| Parking.ModDifference | platform/raspberry-pi/timer_linux.c:26-28 | The 32-bit difference of two readings is the true difference modulo 2^32 and never exceeds it |

## Left out

- The supervisor: an arbitrary source of records. Sockets, `poll`, eventfd, mutex and
  condition variables are their contracts: reliable ordered records, a counting eventfd,
  an atomic lock, a wait that may wake spuriously.
- The thread bodies are step functions on values rather than methods, because methods
  cannot interleave; the operations of Core on slots are also methods of
  `Safe3Driver.UsbDriver`, without the bytes.
- Failures of pthread, malloc, eventfd creation and of the ioctl that samples KEY3, each of
  which exits.
- Failures of clock_gettime: `monotonic_ms` and `raw_monotonic_ms` then return 0 and the
  process goes on. The time and display theorems assume readings that never run backwards,
  which such a 0 would break.
- Storing a packet and announcing it are one step each in `LegacyUsb`, and one step together
  in `Safe3Usb`; their single steps are in `LegacyOut`, `Safe3Out` and `Safe3In`.
- start_endpoint_threads over a running helper is one step in `LegacyOut`. A kernel write into
  a read buffer that was freed under an overwritten helper is its `Fault`; in `LegacyUsb`
  it is not represented.
- The packet size of `LegacyOut` is the one in force when the helper starts; that
  virtual_ep_setup may change it before that is modelled in `LegacyUsb`.
- Several endpoints at byte level at once: endpoints share no lock, buffer or eventfd, so
  `Safe3Out`, `Safe3In` and `LegacyOut` model one endpoint each and `Safe3Usb` and
  `LegacyUsb` model all of them at slot level.
- Unread tails of the wire: ancillary-data walking is "a datagram carries this list of
  descriptors"; `close_record_fds` only precedes an exit.
- The 9-byte bus event body and its 64-bit big-endian activation are defined in a header
  that is not part of this model; their layout is taken from how the code uses them.
- Building and discovering USB personalities, and the answers firmware's control engine
  gives on the legacy worker: code that is not shown.
- The legacy IN path, which writes FunctionFS directly and shares nothing with a thread;
  its one effect on the protocol, dropping `usb_enabled`, is modelled.
- Endpoint stalls of the legacy worker, which make a callback read nothing; that is
  `SkipRead` in `LegacyOut`.
- Disconnection between a notification and its callback's read, for the same reason.
- LegacyUsb lets a callback read its packet before it does anything else.
- iface_read_ready and iface_write_ready first answer false while the bus is not enabled or
  suspended; `Safe3Out` and `Safe3In` model what they do after that test.
- Fairness: progress results bound the helper's steps and show that someone can move,
  they do not say that the scheduler lets them.
- Frame contents are the bytes behind the remembered pointer when the panel takes them;
  pixel conversion and the backends are not part of this model.
- Buttons, random numbers, flash checkpoints, firmware suspend callbacks, argument
  parsing and logging, which would add only easy members.
