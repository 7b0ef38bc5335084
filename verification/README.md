# Four stateful cores of the i.MX 6 board support package

A Dafny model of four driver cores of the QNX board support package for the Sabre Lite board, with proofs
about every run, every interleaving or every input of each.

**The MMC/SD driver** (`devb/mmcsd`). `DriverSystem` is the pulse loop of the driver thread against any
number of producers, one statement at a time, with the nested waits that throw pulses away;
`DriverThreads` proves what holds in all its interleavings, `DriverDrains` that none of them gets stuck.
`RequestEngine` gives each handler as a function from the driver's state and the hardware's answers to
the new state and what happens on the bus; `SimMmc` has the handlers in the driver's own form, updating
the fields of `SIM_MMC_EXT`, and proves them equal to those functions. `BusRules` is an automaton,
independent of the driver, that says what a host may do on the bus in one attempt at a request, and
`RequestMonitor` what it means that a log is accepted. `RequestInvariant` and `RequestRuns` prove that
no run, of any length and with any answers of the hardware, ever makes it object, and `RequestTheorems`
says what follows. What one attempt leaves for the next is not always in order: `RequestHandshake`, with
`BusView`, says for all runs exactly when an open-ended transfer is left open, with a run that does so
in `LeftOpen`, and `RequestErrors` exactly which requests can forget a data error. `RequestProgress`
proves that requests end, and how; `RequestGuards` says exactly which requests begin, with `ready` and
the write protection, and `RequestOutcomes` and `DataPhase` how each interrupt ends one. `PioWalk` is
the walk over a scatter list as a copy of the flat list. `CardIdent` and `Identifier` are the
identification, with its lexicographic measure and with what success has taken; `CardProtocol` holds it
against a card with a state and an address of its own, and `KnownCards` has the whole dialogue with
well-behaved cards; `CardReady` puts it inside the driver and says exactly when READY has been earned,
with a run in `ReadyUnearned` in which it has not (SD Physical Layer Simplified Specification, sections
4.2, 4.3.3, 4.3.4, 4.3.9 and 4.8).

**The keyboard decoder** (`devi/keymap/decoder.c`).  `ComposeMatcher` refines its cursor into packed
records of varying length (`Packed`, `ComposeTable`) to a search for prefixes.  `KeyMap` refines the scan
of packed items to a first match in a list.  `Modifiers` refines the 64-bit masks to sets.

**The i.MX serial driver** (`devc/sermx1`).  `SerialTx` and `SerialRx` prove that no byte is lost, doubled
or reordered, `Rings` has the ring they share, and `BaudSearch` proves the divider search optimal.

**The input library** (`devi/lib`).  `RecordRing` is the byte ring and its use for whole records;
`TouchTransform` and `TouchFilter` are the touchscreen transforms and the extents they depend on.

## Findings

Some properties that one would expect do not hold of the code.  Each is stated with its exact condition,
or with a run or an input that shows it.

- A scatter list that ends in k empty elements, two or more: the interrupt that moves the last byte does not
  notice the end; it takes exactly k - 1 interrupts more, with nothing left to move (`PioWalk.EndNoticedIff`,
  `PioWalk.UnnoticedEnd`).
- A data error sticks to one attempt only.  A reset in the middle of the data phase starts the request
  afresh; it stays marked, and fails at the stop of any open-ended command.  So the error can be forgotten
  exactly for requests that need no such command: the controller stops by itself, or there is one block, or
  the blocks of one buffer are commanded one by one (`RequestErrors.ErrorForgottenIff`).
- For the same reason a request that comes in with that mark, left over from an earlier failure, fails on
  hardware without faults if it meets an open-ended command (`RequestProgress.RequestEnds`).
- An open-ended transfer that is given up is not stopped: after a card interrupt, a reset, a failing
  `dma_done`, media that is gone, or a stop command that is refused or retried too often, the next data
  command goes to a card that is still in the transfer.  The same holds after the command of a
  programmed-I/O request of length 0 (`RequestHandshake.StoppedIff` has the exact condition,
  `LeftOpen.TransferLeftOpen` a run).
- A failing identification during a reset leaves the driver in identification if no request is held, and the
  next interrupt is taken for the answer to the same command.  So READY can be set although a milestone was
  answered with an error.  It has been earned exactly if no call since the last start failed and left a
  stage that awaits the answer to a milestone (`CardReady.ReadyIsEarned`); `ReadyUnearned.ReadyUnearned` is a
  run in which one did.
- The pulse of a request that is still queued can be thrown away; the look at the queue at the end of the
  receive loop makes up for it (`DriverThreads.PulseOfQueuedCcbCanBeDiscarded`).
- When a compose sequence of three or more pending characters fails, the characters put out are not those
  typed (`ComposeMatcher.UnmatchedIsTypedIff`).  A shorter complete entry that was passed over is not
  revived.
- The "or" condition of a modifier action is kept in an `int`, and is right in all states exactly if it
  tests no modifier from 32 on (`Modifiers.OrTestExactIff`).
- The resume of reception does not ask whether a half is parked (`SerialRx.Port.Resume` has the exact
  condition, `SerialRx.ResumeTooEarly` a run that loses a byte).
- `DIVIDE_AND_ROUND` rounds up, where the comment beside the search says that it rounds; the model follows
  the code.  Exactly below a UBIR + 1 of 4 the 32-bit product of the search wraps (`BaudSearch.WrapsIff`);
  the rates that are compared are then not those of the dividers (`BaudSearch.WrappedProduct`).
- `buff_append` asks whether the ring is full, not whether there is room for all of the data, and
  `buff_delete` does not split at the end of the array (`RecordRing.Buffer.BuffAppend`, `BuffDiscard` and
  `BuffDelete` have the exact conditions).  The 8250 touch driver deletes 200 bytes at once from a smaller ring
  (`devi/lib/ser8250.c:516`), which is outside them once the tail has moved.
- A change of the screen's resolution does not refresh the scale of the calibration-free path
  (`TouchFilter.ResChgIff` says when touches stay on the screen all the same, `TouchFilter.StaleScale` is a
  run in which they do not).
- A reset of a device that is found unsupported leaves the extents as they were
  (`TouchFilter.UnsupportedResetKeepsIff`).
- The key-map lookup goes on with later sections that match the modifiers when the first has no item for
  the key (`KeyMap.Table.GetUnicode`).

## Model

| member | source | states |
|---|---|---|
| DriverThreads.NoLostWakeup | images/qnx/sabrelite/bsp/src/hardware/devb/mmcsd/sim_mmc.c:1493-1549 | Whenever the driver thread blocks for its next pulse, in any interleaving with the producers and however many enqueue pulses nested waits threw away, it has a nexus, or the queue is empty, or an enqueue pulse is pending or a producer is about to send one |
| DriverThreads.CompletedExactlyOnce | images/qnx/sabrelite/bsp/src/hardware/devb/mmcsd/sim_mmc.c:1224-1260 | In every interleaving, the requests posted, then the nexus, then the queue are exactly those submitted, in order; none is posted twice or as CAM_REQ_INPROG |
| DriverThreads.QuiescentMeansAllPosted | images/qnx/sabrelite/bsp/src/hardware/devb/mmcsd/sim_mmc.c:1505-1548 | A driver that waits with nothing current and no pulse on its way has posted all that was submitted |
| DriverThreads.PulseOfQueuedCcbCanBeDiscarded | images/qnx/sabrelite/bsp/src/hardware/devb/mmcsd/sim_mmc.c:98-131 | A run of nine steps in which the nested wait discards the only pulse of a request that is still queued: what saves it is the look at the queue at the end of the receive loop |
| DriverThreads.DriverKeepsInv | images/qnx/sabrelite/bsp/src/hardware/devb/mmcsd/sim_mmc.c:1224-1260 | Every step of the driver thread keeps the invariant of pulses, queue and posted requests |
| DriverThreads.ProducerKeepsInv | images/qnx/sabrelite/bsp/src/hardware/devb/mmcsd/sim.c:617-621 | Enqueueing and then sending the pulse, as two steps of any producer, keep it too |
| DriverThreads.RunKeepsInv | images/qnx/sabrelite/bsp/src/hardware/devb/mmcsd/sim_mmc.c:1505-1548 | The invariant holds at every moment of every run |
| DriverDrains.CanDrain | images/qnx/sabrelite/bsp/src/hardware/devb/mmcsd/sim_mmc.c:1224-1260 | From every state that the invariant allows, steps that lower (requests not posted, distance of the program counter from the next post) lexicographically lead to the receive with nothing current and nothing queued |
| DriverDrains.AllCanBePosted | images/qnx/sabrelite/bsp/src/hardware/devb/mmcsd/sim_mmc.c:1493-1549 | No deadlock, in a strong form: from every moment of every run, in any interleaving, there is a way on, without a new request, on which all that was submitted is posted |
| PioWalk.AdvanceMovesPosition | images/qnx/sabrelite/bsp/src/hardware/devb/mmcsd/sim_mmc.c:1052-1070 | Moving n bytes moves the flat position by n, across element ends and empty elements |
| PioWalk.WalkMovesForward | images/qnx/sabrelite/bsp/src/hardware/devb/mmcsd/sim_mmc.c:1045-1077 | Whatever counts pio_done returns, one interrupt leaves the cursor in range and its flat position moves forward, never past the list |
| PioWalk.LastByteLeaves | images/qnx/sabrelite/bsp/src/hardware/devb/mmcsd/sim_mmc.c:1056-1069 | After the interrupt that moves the last byte, the cursor stands in front of all but one of the empty elements at the end of the list, or is at the end |
| PioWalk.EmptyOneByOne | images/qnx/sabrelite/bsp/src/hardware/devb/mmcsd/sim_mmc.c:1056-1069 | An interrupt in front of empty elements passes exactly one of them, whatever the FIFO grants |
| PioWalk.EndNoticedIff | images/qnx/sabrelite/bsp/src/hardware/devb/mmcsd/sim_mmc.c:1056-1069 | After the interrupt that moves the last byte and any number more, offset is -1 exactly if there were as many more as empty elements at the end of the list, less one; so the first notices the end unless there are two or more |
| PioWalk.DoneMeansAllMoved | images/qnx/sabrelite/bsp/src/hardware/devb/mmcsd/sim_mmc.c:1056-1069 | offset becomes -1 only when every byte of the list has moved |
| PioWalk.UnnoticedEnd | images/qnx/sabrelite/bsp/src/hardware/devb/mmcsd/sim_mmc.c:1056-1069 | A list with two empty elements at its end, where the interrupt that moves the last byte does not notice the end |
| PioWalk.FlattenLength | images/qnx/sabrelite/bsp/src/hardware/devb/mmcsd/sim_mmc.c:937-969 | The flattened list is as long as its counts add up to, the request length of mmc_pio_initiate |
| PioWalk.FlattenOverwrite | images/qnx/sabrelite/bsp/src/hardware/devb/mmcsd/sim_mmc.c:1045-1070 | Writing inside one element writes the flattened list at the cursor position and nowhere else |
| PioWalk.ReadMirrors | images/qnx/sabrelite/bsp/src/hardware/devb/mmcsd/sim_mmc.c:1045-1070 | A read keeps the flat list equal to the bytes from the card up to the position, and untouched after it |
| PioWalk.WriteMirrors | images/qnx/sabrelite/bsp/src/hardware/devb/mmcsd/sim_mmc.c:1045-1070 | A write has put on the wire exactly the flat list up to the position |
| PioWalk.PioTransfer.MoveOnce | images/qnx/sabrelite/bsp/src/hardware/devb/mmcsd/sim_mmc.c:1045-1070 | One pass of the loop moves the bytes next in the flat list and the cursor by as many |
| PioWalk.PioTransfer.WalkOn | images/qnx/sabrelite/bsp/src/hardware/devb/mmcsd/sim_mmc.c:1036-1070 | The loop of one interrupt ends where the walk says, with the memory or the wire as a flat copy would have them |
| PioWalk.PioTransfer.PioRw | images/qnx/sabrelite/bsp/src/hardware/devb/mmcsd/sim_mmc.c:1036-1078 | Over any number of interrupts: curSg and offset are those of the walk, and flat memory and wire agree up to the bytes moved |
| RequestMonitor.OpenTransferIsStopped | images/qnx/sabrelite/bsp/src/hardware/devb/mmcsd/sim_mmc.c:1012-1034 | In a log that the bus monitor accepts, an open-ended transfer is followed by CMD12 sent and CMD12 completed before the next data command or the success report of the same attempt (RequestHandshake.StoppedIff has what holds from one attempt to the next) |
| RequestMonitor.ErrorIsSticky | images/qnx/sabrelite/bsp/src/hardware/devb/mmcsd/sim_mmc.c:1348-1382 | In an accepted log, no success follows a data error in the same attempt (RequestErrors has what holds from one attempt to the next) |
| RequestMonitor.FailedSucceedsClosed | images/qnx/sabrelite/bsp/src/hardware/devb/mmcsd/sim_mmc.c:1348-1359 | In an accepted log, a request that met a data error is a success only after a restart, and only if no command since was open-ended |
| RequestMonitor.PostsAreSettled | images/qnx/sabrelite/bsp/src/hardware/devb/mmcsd/sim_mmc.c:1481-1487 | In an accepted log no request is posted as CAM_REQ_INPROG |
| RequestMonitor.CommandsTile | images/qnx/sabrelite/bsp/src/hardware/devb/mmcsd/mmcsd.c:250-286 | The data commands of an attempt cover the blocks from its first one on, and memory from its start on, with no gap and no overlap |
| RequestMonitor.SuccessMeansTiled | images/qnx/sabrelite/bsp/src/hardware/devb/mmcsd/sim_mmc.c:915-935 | Before every success there is the start of that request, from which on the commands tile all its whole blocks; outside scatter DMA these are all its bytes |
| RequestInvariant.ChunkAllowed | images/qnx/sabrelite/bsp/src/hardware/devb/mmcsd/sim_mmc.c:915-935 | Each DMA chunk of whole blocks is the next part of the request, on the card and in memory, and open-ended exactly if it is not one block and the controller does not stop by itself |
| RequestInvariant.ChunkAgrees | images/qnx/sabrelite/bsp/src/hardware/devb/mmcsd/sim_mmc.c:915-935 | and offset and blkno after it are those of the next chunk |
| RequestInvariant.DmaRwSound | images/qnx/sabrelite/bsp/src/hardware/devb/mmcsd/sim_mmc.c:903-935 | mmc_dma_rw: for every chunk size the callout accepts, the next command is one the monitor allows, and CAM_REQ_CMP is set only when offset equals nbytes and all is closed |
| RequestInvariant.PioInitiateSound | images/qnx/sabrelite/bsp/src/hardware/devb/mmcsd/sim_mmc.c:937-969 | mmc_pio_initiate starts the one command that covers the request, or fails it |
| RequestInvariant.SgDmaInitiateSound | images/qnx/sabrelite/bsp/src/hardware/devb/mmcsd/sim_mmc.c:980-998 | The scatter arm of mmc_dma_initiate likewise |
| RequestInvariant.FlatDmaInitiateSound | images/qnx/sabrelite/bsp/src/hardware/devb/mmcsd/sim_mmc.c:999-1009 | The single-buffer arm starts the first chunk, or fails or completes the request |
| RequestInvariant.StartReadWriteSound | images/qnx/sabrelite/bsp/src/hardware/devb/mmcsd/sim_mmc.c:1142-1221 | The read and write arm of mmc_io_cmds starts an attempt that agrees with the log from its first event |
| RequestInvariant.PioStopSound | images/qnx/sabrelite/bsp/src/hardware/devb/mmcsd/sim_mmc.c:1012-1034 | mmc_pio_stop ends a finished transfer by CMD12 if it is open, and by success otherwise |
| RequestInvariant.PioRwSound | images/qnx/sabrelite/bsp/src/hardware/devb/mmcsd/sim_mmc.c:1036-1078 | mmc_pio_rw: bytes move in order, and the end is handled in the interrupt that moves the last byte of a read |
| RequestInvariant.DmaIrqSound | images/qnx/sabrelite/bsp/src/hardware/devb/mmcsd/sim_mmc.c:1262-1277 | mmc_dma_irq: an open chunk is stopped before the next one is sent |
| RequestInvariant.RetryStopSound | images/qnx/sabrelite/bsp/src/hardware/devb/mmcsd/sim_mmc.c:1340-1347 | Retrying CMD12, or giving it up, never turns into success |
| RequestInvariant.StopIrqSound | images/qnx/sabrelite/bsp/src/hardware/devb/mmcsd/sim_mmc.c:1327-1359 | The interrupt of a stop command: success, the next chunk, or failure after an earlier error |
| RequestInvariant.TransferErrorSound | images/qnx/sabrelite/bsp/src/hardware/devb/mmcsd/sim_mmc.c:1362-1382 | A data error is remembered in the SCSI status until the stop completes, or fails the request at once |
| RequestInvariant.DataIrqSound | images/qnx/sabrelite/bsp/src/hardware/devb/mmcsd/sim_mmc.c:1321-1396 | mmc_data_irq as a whole keeps engine and log in agreement |
| RequestInvariant.AfterDataSound | images/qnx/sabrelite/bsp/src/hardware/devb/mmcsd/sim_mmc.c:1448-1471 | The status checks after a settled data phase can only take success away |
| RequestGuards.TakenBeginsIff | images/qnx/sabrelite/bsp/src/hardware/devb/mmcsd/sim_mmc.c:1177-1217 | A read or write off the queue begins, in its direction and at its block, if and only if the card is ready and, for a write, not protected; otherwise it is posted as an error at once, with nothing on the bus |
| RequestGuards.HeldBeginsIff | images/qnx/sabrelite/bsp/src/hardware/devb/mmcsd/sim_mmc.c:1284-1296 | So does one that was held during an identification that succeeds, for a write that is not protected |
| RequestGuards.OtherTaken | images/qnx/sabrelite/bsp/src/hardware/devb/mmcsd/sim_mmc.c:1224-1260 | What needs no transfer is posted at once, a devctl as done, an unknown function as an error, other SCSI commands by how they went |
| RequestGuards.StartedIff | images/qnx/sabrelite/bsp/src/hardware/devb/mmcsd/sim_mmc.c:1185-1212 | A request that begins puts a data command on the bus if and only if a condition on host, mode, length and the answers of the callouts holds; otherwise it is posted, as a success only if there is nothing to transfer |
| RequestGuards.StepGuarded | images/qnx/sabrelite/bsp/src/hardware/devb/mmcsd/sim_mmc.c:1493-1549 | Every step of any thread begins requests only while the card is ready, or made so by it, and writes only while it is not protected |
| RequestGuards.NothingBeginsUnready | images/qnx/sabrelite/bsp/src/hardware/devb/mmcsd/sim_mmc.c:1177-1217 | Over every run: while READY is clear, up to the end of an identification, no read or write begins |
| RequestGuards.NoWriteBeginsProtected | images/qnx/sabrelite/bsp/src/hardware/devb/mmcsd/sim_mmc.c:1177-1181 | Over every run: from the moment the card is protected until it is unprotected, no write begins |
| RequestGuards.StretchBegins | images/qnx/sabrelite/bsp/src/hardware/devb/mmcsd/sim_mmc.c:1177-1217 | Which steps such stretches begin with |
| RequestOutcomes.LastByteEnds | images/qnx/sabrelite/bsp/src/hardware/devb/mmcsd/sim_mmc.c:1045-1078 | Over every run, the interrupt that moves the last byte of a read and notices the end stops or posts it; a write is still under way then, and the next such interrupt stops or posts it |
| RequestOutcomes.SuccessIffChecked | images/qnx/sabrelite/bsp/src/hardware/devb/mmcsd/sim_mmc.c:1448-1475 | A request whose data phase completed is posted as a success if and only if the checks pass, and as a time-out of the command otherwise; one that the data phase failed is never posted as a success |
| RequestOutcomes.CardInterruptFails | images/qnx/sabrelite/bsp/src/hardware/devb/mmcsd/sim_mmc.c:1434-1437 | A card interrupt posts whatever request there is as failed; if the card is gone, it is not ready any more |
| RequestOutcomes.TickFindsNoCard | images/qnx/sabrelite/bsp/src/hardware/devb/mmcsd/sim_mmc.c:1525-1538 | A timer tick that finds the card gone posts a request in progress as an error |
| RequestOutcomes.StopIsRetried | images/qnx/sabrelite/bsp/src/hardware/devb/mmcsd/sim_mmc.c:1340-1347 | An error of CMD12 sends it once more, up to six times, if the card is there and the host takes it; otherwise the request is posted as failed |
| RequestOutcomes.StopErrorsEnd | images/qnx/sabrelite/bsp/src/hardware/devb/mmcsd/sim_mmc.c:1340-1347 | So errors alone end it: seven in a row post the request as failed, after at most six more stop commands |
| DataPhase.RunIsUnderWay | images/qnx/sabrelite/bsp/src/hardware/devb/mmcsd/sim_mmc.c:1321-1396 | The next lemmas are about every moment of every run in the data phase |
| DataPhase.PartEnds | images/qnx/sabrelite/bsp/src/hardware/devb/mmcsd/sim_mmc.c:1262-1277 | The end of a DMA part: an open-ended one is stopped first; any other is followed by the next part, with all the blocks that the host accepts, at the next block and place in memory and in the direction of the request; the request is posted as a success if and only if nothing is left and the checks pass, and as failed if a callout refuses |
| DataPhase.StoppedPartEnds | images/qnx/sabrelite/bsp/src/hardware/devb/mmcsd/sim_mmc.c:1348-1359 | and after CMD12 the same, but a request that is marked is posted as failed |
| DataPhase.StoppedPioEnds | images/qnx/sabrelite/bsp/src/hardware/devb/mmcsd/sim_mmc.c:1348-1359 | After CMD12 a programmed transfer is over: a success if and only if it is not marked and the checks pass |
| DataPhase.ErrorIsStopped | images/qnx/sabrelite/bsp/src/hardware/devb/mmcsd/sim_mmc.c:1362-1382 | A data error sends CMD12 and marks the request if the card is there and the host takes it; otherwise the request is posted as failed |
| DataPhase.OthersAreIgnored | images/qnx/sabrelite/bsp/src/hardware/devb/mmcsd/sim_mmc.c:1321-1396 | Any other interrupt leaves request and bus as they are |
| DataPhase.RemovedIsLeftAlone | images/qnx/sabrelite/bsp/src/hardware/devb/mmcsd/sim.c:236-244 | When the card is removed under a request, interrupts leave it alone from then on, until the card interrupt or the timer tick posts it |
| RequestRuns.StartCcbLeavesRest | images/qnx/sabrelite/bsp/src/hardware/devb/mmcsd/sim_mmc.c:1224-1260 | mmc_start_ccb, over any queue, leaves engine and log in agreement |
| RequestRuns.StartCcbAccounts | images/qnx/sabrelite/bsp/src/hardware/devb/mmcsd/sim_mmc.c:1224-1260 | mmc_start_ccb posts requests in queue order: posted, nexus and queue together stay the same list |
| RequestRuns.ProcessInterruptLeavesRest | images/qnx/sabrelite/bsp/src/hardware/devb/mmcsd/sim_mmc.c:1428-1490 | mmc_process_interrupt likewise keeps the agreement |
| RequestRuns.ProcessInterruptAccounts | images/qnx/sabrelite/bsp/src/hardware/devb/mmcsd/sim_mmc.c:1481-1487 | and posts at most the nexus |
| RequestRuns.TimerPulseLeavesRest | images/qnx/sabrelite/bsp/src/hardware/devb/mmcsd/sim_mmc.c:1525-1538 | The timer pulse keeps the agreement, also where it fails a request whose media is gone |
| RequestRuns.IdentIrqCoherent | images/qnx/sabrelite/bsp/src/hardware/devb/mmcsd/sim_mmc.c:1279-1319 | mmc_ident_irq: success re-runs the held request, failure settles it |
| RequestRuns.StepKeepsInv | images/qnx/sabrelite/bsp/src/hardware/devb/mmcsd/sim_mmc.c:1493-1549 | Every step of any thread keeps the whole invariant |
| RequestRuns.Run | images/qnx/sabrelite/bsp/src/hardware/devb/mmcsd/sim_mmc.c:1493-1549 | So the invariant holds after every run |
| RequestTheorems.PostedOnceInOrder | images/qnx/sabrelite/bsp/src/hardware/devb/mmcsd/sim_mmc.c:1224-1260 | Over every run, requests are posted once each, in the order submitted; those not posted are the nexus and the queue |
| RequestTheorems.NeverPostedInProgress | images/qnx/sabrelite/bsp/src/hardware/devb/mmcsd/sim_mmc.c:1530-1537 | No run posts a request as CAM_REQ_INPROG |
| RequestTheorems.StopHandshake | images/qnx/sabrelite/bsp/src/hardware/devb/mmcsd/sim_mmc.c:1262-1277 | Over every run, within an attempt, CMD12 is sent and completed between an open-ended transfer and the next data command or success |
| RequestHandshake.BusTellsOfStop | images/qnx/sabrelite/bsp/src/hardware/devb/mmcsd/sim_mmc.c:1012-1034 | After an open-ended command and up to the next one, the state of the bus, kept across attempts, is stopped exactly if CMD12 was sent and completed |
| RequestHandshake.StepIsHandled | images/qnx/sabrelite/bsp/src/hardware/devb/mmcsd/sim_mmc.c:1321-1396 | Every step of the driver, in any state with an open or stopping transfer, gives the transfer up exactly in the branches named by GivesUp (card interrupt, end of an identification in between, media gone, failing dma_done, refused or exhausted stop); otherwise its stop completes first of all, or it goes on |
| RequestHandshake.RunVerdict | images/qnx/sabrelite/bsp/src/hardware/devb/mmcsd/sim_mmc.c:1493-1549 | At every moment of every run, the last open-ended transfer is stopped, or still under way, or stranded, the last exactly if a step gave it up |
| RequestHandshake.StoppedIff | images/qnx/sabrelite/bsp/src/hardware/devb/mmcsd/sim_mmc.c:1262-1277 | For every run and any two data commands in a row, the first open-ended, whichever requests they belong to: CMD12 is sent and completed in between if and only if the first was for some blocks and no step in between gave its transfer up |
| LeftOpen.TransferLeftOpen | images/qnx/sabrelite/bsp/src/hardware/devb/mmcsd/sim_mmc.c:1383-1392 | A run in which dma_done fails and the next request starts with the transfer still open |
| RequestTheorems.SuccessIsComplete | images/qnx/sabrelite/bsp/src/hardware/devb/mmcsd/sim_mmc.c:915-935 | Over every run, success means that the commands of the last attempt, all in the request's direction, cover its length divided by the block size in whole blocks, in order; and outside scatter DMA, which may leave out a remainder below a block, these are all its bytes |
| RequestTheorems.HeldRequestStays | images/qnx/sabrelite/bsp/src/hardware/devb/mmcsd/sim_mmc.c:1142-1150 | A request that arrives during identification stays the nexus, untouched by any pulse that does not decide it |
| RequestTheorems.HeldRequestFails | images/qnx/sabrelite/bsp/src/hardware/devb/mmcsd/sim_mmc.c:1297-1317 | The end of identification in failure, or a card interrupt, posts it as an error |
| RequestTheorems.HeldRequestRuns | images/qnx/sabrelite/bsp/src/hardware/devb/mmcsd/sim_mmc.c:1284-1296 | Success of the identification runs it from its beginning (RequestGuards.HeldBeginsIff says when) |
| RequestTheorems.HeldDuringIdentification | images/qnx/sabrelite/bsp/src/hardware/devb/mmcsd/sim_mmc.c:1284-1319 | The same for every run |
| RequestProgress.DmaRequestEnds | images/qnx/sabrelite/bsp/src/hardware/devb/mmcsd/sim_mmc.c:1262-1277 | A DMA request with k blocks left, in chunks of any sizes, is posted within three interrupts a block and the last stop |
| RequestProgress.PioRequestEnds | images/qnx/sabrelite/bsp/src/hardware/devb/mmcsd/sim_mmc.c:1036-1078 | A programmed-I/O request, whatever the FIFO grants as long as it grants a byte, is posted within one interrupt for each byte and element and three more |
| RequestProgress.RequestEnds | images/qnx/sabrelite/bsp/src/hardware/devb/mmcsd/sim_mmc.c:1428-1490 | From every run that has a transfer under way, on hardware without faults, the request is posted; as a failure if and only if it carries the mark of an error and its open-ended command is still to be stopped or such a command is sent for it, as a success otherwise |
| RequestErrors.ErrorSticks | images/qnx/sabrelite/bsp/src/hardware/devb/mmcsd/sim_mmc.c:1348-1382 | Over every run, a success that follows a data error is that of an attempt begun after the error; if it is the same request, no command of that attempt was open-ended, and the request is forgettable |
| RequestErrors.ForgottenOnlyIf | images/qnx/sabrelite/bsp/src/hardware/devb/mmcsd/sim_mmc.c:1348-1359 | A data error is forgotten only where the controller stops by itself, or the request has one block, or its blocks can be commanded one by one from one buffer |
| RequestErrors.ForgetsIf | images/qnx/sabrelite/bsp/src/hardware/devb/mmcsd/sim.c:250-268 | For every such request there is a run that forgets its error: a reset in the middle of its data phase starts it afresh |
| RequestErrors.ErrorForgottenIff | images/qnx/sabrelite/bsp/src/hardware/devb/mmcsd/sim.c:250-268 | So for every controller, length and mode: some run reports success for a request that met a data error if and only if the request is forgettable |
| SimMmc.Driver.MmcSendRwcmd | images/qnx/sabrelite/bsp/src/hardware/devb/mmcsd/mmcsd.c:250-286 | Plans none, automatic or pending stop, and puts the data command on the bus |
| SimMmc.Driver.MmcDmaRw | images/qnx/sabrelite/bsp/src/hardware/devb/mmcsd/sim_mmc.c:915-935 | Fields and bus after mmc_dma_rw are those of the specification |
| SimMmc.Driver.WalkOn | images/qnx/sabrelite/bsp/src/hardware/devb/mmcsd/sim_mmc.c:1045-1074 | The loop over pio_done ends with offset and list index where the walk says |
| SimMmc.Driver.MmcPioRw | images/qnx/sabrelite/bsp/src/hardware/devb/mmcsd/sim_mmc.c:1036-1078 | Fields and bus after mmc_pio_rw are those of the specification |
| SimMmc.Driver.MmcDataIrq | images/qnx/sabrelite/bsp/src/hardware/devb/mmcsd/sim_mmc.c:1321-1396 | Fields and bus after mmc_data_irq are those of the specification |
| SimMmc.Driver.MmcProcessInterrupt | images/qnx/sabrelite/bsp/src/hardware/devb/mmcsd/sim_mmc.c:1428-1490 | Fields and bus after an interrupt are those of the specification; a settled nexus is posted |
| SimMmc.Driver.MmcStartCcb | images/qnx/sabrelite/bsp/src/hardware/devb/mmcsd/sim_mmc.c:1224-1260 | The loop takes requests until one stays current or the queue is empty; each is done to as the specification says, which RequestGuards.TakenBeginsIff and OtherTaken spell out |
| SimMmc.Driver.ReceivePulse | images/qnx/sabrelite/bsp/src/hardware/devb/mmcsd/sim_mmc.c:1493-1549 | One pass of the receive loop, with the look at the queue at its end |
| SimMmc.Driver.Drive | images/qnx/sabrelite/bsp/src/hardware/devb/mmcsd/sim_mmc.c:1551-1590 | A driver that performs any steps has put on the bus only what the monitor allows, and posted each request once and in order or still holds it; fields and log are those of the run, so the theorems are about it |
| CardIdent.CallAdvances | images/qnx/sabrelite/bsp/src/hardware/devb/mmcsd/mmcsd.c:1539-1620 | Every call of mmc_card_ident that sends a command lowers (stage rank, remaining retries or polls) lexicographically, though stage codes go backwards |
| CardIdent.SdPowerupAdvances | images/qnx/sabrelite/bsp/src/hardware/devb/mmcsd/mmcsd.c:1165-1255 | The SD power-up polling loop runs its stage count up to the limit |
| CardIdent.CallSpends | images/qnx/sabrelite/bsp/src/hardware/devb/mmcsd/mmcsd.c:1539-1620 | Every call, failing or not, leaves the measure lower by at least the command that it sends |
| CardIdent.CommandsBounded | images/qnx/sabrelite/bsp/src/hardware/devb/mmcsd/mmcsd.c:1539-1620 | No run from a state sends more commands than its measure says, whatever the card answers |
| CardIdent.IdentificationIsBounded | images/qnx/sabrelite/bsp/src/hardware/devb/mmcsd/mmcsd.c:1070-1297 | A fresh identification sends at most pwrRetry + 4019 commands |
| CardIdent.RunEnds | images/qnx/sabrelite/bsp/src/hardware/devb/mmcsd/mmcsd.c:1539-1620 | With an interrupt for every command, identification is over, as done or failed, after boundedly many of them |
| CardIdent.MilestonesWereMet | images/qnx/sabrelite/bsp/src/hardware/devb/mmcsd/mmcsd.c:1299-1370 | The milestones that are counted were really sent in order, each answered without error right after, with no restart since |
| CardIdent.MetAtMost | images/qnx/sabrelite/bsp/src/hardware/devb/mmcsd/mmcsd.c:1299-1370 | And no milestone is missed: no choice of positions in the log shows more of them |
| CardIdent.CallKeepsTrack | images/qnx/sabrelite/bsp/src/hardware/devb/mmcsd/mmcsd.c:1539-1620 | Every call keeps each stage at its place in the list of milestones, unless it fails and leaves a stage that awaits one, which then has been passed over |
| CardIdent.CallStaysBehind | images/qnx/sabrelite/bsp/src/hardware/devb/mmcsd/mmcsd.c:1539-1620 | A milestone that was passed over stays so, whatever the calls after it come to |
| CardIdent.RunBlkszFits | images/qnx/sabrelite/bsp/src/hardware/devb/mmcsd/mmcsd.c:638-642 | Over every run: at the end the block size is 512 if the host takes it, and does not become 512 otherwise |
| CardIdent.SuccessIsEarned | images/qnx/sabrelite/bsp/src/hardware/devb/mmcsd/mmcsd.c:1299-1370 | An identification that succeeds has sent commands 2, 3, 9, 7 and 16 in this order since its start, each answered by an interrupt without error; the host block size is 512 if the host takes that size, and does not become 512 otherwise |
| CardProtocol.CallAgrees | images/qnx/sabrelite/bsp/src/hardware/devb/mmcsd/mmcsd.c:1070-1620 | A card as an automaton of its own: its state, its published or assigned address, whether CMD55 came before. Every call of mmc_card_ident sends only what the card takes in its state, by its address, and if it succeeds leaves stage, address, kind and capacity in agreement with the card |
| CardProtocol.CommandsAreTaken | images/qnx/sabrelite/bsp/src/hardware/devb/mmcsd/mmcsd.c:1299-1370 | So over every run the card takes every command: commands 9, 10, 7, 13 and the addressed 55 carry the address that it published in its answer to CMD3, or the 2 that a multimedia card is given; in the end it is selected, and the driver has its address and its kind |
| CardProtocol.CallKeepsAddress | images/qnx/sabrelite/bsp/src/hardware/devb/mmcsd/mmcsd.c:1299-1370 | A call that fails keeps the address as well, and names the card by it |
| KnownCards.SdCardIsSent | images/qnx/sabrelite/bsp/src/hardware/devb/mmcsd/mmcsd.c:1070-1620 | For an SD card that answers well, on every host: the whole sequence of commands, from the resets over power-up, addressing and bus width to the high-speed switch, each of the last exactly where host and card can; and address, capacity and the high-speed flag in the end |
| KnownCards.MmcCardIsSent | images/qnx/sabrelite/bsp/src/hardware/devb/mmcsd/mmcsd.c:1070-1620 | The same for a multimedia card, with its power-up after CMD55 goes unanswered, and the extended CSD |
| CardReady.OnlyIdentReadies | images/qnx/sabrelite/bsp/src/hardware/devb/mmcsd/sim_mmc.c:1279-1292 | Of all steps of the driver only the interrupt that ends an identification sets READY where it was clear |
| CardReady.ReadyIsEarned | images/qnx/sabrelite/bsp/src/hardware/devb/mmcsd/sim_mmc.c:1279-1292 | With mmc_card_ident inside the driver, over every run: when READY goes from clear to set, the identification is over, the host block size is 512 if the host takes it, and commands 2, 3, 9, 7 and 16 were sent in order since the last start, each answered without an error interrupt, if and only if no call since then failed and left a stage that awaits the answer to one of them |
| CardReady.LapsedIff | images/qnx/sabrelite/bsp/src/hardware/devb/mmcsd/sim_mmc.c:1297-1317 | Over every run, and at every moment of it: what the history says of such calls is that some interrupt made one, and no start came after it |
| CardReady.CommandsAreBounded | images/qnx/sabrelite/bsp/src/hardware/devb/mmcsd/mmcsd.c:1539-1620 | Over every run of the driver, at most pwrRetry + 4019 commands are sent between one start of the identification and the next, however many of the calls fail |
| CardReady.CardIsNamed | images/qnx/sabrelite/bsp/src/hardware/devb/mmcsd/sim_mmc.c:1279-1319 | Over every run of the driver, whichever calls fail: from the answer to CMD3 up to the next start, every command that names a card names it by the address that it published or was given |
| ReadyUnearned.ReadyUnearned | images/qnx/sabrelite/bsp/src/hardware/devb/mmcsd/mmcsd.c:1344-1370 | From the start state, for every host: a run in which a reset goes on past an error answer to the CSD command, and READY goes from clear to set without the milestones being met |
| Identifier.SimCard.PoweringSd | images/qnx/sabrelite/bsp/src/hardware/devb/mmcsd/mmcsd.c:1165-1255 | mmc_ident_sd_card_powerup: fields, command and result are those of the specification |
| Identifier.SimCard.MmcCardIdent | images/qnx/sabrelite/bsp/src/hardware/devb/mmcsd/mmcsd.c:1539-1620 | The dispatch on the stage, with the handlers on the fields, does what the specification of one call says, which CardProtocol.CallAgrees holds against a card |
| Identifier.SimCard.Identify | images/qnx/sabrelite/bsp/src/hardware/devb/mmcsd/mmcsd.c:1539-1620 | Any series of calls from the start on sends at most pwrRetry + 4019 commands, each one that the card takes, by its address; and if it succeeds, the milestones were sent in order, each answered without error, the field rca is the address of the card, version tells its kind, and the block size is 512 where the host takes it |
| Packed.EncodedHolds | images/qnx/sabrelite/bsp/src/hardware/devi/include/storage.h:135-145 | A string packed as wchar_t can be read back at its position |
| ComposeTable.PrefixBetween | images/qnx/sabrelite/bsp/src/hardware/devi/keymap/decoder.c:578-581 | What sorts between two extensions of a prefix extends it too |
| ComposeTable.Contiguous | images/qnx/sabrelite/bsp/src/hardware/devi/keymap/decoder.c:578-581 | Entries with a common prefix stand together in an ordered table |
| ComposeTable.ExtensionIsNext | images/qnx/sabrelite/bsp/src/hardware/devi/keymap/decoder.c:585-593 | An entry that can go on is followed at once by one that goes on |
| ComposeTable.EncodedTableAt | images/qnx/sabrelite/bsp/src/hardware/devi/include/storage.h:135-145 | Packing a table of records of varying length and reading the records back at their offsets |
| ComposeMatcher.Matcher.constructor | images/qnx/sabrelite/bsp/src/hardware/devi/include/storage.h:147-172 | Packed sections give a valid matcher without composition |
| ComposeMatcher.Matcher.InitCompState | images/qnx/sabrelite/bsp/src/hardware/devi/keymap/decoder.c:690-697 | A composition begins in a section with nothing typed |
| ComposeMatcher.Matcher.Record | images/qnx/sabrelite/bsp/src/hardware/devi/keymap/decoder.c:567-573 | The record at an offset is the entry, and the next one stands behind it |
| ComposeMatcher.Matcher.Compare | images/qnx/sabrelite/bsp/src/hardware/devi/keymap/decoder.c:595-621 | The inner loop: differs, needs more, or complete |
| ComposeMatcher.Matcher.Search | images/qnx/sabrelite/bsp/src/hardware/devi/keymap/decoder.c:549-624 | The outer loop from the cursor on: pending exactly at the first entry of the whole section that goes on, else the entry typed if there is one |
| ComposeMatcher.Matcher.PassThrough | images/qnx/sabrelite/bsp/src/hardware/devi/keymap/decoder.c:648-672 | What is put out when nothing matches: the pending characters and then part of the input |
| ComposeMatcher.Matcher.CheckCompState | images/qnx/sabrelite/bsp/src/hardware/devi/keymap/decoder.c:540-673 | For one character: still pending exactly if some entry has the typed string as a proper prefix, with the cursor at the first one; otherwise replaced or passed through |
| ComposeMatcher.Matcher.TypeCharacter | images/qnx/sabrelite/bsp/src/hardware/devi/keymap/decoder.c:182-206 | The outcome of a character: the output of the entry that equals the typed string, and nothing else, if there is one; otherwise the unmatched characters |
| ComposeMatcher.Matcher.TypeWord | images/qnx/sabrelite/bsp/src/hardware/devi/keymap/decoder.c:540-697 | After a word: pending exactly if some entry has it as a proper prefix, and then item number, offset and length are those of the least such entry |
| ComposeMatcher.UnmatchedIsTypedIff | images/qnx/sabrelite/bsp/src/hardware/devi/keymap/decoder.c:648-672 | What is put out for unmatched input is what was typed exactly if at most two characters were pending |
| ComposeMatcher.ShortEntriesPassThrough | images/qnx/sabrelite/bsp/src/hardware/devi/keymap/decoder.c:648-672 | So in a table whose entries have at most three characters nothing is lost or added |
| KeyMap.FirstMatchIsFirst | images/qnx/sabrelite/bsp/src/hardware/devi/keymap/decoder.c:219-286 | The first match is what the first item that covers the key gives; what that is say the next lemmas but one |
| KeyMap.NoMatchIff | images/qnx/sabrelite/bsp/src/hardware/devi/keymap/decoder.c:219-286 | There is none exactly if no item covers the key |
| KeyMap.RangeGivesKth | images/qnx/sabrelite/bsp/src/hardware/devi/keymap/decoder.c:270-280 | Key code + k of a range types its k-th character, with or without the CAP code asked for |
| KeyMap.SingleGivesString | images/qnx/sabrelite/bsp/src/hardware/devi/keymap/decoder.c:244-266 | For an item of one key, the text and the CAP code looked up make up the stored string, or without a CAP code the text is all of it and the CAP code its last character; a key without a symbol gives neither; the dead-key flag is told in every case |
| KeyMap.RangesAreShorthand | images/qnx/sabrelite/bsp/src/hardware/devi/keymap/decoder.c:219-286 | A list with its ranges written out as items of one key types the same for every key, but for the invalid symbol, which ranges do not look for |
| KeyMap.WantedIff | images/qnx/sabrelite/bsp/src/hardware/devi/keymap/decoder.c:234-238 | A section is wanted exactly if it asks for no modifier, for a CAP code; otherwise if it asks only for modifiers that it tests, and each of these is on as it asks |
| KeyMap.FirstMatchConcat | images/qnx/sabrelite/bsp/src/hardware/devi/keymap/decoder.c:234-242 | Searching sections one after the other is searching them as one list |
| KeyMap.DescriptorBits | images/qnx/sabrelite/bsp/src/hardware/devi/keymap/decoder.c:244-274 | The bits of a packed descriptor tell type, length, CAP code and dead key of an item |
| KeyMap.EncodedItemsAt | images/qnx/sabrelite/bsp/src/hardware/devi/keymap/decoder.c:243-283 | Packed items are found again at their offsets |
| KeyMap.Table.ReadItem | images/qnx/sabrelite/bsp/src/hardware/devi/keymap/decoder.c:243-282 | The item read at a boundary is the one packed there, and the next boundary follows |
| KeyMap.Table.ScanSection | images/qnx/sabrelite/bsp/src/hardware/devi/keymap/decoder.c:240-283 | The scan of a section finds its first match, as above, and reads no item past the last |
| KeyMap.Table.GetUnicode | images/qnx/sabrelite/bsp/src/hardware/devi/keymap/decoder.c:219-286 | The lookup gives the first match in the items of all wanted sections, in order |
| KeyMap.EarliestSectionWins | images/qnx/sabrelite/bsp/src/hardware/devi/keymap/decoder.c:234-283 | That is what the first item for the key gives in the first wanted section that has one; later sections are looked into only where the earlier have none |
| Modifiers.BeforeMaskIsBefore | images/qnx/sabrelite/bsp/src/hardware/devi/keymap/decoder.c:462-473 | The mask test of the state before is the test on sets, with the or test limited to modifiers below 32 |
| Modifiers.InvolvedMaskIsInvolved | images/qnx/sabrelite/bsp/src/hardware/devi/keymap/decoder.c:479-485 | The mask test of the involved modifiers is the test on sets |
| Modifiers.OrTestExactIff | images/qnx/sabrelite/bsp/src/hardware/devi/keymap/decoder.c:441-473 | The or test is right in all states exactly if it tests no modifier from 32 on: its result is kept in an int |
| Modifiers.NarrowRunsAgree | images/qnx/sabrelite/bsp/src/hardware/devi/keymap/decoder.c:435-528 | With such actions a whole run is the one meant |
| Modifiers.KeyMods.TestAction | images/qnx/sabrelite/bsp/src/hardware/devi/keymap/decoder.c:462-513 | One pass of the loop does to the masks what the action means on sets |
| Modifiers.KeyMods.Applied | images/qnx/sabrelite/bsp/src/hardware/devi/keymap/decoder.c:516-518 | The masks after the loop become the level: pressed on, released off |
| Modifiers.KeyMods.TestActions | images/qnx/sabrelite/bsp/src/hardware/devi/keymap/decoder.c:435-528 | test_actions leaves exactly the modifiers that the actions, applied one by one to sets, leave |
| Modifiers.RunLeavesAlone | images/qnx/sabrelite/bsp/src/hardware/devi/keymap/decoder.c:459-514 | A run changes nothing of a modifier that is not the target of an action that fires |
| Modifiers.OthersUnchanged | images/qnx/sabrelite/bsp/src/hardware/devi/keymap/decoder.c:435-528 | A modifier that is neither the trigger nor such a target stays as it was |
| Modifiers.PressedWins | images/qnx/sabrelite/bsp/src/hardware/devi/keymap/decoder.c:494-518 | Over a whole list of actions, the key that is pressed stays on unless an action that fires releases it: Up actions on it are undone at the end |
| Modifiers.OwnKeyFollows | images/qnx/sabrelite/bsp/src/hardware/devi/keymap/decoder.c:435-528 | The key of the event, if no action that fires is on its modifier, is on exactly if it was pressed |
| Modifiers.LastActionDecides | images/qnx/sabrelite/bsp/src/hardware/devi/keymap/decoder.c:494-518 | The last action that fires on a modifier decides it: Down and Press leave it on, Release off, and Up off unless it had been pressed before |
| Rings.RingDrop | images/qnx/sabrelite/bsp/src/hardware/devc/sermx1/tto.c:226-242 | Taking n elements off a ring, around its end or not, leaves the rest in order |
| SerialTx.MayMove | images/qnx/sabrelite/bsp/src/hardware/devc/sermx1/tto.c:224-243 | Moving bytes from the ring to the staging buffer leaves the stream as it is |
| SerialTx.Port.constructor | images/qnx/sabrelite/bsp/src/hardware/devc/sermx1/tto.c:49-60 | All buffers empty, no transfer |
| SerialTx.Port.CopyOut | images/qnx/sabrelite/bsp/src/hardware/devc/sermx1/tto.c:226-240 | The copy, in one part or two, appends exactly the next n bytes of the ring to the staged ones |
| SerialTx.Port.Stage | images/qnx/sabrelite/bsp/src/hardware/devc/sermx1/tto.c:224-243 | Staging keeps sent, staged and ring together equal to what was written |
| SerialTx.Port.Fill | images/qnx/sabrelite/bsp/src/hardware/devc/sermx1/tto.c:195-245 | With flow-control pauses and appends in between, staging goes on until the buffer is full, the ring empty or output paused, and not before; and no byte is lost |
| SerialTx.Port.StartTransfer | images/qnx/sabrelite/bsp/src/hardware/devc/sermx1/tto.c:246-268 | The engine gets all staged bytes, byte_cnt is 0 |
| SerialTx.Port.SendOne | images/qnx/sabrelite/bsp/src/hardware/devc/sermx1/tto.c:289-297 | Programmed output passes on the oldest byte |
| SerialTx.Port.Pio | images/qnx/sabrelite/bsp/src/hardware/devc/sermx1/tto.c:273-307 | and keeps the stream over any pauses and appends; bytes go out until the ring is empty, the room in the UART is used up or a look finds output paused, and not before |
| SerialTx.Port.Tto | images/qnx/sabrelite/bsp/src/hardware/devc/sermx1/tto.c:163-313 | Conservation over the whole of tto. With DMA and no transfer under way, one is started exactly if there are bytes to send and output is not paused then; it takes all that was staged, and staging stopped only for a full buffer, an empty ring or a pause. Without DMA bytes go out as Pio has it. A running transfer is left alone with its staging buffer, and falling back to programmed output strands no staged byte |
| SerialTx.Port.TxComplete | images/qnx/sabrelite/bsp/src/hardware/devc/sermx1/intr.c:36-52 | At the end of a transfer its bytes are still those that were staged for it |
| SerialRx.Port.constructor | images/qnx/sabrelite/bsp/src/hardware/devc/sermx1/init.c:251-263 | The first transfer fills half 0 |
| SerialRx.Port.Deliver | images/qnx/sabrelite/bsp/src/hardware/devc/sermx1/intr.c:102-135 | The copy of one half delivers its first bytes in order while the other half fills, and does not alter the half it copies |
| SerialRx.Port.RxPulse | images/qnx/sabrelite/bsp/src/hardware/devc/sermx1/intr.c:57-141 | Delivered, then parked or in flight, is what was received; without room the half is parked and the engine idle, otherwise the engine runs on the other half and the pending bytes are delivered |
| SerialRx.Port.Resume | images/qnx/sabrelite/bsp/src/hardware/devc/sermx1/tto.c:112-146 | The resume, which does not ask whether a half is parked, keeps the stream only if it delivers as many bytes as were pending and came in meanwhile, and exactly then if none comes in among those it copies; so it does with a half parked and room for it |
| SerialRx.ResumeTooEarly | images/qnx/sabrelite/bsp/src/hardware/devc/sermx1/tto.c:112-146 | A resume in the first transfer, which loses the byte that had come in |
| BaudSearch.DivideAndRoundUp | images/qnx/sabrelite/bsp/src/hardware/devc/sermx1/tto.c:46 | DIVIDE_AND_ROUND is the quotient rounded up |
| BaudSearch.Search | images/qnx/sabrelite/bsp/src/hardware/devc/sermx1/tto.c:383-434 | The loop, with its early exit, leaves the divider of the least difference, with the rate and UBIR of that divider, or nothing if no difference is below the start value |
| BaudSearch.SearchedOneMore | images/qnx/sabrelite/bsp/src/hardware/devc/sermx1/tto.c:421-429 | One more divider tried |
| BaudSearch.ExactIsBest | images/qnx/sabrelite/bsp/src/hardware/devc/sermx1/tto.c:431-433 | The early exit loses nothing |
| BaudSearch.BestIsUnique | images/qnx/sabrelite/bsp/src/hardware/devc/sermx1/tto.c:423-429 | There is one best divider, the largest of those with the least difference |
| BaudSearch.BirInRange | images/qnx/sabrelite/bsp/src/hardware/devc/sermx1/tto.c:412-414 | For a clock of at least 16 times the rate, every candidate is from 1 to 10000 |
| BaudSearch.WrapsIff | images/qnx/sabrelite/bsp/src/hardware/devc/sermx1/tto.c:416-418 | The 32-bit product wraps exactly if the candidate is below 4 |
| BaudSearch.CurrentBound | images/qnx/sabrelite/bsp/src/hardware/devc/sermx1/tto.c:412-418 | Where it does not wrap, the rate computed is below the rate asked for by 1 and clock / divider / 160000 |
| BaudSearch.DiffIsDistance | images/qnx/sabrelite/bsp/src/hardware/devc/sermx1/tto.c:416-421 | Wrapped or not, the difference in an unsigned int is the distance |
| BaudSearch.TriedIff | images/qnx/sabrelite/bsp/src/hardware/devc/sermx1/tto.c:380-389 | The dividers tried are 1 and those up to 7 with a reference clock of at least 16 times the rate |
| BaudSearch.BirIsNext | images/qnx/sabrelite/bsp/src/hardware/devc/sermx1/tto.c:412-414 | The candidate times the reference clock, over 160000, is above the rate asked for by no more than one more such part, and not below it but for the inner rounding |
| BaudSearch.CurrentIsRate | images/qnx/sabrelite/bsp/src/hardware/devc/sermx1/tto.c:416-418 | Where the product does not wrap, the rate computed is the rate of that candidate rounded up, but for one part in candidate / 10^9 |
| BaudSearch.ChosenIsNearest | images/qnx/sabrelite/bsp/src/hardware/devc/sermx1/tto.c:383-434 | So the chosen divider has the computed rate nearest to the one asked for among all allowed ones, which are 1 and those up to 7 that leave 16 times the rate; its UBIR goes with it; and if that is at least 4, the rate is within the bound |
| BaudSearch.WrappedProduct | images/qnx/sabrelite/bsp/src/hardware/devc/sermx1/tto.c:416-418 | At 50 baud and 66.5 MHz the product wraps: divider 7, which gives 59 baud, is taken for 305 |
| RecordRing.ChosenSizeFits | images/qnx/sabrelite/bsp/src/hardware/devi/lib/buffer.c:40-61 | The size that buff_create chooses takes as many whole records as fit into 512 bytes, at least one exactly if a record has at most 512 bytes; a size that is asked for is kept |
| RecordRing.SplitAppend | images/qnx/sabrelite/bsp/src/hardware/devi/lib/buffer.c:64-93 | Appending a record appends one to the records |
| RecordRing.Buffer.constructor | images/qnx/sabrelite/bsp/src/hardware/devi/lib/buffer.c:40-61 | An empty ring |
| RecordRing.Buffer.StoreChunk | images/qnx/sabrelite/bsp/src/hardware/devi/lib/buffer.c:71-89 | One pass of the copy loop, up to the end of the array |
| RecordRing.Buffer.BuffAppend | images/qnx/sabrelite/bsp/src/hardware/devi/lib/buffer.c:64-93 | The ring stays one exactly if all of the data fits, or nothing is done; then the data is behind the contents, or dropped when full |
| RecordRing.Buffer.BuffDiscard | images/qnx/sabrelite/bsp/src/hardware/devi/lib/buffer.c:96-132 | Without a destination, the ring stays one exactly if the bytes deleted do not go around the end; then they are the first ones |
| RecordRing.Buffer.BuffDelete | images/qnx/sabrelite/bsp/src/hardware/devi/lib/buffer.c:96-132 | With a destination, the bytes are the first ones up to the end of the array, and behind it those of the memory there; the ring stays one, with all of its first bytes taken, exactly if the end is not passed |
| RecordRing.Buffer.BuffPutc | images/qnx/sabrelite/bsp/src/hardware/devi/lib/buffer.c:145-164 | A byte behind the others, or dropped when full |
| RecordRing.Buffer.BuffGetc | images/qnx/sabrelite/bsp/src/hardware/devi/lib/buffer.c:167-192 | The first byte, or -1 |
| RecordRing.Buffer.AppendRecord | images/qnx/sabrelite/bsp/src/hardware/devi/lib/buffer.c:64-93 | With whole records only, count and tail stay aligned, and the ring is a bounded queue that drops the newest record when full |
| RecordRing.Buffer.AppendPieces | images/qnx/sabrelite/bsp/src/hardware/devi/lib/photon.c:574-581 | A record appended in several pieces is appended as one, or dropped as one |
| RecordRing.Buffer.DeleteRecord | images/qnx/sabrelite/bsp/src/hardware/devi/lib/buffer.c:96-132 | and gives the oldest record first, so that the missing split is sound |
| TouchTransform.ScaledIsFraction | images/qnx/sabrelite/bsp/src/hardware/devi/lib/absolute.c:960-995 | In either orientation the output is the fraction of the way along the raw range, rounded down |
| TouchTransform.ScaledInRange | images/qnx/sabrelite/bsp/src/hardware/devi/lib/absolute.c:960-995 | With the extents right, outputs stay in screen range |
| TouchTransform.ScaledEndpoints | images/qnx/sabrelite/bsp/src/hardware/devi/lib/absolute.c:960-995 | The ends of the raw range map exactly to the ends of the screen |
| TouchTransform.ScaledMonotone | images/qnx/sabrelite/bsp/src/hardware/devi/lib/absolute.c:960-995 | The map is monotone, in the raw range's direction |
| TouchTransform.UnscaledIsClose | images/qnx/sabrelite/bsp/src/hardware/devi/lib/absolute.c:900-925 | The calibration-free scale stays on the screen and within one pixel of exact scaling |
| TouchTransform.ScaleOnScreenIff | images/qnx/sabrelite/bsp/src/hardware/devi/lib/absolute.c:920-922 | Any scale keeps an axis on the screen if and only if it does so with its far end |
| TouchTransform.ScaleCloseIff | images/qnx/sabrelite/bsp/src/hardware/devi/lib/absolute.c:920-922 | and within a pixel of exact scaling as well if and only if the far end is |
| TouchTransform.CDivTowardZero | images/qnx/sabrelite/bsp/src/hardware/devi/lib/absolute.c:938-943 | The division of the three-point transform: the quotient times the divider lies within a divider of the value, on the side of 0 |
| TouchFilter.RunKeepsExtents | images/qnx/sabrelite/bsp/src/hardware/devi/lib/absolute.c:275-424 | Over every sequence of control events on a supported device, the cached extents are those of the current ranges whenever the four-point transform is active |
| TouchFilter.UnsupportedResetKeepsIff | images/qnx/sabrelite/bsp/src/hardware/devi/lib/absolute.c:237-266 | A first reset of an unsupported device keeps that exactly if the four-point transform is off or the new extents are the cached ones |
| TouchFilter.TouchesStayOnScreen | images/qnx/sabrelite/bsp/src/hardware/devi/lib/absolute.c:928-998 | So every touch is put on the screen, after any control events |
| TouchFilter.CornersMapToCorners | images/qnx/sabrelite/bsp/src/hardware/devi/lib/absolute.c:928-998 | and corners on corners, with the axes swapped or not |
| TouchFilter.TouchesMoveAlong | images/qnx/sabrelite/bsp/src/hardware/devi/lib/absolute.c:928-998 | and moving a touch along an axis never turns back on the screen |
| TouchFilter.CalibratedCorners | images/qnx/sabrelite/bsp/src/hardware/devi/lib/absolute.c:298-340 | After any events, a resolution and a calibration by four points: the corners of the raw range given, swapped or not, go to the corners of the screen given |
| TouchFilter.ThreePointIs | images/qnx/sabrelite/bsp/src/hardware/devi/lib/absolute.c:932-947 | After any events that end in a matrix of three points: it fails exactly if the divider is 0, and otherwise x comes from the first row of the matrix and y from the second, divided and rounded toward zero |
| TouchFilter.UnitMatrixMovesNothing | images/qnx/sabrelite/bsp/src/hardware/devi/lib/absolute.c:932-947 | In particular a multiple of the unit matrix moves no touch |
| TouchFilter.FileCalibrates | images/qnx/sabrelite/bsp/src/hardware/devi/lib/absolute.c:735-874 | A calibration found in the file, for a new screen or at a reset and after any events, is the one in use: by its matrix of three points, or with the corners of its raw range on those of the screen |
| TouchFilter.OriginIsCorner | images/qnx/sabrelite/bsp/src/hardware/devi/lib/absolute.c:900-925 | The touch origin is the corner of the screen where the coordinates of the panel start, the opposite corner is where they end, and in between the touch moves away from the origin |
| TouchFilter.OnScreenMeans | images/qnx/sabrelite/bsp/src/hardware/devi/lib/absolute.c:900-925 | That all touches stay on the screen, as the conditions below have it, is that every point of the matrix is put between 0 and the far edges |
| TouchFilter.CalibrationFreeIff | images/qnx/sabrelite/bsp/src/hardware/devi/lib/absolute.c:900-925 | After any control events and for any origin: all touches are put on the screen if and only if the far corner of the matrix is, and within a pixel of exact scaling if and only if that corner is |
| TouchFilter.FallBackIsExact | images/qnx/sabrelite/bsp/src/hardware/devi/lib/absolute.c:842-852 | Falling back to the calibration-free path, after any control events, puts all touches on the screen and within a pixel |
| TouchFilter.ResChgIff | images/qnx/sabrelite/bsp/src/hardware/devi/lib/absolute.c:298-310 | A change of resolution leaves the scale as it is: touches stay on the new screen, or exact to a pixel, if and only if the old scale takes the far corner there |
| TouchFilter.StaleScale | images/qnx/sabrelite/bsp/src/hardware/devi/lib/absolute.c:298-310 | The run of a first reset and a change to half the width: the stale scale sends a touch to pixel 638 of 320 |
| TouchFilter.AbsFilter.ReadCalibration | images/qnx/sabrelite/bsp/src/hardware/devi/lib/absolute.c:735-874 | What init_transform leaves, for each thing the calibration file can hold |
| TouchFilter.AbsFilter.Control | images/qnx/sabrelite/bsp/src/hardware/devi/lib/absolute.c:275-433 | The fields after one control event |
| TouchFilter.AbsFilter.TransformTouch | images/qnx/sabrelite/bsp/src/hardware/devi/lib/absolute.c:928-998 | transform, with the coordinates left alone when it returns -1, which is exactly if the three-point divider is 0; otherwise tx times the divider is an x + bn y + cn and ty times it dn x + en y + fn, up to a divider and toward 0 |
| TouchFilter.AbsFilter.ControlAll | images/qnx/sabrelite/bsp/src/hardware/devi/lib/absolute.c:275-433 | After any control events from abs_init on, the fields are those of the run, so the lemmas above are about them |

## Left out

MMC/SD driver:

- Handlers run as one step with respect to the control thread in `RequestEngine`; `DriverSystem` has the
  finer steps, against the producers.
- Aborted requests and frozen queues belong to the simq library, which is not part of this model; a dequeue
  returns nothing only when the queue is empty.
- The callouts of the host controller are assumptions: `setup_dma` accepts whole blocks, no more than it is
  asked for; `setup_sgdma` and `setup_pio` accept the whole blocks of a request or nothing; `pio_done` moves
  from none to all of what it is asked for; buffer-ready interrupts come for programmed I/O only.
- Sending a pulse is assumed to succeed.  A failed identification during a reset pulses the control thread
  again; that is one more `Reset` step here.
- A request queued again with a SCSI status of an earlier failure is a request with any status here.
- SimMmc.Driver.MmcWaitCommand: leaves behind what its media checks find, and its result is any; its
  receive loop and time-out are in `DriverSystem`, and the nested commands themselves (partition switches,
  erase, card status, vendor commands) are not modelled.
- RequestTheorems.SuccessIsComplete: in scatter DMA it covers whole blocks only, because an engine that takes
  whole blocks does not transfer a remainder.
- RequestProgress.RequestEnds: for a single DMA buffer it needs a length of whole blocks, since a remainder
  is failed.
- RequestHandshake.StoppedIff: is about open-ended commands; the CMD12 that follows a data error of a bounded
  command may also be given up, which is not counted.
- A programmed-I/O request of length 0 sends its command and then fails, as in the code.
- Once the retries of a stop command are used up, the state is set to identification and then, at the end
  of the interrupt, to idle again; nothing is claimed from it.
- In `RequestEngine` the identification is only its outcome; `CardReady` has both.  The block size of the
  engine is a constant there, not the one that the identification sets.
- The arguments of identification commands other than the card address, clock rates, the contents of CID,
  CSD, SCR and extended CSD beyond the bits that choose a branch, and partitions are left out.
- CardProtocol.CommandsAreTaken: the card has the states up to transfer; a command that ends in an error interrupt
  counts as not answered.
- KnownCards.SdCardIsSent: is about cards whose every answer is good at once; cards of version 1, and those that
  are polled, are in the lemmas on every run.
- Data commands carry the block number; a card without high capacity is sent its multiple by the block size
  (`devb/mmcsd/mmcsd.c:279-283`).
- CardReady.CommandsAreBounded: counts the commands from one start to the next; the control thread may start
  any number of times.
- INQUIRY, mode sense, capacity and devctl contents, logging, register access and delays.

Keyboard decoder:

- Keys of more than one character, dead-key and shift bookkeeping of `kmap_process_key_event`, and loading
  of map files; `kmap_copy_keyboard_state`, whose code does not do what its comment intends.
- An item without characters gives none; the code looks at what lies behind it.
- `memcmp` on stored strings is a comparison of characters; `wchar_t` has four bytes.
- ComposeMatcher.Matcher.TypeWord: types single characters, each with the same rest of the buffer.
- `KeyMap.Query.invalid` is a parameter: the header that defines `Pk_InvalidSymbol` is not part of this
  model.

Serial driver:

- One device: `byte_cnt` is shared by all.  Output processing and software-flow overrides go through
  `tto_getchar`, which is not part of this model; in raw output that is the byte at the tail.
- SerialTx.Port.Tto: counts a byte as sent when the DMA engine or the UART gets it; what an engine that timed
  out had already put on the line is not known to the driver.
- Error keys of received bytes, and the registers of line control and status.
- SerialTx.Port.Write: the io-char library decides when clients write; here they may write before any pass
  of a loop.
- BaudSearch.ChosenIsNearest: needs a rate below 2^31; 16 times the rate is taken not to wrap.  The rates are
  those that the code computes, wrapped or not.
- SerialRx.Port.Resume: when bytes come in among those that a resume copies, the condition is only necessary;
  whether each is copied before or after it is there depends on the moment.

Input library:

- What lies in memory behind the array of a ring is a parameter of `RecordRing.Buffer.BuffDelete`.
- The mutex of the ring, and calls of `buff_append` and `buff_delete` at the same time.
- TouchTransform.ScaledInRange: needs the extents' product to fit a 32-bit `long`.
- The three-point matrix is computed without wrap-around; reading and parsing of the calibration file, whose
  possible outcomes are a parameter; batching of samples and filters in `abs_input`, whose code does not do
  what its comment intends.
- The four-point transform of a device whose first reset found it unsupported
  (`TouchFilter.UnsupportedResetKeepsIff` says when its extents are right).

The other drivers, register headers and build files of the repository.
