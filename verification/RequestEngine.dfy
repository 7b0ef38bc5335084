/**
 The request engine of the MMC/SD driver as functions on its state: one function for each handler
 of sim_mmc.c, giving the new state and what happened on the bus.  What the hardware callouts answer
 is a parameter of each step.  SimMmc holds the driver's own updating form of the same handlers,
 RequestInvariant what every run of them keeps.
 */
module RequestEngine {
  import opened Blocks
  import opened Wrappers
  import opened Arith
  import opened MmcTypes
  import opened PioWalk
  import opened BusRules

  datatype Func = Read | Write | OtherScsi | Devctl | Unsupported

  datatype Ccb = Ccb(id: nat, func: Func, scatter: bool, phys: bool, lba: nat, dxferLen: nat, sg: seq<nat>,
                     status: CamStatus, scsi: ScsiStatus)
  {
    predicate ReadWrite() { func == Read || func == Write }

    function Length(): nat { if scatter then Sum(sg) else dxferLen }

    /** What mmc_pio_rw walks over. */
    function Counts(): seq<nat> { if scatter then sg else [dxferLen] }
  }

  /** What is fixed for one host controller: capabilities, configuration and the block size. */
  datatype Host = Host(pio: bool, hasPio: bool, hasDma: bool, hasSgdma: bool, acmd12: bool, cdIntr: bool,
                       ac13: bool, nocdBusy: bool, blk: nat)
  {
    /** The ways of transfer that it can be asked for */
    function Modes(): set<Mode> {
      if pio then (if hasPio then {Pio} else {})
      else if !hasDma then {}
      else if hasSgdma then {Flat, Scatter}
      else {Flat}
    }

    function AsBus(): Bus { Bus(blk, acmd12, Modes()) }

    function ModeOf(ccb: Ccb): Mode {
      if pio then Pio else if ccb.scatter then Scatter else Flat
    }
  }

  datatype State = Idle | Ident | InData

  datatype Stop = StopNone | StopPend | StopIssued | StopAuto

  /** The fields of SIM_MMC_EXT that the engine uses, and the request queue. */
  datatype Ext = Ext(
    state: State, stop: Stop,
    inserted: bool, ready: bool, resetting: bool, writeProtected: bool,
    dirIn: bool, offset: int, nbytes: nat, blkno: nat, curSg: nat, stopsRetry: nat,
    nexus: Option<Ccb>, queue: seq<Ccb>, submitted: nat)

  /** The state after a handler and the bus events it caused, in order. */
  datatype Out = Out(ext: Ext, events: seq<Event>)

  datatype Intr = Intr(card: bool, error: bool, command: bool, data: bool, bufferReady: bool)
  {
    predicate Nothing() { !card && !error && !command && !data && !bufferReady }
  }

  datatype IdentOutcome = IdentBusy | IdentDone | IdentFailed

  /** What the hardware and the nested waits answer while one handler runs.  chunkBlocks bounds what
      setup_dma accepts, and media is what detect finds, time after time, during nested waits. */
  datatype Hw = Hw(intr: Intr, detect: bool, media: seq<bool>, stopOk: bool, rwOk: bool, chunkBlocks: nat,
                   dmaDone: bool, setupOk: bool, partitionOk: bool, statusOk: bool, cardReady: bool,
                   grants: seq<nat>, simpleOk: bool, ident: IdentOutcome)

  /** The same request is the nexus, only its status may differ, nothing was queued, and the card is protected
      or not as before. */
  ghost predicate Kept(e: Ext, r: Ext) {
    && r.queue == e.queue && r.submitted == e.submitted && r.writeProtected == e.writeProtected
    && (if e.nexus.Some?
        then r.nexus.Some?
             && r.nexus.value == e.nexus.value.(status := r.nexus.value.status, scsi := r.nexus.value.scsi)
        else r.nexus.None?)
  }

  /** Only the end of an identification sets MMC_EFLAG_READY. */
  predicate NotReadied(e: Ext, r: Ext) { r.ready ==> e.ready }

  predicate EndsIdent(e: Ext, hw: Hw) {
    e.state == Ident && !hw.intr.Nothing() && !hw.intr.card && hw.ident == IdentDone
  }

  ghost predicate NoPosts(events: seq<Event>) {
    forall i :: 0 <= i < |events| ==> !events[i].Post?
  }

  /** A data command that a request in progress sends, unless it is for no blocks, is the last thing to happen. */
  ghost predicate DataLast(e: Ext, o: Out) {
    e.nexus.Some? && e.nexus.value.status == InProg ==>
      forall i :: 0 <= i < |o.events| && o.events[i].Data? && o.events[i].blocks > 0 ==>
        i == |o.events| - 1 && !Settled(o.ext)
  }

  // ---------------------------------------------------------------- small steps

  function Quiet(e: Ext): Out { Out(e, []) }

  function After(ev: Event, o: Out): Out { Out(o.ext, [ev] + o.events) }

  function Settle(e: Ext, status: CamStatus, scsi: ScsiStatus): (r: Ext)
    requires e.nexus.Some?
    ensures Kept(e, r) && NotReadied(e, r) && r.state == e.state
  {
    e.(nexus := Some(e.nexus.value.(status := status, scsi := scsi)))
  }

  /** mmc_error with any code but MMC_NOT_PRESENT */
  function Fail(e: Ext): (r: Ext)
    ensures Kept(e, r) && NotReadied(e, r) && r.state == e.state
  {
    if e.nexus.Some? then Settle(e, CmdTimeout, e.nexus.value.scsi) else e
  }

  /** mmc_sense, and mmc_error with MMC_NOT_PRESENT */
  function Sense(e: Ext): (r: Ext)
    ensures Kept(e, r) && NotReadied(e, r) && r.state == e.state
  {
    if e.nexus.Some? then Settle(e, CmpErr, Check) else e
  }

  function Complete(e: Ext): (r: Ext)
    requires e.nexus.Some?
    ensures Kept(e, r) && NotReadied(e, r) && r.state == e.state
  {
    Settle(e, Cmp, Good)
  }

  function MediaCheck(e: Ext, detect: bool): (r: Ext)
    ensures Kept(e, r) && NotReadied(e, r) && r == e.(inserted := r.inserted, ready := r.ready)
  {
    if detect then e.(inserted := true)
    else if e.inserted then e.(inserted := false, ready := false)
    else e
  }

  function MediaChecks(e: Ext, finds: seq<bool>): (r: Ext)
    ensures Kept(e, r) && NotReadied(e, r) && r == e.(inserted := r.inserted, ready := r.ready)
  {
    if finds == [] then e else MediaCheck(MediaChecks(e, finds[..|finds| - 1]), finds[|finds| - 1])
  }

  /** mmc_wait_command, once or more: all it leaves behind here is what its media checks found. */
  function Waited(e: Ext, hw: Hw): (r: Ext)
    ensures Kept(e, r) && NotReadied(e, r) && r == e.(inserted := r.inserted, ready := r.ready)
  {
    MediaChecks(e, hw.media)
  }

  /** The part of n bytes that whole blocks make up. */
  function WholeBlocks(h: Host, n: nat): nat
    requires h.blk > 0
  {
    Bytes(h.blk, BlocksIn(h.blk, n))
  }

  // ---------------------------------------------------------------- commands

  predicate OpenEnded(h: Host, bytes: nat) { bytes != h.blk && !h.acmd12 }

  /** mmc_send_rwcmd before the command goes out: how a transfer of so many bytes will be stopped. */
  function PlanStop(h: Host, e: Ext, bytes: nat): (r: Ext)
    ensures Kept(e, r) && NotReadied(e, r) && r.state == e.state
  {
    e.(stop := if bytes == h.blk then StopNone else if h.acmd12 then StopAuto else StopPend)
  }

  function DataCommand(h: Host, e: Ext, mem: nat, bytes: nat): Event
    requires h.blk > 0
  {
    Data(!e.dirIn, e.blkno, mem, BlocksIn(h.blk, bytes), OpenEnded(h, bytes))
  }

  /** mmc_stop_xfer and its error path, as every caller but the retry has it. */
  function SendStop(e: Ext, ok: bool): (r: Out)
    ensures Kept(e, r.ext) && NotReadied(e, r.ext) && NoPosts(r.events) && DataLast(e, r)
  {
    if ok then Out(e.(stop := StopIssued), [StopSent]) else Quiet(Fail(e).(stop := StopNone))
  }

  /** mmc_dma_xfer once setup_dma has accepted bytes */
  function DmaXfer(h: Host, e: Ext, bytes: nat, ok: bool): (r: Out)
    requires h.blk > 0 && e.offset >= 0
    ensures Kept(e, r.ext) && NotReadied(e, r.ext) && r.ext.state == e.state && NoPosts(r.events) && DataLast(e, r)
  {
    if !ok then Quiet(Fail(PlanStop(h, e, bytes)))
    else Out(PlanStop(h, e.(offset := e.offset + bytes, blkno := e.blkno + BlocksIn(h.blk, bytes)), bytes),
             [DataCommand(h, e, e.offset, bytes)])
  }

  function DmaRw(h: Host, e: Ext, hw: Hw): (r: Out)
    requires h.blk > 0 && e.nexus.Some? && 0 <= e.offset <= e.nbytes
    ensures Kept(e, r.ext) && NotReadied(e, r.ext) && r.ext.state == e.state && NoPosts(r.events) && DataLast(e, r)
  {
    if e.nbytes == e.offset then Quiet(Complete(e))
    else
      var blocks := Min(hw.chunkBlocks, BlocksIn(h.blk, e.nbytes - e.offset));
      if blocks == 0 then Quiet(Fail(e)) else DmaXfer(h, e, Bytes(h.blk, blocks), hw.rwOk)
  }

  /** The request is under way: CAM_REQ_INPROG, and interrupts belong to the data phase. */
  function EnterData(e: Ext): (r: Ext)
    requires e.nexus.Some?
    ensures Kept(e, r) && NotReadied(e, r)
  {
    Settle(e, InProg, e.nexus.value.scsi).(state := InData)
  }

  /** mmc_pio_initiate once setup_pio has accepted all n bytes; mmc_send_rwcmd returns n. */
  function PioSend(h: Host, e: Ext, n: nat, ok: bool): (r: Out)
    requires h.blk > 0 && e.nexus.Some?
    ensures Kept(e, r.ext) && NotReadied(e, r.ext) && NoPosts(r.events) && DataLast(e, r)
  {
    if !ok then Quiet(Fail(PlanStop(h, e, n)))
    else Out(if n == 0 then Fail(PlanStop(h, e, n)) else EnterData(PlanStop(h, e, n)), [DataCommand(h, e, 0, n)])
  }

  function PioInitiate(h: Host, e: Ext, hw: Hw): (r: Out)
    requires h.blk > 0 && e.nexus.Some?
    ensures Kept(e, r.ext) && NotReadied(e, r.ext) && NoPosts(r.events) && DataLast(e, r)
  {
    var n := e.nexus.value.Length();
    if e.nexus.value.phys then Quiet(Fail(e))
    else if (if hw.setupOk then WholeBlocks(h, n) else 0) != n then Quiet(Fail(e.(nbytes := n)))
    else PioSend(h, e.(nbytes := n), n, hw.rwOk)
  }

  /** mmc_dma_initiate for a scatter list, once setup_sgdma has accepted n bytes */
  function SgSend(h: Host, e: Ext, n: nat, ok: bool): (r: Out)
    requires h.blk > 0 && e.nexus.Some?
    ensures Kept(e, r.ext) && NotReadied(e, r.ext) && NoPosts(r.events) && DataLast(e, r)
  {
    if !ok then Quiet(Fail(PlanStop(h, e, n)))
    else Out(EnterData(PlanStop(h, e, n)).(nbytes := n, offset := n), [DataCommand(h, e, 0, n)])
  }

  function SgDmaInitiate(h: Host, e: Ext, hw: Hw): (r: Out)
    requires h.blk > 0 && e.nexus.Some?
    ensures Kept(e, r.ext) && NotReadied(e, r.ext) && NoPosts(r.events) && DataLast(e, r)
  {
    var e1 := if h.nocdBusy then Waited(e, hw) else e;
    var n := if hw.setupOk then WholeBlocks(h, e.nexus.value.Length()) else 0;
    if (h.nocdBusy && !hw.cardReady) || n == 0 then Quiet(Fail(e1)) else SgSend(h, e1, n, hw.rwOk)
  }

  /** mmc_dma_initiate for one buffer */
  function FlatDmaInitiate(h: Host, e: Ext, hw: Hw): (r: Out)
    requires h.blk > 0 && e.nexus.Some? && e.offset == 0
    ensures Kept(e, r.ext) && NotReadied(e, r.ext) && NoPosts(r.events) && DataLast(e, r)
  {
    var o := DmaRw(h, Settle(e, InProg, e.nexus.value.scsi).(nbytes := e.nexus.value.dxferLen), hw);
    if Settled(o.ext) then o else Out(o.ext.(state := InData), o.events)
  }

  function DmaInitiate(h: Host, e: Ext, hw: Hw): (r: Out)
    requires h.blk > 0 && e.nexus.Some? && e.offset == 0
    ensures Kept(e, r.ext) && NotReadied(e, r.ext) && NoPosts(r.events) && DataLast(e, r)
  {
    if !e.nexus.value.scatter then FlatDmaInitiate(h, e, hw)
    else if h.hasSgdma then SgDmaInitiate(h, e, hw)
    else Quiet(Fail(e))
  }

  predicate Settled(e: Ext) {
    e.nexus.Some? && e.nexus.value.status != InProg
  }

  function Initiate(h: Host, e: Ext, hw: Hw): (r: Out)
    requires h.blk > 0 && e.nexus.Some? && e.offset == 0
    ensures Kept(e, r.ext) && NotReadied(e, r.ext) && NoPosts(r.events) && DataLast(e, r)
  {
    if !hw.partitionOk || !(if h.pio then h.hasPio else h.hasDma) then Quiet(Fail(e))
    else if h.pio then PioInitiate(h, e, hw)
    else DmaInitiate(h, e, hw)
  }

  /** The request from its beginning; selecting the partition may wait for a command. */
  function Rewound(e: Ext, hw: Hw): (r: Ext)
    requires e.nexus.Some?
    ensures Kept(e, r) && NotReadied(e, r) && r.nexus == e.nexus && r.state == e.state && r.offset == 0
  {
    var ccb := e.nexus.value;
    Waited(e.(offset := 0, curSg := 0, dirIn := ccb.func == Read, blkno := ccb.lba), hw)
  }

  function BeginEvent(h: Host, ccb: Ccb): Event {
    Begin(ccb.id, ccb.func == Write, ccb.lba, ccb.Length(), h.ModeOf(ccb))
  }

  /** The read and write arm of mmc_io_cmds, with the card ready. */
  function StartReadWrite(h: Host, e: Ext, hw: Hw): (r: Out)
    requires h.blk > 0 && e.nexus.Some?
    ensures Kept(e, r.ext) && NotReadied(e, r.ext) && NoPosts(r.events) && DataLast(e, r)
  {
    var ccb := e.nexus.value;
    After(BeginEvent(h, ccb), Initiate(h, Rewound(e, hw), hw))
  }

  /** mmc_io_cmds */
  function IoCmds(h: Host, e: Ext, hw: Hw): (r: Out)
    requires h.blk > 0 && e.nexus.Some?
    ensures Kept(e, r.ext) && NotReadied(e, r.ext) && NoPosts(r.events) && DataLast(e, r)
  {
    var ccb := e.nexus.value;
    if e.state == Ident then Quiet(e)
    else if !ccb.ReadWrite() then Quiet(if hw.simpleOk then Complete(Waited(e, hw)) else Sense(Waited(e, hw)))
    else if (ccb.func == Write && e.writeProtected) || !e.ready then Quiet(Sense(e))
    else StartReadWrite(h, e, hw)
  }

  // ---------------------------------------------------------------- the data phase

  function PioCursor(e: Ext): Cursor
    requires e.nexus.Some?
  {
    Cursor(if e.offset == DONE then |e.nexus.value.Counts()| else if e.nexus.value.scatter then e.curSg else 0,
           e.offset)
  }

  /** In the data phase there is a read or write to work on, and its cursor is in range. */
  predicate DataPhaseOk(h: Host, e: Ext) {
    e.state == InData ==>
      && e.nexus.Some? && e.nexus.value.ReadWrite()
      && (if h.pio then CursorOk(e.nexus.value.Counts(), PioCursor(e)) else 0 <= e.offset <= e.nbytes)
  }

  function PioStop(e: Ext, dirIn: bool, hw: Hw): (r: Out)
    requires e.nexus.Some?
    ensures Kept(e, r.ext) && NotReadied(e, r.ext) && NoPosts(r.events) && DataLast(e, r)
  {
    if e.dirIn != dirIn then Quiet(e)
    else if e.stop == StopPend then SendStop(e, hw.stopOk)
    else Quiet(Complete(e))
  }

  /** Where one interrupt's walk leaves the cursor fields. */
  function Walked(e: Ext, to: Cursor): (r: Ext)
    requires e.nexus.Some?
    ensures Kept(e, r) && NotReadied(e, r) && r.nexus == e.nexus
  {
    e.(offset := to.offset, curSg := if e.nexus.value.scatter then to.sg else e.curSg)
  }

  function WalkEvent(e: Ext, to: Cursor): Event
    requires e.nexus.Some? && CursorOk(e.nexus.value.Counts(), PioCursor(e)) && CursorOk(e.nexus.value.Counts(), to)
    requires Position(e.nexus.value.Counts(), PioCursor(e)) <= Position(e.nexus.value.Counts(), to)
  {
    var from := Position(e.nexus.value.Counts(), PioCursor(e));
    Moved(from, Position(e.nexus.value.Counts(), to) - from)
  }

  function AfterWalk(e: Ext, hw: Hw): (r: Out)
    requires e.nexus.Some?
    ensures Kept(e, r.ext) && NotReadied(e, r.ext) && NoPosts(r.events) && DataLast(e, r)
  {
    if e.offset == DONE then PioStop(e, true, hw) else Quiet(e)
  }

  function PioRw(e: Ext, hw: Hw): (r: Out)
    requires e.nexus.Some? && CursorOk(e.nexus.value.Counts(), PioCursor(e))
    ensures Kept(e, r.ext) && NotReadied(e, r.ext) && NoPosts(r.events) && DataLast(e, r)
  {
    if e.offset == DONE then PioStop(e, false, hw)
    else
      var counts := e.nexus.value.Counts();
      var to := Walk(counts, PioCursor(e), hw.grants);
      WalkMovesForward(counts, PioCursor(e), hw.grants);
      After(WalkEvent(e, to), AfterWalk(Walked(e, to), hw))
  }

  function DmaIrq(h: Host, e: Ext, hw: Hw): (r: Out)
    requires h.blk > 0 && e.nexus.Some? && 0 <= e.offset <= e.nbytes
    ensures Kept(e, r.ext) && NotReadied(e, r.ext) && NoPosts(r.events) && DataLast(e, r)
  {
    if e.stop == StopPend then SendStop(e, hw.stopOk) else DmaRw(h, e, hw)
  }

  const MAX_STOP_RETRIES := 5

  /** Neither CMD12 nor its retries got through; the state keeps a new request from starting. */
  function StopAbandoned(e: Ext): (r: Ext)
    ensures Kept(e, r) && NotReadied(e, r)
  {
    Fail(e.(state := Ident)).(stop := StopNone)
  }

  /** The stop command is sent again, or given up on: then the state asks for a reset. */
  function RetryStop(e: Ext, ok: bool): (r: Out)
    requires e.nexus.Some?
    ensures Kept(e, r.ext) && NotReadied(e, r.ext) && NoPosts(r.events) && DataLast(e, r)
  {
    var e1 := e.(stopsRetry := e.stopsRetry + 1);
    if e.stopsRetry > MAX_STOP_RETRIES || !ok then Quiet(StopAbandoned(e1))
    else Out(e1, [StopSent])
  }

  /** An error interrupt while a stop command is outstanding */
  function StopError(e: Ext, hw: Hw): (r: Out)
    requires e.nexus.Some?
    ensures Kept(e, r.ext) && NotReadied(e, r.ext) && NoPosts(r.events) && DataLast(e, r)
  {
    var e1 := MediaCheck(e, hw.detect);
    if !e1.inserted then Quiet(Sense(e1).(stopsRetry := 0, stop := StopNone)) else RetryStop(e1, hw.stopOk)
  }

  /** CMD12 has completed: the request failed, or is done, or goes on with its next chunk. */
  function AfterStop(h: Host, e: Ext, hw: Hw): (r: Out)
    requires h.blk > 0 && e.nexus.Some? && (!h.pio ==> 0 <= e.offset <= e.nbytes)
    ensures Kept(e, r.ext) && NotReadied(e, r.ext) && NoPosts(r.events) && DataLast(e, r)
  {
    if e.nexus.value.scsi == Check then Quiet(Fail(e))
    else if h.pio then Quiet(Complete(e))
    else DmaIrq(h, e, hw)
  }

  /** mmc_data_irq while a stop command is outstanding */
  function StopIrq(h: Host, e: Ext, hw: Hw): (r: Out)
    requires h.blk > 0 && e.state == InData && DataPhaseOk(h, e)
    ensures Kept(e, r.ext) && NotReadied(e, r.ext) && NoPosts(r.events) && DataLast(e, r)
  {
    if hw.intr.error then StopError(e, hw)
    else if hw.intr.command then After(StopDone, AfterStop(h, e.(stopsRetry := 0, stop := StopNone), hw))
    else Quiet(e)
  }

  /** The data phase met an error: stop the transfer, and remember the error in the SCSI status. */
  function TransferError(e: Ext, hw: Hw): (r: Out)
    requires e.nexus.Some?
    ensures Kept(e, r.ext) && NotReadied(e, r.ext) && NoPosts(r.events) && DataLast(e, r)
  {
    var e1 := MediaCheck(e, hw.detect);
    After(DataError,
          if !e1.inserted then Quiet(Sense(e1).(stop := StopNone))
          else if !hw.stopOk then SendStop(e1, false)
          else SendStop(Settle(e1, e.nexus.value.status, Check), true))
  }

  /** mmc_data_irq while the data transfer itself is under way; buffer-ready interrupts are for
      programmed I/O only (sim_mmc.h). */
  function TransferIrq(h: Host, e: Ext, hw: Hw): (r: Out)
    requires h.blk > 0 && e.state == InData && DataPhaseOk(h, e)
    ensures Kept(e, r.ext) && NotReadied(e, r.ext) && NoPosts(r.events) && DataLast(e, r)
  {
    var e0 := e.(stopsRetry := 0);
    if hw.intr.error then TransferError(e0, hw)
    else if hw.intr.data then
      if h.pio then PioRw(e0, hw)
      else if hw.dmaDone then DmaIrq(h, e0, hw)
      else Quiet(Fail(e0))
    else if hw.intr.bufferReady && h.pio then PioRw(e0, hw)
    else Quiet(e0)
  }

  function DataIrq(h: Host, e: Ext, hw: Hw): (r: Out)
    requires h.blk > 0 && e.state == InData && DataPhaseOk(h, e)
    ensures Kept(e, r.ext) && NotReadied(e, r.ext) && NoPosts(r.events) && DataLast(e, r)
  {
    if e.stop == StopIssued then StopIrq(h, e, hw) else TransferIrq(h, e, hw)
  }

  // ---------------------------------------------------------------- identification

  /** mmc_ident_irq; CardIdent models what mmc_card_ident itself does. */
  function IdentIrq(h: Host, e: Ext, hw: Hw): (r: Out)
    requires h.blk > 0
    ensures Kept(e, r.ext) && (hw.ident != IdentDone ==> NotReadied(e, r.ext)) && NoPosts(r.events) && DataLast(e, r)
  {
    match hw.ident
    case IdentBusy => Quiet(e)
    case IdentDone =>
      var e1 := e.(state := Idle, resetting := false, ready := true);
      if e1.nexus.Some? then IoCmds(h, e1, hw) else Quiet(e1)
    case IdentFailed =>
      var e1 := Fail(e);
      Quiet(if e.resetting then e1
            else if hw.detect then e1.(state := Idle)
            else MediaCheck(e1.(state := Idle), false))
  }

  // ---------------------------------------------------------------- the receive loop

  /** The checks that follow a request which the data phase has just settled. */
  function AfterData(h: Host, e: Ext, hw: Hw): (r: Ext)
    ensures Kept(e, r) && NotReadied(e, r)
  {
    if !Settled(e) then e
    else
      var probe := h.ac13 && e.nexus.value.status == Cmp && e.nexus.value.func == Read && e.nbytes == h.blk;
      var e1 := if probe || h.nocdBusy then Waited(e, hw) else e;
      var e2 := if probe && !hw.statusOk then Fail(e1) else e1;
      if h.nocdBusy && !hw.cardReady then Fail(e2) else e2
  }

  /** mmc_process_interrupt up to its tail */
  function HandleInterrupt(h: Host, e: Ext, hw: Hw): (r: Out)
    requires h.blk > 0 && DataPhaseOk(h, e)
    ensures Kept(e, r.ext) && NoPosts(r.events) && DataLast(e, r)
    ensures !hw.intr.Nothing() && !EndsIdent(e, hw) ==> NotReadied(e, r.ext)
  {
    if hw.intr.card then Quiet(Fail(MediaCheck(e, hw.detect)))
    else match e.state
      case Ident => IdentIrq(h, e, hw)
      case InData => var o := DataIrq(h, e, hw); Out(AfterData(h, o.ext, hw), o.events)
      case Idle => Quiet(e)
  }

  function PostEvent(e: Ext): Event
    requires e.nexus.Some?
  {
    var ccb := e.nexus.value;
    Post(ccb.id, ccb.ReadWrite(), ccb.status)
  }

  function ProcessInterrupt(h: Host, e: Ext, hw: Hw): Out
    requires h.blk > 0 && DataPhaseOk(h, e)
  {
    if hw.intr.Nothing() then Quiet(e)
    else
      var o := HandleInterrupt(h, e, hw);
      if Settled(o.ext) then Out(o.ext.(nexus := None, state := Idle), o.events + [PostEvent(o.ext)]) else o
  }

  function TimerPulse(h: Host, e: Ext, hw: Hw): Out {
    var e1 := if h.cdIntr then e else MediaCheck(e, hw.detect);
    if e1.nexus.Some? && !e1.inserted && (e1.nexus.value.status == InProg || e1.nexus.value.status == CmpErr)
    then Out(e1.(nexus := None, state := Idle), [PostEvent(Sense(e1))])
    else Quiet(e1)
  }

  /** One request taken off the queue and started. */
  function Dispatch(h: Host, e: Ext, hw: Hw): (r: Out)
    requires h.blk > 0 && e.nexus.Some?
    ensures Kept(e, r.ext) && NotReadied(e, r.ext) && NoPosts(r.events) && DataLast(e, r)
  {
    match e.nexus.value.func
    case Devctl => Quiet(Settle(Waited(e, hw), Cmp, e.nexus.value.scsi))
    case Unsupported => Quiet(Sense(e))
    case _ => IoCmds(h, e, hw)
  }

  /** One pass of the loop in mmc_start_ccb: the next request is the nexus, or was posted at once. */
  function TakeNext(h: Host, e: Ext, hw: Hw): (r: Out)
    requires h.blk > 0 && e.nexus.None? && e.queue != []
    ensures |r.ext.queue| < |e.queue|
  {
    var o := Dispatch(h, e.(nexus := Some(e.queue[0]), queue := e.queue[1..]), hw);
    if Settled(o.ext) then Out(o.ext.(nexus := None), o.events + [PostEvent(o.ext)]) else o
  }

  /** mmc_start_ccb; hws(k) is what the hardware answers while the k-th request is started. */
  function StartCcb(h: Host, e: Ext, hws: nat -> Hw, k: nat): Out
    requires h.blk > 0
    decreases |e.queue|
  {
    if e.nexus.Some? || e.queue == [] then Quiet(e)
    else
      var o := TakeNext(h, e, hws(k));
      var rest := StartCcb(h, o.ext, hws, k + 1);
      Out(rest.ext, o.events + rest.events)
  }

  datatype Step =
    | Submit(ccb: Ccb)                           // mmc_sim_action
    | EnqueuePulse(hws: nat -> Hw)
    | InterruptPulse(hw: Hw, hws: nat -> Hw)
    | TimerTick(hw: Hw, hws: nat -> Hw)
    | CardInserted(started: bool)                // the control thread
    | CardRemoved
    | Protect(on: bool)                          // the CSD, or the switch of the card
    | Reset(started: bool)

  /** The end of a pass of the receive loop: an idle driver looks at the queue again. */
  function TailCheck(h: Host, o: Out, hws: nat -> Hw): Out
    requires h.blk > 0
  {
    if o.ext.nexus.Some? then o
    else var rest := StartCcb(h, o.ext, hws, 0); Out(rest.ext, o.events + rest.events)
  }

  function Take(h: Host, e: Ext, step: Step): Out
    requires h.blk > 0 && DataPhaseOk(h, e)
  {
    match step
    case Submit(ccb) => Quiet(e.(queue := e.queue + [ccb.(id := e.submitted, status := InProg)],
                                 submitted := e.submitted + 1))
    case EnqueuePulse(hws) => TailCheck(h, StartCcb(h, e, hws, 0), hws)
    case InterruptPulse(hw, hws) => TailCheck(h, ProcessInterrupt(h, e, hw), hws)
    case TimerTick(hw, hws) => TailCheck(h, TimerPulse(h, e, hw), hws)
    case CardInserted(started) => Quiet(e.(inserted := true, state := if started then Ident else e.state))
    case CardRemoved => Quiet(e.(ready := false, inserted := false, state := Idle))
    case Protect(on) => Quiet(e.(writeProtected := on))
    case Reset(started) =>
      if !e.inserted then Quiet(e)
      else Quiet(e.(resetting := true, state := if started then Ident else e.state))
  }

  const Start := Ext(Idle, StopNone, false, false, false, false, true, 0, 0, 0, 0, 0, None, [], 0)
}
