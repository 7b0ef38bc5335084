/**
 The request engine in the driver's own form: the fields of SIM_MMC_EXT, updated in place by the
 handlers of sim_mmc.c.  Each handler is proved to do to the fields, and to put on the bus, exactly
 what RequestEngine says, so all that RequestRuns proves of runs holds of these handlers.
 */
module SimMmc {
  import opened Blocks
  import opened Wrappers
  import opened Arith
  import opened MmcTypes
  import opened PioWalk
  import opened BusRules
  import opened RequestEngine
  import opened RequestRuns

  class Driver {
    const h: Host
    var state: State
    var stop: Stop
    var inserted: bool
    var ready: bool
    var resetting: bool
    var writeProtected: bool
    var dirIn: bool
    var offset: int
    var nbytes: nat
    var blkno: nat
    var curSg: nat
    var stopsRetry: nat
    var nexus: Option<Ccb>
    var queue: seq<Ccb>
    var submitted: nat
    ghost var log: seq<Event>

    ghost function View(): Ext
      reads this
    {
      Ext(state, stop, inserted, ready, resetting, writeProtected, dirIn, offset, nbytes, blkno, curSg, stopsRetry,
          nexus, queue, submitted)
    }

    /** The fields are those of o, and the bus saw o's events since the log was before. */
    ghost predicate Now(before: seq<Event>, o: Out)
      reads this
    {
      View() == o.ext && log == before + o.events
    }

    constructor (h: Host)
      ensures this.h == h && View() == Start && log == []
      ensures h.blk > 0 ==> HasRun([])
    {
      this.h := h;
      state, stop := Idle, StopNone;
      inserted, ready, resetting, writeProtected, dirIn := false, false, false, false, true;
      offset, nbytes, blkno, curSg, stopsRetry := 0, 0, 0, 0, 0;
      nexus, queue, submitted, log := None, [], 0, [];
    }

    // ---------------------------------------------------------------- status and media

    method SetStatus(status: CamStatus, scsi: ScsiStatus)
      requires nexus.Some?
      modifies this`nexus
      ensures View() == Settle(old(View()), status, scsi)
    {
      nexus := Some(nexus.value.(status := status, scsi := scsi));
    }

    method MmcError()
      modifies this`nexus
      ensures View() == Fail(old(View()))
    {
      if nexus.Some? { SetStatus(CmdTimeout, nexus.value.scsi); }
    }

    method MmcSense()
      modifies this`nexus
      ensures View() == Sense(old(View()))
    {
      if nexus.Some? { SetStatus(CmpErr, Check); }
    }

    method MmcMediaCheck(detect: bool)
      modifies this`inserted, this`ready
      ensures View() == MediaCheck(old(View()), detect)
    {
      if detect {
        inserted := true;
      } else if inserted {
        inserted := false;
        ready := false;
      }
    }

    /** The nested waits of a handler: each pulse of the timer or the card may find the media gone or back. */
    method MmcWaitCommand(finds: seq<bool>)
      modifies this`inserted, this`ready
      ensures View() == MediaChecks(old(View()), finds)
    {
      for i := 0 to |finds|
        invariant View() == MediaChecks(old(View()), finds[..i])
      {
        assert finds[..i + 1][..i] == finds[..i];
        MmcMediaCheck(finds[i]);
      }
      assert finds[..|finds|] == finds;
    }

    // ---------------------------------------------------------------- commands

    method MmcSendRwcmd(bytes: nat, ghost mem: nat, ok: bool)
      requires h.blk > 0
      modifies this`stop, this`log
      ensures View() == PlanStop(h, old(View()), bytes)
      ensures log == old(log) + if ok then [DataCommand(h, old(View()), mem, bytes)] else []
    {
      if bytes == h.blk {
        stop := StopNone;
      } else if !h.acmd12 {
        stop := StopPend;
      } else {
        stop := StopAuto;
      }
      log := log + if ok then [Data(!dirIn, blkno, mem, BlocksIn(h.blk, bytes), OpenEnded(h, bytes))] else [];
    }

    /** mmc_stop_xfer; whether the command was accepted is ok. */
    method MmcStopXfer(ok: bool)
      modifies this`log
      ensures log == old(log) + if ok then [StopSent] else []
    {
      if ok { log := log + [StopSent]; } else { assert log == log + []; }
    }

    method StopTransfer(ok: bool)
      modifies this`nexus, this`stop, this`log
      ensures Now(old(log), SendStop(old(View()), ok))
    {
      MmcStopXfer(ok);
      if !ok {
        MmcError();
        stop := StopNone;
        return;
      }
      stop := StopIssued;
    }

    /** The setup_dma callout: some whole blocks, no more than n bytes. */
    method SetupDma(n: nat, hw: Hw) returns (bytes: nat)
      requires h.blk > 0
      ensures bytes == Bytes(h.blk, Min(hw.chunkBlocks, BlocksIn(h.blk, n)))
      ensures bytes == 0 <==> Min(hw.chunkBlocks, BlocksIn(h.blk, n)) == 0
    {
      bytes := Bytes(h.blk, Min(hw.chunkBlocks, BlocksIn(h.blk, n)));
    }

    method MmcDmaRw(hw: Hw)
      requires h.blk > 0 && nexus.Some? && 0 <= offset <= nbytes
      modifies this`nexus, this`stop, this`offset, this`blkno, this`log
      ensures Now(old(log), DmaRw(h, old(View()), hw))
    {
      if nbytes == offset {
        SetStatus(Cmp, Good);
        return;
      }
      var bytes := SetupDma(nbytes - offset, hw);
      if bytes > 0 {
        MmcSendRwcmd(bytes, offset, hw.rwOk);
        if hw.rwOk {
          offset := offset + bytes;
          BlocksInIsQuotient(h.blk, bytes);
          blkno := blkno + bytes / h.blk;
          return;
        }
      }
      MmcError();
    }

    // ---------------------------------------------------------------- starting a request

    /** Adds up the scatter list, or takes the length of the one buffer. */
    method RequestLength() returns (n: nat)
      requires nexus.Some?
      ensures n == nexus.value.Length()
    {
      n := 0;
      if nexus.value.scatter {
        var sg := nexus.value.sg;
        for i := 0 to |sg|
          invariant n == Sum(sg[..i])
        {
          SumUpTo(sg, i);
          n := n + sg[i];
        }
        assert sg[..|sg|] == sg;
      } else {
        n := nexus.value.dxferLen;
      }
    }

    /** The setup_pio and setup_sgdma callouts: the whole blocks of n bytes, or nothing. */
    method Setup(n: nat, ok: bool) returns (bytes: nat)
      requires h.blk > 0
      ensures bytes == if ok then WholeBlocks(h, n) else 0
    {
      bytes := if ok then WholeBlocks(h, n) else 0;
    }

    method MmcPioInitiate(hw: Hw)
      requires h.blk > 0 && nexus.Some?
      modifies this
      ensures Now(old(log), PioInitiate(h, old(View()), hw))
    {
      if nexus.value.phys {
        MmcError();
        return;
      }
      nbytes := RequestLength();
      var bytes := Setup(nbytes, hw.setupOk);
      if bytes == nbytes {
        PioTransfer(hw.rwOk);
      } else {
        MmcError();
      }
    }

    /** The request is under way. */
    method EnterDataPhase()
      requires nexus.Some?
      modifies this`nexus, this`state
      ensures View() == EnterData(old(View()))
    {
      SetStatus(InProg, nexus.value.scsi);
      state := InData;
    }

    method PioTransfer(ok: bool)
      requires h.blk > 0 && nexus.Some?
      modifies this
      ensures Now(old(log), PioSend(h, old(View()), old(nbytes), ok))
    {
      MmcSendRwcmd(nbytes, 0, ok);
      if ok && nbytes > 0 {
        EnterDataPhase();
        return;
      }
      MmcError();
    }

    method SgTransfer(bytes: nat, ok: bool)
      requires h.blk > 0 && nexus.Some?
      modifies this
      ensures Now(old(log), SgSend(h, old(View()), bytes, ok))
    {
      MmcSendRwcmd(bytes, 0, ok);
      if ok {
        EnterDataPhase();
        nbytes, offset := bytes, bytes;
        return;
      }
      MmcError();
    }

    method MmcSgInitiate(hw: Hw)
      requires h.blk > 0 && nexus.Some?
      modifies this
      ensures Now(old(log), SgDmaInitiate(h, old(View()), hw))
    {
      if h.nocdBusy {
        MmcWaitCommand(hw.media);
        if !hw.cardReady {
          MmcError();
          return;
        }
      }
      var length := RequestLength();
      var bytes := Setup(length, hw.setupOk);
      if bytes > 0 {
        SgTransfer(bytes, hw.rwOk);
      } else {
        MmcError();
      }
    }

    method AimAtBuffer()
      requires nexus.Some?
      modifies this`nexus, this`nbytes
      ensures View() == Settle(old(View()), InProg, old(nexus.value.scsi)).(nbytes := old(nexus.value.dxferLen))
    {
      SetStatus(InProg, nexus.value.scsi);
      nbytes := nexus.value.dxferLen;
    }

    method MmcFlatInitiate(hw: Hw)
      requires h.blk > 0 && nexus.Some? && offset == 0
      modifies this
      ensures Now(old(log), FlatDmaInitiate(h, old(View()), hw))
    {
      AimAtBuffer();
      MmcDmaRw(hw);
      if nexus.value.status == InProg { state := InData; }
    }

    method MmcDmaInitiate(hw: Hw)
      requires h.blk > 0 && nexus.Some? && offset == 0
      modifies this
      ensures Now(old(log), DmaInitiate(h, old(View()), hw))
    {
      if nexus.value.scatter {
        if h.hasSgdma { MmcSgInitiate(hw); } else { MmcError(); }
      } else {
        MmcFlatInitiate(hw);
      }
    }

    method InitiateTransfer(hw: Hw)
      requires h.blk > 0 && nexus.Some? && offset == 0
      modifies this
      ensures Now(old(log), Initiate(h, old(View()), hw))
    {
      if !hw.partitionOk {
        MmcError();
      } else if h.pio {
        if h.hasPio { MmcPioInitiate(hw); } else { MmcError(); }
      } else {
        if h.hasDma { MmcDmaInitiate(hw); } else { MmcError(); }
      }
    }

    method Rewind(hw: Hw)
      requires nexus.Some?
      modifies this`offset, this`curSg, this`dirIn, this`blkno, this`inserted, this`ready
      ensures View() == Rewound(old(View()), hw)
    {
      offset, curSg := 0, 0;
      dirIn := nexus.value.func == Read;
      blkno := nexus.value.lba;
      MmcWaitCommand(hw.media);
    }

    method StartTransfer(hw: Hw)
      requires h.blk > 0 && nexus.Some?
      modifies this
      ensures Now(old(log), StartReadWrite(h, old(View()), hw))
    {
      log := log + [Begin(nexus.value.id, nexus.value.func == Write, nexus.value.lba, nexus.value.Length(),
                          h.ModeOf(nexus.value))];
      Rewind(hw);
      InitiateTransfer(hw);
    }

    method MmcIoCmds(hw: Hw)
      requires h.blk > 0 && nexus.Some?
      modifies this
      ensures Now(old(log), IoCmds(h, old(View()), hw))
    {
      if state == Ident { return; }
      if !nexus.value.ReadWrite() {
        MmcWaitCommand(hw.media);
        if hw.simpleOk { SetStatus(Cmp, Good); } else { MmcSense(); }
      } else if (nexus.value.func == Write && writeProtected) || !ready {
        MmcSense();
      } else {
        StartTransfer(hw);
      }
    }

    // ---------------------------------------------------------------- the data phase

    method MmcPioStop(dirIn: bool, hw: Hw)
      requires nexus.Some?
      modifies this
      ensures Now(old(log), PioStop(old(View()), dirIn, hw))
    {
      if this.dirIn == dirIn {
        if stop == StopPend {
          StopTransfer(hw.stopOk);
        } else {
          SetStatus(Cmp, Good);
        }
      }
    }

    method FinishWalk(hw: Hw)
      requires nexus.Some?
      modifies this
      ensures Now(old(log), AfterWalk(old(View()), hw))
    {
      if offset == DONE { MmcPioStop(true, hw); }
    }

    /** pio_done: it moves as much of the rest of an element as is granted. */
    method PioDone(len: nat, grants: seq<nat>, k: nat) returns (n: nat)
      ensures n == if k < |grants| then Min(grants[k], len) else 0
    {
      n := if k < |grants| then Min(grants[k], len) else 0;
    }

    /** The loop of mmc_pio_rw; one buffer is a list of one element. */
    method WalkOn(counts: seq<nat>, sg: nat, grants: seq<nat>) returns (sgi: nat)
      requires offset != DONE && CursorOk(counts, Cursor(sg, offset))
      modifies this`offset
      ensures Cursor(sgi, offset) == Walk(counts, Cursor(sg, old(offset)), grants)
    {
      ghost var to := Walk(counts, Cursor(sg, offset), grants);
      assert grants[0..] == grants;
      var k, going := 0, true;
      sgi := sg;
      while going
        invariant k <= |grants| + 1 && (going ==> k <= |grants|)
        invariant going ==> offset != DONE && CursorOk(counts, Cursor(sgi, offset))
        invariant going ==> Walk(counts, Cursor(sgi, offset), grants[k..]) == to
        invariant !going ==> Cursor(sgi, offset) == to
        decreases |grants| + 1 - k, going
      {
        ghost var from := Cursor(sgi, offset);
        var n := PioDone(counts[sgi] - offset, grants, k);
        AdvanceMovesPosition(counts, from, n);
        offset := offset + n;
        if offset == counts[sgi] {
          sgi := sgi + 1;
          if sgi >= |counts| { offset := DONE; } else { offset := 0; }
        }
        assert Cursor(sgi, offset) == Advance(counts, from, n);
        going := n > 0 && offset != DONE;
        if going { assert grants[k..][1..] == grants[k + 1..]; }
        k := k + 1;
      }
    }

    method WalkList(hw: Hw)
      requires nexus.Some? && offset != DONE && CursorOk(nexus.value.Counts(), PioCursor(View()))
      modifies this`offset, this`curSg, this`log
      ensures var counts, from := nexus.value.Counts(), PioCursor(old(View()));
              var to := Walk(counts, from, hw.grants);
              && CursorOk(counts, to) && Position(counts, from) <= Position(counts, to)
              && View() == Walked(old(View()), to) && log == old(log) + [WalkEvent(old(View()), to)]
    {
      var counts := nexus.value.Counts();
      WalkMovesForward(counts, PioCursor(View()), hw.grants);
      log := log + [WalkEvent(View(), Walk(counts, PioCursor(View()), hw.grants))];
      if nexus.value.scatter {
        var sgi := WalkOn(counts, curSg, hw.grants);
        curSg := sgi;
      } else {
        var _ := WalkOn(counts, 0, hw.grants);
      }
    }

    method MmcPioRw(hw: Hw)
      requires nexus.Some? && CursorOk(nexus.value.Counts(), PioCursor(View()))
      modifies this
      ensures Now(old(log), PioRw(old(View()), hw))
    {
      if offset == DONE {
        MmcPioStop(false, hw);
      } else {
        WalkList(hw);
        FinishWalk(hw);
      }
    }

    method MmcDmaIrq(hw: Hw)
      requires h.blk > 0 && nexus.Some? && 0 <= offset <= nbytes
      modifies this
      ensures Now(old(log), DmaIrq(h, old(View()), hw))
    {
      if stop == StopPend {
        StopTransfer(hw.stopOk);
        return;
      }
      MmcDmaRw(hw);
    }

    method AbandonStop()
      modifies this`nexus, this`state, this`stop
      ensures View() == StopAbandoned(old(View()))
    {
      state := Ident;
      MmcError();
      stop := StopNone;
    }

    method MmcRetryStop(ok: bool)
      requires nexus.Some?
      modifies this
      ensures Now(old(log), RetryStop(old(View()), ok))
    {
      var retries := stopsRetry;
      stopsRetry := stopsRetry + 1;
      if retries > MAX_STOP_RETRIES || !ok {
        AbandonStop();
      } else {
        MmcStopXfer(true);
      }
    }

    method StopFailed(hw: Hw)
      requires nexus.Some?
      modifies this
      ensures Now(old(log), StopError(old(View()), hw))
    {
      MmcMediaCheck(hw.detect);
      if !inserted {
        MmcSense();
        stopsRetry := 0;
        stop := StopNone;
      } else {
        MmcRetryStop(hw.stopOk);
      }
    }

    method StopCompleted(hw: Hw)
      requires h.blk > 0 && nexus.Some? && (!h.pio ==> 0 <= offset <= nbytes)
      modifies this
      ensures Now(old(log), AfterStop(h, old(View()), hw))
    {
      if nexus.value.scsi == Check {
        MmcError();
      } else if h.pio {
        SetStatus(Cmp, Good);
      } else {
        MmcDmaIrq(hw);
      }
    }

    method ForgetStop()
      modifies this`stopsRetry, this`stop
      ensures View() == old(View()).(stopsRetry := 0, stop := StopNone)
    {
      stopsRetry := 0;
      stop := StopNone;
    }

    method StopInterrupt(hw: Hw)
      requires h.blk > 0 && state == InData && DataPhaseOk(h, View())
      modifies this
      ensures Now(old(log), StopIrq(h, old(View()), hw))
    {
      if hw.intr.error {
        StopFailed(hw);
      } else if hw.intr.command {
        log := log + [StopDone];
        ForgetStop();
        StopCompleted(hw);
      }
    }

    method TransferFailed(hw: Hw)
      requires nexus.Some?
      modifies this
      ensures Now(old(log), TransferError(old(View()), hw))
    {
      log := log + [DataError];
      MmcMediaCheck(hw.detect);
      if !inserted {
        MmcSense();
        stop := StopNone;
        return;
      }
      if hw.stopOk { SetStatus(nexus.value.status, Check); }
      StopTransfer(hw.stopOk);
    }

    method TransferInterrupt(hw: Hw)
      requires h.blk > 0 && state == InData && DataPhaseOk(h, View())
      modifies this
      ensures Now(old(log), TransferIrq(h, old(View()), hw))
    {
      stopsRetry := 0;
      if hw.intr.error {
        TransferFailed(hw);
      } else if hw.intr.data {
        if h.pio {
          MmcPioRw(hw);
        } else if hw.dmaDone {
          MmcDmaIrq(hw);
        } else {
          MmcError();
        }
      } else if hw.intr.bufferReady && h.pio {
        MmcPioRw(hw);
      }
    }

    method MmcDataIrq(hw: Hw)
      requires h.blk > 0 && state == InData && DataPhaseOk(h, View())
      modifies this
      ensures Now(old(log), DataIrq(h, old(View()), hw))
    {
      if stop == StopIssued { StopInterrupt(hw); } else { TransferInterrupt(hw); }
    }

    method MmcIdentIrq(hw: Hw)
      requires h.blk > 0
      modifies this
      ensures Now(old(log), IdentIrq(h, old(View()), hw))
    {
      match hw.ident
      case IdentBusy =>
      case IdentDone =>
        state, resetting, ready := Idle, false, true;
        if nexus.Some? { MmcIoCmds(hw); }
      case IdentFailed =>
        MmcError();
        if resetting { return; }
        state := Idle;
        if !hw.detect { MmcMediaCheck(false); }
    }

    // ---------------------------------------------------------------- the receive loop

    method CheckAfterData(hw: Hw)
      modifies this
      ensures View() == AfterData(h, old(View()), hw) && log == old(log)
    {
      if nexus.None? || nexus.value.status == InProg { return; }
      var probe := h.ac13 && nexus.value.status == Cmp && nexus.value.func == Read && nbytes == h.blk;
      if probe || h.nocdBusy { MmcWaitCommand(hw.media); }
      if probe && !hw.statusOk { MmcError(); }
      if h.nocdBusy && !hw.cardReady { MmcError(); }
    }

    method Interrupted(hw: Hw)
      requires h.blk > 0 && DataPhaseOk(h, View())
      modifies this
      ensures Now(old(log), HandleInterrupt(h, old(View()), hw))
    {
      if hw.intr.card {
        MmcMediaCheck(hw.detect);
        MmcError();
      } else if state == Ident {
        MmcIdentIrq(hw);
      } else if state == InData {
        MmcDataIrq(hw);
        CheckAfterData(hw);
      }
    }

    /** simq_post_ccb of the nexus */
    method PostNexus()
      requires nexus.Some?
      modifies this`nexus, this`log
      ensures View() == old(View()).(nexus := None) && log == old(log) + [PostEvent(old(View()))]
    {
      log := log + [Post(nexus.value.id, nexus.value.ReadWrite(), nexus.value.status)];
      nexus := None;
    }

    method MmcProcessInterrupt(hw: Hw)
      requires h.blk > 0 && DataPhaseOk(h, View())
      modifies this
      ensures Now(old(log), ProcessInterrupt(h, old(View()), hw))
    {
      if hw.intr.Nothing() { return; }
      Interrupted(hw);
      if nexus.Some? && nexus.value.status != InProg {
        PostNexus();
        state := Idle;
      }
    }

    method TimerExpired(hw: Hw)
      modifies this
      ensures Now(old(log), TimerPulse(h, old(View()), hw))
    {
      if !h.cdIntr { MmcMediaCheck(hw.detect); }
      if nexus.Some? && !inserted && (nexus.value.status == InProg || nexus.value.status == CmpErr) {
        MmcSense();
        PostNexus();
        state := Idle;
      }
    }

    method DispatchNexus(hw: Hw)
      requires h.blk > 0 && nexus.Some?
      modifies this
      ensures Now(old(log), Dispatch(h, old(View()), hw))
    {
      if nexus.value.func == Devctl {
        MmcWaitCommand(hw.media);
        SetStatus(Cmp, nexus.value.scsi);
      } else if nexus.value.func == Unsupported {
        MmcSense();
      } else {
        MmcIoCmds(hw);
      }
    }

    /** One pass of the loop in mmc_start_ccb, with a request to take. */
    method StartOne(hw: Hw)
      requires h.blk > 0 && nexus.None? && queue != []
      modifies this
      ensures Now(old(log), TakeNext(h, old(View()), hw))
    {
      nexus, queue := Some(queue[0]), queue[1..];
      ghost var o := Dispatch(h, View(), hw);
      DispatchNexus(hw);
      PostIfSettled(old(log), o);
    }

    method PostIfSettled(ghost before: seq<Event>, ghost o: Out)
      requires nexus.Some? && Now(before, o)
      modifies this`nexus, this`log
      ensures Now(before, if Settled(o.ext) then Out(o.ext.(nexus := None), o.events + [PostEvent(o.ext)]) else o)
    {
      if nexus.value.status != InProg { PostNexus(); }
    }

    method MmcStartCcb(hws: nat -> Hw)
      requires h.blk > 0
      modifies this
      ensures Now(old(log), StartCcb(h, old(View()), hws, 0))
    {
      var k: nat := 0;
      ghost var all := StartCcb(h, View(), hws, 0);
      while nexus.None? && queue != []
        invariant StartCcb(h, View(), hws, k).ext == all.ext
        invariant log + StartCcb(h, View(), hws, k).events == old(log) + all.events
        decreases |queue|
      {
        ghost var before := log;
        ghost var o := TakeNext(h, View(), hws(k));
        ghost var rest := StartCcb(h, View(), hws, k);
        StartOne(hws(k));
        k := k + 1;
        Rejoined(before, o, StartCcb(h, View(), hws, k), rest);
      }
    }

    static lemma Rejoined(before: seq<Event>, o: Out, next: Out, rest: Out)
      requires rest == Out(next.ext, o.events + next.events)
      ensures (before + o.events) + next.events == before + rest.events
    {
    }

    /** The end of a pass of the receive loop, when the pulse itself had the outcome o. */
    method CheckTail(ghost before: seq<Event>, ghost o: Out, hws: nat -> Hw)
      requires h.blk > 0 && Now(before, o)
      modifies this
      ensures Now(before, TailCheck(h, o, hws))
    {
      if nexus.None? {
        ghost var next := StartCcb(h, View(), hws, 0);
        MmcStartCcb(hws);
        Rejoined(before, o, next, TailCheck(h, o, hws));
      }
    }

    /** One pass of the receive loop of mmc_pulse_handler. */
    method ReceivePulse(pulse: Step)
      requires h.blk > 0 && DataPhaseOk(h, View())
      requires pulse.EnqueuePulse? || pulse.InterruptPulse? || pulse.TimerTick?
      modifies this
      ensures Now(old(log), Take(h, old(View()), pulse))
    {
      match pulse
      case EnqueuePulse(hws) =>
        ghost var o := StartCcb(h, View(), hws, 0);
        MmcStartCcb(hws);
        CheckTail(old(log), o, hws);
      case InterruptPulse(hw, hws) =>
        ghost var o := ProcessInterrupt(h, View(), hw);
        MmcProcessInterrupt(hw);
        CheckTail(old(log), o, hws);
      case TimerTick(hw, hws) =>
        ghost var o := TimerPulse(h, View(), hw);
        TimerExpired(hw);
        CheckTail(old(log), o, hws);
    }

    /** mmc_sim_action: the request goes on the queue as the next one. */
    method Submit(ccb: Ccb)
      modifies this`queue, this`submitted
      ensures View() == old(View()).(queue := old(queue) + [ccb.(id := old(submitted), status := InProg)],
                                     submitted := old(submitted) + 1)
    {
      queue := queue + [ccb.(id := submitted, status := InProg)];
      submitted := submitted + 1;
    }

    /** The control thread starts identification; whether its first command went out is started. */
    method InsertCard(started: bool)
      modifies this`inserted, this`state
      ensures View() == old(View()).(inserted := true, state := if started then Ident else old(state))
    {
      inserted := true;
      if started { state := Ident; }
    }

    method RemoveCard()
      modifies this`ready, this`inserted, this`state
      ensures View() == old(View()).(ready := false, inserted := false, state := Idle)
    {
      ready, inserted := false, false;
      state := Idle;
    }

    method ResetCard(started: bool)
      modifies this`resetting, this`state
      ensures View() == if old(inserted)
                        then old(View()).(resetting := true, state := if started then Ident else old(state))
                        else old(View())
    {
      if inserted {
        resetting := true;
        if started { state := Ident; }
      }
    }

    /** One step of whichever thread. */
    method Perform(step: Step)
      requires h.blk > 0 && DataPhaseOk(h, View())
      modifies this
      ensures Now(old(log), Take(h, old(View()), step))
    {
      match step
      case Submit(ccb) => Submit(ccb);
      case CardInserted(started) => InsertCard(started);
      case CardRemoved => RemoveCard();
      case Protect(on) => writeProtected := on;
      case Reset(started) => ResetCard(started);
      case _ => ReceivePulse(step);
    }

    /** This driver has done what the run of those steps does. */
    ghost predicate HasRun(steps: seq<Step>)
      requires h.blk > 0
      reads this
    {
      View() == Run(h, steps).ext && log == Run(h, steps).events
    }

    method DriveOne(ghost done: seq<Step>, step: Step)
      requires h.blk > 0 && HasRun(done)
      modifies this
      ensures HasRun(done + [step])
    {
      RunStep(h, done, step);
      Perform(step);
    }

    static lemma OneMore(steps: seq<Step>, i: nat)
      requires i < |steps|
      ensures steps[..i] + [steps[i]] == steps[..i + 1]
    {
    }

    /** The bus saw nothing that is not allowed, and each request was posted once and in order, or is the
        nexus or in the queue. */
    ghost predicate Correct()
      requires h.blk > 0
      reads this
    {
      Watch(h.AsBus(), log).ok && PostedIds(log) + Outstanding(View()) == UpTo(submitted)
    }

    lemma RunIsCorrect(steps: seq<Step>)
      requires h.blk > 0 && HasRun(steps)
      ensures Correct()
    {
    }

    /** A whole run: it is correct, and what RequestTheorems says of Run(h, steps) is true of this driver. */
    method Drive(steps: seq<Step>)
      requires h.blk > 0 && HasRun([])
      modifies this
      ensures Correct() && HasRun(steps)
    {
      var i := 0;
      while i < |steps|
        invariant i <= |steps| && HasRun(steps[..i])
      {
        DriveOne(steps[..i], steps[i]);
        OneMore(steps, i);
        i := i + 1;
      }
      assert steps[..i] == steps;
      RunIsCorrect(steps);
    }
  }
}
