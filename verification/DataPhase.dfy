/**
 What each interrupt of the data phase comes to, for DMA and for errors: the next part of the request, a
 stop command, or the post.
 */
module DataPhase {
  import opened Arith
  import opened Blocks
  import opened Wrappers
  import opened MmcTypes
  import opened BusRules
  import opened RequestEngine
  import opened RequestInvariant
  import opened RequestRuns
  import opened RequestOutcomes

  /** A request in the data phase, as every run has it */
  predicate UnderWay(h: Host, e: Ext) {
    && h.blk > 0 && e.state == InData && DataPhaseOk(h, e) && e.nexus.value.status == InProg && DirAgrees(e)
    && (!h.pio ==> 0 <= e.offset <= e.nbytes)
  }

  lemma RunIsUnderWay(h: Host, steps: seq<Step>)
    requires h.blk > 0 && Run(h, steps).ext.state == InData
    ensures UnderWay(h, Run(h, steps).ext)
  {
    RestMeansDataPhaseOk(h, Run(h, steps).ext, Watch(h.AsBus(), Run(h, steps).events));
  }

  /** After these events the request is posted, as a success or not. */
  predicate Posts(e: Ext, events: seq<Event>, success: bool, o: Out)
    requires e.nexus.Some?
  {
    && |o.events| == |events| + 1 && o.events[..|events|] == events
    && (var last := o.events[|events|];
        last.Post? && last.id == e.nexus.value.id && last.readWrite && (last.status == Cmp <==> success))
    && o.ext.nexus.None? && o.ext.state == Idle
  }

  /** What a handler leaves settled is posted, a success only if the checks after it pass. */
  lemma SettledPosts(h: Host, e: Ext, hw: Hw)
    requires UnderWay(h, e) && !hw.intr.card && !hw.intr.Nothing() && Settled(DataIrq(h, e, hw).ext)
    ensures var done := DataIrq(h, e, hw);
            Posts(e, done.events, done.ext.nexus.value.status == Cmp && ChecksPass(h, done.ext, hw),
                  ProcessInterrupt(h, e, hw))
  {
    SuccessIffChecked(h, e, hw);
  }

  lemma UnsettledGoesOn(h: Host, e: Ext, hw: Hw)
    requires UnderWay(h, e) && !hw.intr.card && !hw.intr.Nothing() && !Settled(DataIrq(h, e, hw).ext)
    ensures ProcessInterrupt(h, e, hw) == DataIrq(h, e, hw)
  {
    var done := DataIrq(h, e, hw);
    assert HandleInterrupt(h, e, hw) == Out(AfterData(h, done.ext, hw), done.events);
  }

  // ---------------------------------------------------------------- errors

  lemma TransferErrorIs(e: Ext, hw: Hw)
    requires e.nexus.Some? && e.nexus.value.status == InProg
    ensures var o := TransferError(e, hw);
            if hw.detect && hw.stopOk
            then && o.events == [DataError, StopSent] && o.ext.stop == StopIssued && o.ext.state == e.state
                 && o.ext.nexus == Some(e.nexus.value.(scsi := Check))
            else o.events == [DataError] && Settled(o.ext) && o.ext.nexus.value.status != Cmp
  {
    var e1 := MediaCheck(e, hw.detect);
    assert e1 == e.(inserted := hw.detect, ready := e1.ready);
  }

  /** A data error: if the card is there and takes CMD12, that is sent and the request marked; otherwise the request
      is posted as failed. */
  lemma ErrorIsStopped(h: Host, e: Ext, hw: Hw)
    requires UnderWay(h, e) && e.stop != StopIssued && hw.intr.error && !hw.intr.card
    ensures var o := ProcessInterrupt(h, e, hw);
            if hw.detect && hw.stopOk
            then && o.events == [DataError, StopSent] && o.ext.stop == StopIssued && o.ext.state == InData
                 && o.ext.nexus == Some(e.nexus.value.(scsi := Check))
            else Posts(e, [DataError], false, o)
  {
    var e0 := e.(stopsRetry := 0);
    TransferErrorIs(e0, hw);
    assert DataIrq(h, e, hw) == TransferError(e0, hw);
    if hw.detect && hw.stopOk {
      UnsettledGoesOn(h, e, hw);
    } else {
      SettledPosts(h, e, hw);
    }
  }

  // ---------------------------------------------------------------- DMA, part by part

  /** As many blocks as are left, or as the host accepts */
  function Accepted(h: Host, e: Ext, hw: Hw): nat
    requires h.blk > 0 && e.offset <= e.nbytes
  {
    Min(hw.chunkBlocks, (e.nbytes - e.offset) / h.blk)
  }

  /** After these events the next part of the request is commanded, with all the blocks that the host accepts; if it
      accepts none or the command is refused, or if there is nothing left, the request is posted. */
  predicate Continues(h: Host, e: Ext, events: seq<Event>, hw: Hw, o: Out)
    requires h.blk > 0 && e.nexus.Some? && 0 <= e.offset <= e.nbytes
  {
    var k := Accepted(h, e, hw);
    if e.offset < e.nbytes && k > 0 && hw.rwOk
    then && o.events == events + [Data(e.nexus.value.func == Write, e.blkno, e.offset, k, k != 1 && !h.acmd12)]
         && o.ext.nexus == e.nexus && o.ext.state == InData
         && o.ext.offset == e.offset + k * h.blk && o.ext.blkno == e.blkno + k
    else Posts(e, events, e.offset == e.nbytes && ChecksPass(h, e, hw), o)
  }

  /** mmc_dma_xfer of k blocks */
  lemma DmaXferIs(h: Host, e: Ext, k: nat)
    requires h.blk > 0 && e.offset >= 0 && k > 0
    ensures var o := DmaXfer(h, e, Bytes(h.blk, k), true);
            && o.events == [Data(!e.dirIn, e.blkno, e.offset, k, k != 1 && !h.acmd12)]
            && o.ext.nexus == e.nexus && o.ext.state == e.state
            && o.ext.offset == e.offset + k * h.blk && o.ext.blkno == e.blkno + k
  {
    OneBlock(h.blk, k);
    BlocksInBytes(h.blk, k);
    BytesIsProduct(h.blk, k);
  }

  /** Settled so, with the request's direction and size as they were */
  predicate SettledAs(e: Ext, success: bool, r: Ext)
    requires e.nexus.Some?
  {
    && Settled(r) && (r.nexus.value.status == Cmp <==> success)
    && r.nbytes == e.nbytes && r.nexus.value.func == e.nexus.value.func
  }

  lemma SettledPostsAs(h: Host, e: Ext, hw: Hw, events: seq<Event>, success: bool)
    requires UnderWay(h, e) && !hw.intr.card && !hw.intr.Nothing()
    requires DataIrq(h, e, hw).events == events && SettledAs(e, success, DataIrq(h, e, hw).ext)
    ensures Posts(e, events, success && ChecksPass(h, e, hw), ProcessInterrupt(h, e, hw))
  {
    SettledPosts(h, e, hw);
  }

  lemma FailSettles(e: Ext)
    requires e.nexus.Some?
    ensures SettledAs(e, false, Fail(e))
  {
  }

  lemma CompleteSettles(e: Ext)
    requires e.nexus.Some?
    ensures SettledAs(e, true, Complete(e))
  {
  }

  /** mmc_dma_rw where nothing is commanded */
  lemma DmaRwStops(h: Host, e: Ext, hw: Hw)
    requires UnderWay(h, e) && !h.pio && (e.offset == e.nbytes || Accepted(h, e, hw) == 0 || !hw.rwOk)
    ensures DmaRw(h, e, hw).events == [] && SettledAs(e, e.offset == e.nbytes, DmaRw(h, e, hw).ext)
  {
    if e.offset == e.nbytes {
      CompleteSettles(e);
    } else {
      BlocksInIsQuotient(h.blk, e.nbytes - e.offset);
      FailSettles(e);
      FailSettles(PlanStop(h, e, Bytes(h.blk, Accepted(h, e, hw))));
    }
  }

  /** The interrupt is handled by mmc_dma_rw after these events, on this state. */
  lemma DmaRwContinues(h: Host, e: Ext, e0: Ext, events: seq<Event>, hw: Hw)
    requires UnderWay(h, e) && !h.pio && !hw.intr.card && !hw.intr.Nothing() && UnderWay(h, e0)
    requires e0 == e.(stopsRetry := e0.stopsRetry, stop := e0.stop)
    requires var o := DmaRw(h, e0, hw); DataIrq(h, e, hw) == Out(o.ext, events + o.events)
    ensures Continues(h, e, events, hw, ProcessInterrupt(h, e, hw))
  {
    var k := Accepted(h, e0, hw);
    if e.offset == e.nbytes || k == 0 || !hw.rwOk {
      DmaRwStops(h, e0, hw);
      assert events + [] == events;
      SettledPostsAs(h, e, hw, events, e.offset == e.nbytes);
    } else {
      BlocksInIsQuotient(h.blk, e.nbytes - e.offset);
      DmaXferIs(h, e0, k);
      UnsettledGoesOn(h, e, hw);
    }
  }

  /** The end of a part: one that is open-ended is stopped first, if the host takes CMD12; any other is followed by
      the next part, or the end of the request. */
  lemma PartEnds(h: Host, e: Ext, hw: Hw)
    requires UnderWay(h, e) && !h.pio && e.stop != StopIssued && !hw.intr.card && !hw.intr.error && hw.intr.data
    ensures var o := ProcessInterrupt(h, e, hw);
            if !hw.dmaDone || (e.stop == StopPend && !hw.stopOk) then Posts(e, [], false, o)
            else if e.stop == StopPend
            then o.events == [StopSent] && o.ext.nexus == e.nexus && o.ext.stop == StopIssued && o.ext.state == InData
            else Continues(h, e, [], hw, o)
  {
    var e0 := e.(stopsRetry := 0);
    assert DataIrq(h, e, hw) == if hw.dmaDone then DmaIrq(h, e0, hw) else Quiet(Fail(e0));
    if !hw.dmaDone || (e.stop == StopPend && !hw.stopOk) {
      SettledPosts(h, e, hw);
    } else if e.stop == StopPend {
      UnsettledGoesOn(h, e, hw);
    } else {
      assert [] + DmaRw(h, e0, hw).events == DmaRw(h, e0, hw).events;
      DmaRwContinues(h, e, e0, [], hw);
    }
  }

  /** CMD12 has completed: a request that is marked is posted as failed, any other goes on with its next part. */
  lemma StoppedPartEnds(h: Host, e: Ext, hw: Hw)
    requires UnderWay(h, e) && !h.pio && e.stop == StopIssued && !hw.intr.card && !hw.intr.error && hw.intr.command
    ensures var o := ProcessInterrupt(h, e, hw);
            if e.nexus.value.scsi == Check then Posts(e, [StopDone], false, o) else Continues(h, e, [StopDone], hw, o)
  {
    var e0 := e.(stopsRetry := 0, stop := StopNone);
    assert DataIrq(h, e, hw) == After(StopDone, AfterStop(h, e0, hw));
    if e.nexus.value.scsi == Check {
      SettledPosts(h, e, hw);
    } else {
      DmaRwContinues(h, e, e0, [StopDone], hw);
    }
  }

  /** The same stop for programmed I/O, whose one transfer is then over */
  lemma StoppedPioEnds(h: Host, e: Ext, hw: Hw)
    requires UnderWay(h, e) && h.pio && e.stop == StopIssued && !hw.intr.card && !hw.intr.error && hw.intr.command
    ensures Posts(e, [StopDone], e.nexus.value.scsi != Check && ChecksPass(h, e, hw), ProcessInterrupt(h, e, hw))
  {
    var e0 := e.(stopsRetry := 0, stop := StopNone);
    FailSettles(e0);
    CompleteSettles(e0);
    StoppedPioIs(h, e, e0, hw);
    SettledPostsAs(h, e, hw, [StopDone], e.nexus.value.scsi != Check);
  }

  lemma StoppedPioIs(h: Host, e: Ext, e0: Ext, hw: Hw)
    requires UnderWay(h, e) && h.pio && e.stop == StopIssued && !hw.intr.error && hw.intr.command
    requires e0 == e.(stopsRetry := 0, stop := StopNone)
    ensures DataIrq(h, e, hw) == Out(if e.nexus.value.scsi == Check then Fail(e0) else Complete(e0), [StopDone])
  {
    assert DataIrq(h, e, hw) == After(StopDone, AfterStop(h, e0, hw));
  }

  // ---------------------------------------------------------------- between commands

  /** An interrupt that is none of the above changes nothing of the request, and the bus is left alone. */
  lemma OthersAreIgnored(h: Host, e: Ext, hw: Hw)
    requires UnderWay(h, e) && !hw.intr.card && !hw.intr.error
    requires if e.stop == StopIssued then !hw.intr.command else !hw.intr.data && !(hw.intr.bufferReady && h.pio)
    ensures var o := ProcessInterrupt(h, e, hw); o.events == [] && o.ext == e.(stopsRetry := o.ext.stopsRetry)
  {
    if !hw.intr.Nothing() {
      UnsettledGoesOn(h, e, hw);
    }
  }

  /** The card is removed under a request: from then on interrupts leave it alone, until the card interrupt or the
      timer tick posts it. */
  lemma RemovedIsLeftAlone(h: Host, e: Ext, hw: Hw)
    requires UnderWay(h, e) && !hw.intr.card
    ensures var e1 := Take(h, e, CardRemoved).ext;
            && e1.nexus == e.nexus && !e1.ready && !e1.inserted
            && DataPhaseOk(h, e1) && ProcessInterrupt(h, e1, hw) == Out(e1, [])
  {
  }
}
