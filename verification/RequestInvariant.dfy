/**
 What every run of the request engine keeps: each request is completed exactly once and in order, and
 the log of bus activity is one that RequestMonitor accepts.
 */
module RequestInvariant {
  import opened Blocks
  import opened Wrappers
  import opened Arith
  import opened MmcTypes
  import opened PioWalk
  import opened BusRules
  import opened RequestMonitor
  import opened RequestEngine

  /** How the engine's stop field and the state of the transfer correspond while one is under way. */
  predicate StopAgrees(e: Ext, m: Monitor)
    requires e.nexus.Some?
  {
    match e.stop
    case StopPend => m.phase.Open? && !m.error
    case StopIssued => m.phase.Stopping? && (m.error ==> e.nexus.value.scsi == Check)
    case _ => (m.phase.Busy? || m.phase.Stopped?) && !m.error
  }

  /** The programmed-I/O request under way: one command covers it all, the cursor says what has moved. */
  predicate PioAgrees(h: Host, e: Ext, m: Monitor)
    requires h.blk > 0 && e.nexus.Some?
  {
    var ccb := e.nexus.value;
    && WholeBlocks(h, ccb.Length()) == ccb.Length() == e.nbytes && m.covered == BlocksIn(h.blk, ccb.Length())
    && CursorOk(ccb.Counts(), PioCursor(e))
    && m.moved == Position(ccb.Counts(), PioCursor(e))
    && (e.stop == StopIssued && !m.error ==> e.offset == DONE)
  }

  /** The DMA request under way: offset bytes have been commanded, and blkno is the next block. */
  predicate DmaAgrees(h: Host, e: Ext, m: Monitor)
    requires h.blk > 0 && e.nexus.Some?
  {
    var ccb := e.nexus.value;
    && e.offset == Bytes(h.blk, m.covered) <= e.nbytes
    && e.nbytes == (if ccb.scatter then WholeBlocks(h, ccb.Length()) else ccb.dxferLen)
    && (if ccb.scatter then e.offset == e.nbytes else e.blkno == ccb.lba + m.covered)
  }

  /** The monitor is in the middle of the nexus; a data error that it met before is marked on the nexus. */
  predicate AboutNexus(h: Host, e: Ext, m: Monitor)
    requires e.nexus.Some?
  {
    var ccb := e.nexus.value;
    && ccb.ReadWrite()
    && m.id == Some(ccb.id) && (m.write <==> ccb.func == Write)
    && m.lba == ccb.lba && m.length == ccb.Length() && m.mode == h.ModeOf(ccb)
    && (m.failed ==> ccb.scsi == Check)
  }

  /** A marked request is not let past the stop of an open-ended command. */
  predicate MarkAgrees(e: Ext, m: Monitor)
    requires e.nexus.Some?
  {
    e.nexus.value.scsi == Check && m.everOpen ==> e.stop == StopPend || e.stop == StopIssued
  }

  /** The direction of transfer is that of the request. */
  predicate DirAgrees(e: Ext)
    requires e.nexus.Some?
  {
    e.dirIn <==> e.nexus.value.func == Read
  }

  predicate DataAgrees(h: Host, e: Ext, m: Monitor)
    requires h.blk > 0 && e.nexus.Some?
  {
    if h.pio then PioAgrees(h, e, m) else DmaAgrees(h, e, m)
  }

  predicate TransferAgrees(h: Host, e: Ext, m: Monitor)
    requires h.blk > 0 && e.nexus.Some?
  {
    && AboutNexus(h, e, m) && m.mode in h.Modes() && m.covered > 0
    && StopAgrees(e, m) && MarkAgrees(e, m) && DirAgrees(e) && DataAgrees(h, e, m)
  }

  /** A settled read or write that claims success may do so. */
  predicate SuccessEarned(h: Host, e: Ext, m: Monitor)
    requires h.blk > 0
  {
    e.nexus.Some? && e.nexus.value.status == Cmp && e.nexus.value.ReadWrite() ==>
      SuccessAllowed(h.AsBus(), m, e.nexus.value.id)
  }

  /** Between handlers a transfer that has been stopped is over, and a read that has moved all its bytes is
      being stopped: either is dealt with in the very interrupt. */
  predicate AtRest(h: Host, e: Ext, m: Monitor) {
    && !m.phase.Stopped?
    && (h.pio && e.offset == DONE && e.dirIn ==> e.stop == StopIssued)
  }

  /** Inside a handler: either the nexus is settled, and rightly so, or its transfer is under way. */
  predicate SettledOrUnderWay(h: Host, e: Ext, m: Monitor)
    requires h.blk > 0
  {
    && m.ok && e.nexus.Some? && SuccessEarned(h, e, m)
    && (e.nexus.value.status == InProg ==> e.state == InData && TransferAgrees(h, e, m) && AtRest(h, e, m))
  }

  /** The outcome of a handler: what it leaves agrees with the log after its events. */
  ghost predicate Sound(h: Host, m: Monitor, o: Out)
    requires h.blk > 0
  {
    SettledOrUnderWay(h, o.ext, WatchFrom(h.AsBus(), m, o.events))
  }

  lemma QuietSound(h: Host, e: Ext, m: Monitor)
    requires h.blk > 0 && SettledOrUnderWay(h, e, m)
    ensures Sound(h, m, Quiet(e))
  {
  }

  lemma SaidSound(h: Host, e: Ext, ev: Event, m: Monitor)
    requires h.blk > 0 && SettledOrUnderWay(h, e, Watch1(h.AsBus(), m, ev))
    ensures Sound(h, m, Out(e, [ev]))
  {
  }

  lemma AfterSound(h: Host, ev: Event, o: Out, m: Monitor)
    requires h.blk > 0 && Sound(h, Watch1(h.AsBus(), m, ev), o)
    ensures Sound(h, m, After(ev, o))
  {
    WatchCons(h.AsBus(), m, ev, o.events);
  }

  /** A failed request is settled, whatever the bus was doing. */
  lemma FailSound(h: Host, e: Ext, m: Monitor)
    requires h.blk > 0 && e.nexus.Some? && m.ok
    ensures Sound(h, m, Quiet(Fail(e))) && Sound(h, m, Quiet(Sense(e)))
  {
  }

  lemma FailedSound(h: Host, e: Ext, m: Monitor)
    requires h.blk > 0 && Settled(e) && e.nexus.value.status != Cmp && m.ok
    ensures Sound(h, m, Quiet(e))
  {
  }

  lemma CompleteSound(h: Host, e: Ext, m: Monitor)
    requires h.blk > 0 && e.nexus.Some? && m.ok && SuccessAllowed(h.AsBus(), m, e.nexus.value.id)
    ensures Sound(h, m, Quiet(Complete(e)))
  {
  }

  // ---------------------------------------------------------------- data commands

  /** Between commands: no transfer is open and no error was met in this attempt. */
  predicate Between(h: Host, e: Ext, m: Monitor) {
    && e.nexus.Some? && e.nexus.value.status == InProg && AboutNexus(h, e, m) && DirAgrees(e)
    && m.ok && m.phase.Closed() && !m.error && (e.nexus.value.scsi == Check ==> !m.everOpen)
  }

  /** A data command that the monitor allows puts the transfer under way. */
  lemma CommandSound(h: Host, e: Ext, ev: Event, bytes: nat, m: Monitor)
    requires h.blk > 0 && Between(h, e, m) && e.state == InData && e.offset != DONE
    requires m.mode in h.Modes() && ev.Data? && DataAllowed(h.AsBus(), m, ev) && m.covered + ev.blocks > 0
    requires ev.openEnded == OpenEnded(h, bytes)
    requires DataAgrees(h, PlanStop(h, e, bytes), Watch1(h.AsBus(), m, ev))
    ensures Sound(h, m, Out(PlanStop(h, e, bytes), [ev]))
  {
    SaidSound(h, PlanStop(h, e, bytes), ev, m);
  }

  /** Where a chunk of so many bytes leads. */
  function Ahead(h: Host, e: Ext, bytes: nat): Ext
    requires h.blk > 0
  {
    e.(offset := e.offset + bytes, blkno := e.blkno + BlocksIn(h.blk, bytes))
  }

  /** The next c blocks of a DMA transfer are within the request, */
  lemma ChunkFits(h: Host, e: Ext, c: nat, m: Monitor)
    requires h.blk > 0 && e.nexus.Some? && DmaAgrees(h, e, m) && e.offset < e.nbytes && e.nbytes == m.length
    requires c <= BlocksIn(h.blk, e.nbytes - e.offset)
    ensures m.covered + c <= BlocksIn(h.blk, m.length)
    ensures e.offset + Bytes(h.blk, c) == Bytes(h.blk, m.covered + c) <= e.nbytes
  {
    WholePart(h.blk, e.nbytes - e.offset, c);
    BytesAdd(h.blk, m.covered, c);
    BlocksBeyond(h.blk, m.covered, e.nbytes - e.offset);
  }

  /** the command for them is the next one, */
  lemma ChunkAllowed(h: Host, e: Ext, c: nat, m: Monitor)
    requires h.blk > 0 && !h.pio && Between(h, e, m) && DmaAgrees(h, e, m) && e.offset < e.nbytes
    requires m.mode in h.Modes() && 0 < c <= BlocksIn(h.blk, e.nbytes - e.offset)
    ensures var ev := DataCommand(h, e, e.offset, Bytes(h.blk, c));
            DataAllowed(h.AsBus(), m, ev) && ev.blocks == BlocksIn(h.blk, Bytes(h.blk, c)) == c
  {
    ChunkFits(h, e, c, m);
    OneBlock(h.blk, c);
    BlocksInBytes(h.blk, c);
  }

  /** and leads on to the chunk after it. */
  lemma ChunkAgrees(h: Host, e: Ext, c: nat, m: Monitor)
    requires h.blk > 0 && !h.pio && e.nexus.Some? && AboutNexus(h, e, m) && DmaAgrees(h, e, m) && e.offset < e.nbytes
    requires 0 < c <= BlocksIn(h.blk, e.nbytes - e.offset)
    ensures var bytes := Bytes(h.blk, c);
            DataAgrees(h, PlanStop(h, Ahead(h, e, bytes), bytes),
                       Watch1(h.AsBus(), m, DataCommand(h, e, e.offset, bytes)))
  {
    ChunkFits(h, e, c, m);
    BlocksInBytes(h.blk, c);
    AheadAgrees(h, e, c, Bytes(h.blk, c), m);
  }

  lemma AheadAgrees(h: Host, e: Ext, c: nat, bytes: nat, m: Monitor)
    requires h.blk > 0 && !h.pio && e.nexus.Some? && DmaAgrees(h, e, m) && !e.nexus.value.scatter
    requires BlocksIn(h.blk, bytes) == c && e.offset + bytes == Bytes(h.blk, m.covered + c) <= e.nbytes
    ensures DataAgrees(h, PlanStop(h, Ahead(h, e, bytes), bytes),
                       Watch1(h.AsBus(), m, DataCommand(h, e, e.offset, bytes)))
  {
    var e' := PlanStop(h, Ahead(h, e, bytes), bytes);
    assert e'.nexus == e.nexus && e'.offset == e.offset + bytes && e'.nbytes == e.nbytes && e'.blkno == e.blkno + c;
  }

  lemma ChunkSent(h: Host, e: Ext, c: nat, m: Monitor)
    requires h.blk > 0 && !h.pio && Between(h, e, m) && DmaAgrees(h, e, m) && e.offset < e.nbytes && e.state == InData
    requires m.mode in h.Modes() && 0 < c <= BlocksIn(h.blk, e.nbytes - e.offset)
    ensures var bytes := Bytes(h.blk, c);
            Sound(h, m, Out(PlanStop(h, Ahead(h, e, bytes), bytes), [DataCommand(h, e, e.offset, bytes)]))
  {
    var bytes := Bytes(h.blk, c);
    ChunkAllowed(h, e, c, m);
    ChunkAgrees(h, e, c, m);
    CommandSound(h, Ahead(h, e, bytes), DataCommand(h, e, e.offset, bytes), bytes, m);
  }

  lemma ChunkSound(h: Host, e: Ext, c: nat, m: Monitor)
    requires h.blk > 0 && !h.pio && Between(h, e, m) && DmaAgrees(h, e, m) && e.offset < e.nbytes && e.state == InData
    requires m.mode in h.Modes() && 0 < c <= BlocksIn(h.blk, e.nbytes - e.offset)
    ensures Sound(h, m, DmaXfer(h, e, Bytes(h.blk, c), true))
  {
    ChunkSent(h, e, c, m);
  }

  lemma DmaXferSound(h: Host, e: Ext, c: nat, ok: bool, m: Monitor)
    requires h.blk > 0 && !h.pio && Between(h, e, m) && DmaAgrees(h, e, m) && e.offset < e.nbytes && e.state == InData
    requires m.mode in h.Modes() && 0 < c <= BlocksIn(h.blk, e.nbytes - e.offset)
    ensures Sound(h, m, DmaXfer(h, e, Bytes(h.blk, c), ok))
  {
    if ok {
      ChunkSound(h, e, c, m);
    } else {
      FailSound(h, PlanStop(h, e, Bytes(h.blk, c)), m);
    }
  }

  lemma AllCommanded(h: Host, e: Ext, m: Monitor)
    requires h.blk > 0 && e.nexus.Some? && AboutNexus(h, e, m) && DmaAgrees(h, e, m) && e.nbytes == e.offset
    ensures m.covered == BlocksIn(h.blk, m.length)
  {
    BlocksInBytes(h.blk, m.covered);
    BlocksInBytes(h.blk, BlocksIn(h.blk, m.length));
  }

  lemma DmaRwSound(h: Host, e: Ext, hw: Hw, m: Monitor)
    requires h.blk > 0 && !h.pio && Between(h, e, m) && DmaAgrees(h, e, m) && e.state == InData
    requires m.mode in h.Modes()
    ensures Sound(h, m, DmaRw(h, e, hw))
  {
    if e.nbytes == e.offset {
      AllCommanded(h, e, m);
      CompleteSound(h, e, m);
      assert DmaRw(h, e, hw) == Quiet(Complete(e));
    } else {
      var c := Min(hw.chunkBlocks, BlocksIn(h.blk, e.nbytes - e.offset));
      if c > 0 {
        DmaXferSound(h, e, c, hw.rwOk, m);
        assert DmaRw(h, e, hw) == DmaXfer(h, e, Bytes(h.blk, c), hw.rwOk);
      } else {
        FailSound(h, e, m);
        assert DmaRw(h, e, hw) == Quiet(Fail(e));
      }
    }
  }

  // ---------------------------------------------------------------- starting a request

  /** The whole request in one command. */
  lemma OneCommand(h: Host, e: Ext, n: nat, m: Monitor)
    requires h.blk > 0 && Between(h, e, m) && m.covered == 0 && n == WholeBlocks(h, m.length) && e.blkno == m.lba
    requires m.mode in h.Modes() && (h.pio || e.nexus.value.scatter)
    ensures var ev := DataCommand(h, e, 0, n);
            && DataAllowed(h.AsBus(), m, ev)
            && Watch1(h.AsBus(), m, ev).covered == BlocksIn(h.blk, m.length)
  {
    BlocksInBytes(h.blk, BlocksIn(h.blk, m.length));
    OneBlock(h.blk, BlocksIn(h.blk, m.length));
  }

  lemma PioCursorAtStart(e: Ext)
    requires e.nexus.Some? && e.offset == 0 && e.curSg == 0 && e.nexus.value.Length() > 0
    ensures CursorOk(e.nexus.value.Counts(), PioCursor(e)) && Position(e.nexus.value.Counts(), PioCursor(e)) == 0
  {
    var counts := e.nexus.value.Counts();
    assert counts[..0] == [];
  }

  /** Marking the request as under way does not disturb how its transfer will be stopped. */
  lemma EnterDataIs(h: Host, e: Ext, n: nat)
    requires e.nexus.Some? && e.nexus.value.status == InProg
    ensures EnterData(PlanStop(h, e, n)) == PlanStop(h, e.(state := InData), n)
  {
  }

  lemma PioCommandSound(h: Host, e: Ext, n: nat, m: Monitor)
    requires h.blk > 0 && h.pio && Between(h, e, m) && m.covered == 0 && m.moved == 0
    requires e.blkno == m.lba && e.offset == 0 && e.curSg == 0 && e.nbytes == n
    requires n > 0 && n == m.length == WholeBlocks(h, n)
    requires m.mode in h.Modes()
    ensures Sound(h, m, PioSend(h, e, n, true))
  {
    OneCommand(h, e, n, m);
    PioCursorAtStart(e);
    EnterDataIs(h, e, n);
    CommandSound(h, e.(state := InData), DataCommand(h, e, 0, n), n, m);
  }

  /** A request of no bytes is refused, but only after its command has gone out. */
  lemma EmptyRequestSound(h: Host, e: Ext, m: Monitor)
    requires h.blk > 0 && Between(h, e, m) && m.covered == 0 && m.length == 0 && e.blkno == m.lba
    requires m.mode in h.Modes() && h.pio
    ensures Sound(h, m, PioSend(h, e, 0, true))
  {
    var ev := DataCommand(h, e, 0, 0);
    OneCommand(h, e, 0, m);
    FailSound(h, PlanStop(h, e, 0), Watch1(h.AsBus(), m, ev));
    AfterSound(h, ev, Quiet(Fail(PlanStop(h, e, 0))), m);
    assert [ev] + [] == [ev];
  }

  lemma PioSendSound(h: Host, e: Ext, n: nat, ok: bool, m: Monitor)
    requires h.blk > 0 && h.pio && Between(h, e, m) && m.covered == 0 && m.moved == 0
    requires e.blkno == m.lba && e.offset == 0 && e.curSg == 0 && e.nbytes == n
    requires n == m.length && (n > 0 ==> n == WholeBlocks(h, n))
    requires m.mode in h.Modes()
    ensures Sound(h, m, PioSend(h, e, n, ok))
  {
    if !ok {
      FailSound(h, PlanStop(h, e, n), m);
    } else if n > 0 {
      PioCommandSound(h, e, n, m);
    } else {
      EmptyRequestSound(h, e, m);
    }
  }

  lemma PioInitiateSound(h: Host, e: Ext, hw: Hw, m: Monitor)
    requires h.blk > 0 && h.pio && Between(h, e, m) && m.covered == 0 && m.moved == 0
    requires e.blkno == m.lba && e.offset == 0 && e.curSg == 0
    requires m.mode in h.Modes()
    ensures Sound(h, m, PioInitiate(h, e, hw))
  {
    var n := m.length;
    var e1 := e.(nbytes := n);
    if e.nexus.value.phys {
      FailSound(h, e, m);
    } else if (if hw.setupOk then WholeBlocks(h, n) else 0) != n {
      FailSound(h, e1, m);
    } else {
      PioSendSound(h, e1, n, hw.rwOk, m);
    }
  }

  lemma SgCommandSound(h: Host, e: Ext, n: nat, m: Monitor)
    requires h.blk > 0 && !h.pio && Between(h, e, m) && m.covered == 0 && e.blkno == m.lba
    requires e.nexus.value.scatter && n == WholeBlocks(h, m.length)
    requires m.mode in h.Modes() && n > 0
    ensures Sound(h, m, SgSend(h, e, n, true))
  {
    var e1 := e.(state := InData, nbytes := n, offset := n);
    OneCommand(h, e, n, m);
    CommandSound(h, e1, DataCommand(h, e, 0, n), n, m);
    EnterDataIs(h, e, n);
    assert PlanStop(h, e1, n) == PlanStop(h, e.(state := InData), n).(nbytes := n, offset := n);
  }

  lemma SgSendSound(h: Host, e: Ext, n: nat, ok: bool, m: Monitor)
    requires h.blk > 0 && !h.pio && Between(h, e, m) && m.covered == 0 && e.blkno == m.lba
    requires e.nexus.value.scatter && n == WholeBlocks(h, m.length)
    requires m.mode in h.Modes() && n > 0
    ensures Sound(h, m, SgSend(h, e, n, ok))
  {
    if ok {
      SgCommandSound(h, e, n, m);
    } else {
      FailSound(h, PlanStop(h, e, n), m);
    }
  }

  lemma SgDmaInitiateSound(h: Host, e: Ext, hw: Hw, m: Monitor)
    requires h.blk > 0 && !h.pio && Between(h, e, m) && m.covered == 0
    requires e.blkno == m.lba && e.nexus.value.scatter
    requires m.mode in h.Modes()
    ensures Sound(h, m, SgDmaInitiate(h, e, hw))
  {
    var n := if hw.setupOk then WholeBlocks(h, m.length) else 0;
    var e1 := if h.nocdBusy then Waited(e, hw) else e;
    if (h.nocdBusy && !hw.cardReady) || n == 0 {
      FailSound(h, e1, m);
    } else {
      SgSendSound(h, e1, n, hw.rwOk, m);
    }
  }

  lemma DmaXferAnyState(h: Host, e: Ext, bytes: nat, ok: bool)
    requires h.blk > 0 && e.nexus.Some? && e.offset >= 0
    ensures DmaXfer(h, e.(state := InData), bytes, ok) == InDataPhase(DmaXfer(h, e, bytes, ok))
  {
  }

  /** DmaRw does not look at the state, which the caller sets to InData once the command is out. */
  lemma DmaRwAnyState(h: Host, e: Ext, hw: Hw)
    requires h.blk > 0 && e.nexus.Some? && 0 <= e.offset <= e.nbytes
    ensures DmaRw(h, e.(state := InData), hw) == InDataPhase(DmaRw(h, e, hw))
  {
    if e.nbytes != e.offset && Min(hw.chunkBlocks, BlocksIn(h.blk, e.nbytes - e.offset)) > 0 {
      DmaXferAnyState(h, e, Bytes(h.blk, Min(hw.chunkBlocks, BlocksIn(h.blk, e.nbytes - e.offset))), hw.rwOk);
    }
  }

  function InDataPhase(o: Out): Out { Out(o.ext.(state := InData), o.events) }

  lemma FlatDmaInitiateSound(h: Host, e: Ext, hw: Hw, m: Monitor)
    requires h.blk > 0 && !h.pio && Between(h, e, m) && m.covered == 0
    requires e.blkno == m.lba && e.offset == 0 && !e.nexus.value.scatter
    requires m.mode in h.Modes()
    ensures Sound(h, m, FlatDmaInitiate(h, e, hw))
  {
    var e1 := e.(nbytes := e.nexus.value.dxferLen);
    assert Settle(e, InProg, e.nexus.value.scsi) == e;
    var o := DmaRw(h, e1, hw);
    FirstChunkSound(h, e1, hw, m);
    if Settled(o.ext) {
      SettledAnyState(h, m, o);
    } else {
      assert FlatDmaInitiate(h, e, hw) == InDataPhase(o);
    }
  }

  lemma FirstChunkSound(h: Host, e: Ext, hw: Hw, m: Monitor)
    requires h.blk > 0 && !h.pio && Between(h, e, m) && m.covered == 0 && m.mode in h.Modes()
    requires e.blkno == m.lba && e.offset == 0 && !e.nexus.value.scatter && e.nbytes == e.nexus.value.dxferLen
    ensures Sound(h, m, InDataPhase(DmaRw(h, e, hw)))
  {
    DmaRwAnyState(h, e, hw);
    DmaRwSound(h, e.(state := InData), hw, m);
  }

  lemma DmaInitiateSound(h: Host, e: Ext, hw: Hw, m: Monitor)
    requires h.blk > 0 && !h.pio && Between(h, e, m) && m.covered == 0
    requires e.blkno == m.lba && e.offset == 0
    requires h.hasDma
    ensures Sound(h, m, DmaInitiate(h, e, hw))
  {
    if !e.nexus.value.scatter {
      FlatDmaInitiateSound(h, e, hw, m);
    } else if h.hasSgdma {
      SgDmaInitiateSound(h, e, hw, m);
    } else {
      FailSound(h, e, m);
    }
  }

  lemma SettledAnyState(h: Host, m: Monitor, o: Out)
    requires h.blk > 0 && Settled(o.ext) && Sound(h, m, Out(o.ext.(state := InData), o.events))
    ensures Sound(h, m, o)
  {
  }

  lemma InitiateSound(h: Host, e: Ext, hw: Hw, m: Monitor)
    requires h.blk > 0 && Between(h, e, m) && m.covered == 0 && m.moved == 0
    requires e.blkno == m.lba && e.offset == 0 && e.curSg == 0
    ensures Sound(h, m, Initiate(h, e, hw))
  {
    if !hw.partitionOk || !(if h.pio then h.hasPio else h.hasDma) {
      FailSound(h, e, m);
    } else if h.pio {
      PioInitiateSound(h, e, hw, m);
    } else {
      DmaInitiateSound(h, e, hw, m);
    }
  }

  /** If the monitor is in the middle of a request, it is the nexus. */
  predicate Held(h: Host, e: Ext, m: Monitor) {
    m.id.Some? ==> e.nexus.Some? && AboutNexus(h, e, m)
  }

  lemma StartReadWriteSound(h: Host, e: Ext, hw: Hw, m: Monitor)
    requires h.blk > 0 && e.nexus.Some? && e.nexus.value.ReadWrite() && e.nexus.value.status == InProg
    requires m.ok && Held(h, e, m)
    ensures Sound(h, m, StartReadWrite(h, e, hw))
  {
    var ccb := e.nexus.value;
    var begin := BeginEvent(h, ccb);
    var e1 := Rewound(e, hw);
    InitiateSound(h, e1, hw, Watch1(h.AsBus(), m, begin));
    AfterSound(h, begin, Initiate(h, e1, hw), m);
  }

  lemma OtherCommandSound(h: Host, e: Ext, hw: Hw, m: Monitor)
    requires h.blk > 0 && e.nexus.Some? && !e.nexus.value.ReadWrite() && e.state != Ident && m.ok
    ensures Sound(h, m, IoCmds(h, e, hw))
  {
    var e1 := Waited(e, hw);
    FailSound(h, e1, m);
    QuietSound(h, Complete(e1), m);
    assert IoCmds(h, e, hw) == Quiet(if hw.simpleOk then Complete(e1) else Sense(e1));
  }

  /** What mmc_io_cmds leaves outside identification: the request settled, or under way. */
  lemma IoCmdsSound(h: Host, e: Ext, hw: Hw, m: Monitor)
    requires h.blk > 0 && e.nexus.Some? && e.nexus.value.status == InProg && m.ok && e.state != Ident
    requires Held(h, e, m)
    ensures Sound(h, m, IoCmds(h, e, hw))
  {
    if !e.nexus.value.ReadWrite() {
      OtherCommandSound(h, e, hw, m);
    } else if (e.nexus.value.func == Write && e.writeProtected) || !e.ready {
      FailSound(h, e, m);
      assert IoCmds(h, e, hw) == Quiet(Sense(e));
    } else {
      StartReadWriteSound(h, e, hw, m);
      assert IoCmds(h, e, hw) == StartReadWrite(h, e, hw);
    }
  }

  // ---------------------------------------------------------------- the data phase

  /** A read or write in its data phase. */
  predicate UnderWay(h: Host, e: Ext, m: Monitor)
    requires h.blk > 0
  {
    && m.ok && e.nexus.Some? && e.nexus.value.status == InProg && e.state == InData && TransferAgrees(h, e, m)
  }

  lemma UnderWaySound(h: Host, e: Ext, m: Monitor)
    requires h.blk > 0 && UnderWay(h, e, m) && AtRest(h, e, m)
    ensures Sound(h, m, Quiet(e))
  {
    QuietSound(h, e, m);
  }

  /** Nothing is lost when a handler that found the bus closed goes on as if between two commands. */
  lemma ClosedIsBetween(h: Host, e: Ext, m: Monitor)
    requires h.blk > 0 && UnderWay(h, e, m) && e.stop != StopPend && e.stop != StopIssued
    ensures Between(h, e, m)
  {
  }

  lemma SumOfOne(n: nat)
    ensures Sum([n]) == n
  {
    assert [n][1..] == [];
  }

  lemma CountsSum(ccb: Ccb)
    ensures Sum(ccb.Counts()) == ccb.Length()
  {
    SumOfOne(ccb.dxferLen);
  }

  lemma AllMoved(h: Host, e: Ext, m: Monitor)
    requires h.blk > 0 && h.pio && UnderWay(h, e, m) && e.offset == DONE && m.phase.Closed() && !m.error
    ensures SuccessAllowed(h.AsBus(), m, e.nexus.value.id)
  {
    CountsSum(e.nexus.value);
  }

  lemma StopSentSound(h: Host, e: Ext, ok: bool, m: Monitor)
    requires h.blk > 0 && UnderWay(h, e, m) && e.stop == StopPend && (h.pio ==> e.offset == DONE)
    ensures Sound(h, m, SendStop(e, ok))
  {
    if ok {
      SaidSound(h, e.(stop := StopIssued), StopSent, m);
    } else {
      FailedSound(h, Fail(e).(stop := StopNone), m);
    }
  }

  lemma PioStopSound(h: Host, e: Ext, dirIn: bool, hw: Hw, m: Monitor)
    requires h.blk > 0 && h.pio && UnderWay(h, e, m) && e.offset == DONE && e.stop != StopIssued
    requires e.dirIn ==> dirIn
    requires !m.phase.Stopped?
    ensures Sound(h, m, PioStop(e, dirIn, hw))
  {
    if e.dirIn != dirIn {
      UnderWaySound(h, e, m);
    } else if e.stop == StopPend {
      StopSentSound(h, e, hw.stopOk, m);
    } else {
      AllMoved(h, e, m);
      CompleteSound(h, e, m);
    }
  }

  /** The walk of one interrupt, without what follows its end. */
  lemma WalkAgrees(h: Host, e: Ext, to: Cursor, m: Monitor)
    requires h.blk > 0 && h.pio && UnderWay(h, e, m) && e.offset != DONE && e.stop != StopIssued
    requires CursorOk(e.nexus.value.Counts(), to)
    requires Position(e.nexus.value.Counts(), PioCursor(e)) <= Position(e.nexus.value.Counts(), to)
    requires !e.nexus.value.scatter && to.offset != DONE ==> to.sg == 0
    ensures UnderWay(h, Walked(e, to), Watch1(h.AsBus(), m, WalkEvent(e, to)))
  {
  }

  lemma AfterWalkSound(h: Host, e: Ext, hw: Hw, m: Monitor)
    requires h.blk > 0 && h.pio && UnderWay(h, e, m) && e.stop != StopIssued
    requires !m.phase.Stopped?
    ensures Sound(h, m, AfterWalk(e, hw))
  {
    if e.offset == DONE {
      PioStopSound(h, e, true, hw, m);
    } else {
      UnderWaySound(h, e, m);
    }
  }

  lemma PioRwIs(e: Ext, hw: Hw)
    requires e.nexus.Some? && CursorOk(e.nexus.value.Counts(), PioCursor(e)) && e.offset != DONE
    ensures var counts := e.nexus.value.Counts();
            var to := Walk(counts, PioCursor(e), hw.grants);
            && CursorOk(counts, to) && Position(counts, PioCursor(e)) <= Position(counts, to)
            && (!e.nexus.value.scatter && to.offset != DONE ==> to.sg == 0)
            && PioRw(e, hw) == After(WalkEvent(e, to), AfterWalk(Walked(e, to), hw))
  {
    WalkMovesForward(e.nexus.value.Counts(), PioCursor(e), hw.grants);
  }

  lemma PioWalkSound(h: Host, e: Ext, hw: Hw, m: Monitor)
    requires h.blk > 0 && h.pio && UnderWay(h, e, m) && e.offset != DONE && e.stop != StopIssued
    requires !m.phase.Stopped?
    ensures Sound(h, m, PioRw(e, hw))
  {
    PioRwIs(e, hw);
    WalkedSound(h, e, Walk(e.nexus.value.Counts(), PioCursor(e), hw.grants), hw, m);
  }

  lemma WalkedSound(h: Host, e: Ext, to: Cursor, hw: Hw, m: Monitor)
    requires h.blk > 0 && h.pio && UnderWay(h, e, m) && e.offset != DONE && e.stop != StopIssued
    requires !m.phase.Stopped? && CursorOk(e.nexus.value.Counts(), to)
    requires Position(e.nexus.value.Counts(), PioCursor(e)) <= Position(e.nexus.value.Counts(), to)
    requires !e.nexus.value.scatter && to.offset != DONE ==> to.sg == 0
    ensures Sound(h, m, After(WalkEvent(e, to), AfterWalk(Walked(e, to), hw)))
  {
    var ev := WalkEvent(e, to);
    WalkAgrees(h, e, to, m);
    AfterWalkSound(h, Walked(e, to), hw, Watch1(h.AsBus(), m, ev));
    AfterSound(h, ev, AfterWalk(Walked(e, to), hw), m);
  }

  lemma PioRwSound(h: Host, e: Ext, hw: Hw, m: Monitor)
    requires h.blk > 0 && h.pio && UnderWay(h, e, m) && AtRest(h, e, m) && e.stop != StopIssued
    ensures Sound(h, m, PioRw(e, hw))
  {
    if e.offset == DONE {
      PioStopSound(h, e, false, hw, m);
    } else {
      PioWalkSound(h, e, hw, m);
    }
  }

  lemma DmaIrqSound(h: Host, e: Ext, hw: Hw, m: Monitor)
    requires h.blk > 0 && !h.pio && UnderWay(h, e, m) && e.stop != StopIssued
    ensures Sound(h, m, DmaIrq(h, e, hw))
  {
    if e.stop == StopPend {
      StopSentSound(h, e, hw.stopOk, m);
      assert DmaIrq(h, e, hw) == SendStop(e, hw.stopOk);
    } else {
      ClosedIsBetween(h, e, m);
      DmaRwSound(h, e, hw, m);
      assert DmaIrq(h, e, hw) == DmaRw(h, e, hw);
    }
  }

  lemma MediaUnderWay(h: Host, e: Ext, detect: bool, m: Monitor)
    requires h.blk > 0 && UnderWay(h, e, m)
    ensures UnderWay(h, MediaCheck(e, detect), m)
  {
    var e1 := MediaCheck(e, detect);
    assert e1 == e.(inserted := e1.inserted, ready := e1.ready);
  }

  lemma ResentSound(h: Host, e: Ext, m: Monitor)
    requires h.blk > 0 && UnderWay(h, e, m) && e.stop == StopIssued && e.stopsRetry <= MAX_STOP_RETRIES
    ensures Sound(h, m, RetryStop(e, true))
  {
    var e1, m1 := e.(stopsRetry := e.stopsRetry + 1), Watch1(h.AsBus(), m, StopSent);
    assert DataAgrees(h, e1, m1) && StopAgrees(e1, m1) && MarkAgrees(e1, m1);
    SaidSound(h, e1, StopSent, m);
  }

  lemma AbandonedSound(h: Host, e: Ext, ok: bool, m: Monitor)
    requires h.blk > 0 && UnderWay(h, e, m) && (e.stopsRetry > MAX_STOP_RETRIES || !ok)
    ensures Sound(h, m, RetryStop(e, ok))
  {
    FailedSound(h, StopAbandoned(e.(stopsRetry := e.stopsRetry + 1)), m);
  }

  lemma RetryStopSound(h: Host, e: Ext, ok: bool, m: Monitor)
    requires h.blk > 0 && UnderWay(h, e, m) && e.stop == StopIssued
    ensures Sound(h, m, RetryStop(e, ok))
  {
    if e.stopsRetry > MAX_STOP_RETRIES || !ok {
      AbandonedSound(h, e, ok, m);
    } else {
      ResentSound(h, e, m);
    }
  }

  lemma StopErrorSound(h: Host, e: Ext, hw: Hw, m: Monitor)
    requires h.blk > 0 && UnderWay(h, e, m) && e.stop == StopIssued
    ensures Sound(h, m, StopError(e, hw))
  {
    var e1 := MediaCheck(e, hw.detect);
    if !e1.inserted {
      FailedSound(h, Sense(e1).(stopsRetry := 0, stop := StopNone), m);
      assert StopError(e, hw) == Quiet(Sense(e1).(stopsRetry := 0, stop := StopNone));
    } else {
      MediaUnderWay(h, e, hw.detect, m);
      RetryStopSound(h, e1, hw.stopOk, m);
    }
  }

  /** The stop command completed without an earlier error: the bus is closed again. */
  lemma StopDoneAgrees(h: Host, e: Ext, m: Monitor)
    requires h.blk > 0 && UnderWay(h, e, m) && e.stop == StopIssued && e.nexus.value.scsi == Good
    ensures UnderWay(h, e.(stopsRetry := 0, stop := StopNone), Watch1(h.AsBus(), m, StopDone))
    ensures h.pio ==> e.offset == DONE
  {
  }

  lemma AfterStopSound(h: Host, e: Ext, hw: Hw, m: Monitor)
    requires h.blk > 0 && UnderWay(h, e, m) && e.stop == StopNone && e.nexus.value.scsi == Good
    requires h.pio ==> e.offset == DONE
    ensures Sound(h, m, AfterStop(h, e, hw))
  {
    if h.pio {
      AllMoved(h, e, m);
      CompleteSound(h, e, m);
    } else {
      DmaIrqSound(h, e, hw, m);
    }
  }

  lemma StopDoneSound(h: Host, e: Ext, hw: Hw, m: Monitor)
    requires h.blk > 0 && UnderWay(h, e, m) && e.stop == StopIssued
    requires !hw.intr.error && hw.intr.command
    ensures DataPhaseOk(h, e) && Sound(h, m, StopIrq(h, e, hw))
  {
    var e1 := e.(stopsRetry := 0, stop := StopNone);
    var m1 := Watch1(h.AsBus(), m, StopDone);
    if e.nexus.value.scsi == Check {
      FailSound(h, e1, m1);
    } else {
      StopDoneAgrees(h, e, m);
      AfterStopSound(h, e1, hw, m1);
    }
    AfterSound(h, StopDone, AfterStop(h, e1, hw), m);
  }

  lemma StopIrqSound(h: Host, e: Ext, hw: Hw, m: Monitor)
    requires h.blk > 0 && UnderWay(h, e, m) && e.stop == StopIssued
    ensures DataPhaseOk(h, e) && Sound(h, m, StopIrq(h, e, hw))
  {
    if hw.intr.error {
      StopErrorSound(h, e, hw, m);
    } else if hw.intr.command {
      StopDoneSound(h, e, hw, m);
    } else {
      UnderWaySound(h, e, m);
    }
  }

  /** A data error: CMD12 goes out whatever phase the bus is in, and the error is marked on the CCB. */
  lemma ErrorStopSound(h: Host, e: Ext, m: Monitor)
    requires h.blk > 0 && UnderWay(h, e, m) && e.stop != StopIssued
    requires !m.phase.Stopped?
    ensures Sound(h, Watch1(h.AsBus(), m, DataError), SendStop(Settle(e, e.nexus.value.status, Check), true))
  {
    var e1 := Settle(e, e.nexus.value.status, Check).(stop := StopIssued);
    SaidSound(h, e1, StopSent, Watch1(h.AsBus(), m, DataError));
  }

  lemma TransferErrorSound(h: Host, e: Ext, hw: Hw, m: Monitor)
    requires h.blk > 0 && UnderWay(h, e, m) && e.stop != StopIssued
    requires !m.phase.Stopped?
    ensures Sound(h, m, TransferError(e, hw))
  {
    var e1 := MediaCheck(e, hw.detect);
    var m1 := Watch1(h.AsBus(), m, DataError);
    if !e1.inserted {
      FailedSound(h, Sense(e1).(stop := StopNone), m1);
      AfterSound(h, DataError, Quiet(Sense(e1).(stop := StopNone)), m);
      assert TransferError(e, hw) == After(DataError, Quiet(Sense(e1).(stop := StopNone)));
    } else if !hw.stopOk {
      FailedSound(h, Fail(e1).(stop := StopNone), m1);
      AfterSound(h, DataError, SendStop(e1, false), m);
      assert TransferError(e, hw) == After(DataError, SendStop(e1, false));
    } else {
      var e2 := Settle(e1, e.nexus.value.status, Check);
      ErrorStopSound(h, e1, m);
      AfterSound(h, DataError, SendStop(e2, true), m);
      assert TransferError(e, hw) == After(DataError, SendStop(e2, true));
    }
  }

  lemma TransferIrqSound(h: Host, e: Ext, hw: Hw, m: Monitor)
    requires h.blk > 0 && UnderWay(h, e, m) && AtRest(h, e, m) && e.stop != StopIssued
    ensures DataPhaseOk(h, e) && Sound(h, m, TransferIrq(h, e, hw))
  {
    var e0 := e.(stopsRetry := 0);
    if hw.intr.error {
      TransferErrorSound(h, e0, hw, m);
      assert TransferIrq(h, e, hw) == TransferError(e0, hw);
    } else if h.pio && (hw.intr.data || hw.intr.bufferReady) {
      PioRwSound(h, e0, hw, m);
      assert TransferIrq(h, e, hw) == PioRw(e0, hw);
    } else if hw.intr.data && hw.dmaDone {
      DmaIrqSound(h, e0, hw, m);
      assert TransferIrq(h, e, hw) == DmaIrq(h, e0, hw);
    } else if hw.intr.data {
      FailSound(h, e0, m);
      assert TransferIrq(h, e, hw) == Quiet(Fail(e0));
    } else {
      UnderWaySound(h, e0, m);
      assert TransferIrq(h, e, hw) == Quiet(e0);
    }
  }

  lemma DataIrqSound(h: Host, e: Ext, hw: Hw, m: Monitor)
    requires h.blk > 0 && UnderWay(h, e, m) && AtRest(h, e, m)
    ensures DataPhaseOk(h, e) && Sound(h, m, DataIrq(h, e, hw))
  {
    if e.stop == StopIssued {
      StopIrqSound(h, e, hw, m);
    } else {
      TransferIrqSound(h, e, hw, m);
    }
  }

  /** The checks after a request has settled can only turn success into failure. */
  lemma AfterDataSound(h: Host, o: Out, hw: Hw, m: Monitor)
    requires h.blk > 0 && Sound(h, m, o)
    ensures Sound(h, m, Out(AfterData(h, o.ext, hw), o.events))
  {
    if Settled(o.ext) {
      AfterDataOnlyFails(h, o.ext, hw);
    } else {
      assert Out(AfterData(h, o.ext, hw), o.events) == o;
    }
  }

  lemma AfterDataOnlyFails(h: Host, e: Ext, hw: Hw)
    requires Settled(e)
    ensures var e' := AfterData(h, e, hw);
            e'.nexus == e.nexus || (e'.nexus.Some? && e'.nexus.value == e.nexus.value.(status := CmdTimeout))
  {
    CheckedStatus(h, e, hw);
  }

  /** Where a read of one block is checked by the card's status, or the card may be busy without saying so, both
      must be well. */
  predicate ChecksPass(h: Host, e: Ext, hw: Hw)
    requires e.nexus.Some?
  {
    && (h.ac13 && e.nexus.value.func == Read && e.nbytes == h.blk ==> hw.statusOk)
    && (h.nocdBusy ==> hw.cardReady)
  }

  lemma CheckedStatus(h: Host, e: Ext, hw: Hw)
    requires Settled(e)
    ensures var r, was := AfterData(h, e, hw), e.nexus.value.status;
            r.nexus == Some(e.nexus.value.(status := if was == Cmp then if ChecksPass(h, e, hw) then Cmp else CmdTimeout
                                                     else if h.nocdBusy && !hw.cardReady then CmdTimeout else was))
  {
    var probe := h.ac13 && e.nexus.value.status == Cmp && e.nexus.value.func == Read && e.nbytes == h.blk;
    var e1 := if probe || h.nocdBusy then Waited(e, hw) else e;
    var e2 := if probe && !hw.statusOk then Fail(e1) else e1;
    FailedIf(e1, probe && !hw.statusOk);
    FailedIf(e2, h.nocdBusy && !hw.cardReady);
    assert AfterData(h, e, hw) == if h.nocdBusy && !hw.cardReady then Fail(e2) else e2;
  }

  lemma FailedIf(e: Ext, fails: bool)
    requires e.nexus.Some?
    ensures (if fails then Fail(e) else e).nexus
            == Some(e.nexus.value.(status := if fails then CmdTimeout else e.nexus.value.status))
  {
  }
}
