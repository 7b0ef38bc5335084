/**
 What a request meets before its first command: while the card is write-protected no write begins, and while it
 is not ready nothing does, over every run.  And what is posted of requests that no transfer is made for.
 */
module RequestGuards {
  import opened Blocks
  import opened Wrappers

  import opened MmcTypes
  import opened PioWalk
  import opened BusRules
  import opened RequestEngine
  import opened RequestRuns

  // ---------------------------------------------------------------- one request

  /** A read or write may begin. */
  predicate Permitted(e: Ext, ccb: Ccb) {
    e.ready && !(ccb.func == Write && e.writeProtected)
  }

  function NextUp(e: Ext): Ext
    requires e.queue != []
  {
    e.(nexus := Some(e.queue[0]), queue := e.queue[1..])
  }

  /** A read or write that is taken off the queue begins exactly if the card is ready and, for a write, not
      protected; otherwise it is posted at once as an error, and nothing else happens. */
  lemma TakenBeginsIff(h: Host, e: Ext, hw: Hw)
    requires h.blk > 0 && e.nexus.None? && e.queue != [] && e.queue[0].ReadWrite() && e.state != Ident
    ensures var o, ccb := TakeNext(h, e, hw), e.queue[0];
            if Permitted(e, ccb)
            then o.events != []
                 && o.events[0] == Begin(ccb.id, ccb.func == Write, ccb.lba, ccb.Length(), h.ModeOf(ccb))
            else o == Out(e.(queue := e.queue[1..]), [Post(ccb.id, true, CmpErr)])
  {
    var e1 := NextUp(e);
    if Permitted(e, e.queue[0]) {
      assert Dispatch(h, e1, hw) == StartReadWrite(h, e1, hw);
    } else {
      assert Dispatch(h, e1, hw) == Quiet(Sense(e1));
      assert [] + [Post(e.queue[0].id, true, CmpErr)] == [Post(e.queue[0].id, true, CmpErr)];
    }
  }

  /** The same for one that was held during identification, when that succeeds: then the card is ready. */
  lemma HeldBeginsIff(h: Host, e: Ext, hw: Hw)
    requires h.blk > 0 && e.state == Ident && e.nexus.Some? && e.nexus.value.ReadWrite()
    requires !hw.intr.Nothing() && !hw.intr.card && hw.ident == IdentDone
    ensures var o, ccb := ProcessInterrupt(h, e, hw), e.nexus.value;
            if ccb.func == Write && e.writeProtected then o.events == [Post(ccb.id, true, CmpErr)] && o.ext.nexus.None?
            else o.events != []
                 && o.events[0] == Begin(ccb.id, ccb.func == Write, ccb.lba, ccb.Length(), h.ModeOf(ccb))
  {
    var e1 := e.(state := Idle, resetting := false, ready := true);
    assert HandleInterrupt(h, e, hw) == IoCmds(h, e1, hw);
    if e.nexus.value.func == Write && e.writeProtected {
      assert IoCmds(h, e1, hw) == Quiet(Sense(e1));
    } else {
      assert IoCmds(h, e1, hw) == StartReadWrite(h, e1, hw);
    }
  }

  /** What needs no transfer is posted at once: a devctl as done, a command that is not known as an error, and
      the other SCSI commands by how they went. */
  lemma OtherTaken(h: Host, e: Ext, hw: Hw)
    requires h.blk > 0 && e.nexus.None? && e.queue != [] && !e.queue[0].ReadWrite()
    requires e.queue[0].func == OtherScsi ==> e.state != Ident
    ensures var o, ccb := TakeNext(h, e, hw), e.queue[0];
            && o.ext.nexus.None?
            && o.events == [Post(ccb.id, false, match ccb.func
                                                case Devctl => Cmp
                                                case OtherScsi => if hw.simpleOk then Cmp else CmpErr
                                                case _ => CmpErr)]
  {
    var e1 := NextUp(e);
    OtherDispatched(h, e1, hw);
    var o := Dispatch(h, e1, hw);
    assert [] + [PostEvent(o.ext)] == [PostEvent(o.ext)];
  }

  lemma OtherDispatched(h: Host, e: Ext, hw: Hw)
    requires h.blk > 0 && e.nexus.Some? && !e.nexus.value.ReadWrite()
    requires e.nexus.value.func == OtherScsi ==> e.state != Ident
    ensures Dispatch(h, e, hw).events == []
    ensures Dispatch(h, e, hw).ext.nexus.value.status == match e.nexus.value.func
                                                         case Devctl => Cmp
                                                         case OtherScsi => if hw.simpleOk then Cmp else CmpErr
                                                         case _ => CmpErr
  {
  }

  // ---------------------------------------------------------------- the first command

  /** A request of no bytes from one buffer is done without a command. */
  predicate NothingToDo(h: Host, ccb: Ccb, hw: Hw) {
    !h.pio && h.hasDma && hw.partitionOk && !ccb.scatter && ccb.dxferLen == 0
  }

  /** The hardware and the request allow a command. */
  predicate CommandGoesOut(h: Host, ccb: Ccb, hw: Hw)
    requires h.blk > 0
  {
    && hw.partitionOk && hw.rwOk
    && match h.ModeOf(ccb)
       case Pio =>
         && h.hasPio && !ccb.phys && WholeBlocks(h, ccb.Length()) == ccb.Length()
         && (ccb.Length() > 0 ==> hw.setupOk)
       case Flat => h.hasDma && hw.chunkBlocks > 0 && BlocksIn(h.blk, ccb.dxferLen) > 0
       case Scatter =>
         h.hasDma && h.hasSgdma && hw.setupOk && BlocksIn(h.blk, ccb.Length()) > 0 && (h.nocdBusy ==> hw.cardReady)
  }

  /** What the start of a request puts on the bus: a command, or nothing and then it is posted. */
  lemma StartedIff(h: Host, e: Ext, hw: Hw)
    requires h.blk > 0 && e.nexus.None? && e.queue != [] && e.queue[0].ReadWrite() && e.state != Ident
    requires Permitted(e, e.queue[0]) && e.queue[0].status == InProg
    ensures var o, ccb := TakeNext(h, e, hw), e.queue[0];
            if CommandGoesOut(h, ccb, hw) then |o.events| > 1 && o.events[1].Data?
            else o.events == [Begin(ccb.id, ccb.func == Write, ccb.lba, ccb.Length(), h.ModeOf(ccb))]
                             + [Post(ccb.id, true, if NothingToDo(h, ccb, hw) then Cmp else CmdTimeout)]
  {
    var e1 := NextUp(e);
    var e2 := Rewound(e1, hw);
    assert Dispatch(h, e1, hw) == StartReadWrite(h, e1, hw);
    InitiatedIff(h, e2, hw);
  }

  /** A start, with a command or without */
  predicate Launches(o: Out, goes: bool, otherwise: CamStatus) {
    if goes then o.events != [] && o.events[0].Data?
    else o.events == [] && o.ext.nexus.Some? && o.ext.nexus.value.status == otherwise
  }

  lemma RefusedLaunches(e: Ext)
    requires e.nexus.Some?
    ensures Launches(Quiet(Fail(e)), false, CmdTimeout) && Launches(Quiet(Complete(e)), false, Cmp)
  {
  }

  lemma SendLaunches(h: Host, e: Ext, n: nat, ok: bool)
    requires h.blk > 0 && e.nexus.Some? && e.offset >= 0
    ensures Launches(PioSend(h, e, n, ok), ok, CmdTimeout) && Launches(DmaXfer(h, e, n, ok), ok, CmdTimeout)
  {
    RefusedLaunches(PlanStop(h, e, n));
  }

  lemma PioLaunches(h: Host, e: Ext, hw: Hw)
    requires h.blk > 0 && e.nexus.Some? && e.offset == 0
    ensures var n := e.nexus.value.Length();
            Launches(PioInitiate(h, e, hw),
                     !e.nexus.value.phys && WholeBlocks(h, n) == n && (n > 0 ==> hw.setupOk) && hw.rwOk, CmdTimeout)
  {
    var n := e.nexus.value.Length();
    RefusedLaunches(e);
    RefusedLaunches(e.(nbytes := n));
    SendLaunches(h, e.(nbytes := n), n, hw.rwOk);
    assert WholeBlocks(h, 0) == 0;
  }

  lemma ScatterLaunches(h: Host, e: Ext, hw: Hw)
    requires h.blk > 0 && e.nexus.Some?
    ensures Launches(SgDmaInitiate(h, e, hw),
                     && (h.nocdBusy ==> hw.cardReady) && hw.setupOk && BlocksIn(h.blk, e.nexus.value.Length()) > 0
                     && hw.rwOk, CmdTimeout)
  {
    var e1 := if h.nocdBusy then Waited(e, hw) else e;
    var n := if hw.setupOk then WholeBlocks(h, e.nexus.value.Length()) else 0;
    if (h.nocdBusy && !hw.cardReady) || n == 0 {
      assert SgDmaInitiate(h, e, hw) == Quiet(Fail(e1));
    } else {
      assert SgDmaInitiate(h, e, hw) == SgSend(h, e1, n, hw.rwOk);
    }
  }

  lemma ChunkLaunches(h: Host, e: Ext, hw: Hw)
    requires h.blk > 0 && e.nexus.Some? && e.offset == 0
    ensures Launches(DmaRw(h, e, hw), hw.chunkBlocks > 0 && BlocksIn(h.blk, e.nbytes) > 0 && hw.rwOk,
                     if e.nbytes == 0 then Cmp else CmdTimeout)
  {
    var blocks := if hw.chunkBlocks < BlocksIn(h.blk, e.nbytes) then hw.chunkBlocks else BlocksIn(h.blk, e.nbytes);
    RefusedLaunches(e);
    SendLaunches(h, e, Bytes(h.blk, blocks), hw.rwOk);
  }

  lemma FlatLaunches(h: Host, e: Ext, hw: Hw)
    requires h.blk > 0 && e.nexus.Some? && e.offset == 0
    ensures Launches(FlatDmaInitiate(h, e, hw),
                     hw.chunkBlocks > 0 && BlocksIn(h.blk, e.nexus.value.dxferLen) > 0 && hw.rwOk,
                     if e.nexus.value.dxferLen == 0 then Cmp else CmdTimeout)
  {
    ChunkLaunches(h, Settle(e, InProg, e.nexus.value.scsi).(nbytes := e.nexus.value.dxferLen), hw);
  }

  lemma InitiatedIff(h: Host, e: Ext, hw: Hw)
    requires h.blk > 0 && e.nexus.Some? && e.nexus.value.ReadWrite() && e.offset == 0
    ensures Launches(Initiate(h, e, hw), CommandGoesOut(h, e.nexus.value, hw),
                     if NothingToDo(h, e.nexus.value, hw) then Cmp else CmdTimeout)
  {
    if !hw.partitionOk || !(if h.pio then h.hasPio else h.hasDma) {
      assert Initiate(h, e, hw) == Quiet(Fail(e));
    } else if h.pio {
      PioLaunches(h, e, hw);
      assert Initiate(h, e, hw) == PioInitiate(h, e, hw);
    } else if !e.nexus.value.scatter {
      FlatLaunches(h, e, hw);
      assert Initiate(h, e, hw) == FlatDmaInitiate(h, e, hw);
    } else if h.hasSgdma {
      ScatterLaunches(h, e, hw);
      assert Initiate(h, e, hw) == SgDmaInitiate(h, e, hw);
    } else {
      assert Initiate(h, e, hw) == Quiet(Fail(e));
    }
  }

  // ---------------------------------------------------------------- nothing else begins a request

  predicate NoBegins(events: seq<Event>) {
    forall i :: 0 <= i < |events| ==> !events[i].Begin?
  }

  lemma CommandsDoNotBegin(h: Host, e: Ext, n: nat, ok: bool)
    requires h.blk > 0 && e.nexus.Some? && e.offset >= 0
    ensures NoBegins(PioSend(h, e, n, ok).events) && NoBegins(DmaXfer(h, e, n, ok).events)
    ensures NoBegins(SendStop(e, ok).events) && NoBegins(RetryStop(e, ok).events)
  {
  }

  lemma DmaRwDoesNotBegin(h: Host, e: Ext, hw: Hw)
    requires h.blk > 0 && e.nexus.Some? && 0 <= e.offset <= e.nbytes
    ensures NoBegins(DmaRw(h, e, hw).events) && NoBegins(DmaIrq(h, e, hw).events)
  {
  }

  lemma PioInitiateDoesNotBegin(h: Host, e: Ext, hw: Hw)
    requires h.blk > 0 && e.nexus.Some? && e.offset == 0
    ensures NoBegins(PioInitiate(h, e, hw).events)
  {
    CommandsDoNotBegin(h, e.(nbytes := e.nexus.value.Length()), e.nexus.value.Length(), hw.rwOk);
  }

  lemma SgDmaInitiateDoesNotBegin(h: Host, e: Ext, hw: Hw)
    requires h.blk > 0 && e.nexus.Some? && e.offset == 0
    ensures NoBegins(SgDmaInitiate(h, e, hw).events)
  {
  }

  lemma InitiateDoesNotBegin(h: Host, e: Ext, hw: Hw)
    requires h.blk > 0 && e.nexus.Some? && e.offset == 0
    ensures NoBegins(Initiate(h, e, hw).events)
  {
    DmaRwDoesNotBegin(h, Settle(e, InProg, e.nexus.value.scsi).(nbytes := e.nexus.value.dxferLen), hw);
    PioInitiateDoesNotBegin(h, e, hw);
    SgDmaInitiateDoesNotBegin(h, e, hw);
  }

  lemma StopIrqDoesNotBegin(h: Host, e: Ext, hw: Hw)
    requires h.blk > 0 && e.state == InData && DataPhaseOk(h, e)
    ensures NoBegins(StopIrq(h, e, hw).events)
  {
    if hw.intr.command && !h.pio {
      DmaRwDoesNotBegin(h, e.(stopsRetry := 0, stop := StopNone), hw);
    }
  }

  lemma PioRwDoesNotBegin(e: Ext, hw: Hw)
    requires e.nexus.Some? && CursorOk(e.nexus.value.Counts(), PioCursor(e))
    ensures NoBegins(PioRw(e, hw).events)
  {
    if e.offset != DONE {
      WalkMovesForward(e.nexus.value.Counts(), PioCursor(e), hw.grants);
    }
  }

  lemma TransferIrqDoesNotBegin(h: Host, e: Ext, hw: Hw)
    requires h.blk > 0 && e.state == InData && DataPhaseOk(h, e)
    ensures NoBegins(TransferIrq(h, e, hw).events)
  {
    var e0 := e.(stopsRetry := 0);
    if hw.intr.error {
      assert NoBegins(TransferError(e0, hw).events);
    } else if h.pio {
      PioRwDoesNotBegin(e0, hw);
    } else {
      DmaRwDoesNotBegin(h, e0, hw);
    }
  }

  lemma DataIrqDoesNotBegin(h: Host, e: Ext, hw: Hw)
    requires h.blk > 0 && e.state == InData && DataPhaseOk(h, e)
    ensures NoBegins(DataIrq(h, e, hw).events)
  {
    StopIrqDoesNotBegin(h, e, hw);
    TransferIrqDoesNotBegin(h, e, hw);
  }

  // ---------------------------------------------------------------- whole steps

  /** Requests begin only while the card is ready, writes only while it is not protected. */
  predicate Guarded(e: Ext, events: seq<Event>) {
    forall i :: 0 <= i < |events| && events[i].Begin? ==> e.ready && (events[i].write ==> !e.writeProtected)
  }

  lemma IoCmdsGuarded(h: Host, e: Ext, hw: Hw)
    requires h.blk > 0 && e.nexus.Some?
    ensures Guarded(e, IoCmds(h, e, hw).events)
  {
    if e.state != Ident && e.nexus.value.ReadWrite() && Permitted(e, e.nexus.value) {
      InitiateDoesNotBegin(h, Rewound(e, hw), hw);
      assert IoCmds(h, e, hw) == StartReadWrite(h, e, hw);
    } else {
      assert IoCmds(h, e, hw).events == [];
    }
  }

  /** The card is no more ready than before, and protected or not as before. */
  predicate NoFreer(e: Ext, r: Ext) {
    NotReadied(e, r) && r.writeProtected == e.writeProtected
  }

  lemma TakeNextGuarded(h: Host, e: Ext, hw: Hw)
    requires h.blk > 0 && e.nexus.None? && e.queue != []
    ensures Guarded(e, TakeNext(h, e, hw).events) && NoFreer(e, TakeNext(h, e, hw).ext)
  {
    var e1 := NextUp(e);
    if e1.nexus.value.func != Devctl && e1.nexus.value.func != Unsupported {
      IoCmdsGuarded(h, e1, hw);
    }
    var o := Dispatch(h, e1, hw);
    assert Guarded(e, o.events);
  }

  lemma {:induction false} StartCcbGuarded(h: Host, e: Ext, hws: nat -> Hw, k: nat)
    requires h.blk > 0
    ensures Guarded(e, StartCcb(h, e, hws, k).events) && NoFreer(e, StartCcb(h, e, hws, k).ext)
    decreases |e.queue|
  {
    if e.nexus.None? && e.queue != [] {
      var o := TakeNext(h, e, hws(k));
      TakeNextGuarded(h, e, hws(k));
      StartCcbGuarded(h, o.ext, hws, k + 1);
    }
  }

  lemma IdentIrqGuarded(h: Host, e: Ext, hw: Hw)
    requires h.blk > 0
    ensures Guarded(e.(ready := e.ready || hw.ident == IdentDone), IdentIrq(h, e, hw).events)
  {
    var e1 := e.(state := Idle, resetting := false, ready := true);
    if e.nexus.Some? { IoCmdsGuarded(h, e1, hw); }
  }

  lemma HandleInterruptGuarded(h: Host, e: Ext, hw: Hw)
    requires h.blk > 0 && DataPhaseOk(h, e) && !hw.intr.Nothing()
    ensures Guarded(e.(ready := e.ready || EndsIdent(e, hw)), HandleInterrupt(h, e, hw).events)
  {
    if hw.intr.card {
      assert HandleInterrupt(h, e, hw).events == [];
    } else if e.state == Ident {
      IdentIrqGuarded(h, e, hw);
      assert HandleInterrupt(h, e, hw) == IdentIrq(h, e, hw);
    } else if e.state == InData {
      DataIrqDoesNotBegin(h, e, hw);
      assert HandleInterrupt(h, e, hw).events == DataIrq(h, e, hw).events;
    }
  }

  lemma InterruptGuarded(h: Host, e: Ext, hw: Hw)
    requires h.blk > 0 && DataPhaseOk(h, e)
    ensures var o, e1 := ProcessInterrupt(h, e, hw), e.(ready := e.ready || EndsIdent(e, hw));
            Guarded(e1, o.events) && NoFreer(e1, o.ext)
  {
    if !hw.intr.Nothing() {
      HandleInterruptGuarded(h, e, hw);
      assert NoFreer(e.(ready := e.ready || EndsIdent(e, hw)), HandleInterrupt(h, e, hw).ext);
    }
  }

  /** The step is the interrupt that ends an identification. */
  predicate Readies(e: Ext, step: Step) {
    step.InterruptPulse? && EndsIdent(e, step.hw)
  }

  lemma TailGuarded(h: Host, e: Ext, o: Out, hws: nat -> Hw)
    requires h.blk > 0 && Guarded(e, o.events) && NoFreer(e, o.ext)
    ensures Guarded(e, TailCheck(h, o, hws).events) && NoFreer(e, TailCheck(h, o, hws).ext)
  {
    StartCcbGuarded(h, o.ext, hws, 0);
  }

  /** A step begins requests only while the card is ready or made so by it, writes only while it is not
      protected; and only such steps, and the control thread, change that. */
  lemma StepGuarded(h: Host, e: Ext, step: Step)
    requires h.blk > 0 && DataPhaseOk(h, e)
    ensures var o, e1 := Take(h, e, step), e.(ready := e.ready || Readies(e, step));
            && Guarded(e1, o.events) && NotReadied(e1, o.ext)
            && o.ext.writeProtected == if step.Protect? then step.on else e.writeProtected
  {
    match step
    case EnqueuePulse(hws) =>
      StartCcbGuarded(h, e, hws, 0);
      TailGuarded(h, e, StartCcb(h, e, hws, 0), hws);
    case InterruptPulse(hw, hws) =>
      InterruptGuarded(h, e, hw);
      TailGuarded(h, e.(ready := e.ready || EndsIdent(e, hw)), ProcessInterrupt(h, e, hw), hws);
    case TimerTick(hw, hws) => TailGuarded(h, e, TimerPulse(h, e, hw), hws);
    case _ =>
  }

  // ---------------------------------------------------------------- whole runs

  /** Among these further steps of a run one ends an identification. */
  predicate ReadiedIn(h: Host, before: seq<Step>, more: seq<Step>)
    requires h.blk > 0
  {
    more != [] &&
    var n := |more| - 1;
    ReadiedIn(h, before, more[..n]) || Readies(Run(h, before + more[..n]).ext, more[n])
  }

  /** Among these steps one unprotects the card. */
  predicate UnprotectedIn(more: seq<Step>) {
    exists k :: 0 <= k < |more| && more[k].Protect? && !more[k].on
  }

  predicate NoWriteBegins(events: seq<Event>) {
    forall i :: 0 <= i < |events| && events[i].Begin? ==> !events[i].write
  }

  /** The log has grown by these events. */
  ghost predicate Gains(h: Host, before: seq<Step>, more: seq<Step>, gained: seq<Event>)
    requires h.blk > 0
  {
    Run(h, before + more).events == Run(h, before).events + gained
  }

  lemma LastStep(before: seq<Step>, more: seq<Step>)
    requires more != []
    ensures before + more == before + more[..|more| - 1] + [more[|more| - 1]]
  {
  }

  lemma RunGains(h: Host, steps: seq<Step>, step: Step, log: seq<Event>, gained: seq<Event>)
    requires h.blk > 0 && Run(h, steps).events == log + gained
    ensures var e := Run(h, steps).ext;
            && DataPhaseOk(h, e)
            && Run(h, steps + [step]) == Out(Take(h, e, step).ext, log + (gained + Take(h, e, step).events))
  {
    RunStep(h, steps, step);
    Regroup(log, gained, Take(h, Run(h, steps).ext, step).events);
  }

  lemma Regroup(a: seq<Event>, b: seq<Event>, c: seq<Event>)
    ensures a + b + c == a + (b + c)
  {
  }

  /** A card that is not ready stays so, and no request begins, until an identification ends. */
  lemma {:induction false} NothingBeginsUnready(h: Host, before: seq<Step>, more: seq<Step>)
    returns (gained: seq<Event>)
    requires h.blk > 0 && !Run(h, before).ext.ready && !ReadiedIn(h, before, more)
    ensures !Run(h, before + more).ext.ready && Gains(h, before, more, gained) && NoBegins(gained)
    decreases |more|
  {
    if more == [] {
      gained := [];
      assert before + more == before;
    } else {
      var n := |more| - 1;
      gained := NothingBeginsUnready(h, before, more[..n]);
      LastStep(before, more);
      RunGains(h, before + more[..n], more[n], Run(h, before).events, gained);
      StepGuarded(h, Run(h, before + more[..n]).ext, more[n]);
      gained := gained + Take(h, Run(h, before + more[..n]).ext, more[n]).events;
    }
  }

  /** A protected card stays so, and no write begins, until it is unprotected. */
  lemma {:induction false} NoWriteBeginsProtected(h: Host, before: seq<Step>, more: seq<Step>)
    returns (gained: seq<Event>)
    requires h.blk > 0 && Run(h, before).ext.writeProtected && !UnprotectedIn(more)
    ensures Run(h, before + more).ext.writeProtected && Gains(h, before, more, gained) && NoWriteBegins(gained)
    decreases |more|
  {
    if more == [] {
      gained := [];
      assert before + more == before;
    } else {
      var n := |more| - 1;
      assert forall k :: 0 <= k < n ==> more[..n][k] == more[k];
      gained := NoWriteBeginsProtected(h, before, more[..n]);
      LastStep(before, more);
      RunGains(h, before + more[..n], more[n], Run(h, before).events, gained);
      StepGuarded(h, Run(h, before + more[..n]).ext, more[n]);
      gained := gained + Take(h, Run(h, before + more[..n]).ext, more[n]).events;
    }
  }

  /** Where such a stretch of the run begins */
  lemma StretchBegins(h: Host, before: seq<Step>, step: Step)
    requires h.blk > 0
    ensures step.Protect? && step.on ==> Run(h, before + [step]).ext.writeProtected
    ensures step.CardRemoved? ==> !Run(h, before + [step]).ext.ready
  {
    RunStep(h, before, step);
  }
}
