/**
 What the driver promises for every run of the request engine: exactly-once completion, the stop handshake
 within an attempt, complete transfers, and the fate of requests that come during identification.
 */
module RequestTheorems {
  import opened Blocks
  import opened MmcTypes
  import opened BusRules
  import opened RequestMonitor
  import opened RequestEngine
  import opened RequestRuns

  /** Requests are posted once each and in the order in which they were submitted; those not posted
      are the nexus and the queue. */
  lemma PostedOnceInOrder(h: Host, steps: seq<Step>)
    requires h.blk > 0
    ensures var r := Run(h, steps);
            var ids := PostedIds(r.events);
            && (forall i :: 0 <= i < |ids| ==> ids[i] == i)
            && |ids| + |Outstanding(r.ext)| == r.ext.submitted
            && (r.ext.nexus.Some? ==> r.ext.nexus.value.id == |ids|)
  {
    var r := Run(h, steps);
    var ids := PostedIds(r.events);
    assert forall i :: 0 <= i < |ids| ==> ids[i] == (ids + Outstanding(r.ext))[i];
    if r.ext.nexus.Some? {
      assert (ids + Outstanding(r.ext))[|ids|] == r.ext.nexus.value.id;
    }
  }

  lemma NeverPostedInProgress(h: Host, steps: seq<Step>, j: nat)
    requires h.blk > 0 && j < |Run(h, steps).events| && Run(h, steps).events[j].Post?
    ensures Run(h, steps).events[j].status != InProg
  {
    PostsAreSettled(h.AsBus(), Run(h, steps).events, j);
  }

  /** The stop handshake: between an open-ended transfer and the next data command of the same attempt,
      or its success report, CMD12 was sent and completed. */
  lemma StopHandshake(h: Host, steps: seq<Step>, i: nat, j: nat)
    requires h.blk > 0
    requires var log := Run(h, steps).events;
             && i < j < |log| && SameAttempt(log, i, j)
             && log[i].Data? && log[i].openEnded && (log[j].Data? || Success(log[j]))
    ensures StoppedBetween(Run(h, steps).events, i, j)
  {
    OpenTransferIsStopped(h.AsBus(), Run(h, steps).events, i, j);
  }

  /** Success is reported only when the data commands of the last attempt cover every whole block of the
      request, in order, without gap or overlap, on the card and in memory; and outside scatter DMA these are
      all its bytes. */
  lemma SuccessIsComplete(h: Host, steps: seq<Step>, j: nat) returns (i: nat)
    requires h.blk > 0 && j < |Run(h, steps).events| && Success(Run(h, steps).events[j])
    ensures var log := Run(h, steps).events;
            && i < j && log[i].Begin? && log[i].id == log[j].id && SameAttempt(log, i + 1, j)
            && Tiles(h.blk, Commands(log[i + 1..j]), log[i].write, log[i].lba, log[i].length / h.blk)
            && (log[i].mode != Scatter ==> log[i].length / h.blk * h.blk == log[i].length)
  {
    var log := Run(h, steps).events;
    i := SuccessMeansTiled(h.AsBus(), log, j);
    BlocksInIsQuotient(h.blk, log[i].length);
    BytesIsProduct(h.blk, log[i].length / h.blk);
  }

  // ---------------------------------------------------------------- requests during identification

  /** The pulses that decide a request held during identification. */
  predicate Decides(h: Host, e: Ext, step: Step) {
    match step
    case InterruptPulse(hw, _) => !hw.intr.Nothing() && (hw.intr.card || hw.ident != IdentBusy)
    case TimerTick(hw, _) => !(if h.cdIntr then e else MediaCheck(e, hw.detect)).inserted
    case _ => false
  }

  predicate HeldIn(e: Ext) {
    e.state == Ident && e.nexus.Some? && e.nexus.value.status == InProg
  }

  lemma HeldRequestStays(h: Host, e: Ext, step: Step)
    requires h.blk > 0 && HeldIn(e) && DataPhaseOk(h, e) && !Decides(h, e, step)
    ensures Take(h, e, step).ext.nexus == e.nexus && Take(h, e, step).events == []
  {
    match step
    case InterruptPulse(hw, _) => assert ProcessInterrupt(h, e, hw) == Quiet(e);
    case TimerTick(hw, _) => assert TimerPulse(h, e, hw).events == [];
    case _ =>
  }

  lemma HeldRequestFails(h: Host, e: Ext, hw: Hw, hws: nat -> Hw)
    requires h.blk > 0 && HeldIn(e) && DataPhaseOk(h, e) && !hw.intr.Nothing()
    requires hw.intr.card || hw.ident == IdentFailed
    ensures var o := Take(h, e, InterruptPulse(hw, hws));
            |o.events| > 0 && o.events[0] == Post(e.nexus.value.id, e.nexus.value.ReadWrite(), CmdTimeout)
  {
    var o := HandleInterrupt(h, e, hw);
    assert o.events == [] && Settled(o.ext);
    assert ProcessInterrupt(h, e, hw).events == [PostEvent(o.ext)];
  }

  /** Success of the identification runs the held request, from its beginning. */
  lemma HeldRequestRuns(h: Host, e: Ext, hw: Hw, hws: nat -> Hw)
    requires h.blk > 0 && HeldIn(e) && DataPhaseOk(h, e) && !hw.intr.Nothing()
    requires !hw.intr.card && hw.ident == IdentDone
    requires e.nexus.value.func == Read || (e.nexus.value.func == Write && !e.writeProtected)
    ensures var o := Take(h, e, InterruptPulse(hw, hws));
            var ccb := e.nexus.value;
            |o.events| > 0 && o.events[0] == Begin(ccb.id, ccb.func == Write, ccb.lba, ccb.Length(), h.ModeOf(ccb))
  {
    var o := HandleInterrupt(h, e, hw);
    assert o == StartReadWrite(h, e.(state := Idle, resetting := false, ready := true), hw);
  }

  /** A request that arrives during identification stays the nexus until a pulse decides it. */
  lemma HeldDuringIdentification(h: Host, steps: seq<Step>, step: Step)
    requires h.blk > 0 && HeldIn(Run(h, steps).ext) && !Decides(h, Run(h, steps).ext, step)
    ensures Run(h, steps + [step]).ext.nexus == Run(h, steps).ext.nexus
    ensures Run(h, steps + [step]).events == Run(h, steps).events
  {
    var r := Run(h, steps);
    StepKeepsInv(h, r.ext, r.events, step);
    assert (steps + [step])[..|steps|] == steps;
    HeldRequestStays(h, r.ext, step);
  }
}
