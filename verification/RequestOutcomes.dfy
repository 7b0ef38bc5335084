/**
 How requests under way end, by the branches that decide it: the direction of a programmed transfer, the checks
 after the data phase, media that goes away, and a stop command that keeps failing.
 */
module RequestOutcomes {
  import opened Wrappers
  import opened MmcTypes
  import opened PioWalk
  import opened BusRules
  import opened RequestEngine
  import opened RequestInvariant
  import opened RequestRuns

  // ---------------------------------------------------------------- the last byte of programmed I/O

  /** An interrupt that lets a programmed transfer go on */
  predicate Moves(e: Ext, hw: Hw) {
    && e.state == InData && e.stop != StopIssued
    && !hw.intr.card && !hw.intr.error && (hw.intr.data || hw.intr.bufferReady)
  }

  /** After these events the request is being stopped, or posted. */
  predicate Winds(e: Ext, hw: Hw, events: seq<Event>, o: Out)
    requires e.nexus.Some?
  {
    if e.stop == StopPend && hw.stopOk
    then o.events == events + [StopSent] && o.ext.nexus == e.nexus && o.ext.state == InData
    else |o.events| == |events| + 1 && o.events[..|events|] == events
         && o.events[|events|].Post? && o.events[|events|].id == e.nexus.value.id && o.ext.nexus.None?
  }

  lemma StopWinds(e: Ext, dirIn: bool, hw: Hw)
    requires e.nexus.Some? && e.nexus.value.status == InProg && e.state == InData && e.dirIn == dirIn
    ensures var o := PioStop(e, dirIn, hw);
            if e.stop == StopPend && hw.stopOk
            then o.events == [StopSent] && o.ext.nexus == e.nexus && o.ext.state == InData
            else o.events == [] && Settled(o.ext) && o.ext.nexus.value.id == e.nexus.value.id
  {
  }

  /** The handler's events, and what the end of the interrupt makes of them */
  lemma InterruptIs(h: Host, e: Ext, hw: Hw)
    requires h.blk > 0 && h.pio && DataPhaseOk(h, e) && Moves(e, hw)
    ensures var o := PioRw(e.(stopsRetry := 0), hw);
            var end := AfterData(h, o.ext, hw);
            ProcessInterrupt(h, e, hw)
            == if Settled(end) then Out(end.(nexus := None, state := Idle), o.events + [PostEvent(end)])
               else Out(end, o.events)
  {
    assert DataIrq(h, e, hw) == TransferIrq(h, e, hw) == PioRw(e.(stopsRetry := 0), hw);
  }

  lemma AfterDataKeeps(h: Host, e: Ext, hw: Hw)
    ensures var r := AfterData(h, e, hw);
            && (Settled(r) <==> Settled(e)) && (!Settled(e) ==> r == e)
            && (Settled(e) ==> r.nexus.value.id == e.nexus.value.id)
  {
  }

  lemma WindsUp(h: Host, e: Ext, hw: Hw, o: Out, events: seq<Event>)
    requires e.nexus.Some? && e.nexus.value.status == InProg
    requires if e.stop == StopPend && hw.stopOk
             then o.events == events + [StopSent] && o.ext.nexus == e.nexus && o.ext.state == InData
             else o.events == events && Settled(o.ext) && o.ext.nexus.value.id == e.nexus.value.id
    ensures var end := AfterData(h, o.ext, hw);
            Winds(e, hw, events,
                  if Settled(end) then Out(end.(nexus := None, state := Idle), o.events + [PostEvent(end)])
                  else Out(end, o.events))
  {
    AfterDataKeeps(h, o.ext, hw);
  }

  lemma MovedOn(h: Host, e: Ext, hw: Hw)
    requires e.nexus.Some? && e.nexus.value.status == InProg && e.state == InData && e.offset != DONE
    requires CursorOk(e.nexus.value.Counts(), PioCursor(e)) && e.nexus.value.ReadWrite() && DirAgrees(e)
    ensures var to := Walk(e.nexus.value.Counts(), PioCursor(e), hw.grants);
            && CursorOk(e.nexus.value.Counts(), to)
            && Position(e.nexus.value.Counts(), PioCursor(e)) <= Position(e.nexus.value.Counts(), to)
            && var o := PioRw(e, hw);
               if to.offset == DONE && e.nexus.value.func == Read
               then if e.stop == StopPend && hw.stopOk
                    then o.events == [WalkEvent(e, to)] + [StopSent] && o.ext.nexus == e.nexus && o.ext.state == InData
                    else o.events == [WalkEvent(e, to)] && Settled(o.ext) && o.ext.nexus.value.id == e.nexus.value.id
               else o.events == [WalkEvent(e, to)] && o.ext == Walked(e, to)
  {
    PioRwIs(e, hw);
    var to := Walk(e.nexus.value.Counts(), PioCursor(e), hw.grants);
    if to.offset == DONE && e.nexus.value.func == Read {
      StopWinds(Walked(e, to), true, hw);
    }
  }

  /** A programmed transfer in progress, as every run has it */
  predicate InProgress(e: Ext) {
    && e.state == InData && e.nexus.Some? && e.nexus.value.ReadWrite() && e.nexus.value.status == InProg
    && CursorOk(e.nexus.value.Counts(), PioCursor(e)) && DirAgrees(e)
  }

  lemma EndedWinds(h: Host, e: Ext, hw: Hw)
    requires h.blk > 0 && h.pio && DataPhaseOk(h, e) && Moves(e, hw) && InProgress(e)
    requires e.offset == DONE && e.nexus.value.func == Write
    ensures Winds(e, hw, [], ProcessInterrupt(h, e, hw))
  {
    var e0 := e.(stopsRetry := 0);
    InterruptIs(h, e, hw);
    StopWinds(e0, false, hw);
    assert PioRw(e0, hw) == PioStop(e0, false, hw);
    WindsUp(h, e, hw, PioRw(e0, hw), []);
  }

  /** What an interrupt that moves bytes comes to */
  predicate MovesTo(e: Ext, to: Cursor, hw: Hw, o: Out)
    requires e.nexus.Some? && CursorOk(e.nexus.value.Counts(), PioCursor(e)) && CursorOk(e.nexus.value.Counts(), to)
    requires Position(e.nexus.value.Counts(), PioCursor(e)) <= Position(e.nexus.value.Counts(), to)
  {
    if to.offset == DONE && e.nexus.value.func == Read then Winds(e, hw, [WalkEvent(e, to)], o)
    else o.events == [WalkEvent(e, to)] && o.ext.nexus == e.nexus && o.ext.offset == to.offset
  }

  lemma MovingWinds(h: Host, e: Ext, hw: Hw)
    requires h.blk > 0 && h.pio && DataPhaseOk(h, e) && Moves(e, hw) && InProgress(e) && e.offset != DONE
    ensures var counts, from := e.nexus.value.Counts(), PioCursor(e);
            var to := Walk(counts, from, hw.grants);
            && CursorOk(counts, to) && Position(counts, from) <= Position(counts, to)
            && MovesTo(e, to, hw, ProcessInterrupt(h, e, hw))
  {
    var e0 := e.(stopsRetry := 0);
    InterruptIs(h, e, hw);
    MovedOn(h, e0, hw);
    AfterDataKeeps(h, PioRw(e0, hw).ext, hw);
    var to := Walk(e.nexus.value.Counts(), PioCursor(e), hw.grants);
    if to.offset == DONE && e.nexus.value.func == Read {
      WindsUp(h, e, hw, PioRw(e0, hw), [WalkEvent(e, to)]);
    }
  }

  /** In every run a programmed transfer is in that state; one that waits at its end is a write. */
  lemma RunInProgress(h: Host, steps: seq<Step>)
    requires h.blk > 0 && h.pio && Run(h, steps).ext.state == InData
    ensures var e := Run(h, steps).ext;
            && DataPhaseOk(h, e) && InProgress(e)
            && (e.offset == DONE && e.stop != StopIssued ==> e.nexus.value.func == Write)
  {
    RestMeansDataPhaseOk(h, Run(h, steps).ext, Watch(h.AsBus(), Run(h, steps).events));
  }

  /** Over every run: the interrupt that moves the last byte of a read, and notices the end, stops or posts it; a
      write stays under way then, and the next such interrupt stops or posts it. */
  lemma LastByteEnds(h: Host, steps: seq<Step>, hw: Hw)
    requires h.blk > 0 && h.pio && Moves(Run(h, steps).ext, hw)
    ensures var e := Run(h, steps).ext;
            && DataPhaseOk(h, e) && InProgress(e)
            && var counts, from := e.nexus.value.Counts(), PioCursor(e);
               if e.offset == DONE then e.nexus.value.func == Write && Winds(e, hw, [], ProcessInterrupt(h, e, hw))
               else var to := Walk(counts, from, hw.grants);
                    && CursorOk(counts, to) && Position(counts, from) <= Position(counts, to)
                    && MovesTo(e, to, hw, ProcessInterrupt(h, e, hw))
  {
    RunInProgress(h, steps);
    var e := Run(h, steps).ext;
    if e.offset == DONE {
      EndedWinds(h, e, hw);
    } else {
      MovingWinds(h, e, hw);
    }
  }

  // ---------------------------------------------------------------- the checks after the data phase

  /** A request that the data phase completed is posted as a success exactly if the checks pass, and as failed
      otherwise; one that it failed stays failed. */
  lemma SuccessIffChecked(h: Host, e: Ext, hw: Hw)
    requires h.blk > 0 && e.state == InData && DataPhaseOk(h, e) && !hw.intr.card && !hw.intr.Nothing()
    requires Settled(DataIrq(h, e, hw).ext)
    ensures var done, o := DataIrq(h, e, hw), ProcessInterrupt(h, e, hw);
            var ccb := e.nexus.value;
            && o.ext.nexus.None? && o.ext.state == Idle
            && o.events == done.events
                           + [Post(ccb.id, true, if done.ext.nexus.value.status == Cmp
                                                 then if ChecksPass(h, done.ext, hw) then Cmp else CmdTimeout
                                                 else if h.nocdBusy && !hw.cardReady then CmdTimeout
                                                 else done.ext.nexus.value.status)]
  {
    var done := DataIrq(h, e, hw);
    CheckedStatus(h, done.ext, hw);
    assert HandleInterrupt(h, e, hw) == Out(AfterData(h, done.ext, hw), done.events);
  }

  // ---------------------------------------------------------------- media that goes away

  /** The card interrupt fails whatever request there is. */
  lemma CardInterruptFails(h: Host, e: Ext, hw: Hw)
    requires h.blk > 0 && DataPhaseOk(h, e) && hw.intr.card && e.nexus.Some?
    ensures var o := ProcessInterrupt(h, e, hw);
            && o.events == [Post(e.nexus.value.id, e.nexus.value.ReadWrite(), CmdTimeout)]
            && o.ext.nexus.None? && o.ext.state == Idle
            && (!hw.detect && e.inserted ==> !o.ext.inserted && !o.ext.ready)
  {
    assert HandleInterrupt(h, e, hw) == Quiet(Fail(MediaCheck(e, hw.detect)));
  }

  /** A timer tick that finds the card gone, on hosts that must look for it: the card is not ready any more, and
      a request in progress is posted as an error. */
  lemma TickFindsNoCard(h: Host, e: Ext, hw: Hw)
    requires !h.cdIntr && !hw.detect
    ensures var o := TimerPulse(h, e, hw);
            && !o.ext.inserted && (e.inserted ==> !o.ext.ready)
            && (e.nexus.Some? && (e.nexus.value.status == InProg || e.nexus.value.status == CmpErr) ==>
                  && o.events == [Post(e.nexus.value.id, e.nexus.value.ReadWrite(), CmpErr)]
                  && o.ext.nexus.None? && o.ext.state == Idle)
  {
  }

  // ---------------------------------------------------------------- a stop command that keeps failing

  /** An error interrupt while CMD12 is outstanding */
  predicate StopFails(e: Ext, hw: Hw) {
    && e.state == InData && e.stop == StopIssued && e.nexus.Some? && e.nexus.value.ReadWrite()
    && e.nexus.value.status == InProg && hw.intr.error && !hw.intr.card
  }

  /** CMD12 may be sent once more. */
  predicate Retries(e: Ext, hw: Hw) {
    hw.detect && hw.stopOk && e.stopsRetry < 6
  }

  /** CMD12 is sent once more, up to six times, if the card is there and the host takes it; otherwise the request
      is posted as failed. */
  lemma StopIsRetried(h: Host, e: Ext, hw: Hw)
    requires h.blk > 0 && DataPhaseOk(h, e) && StopFails(e, hw)
    ensures var o := ProcessInterrupt(h, e, hw);
            if Retries(e, hw) then o == Out(e.(inserted := true, stopsRetry := e.stopsRetry + 1), [StopSent])
            else PostedFailed(e, o)
  {
    if Retries(e, hw) {
      StopSentAgain(h, e, hw);
    } else {
      StopGivenUp(h, e, hw);
    }
  }

  predicate PostedFailed(e: Ext, o: Out)
    requires e.nexus.Some?
  {
    && |o.events| == 1 && o.events[0].Post? && o.events[0].id == e.nexus.value.id && o.events[0].status != Cmp
    && o.ext.nexus.None? && o.ext.state == Idle
  }

  lemma StopSentAgain(h: Host, e: Ext, hw: Hw)
    requires h.blk > 0 && DataPhaseOk(h, e) && StopFails(e, hw) && Retries(e, hw)
    ensures ProcessInterrupt(h, e, hw) == Out(e.(inserted := true, stopsRetry := e.stopsRetry + 1), [StopSent])
  {
    var r := e.(inserted := true, stopsRetry := e.stopsRetry + 1);
    assert DataIrq(h, e, hw) == StopError(e, hw) == Out(r, [StopSent]);
    assert AfterData(h, r, hw) == r;
  }

  lemma StopGivenUp(h: Host, e: Ext, hw: Hw)
    requires h.blk > 0 && DataPhaseOk(h, e) && StopFails(e, hw) && !Retries(e, hw)
    ensures PostedFailed(e, ProcessInterrupt(h, e, hw))
  {
    assert DataIrq(h, e, hw) == StopError(e, hw);
    StopErrorFails(e, hw);
    SuccessIffChecked(h, e, hw);
  }

  lemma StopErrorFails(e: Ext, hw: Hw)
    requires StopFails(e, hw) && !Retries(e, hw)
    ensures var o := StopError(e, hw); o.events == [] && Settled(o.ext) && o.ext.nexus.value.status != Cmp
  {
  }

  /** Error interrupts in a row, as long as the request is under way */
  function Failing(h: Host, e: Ext, hws: seq<Hw>): Out
    requires h.blk > 0
    decreases |hws|
  {
    if hws == [] || e.state != InData || !DataPhaseOk(h, e) then Quiet(e)
    else
      var o := ProcessInterrupt(h, e, hws[0]);
      var rest := Failing(h, o.ext, hws[1..]);
      Out(rest.ext, o.events + rest.events)
  }

  /** The request has been posted as failed, after so many stop commands at most. */
  predicate EndsFailed(e: Ext, o: Out, retries: nat)
    requires e.nexus.Some?
  {
    && o.ext.nexus.None? && 0 < |o.events| <= retries + 1
    && (var last := o.events[|o.events| - 1]; last.Post? && last.id == e.nexus.value.id && last.status != Cmp)
    && (forall k :: 0 <= k < |o.events| - 1 ==> o.events[k] == StopSent)
  }

  lemma OneStopMore(e: Ext, e': Ext, rest: Out, retries: nat)
    requires e.nexus.Some? && e'.nexus == e.nexus && EndsFailed(e', rest, retries)
    ensures EndsFailed(e, Out(rest.ext, [StopSent] + rest.events), retries + 1)
  {
    assert forall k :: 0 <= k < |rest.events| ==> ([StopSent] + rest.events)[k + 1] == rest.events[k];
  }

  predicate AllFail(e: Ext, hws: seq<Hw>) {
    forall k :: 0 <= k < |hws| ==> StopFails(e, hws[k])
  }

  lemma RestFails(e: Ext, hws: seq<Hw>)
    requires hws != [] && AllFail(e, hws)
    ensures AllFail(e.(inserted := true, stopsRetry := e.stopsRetry + 1), hws[1..])
  {
    var r := e.(inserted := true, stopsRetry := e.stopsRetry + 1);
    forall k | 0 <= k < |hws[1..]| ensures StopFails(r, hws[1..][k]) {
      assert StopFails(e, hws[k + 1]);
    }
  }

  /** Seven errors in a row, less those that there were before: the request has been posted as failed, after no
      more than six stop commands. */
  lemma {:induction false} StopErrorsEnd(h: Host, e: Ext, hws: seq<Hw>)
    requires h.blk > 0 && DataPhaseOk(h, e) && e.stopsRetry <= 6 && |hws| >= 7 - e.stopsRetry && AllFail(e, hws)
    ensures e.nexus.Some? && EndsFailed(e, Failing(h, e, hws), 6 - e.stopsRetry)
    decreases |hws|
  {
    assert StopFails(e, hws[0]);
    StopIsRetried(h, e, hws[0]);
    var o := ProcessInterrupt(h, e, hws[0]);
    if Retries(e, hws[0]) {
      RestFails(e, hws);
      StopErrorsEnd(h, o.ext, hws[1..]);
      OneStopMore(e, o.ext, Failing(h, o.ext, hws[1..]), 5 - e.stopsRetry);
    } else {
      assert Failing(h, o.ext, hws[1..]) == Quiet(o.ext);
      assert o.events + [] == o.events;
    }
  }
}
