/**
 What one attempt leaves on the bus for the next.  Within an attempt an open-ended transfer is stopped
 before the next command (RequestTheorems.StopHandshake); an attempt that is given up in the middle of one
 leaves it open, whatever is started next.  For all runs, this says exactly when that happens.
 */
module RequestHandshake {
  import opened Wrappers
  import opened MmcTypes
  import opened PioWalk
  import opened BusRules
  import opened BusView
  import opened RequestMonitor
  import opened RequestEngine
  import opened RequestInvariant
  import opened RequestRuns

  // ---------------------------------------------------------------- the bus, event by event

  lemma SeenStep(bus: Bus, log: seq<Event>, n: nat)
    requires bus.blk > 0 && n < |log|
    ensures var v := Seen(bus, log, n);
            Seen(bus, log, n + 1) == View(Watch1(bus, v.m, log[n]), BusPhase1(v.bus, log[n]))
  {
    PrefixStep(bus, log, n);
    assert log[..n + 1][..n] == log[..n];
  }

  /** An attempt that has sent a command sees what the bus sees. */
  predicate Consistent(v: View) {
    v.m.phase == NoData || (v.m.phase == v.bus && v.m.id.Some?)
  }

  lemma ConsistentStep(bus: Bus, v: View, ev: Event)
    requires bus.blk > 0 && Consistent(v) && Watch1(bus, v.m, ev).ok
    ensures Consistent(View(Watch1(bus, v.m, ev), BusPhase1(v.bus, ev)))
  {
  }

  lemma {:induction false} AlwaysConsistent(bus: Bus, log: seq<Event>, n: nat)
    requires bus.blk > 0 && n <= |log| && Watch(bus, log).ok
    ensures Consistent(Seen(bus, log, n)) && Seen(bus, log, n).m.ok
  {
    SeenOk(bus, log, n);
    if n > 0 {
      AlwaysConsistent(bus, log, n - 1);
      SeenStep(bus, log, n - 1);
      ConsistentStep(bus, Seen(bus, log, n - 1), log[n - 1]);
    }
  }

  lemma SeenOk(bus: Bus, log: seq<Event>, n: nat)
    requires bus.blk > 0 && n <= |log| && Watch(bus, log).ok
    ensures Seen(bus, log, n).m.ok
  {
    PrefixOk(bus, log, n);
  }

  predicate NoDataIn(log: seq<Event>, a: nat, n: nat)
    requires a <= n <= |log|
  {
    forall k :: a <= k < n ==> !log[k].Data?
  }

  /** How the bus, after an open-ended command, tells of the stop. */
  ghost predicate TellsOfStop(log: seq<Event>, i: nat, n: nat, p: Phase)
    requires i < n <= |log|
  {
    match p
    case Open => !StopSentBetween(log, i, n)
    case Stopping => StopSentBetween(log, i, n) && !StoppedBetween(log, i, n)
    case Stopped => StoppedBetween(log, i, n)
    case _ => false
  }

  lemma TellsOfStopStep(bus: Bus, log: seq<Event>, i: nat, n: nat, v: View)
    requires bus.blk > 0 && i < n < |log| && !log[n].Data? && TellsOfStop(log, i, n, v.bus)
    requires Consistent(v) && Watch1(bus, v.m, log[n]).ok
    ensures TellsOfStop(log, i, n + 1, BusPhase1(v.bus, log[n]))
  {
    if log[n] == StopDone {
      var k :| i < k < n && log[k] == StopSent;
      assert i < k < n < n + 1 && log[n] == StopDone;
    } else if log[n] == StopSent {
      assert i < n < n + 1;
    }
  }

  /** After an open-ended command and before the next one, the bus is stopped exactly if CMD12 was sent and
      completed. */
  lemma {:induction false} BusTellsOfStop(bus: Bus, log: seq<Event>, i: nat, n: nat)
    requires bus.blk > 0 && Watch(bus, log).ok && i < n <= |log|
    requires log[i].Data? && log[i].openEnded && NoDataIn(log, i + 1, n)
    ensures TellsOfStop(log, i, n, BusPhase(log[..n]))
  {
    SeenStep(bus, log, n - 1);
    if n > i + 1 {
      BusTellsOfStop(bus, log, i, n - 1);
      AlwaysConsistent(bus, log, n - 1);
      AlwaysConsistent(bus, log, n);
      TellsOfStopStep(bus, log, i, n - 1, Seen(bus, log, n - 1));
    }
  }

  // ---------------------------------------------------------------- pieces of a log without data commands

  /** Where no attempt has a transfer, or it has been stopped, the bus stays as it is until the next command. */
  lemma {:induction false} NothingUnderWay(bus: Bus, log: seq<Event>, a: nat, n: nat)
    requires bus.blk > 0 && Watch(bus, log).ok && a <= n <= |log| && NoDataIn(log, a, n)
    requires var v := Seen(bus, log, a); v.m.phase == NoData || v.m.phase == Stopped
    ensures var v, w := Seen(bus, log, a), Seen(bus, log, n);
            w.bus == v.bus && (w.m.phase == v.m.phase || w.m.phase == NoData)
  {
    if n > a {
      NothingUnderWay(bus, log, a, n - 1);
      SeenOk(bus, log, n);
      SeenStep(bus, log, n - 1);
      NothingStep(bus, Seen(bus, log, n - 1), log[n - 1]);
    }
  }

  lemma NothingStep(bus: Bus, v: View, ev: Event)
    requires bus.blk > 0 && (v.m.phase == NoData || v.m.phase == Stopped)
    requires !ev.Data? && Watch1(bus, v.m, ev).ok
    ensures var w := View(Watch1(bus, v.m, ev), BusPhase1(v.bus, ev));
            w.bus == v.bus && (w.m.phase == v.m.phase || w.m.phase == NoData)
  {
  }

  predicate GoesOn(ev: Event) { ev.Moved? || ev.DataError? || ev.StopSent? }

  /** A transfer that is neither closed nor given up */
  predicate Alive(v: View) { v.m.id.Some? && v.m.phase == v.bus && Unstopped(v.bus) }

  lemma {:induction false} StaysAlive(bus: Bus, log: seq<Event>, a: nat, n: nat)
    requires bus.blk > 0 && a <= n <= |log| && Alive(Seen(bus, log, a))
    requires forall k :: a <= k < n ==> GoesOn(log[k])
    ensures Alive(Seen(bus, log, n))
  {
    if n > a {
      StaysAlive(bus, log, a, n - 1);
      SeenStep(bus, log, n - 1);
    }
  }

  /** What happens until the attempt is over, at q. */
  predicate GivenUpAt(events: seq<Event>, q: nat) {
    && q < |events| && (events[q].Begin? || events[q].Post?)
    && forall k :: 0 <= k < q ==> events[k].Moved? || events[k].DataError?
  }

  /** The attempt is over, and nobody will stop its transfer. */
  predicate Stranded(v: View) { v.m.phase == NoData && Unstopped(v.bus) }

  lemma {:induction false} UntilGivenUp(bus: Bus, log: seq<Event>, a: nat, n: nat)
    requires bus.blk > 0 && a <= n <= |log| && Alive(Seen(bus, log, a))
    requires forall k :: a <= k < n ==> log[k].Moved? || log[k].DataError?
    ensures Alive(Seen(bus, log, n)) && Seen(bus, log, n).bus == Seen(bus, log, a).bus
  {
    if n > a {
      UntilGivenUp(bus, log, a, n - 1);
      SeenStep(bus, log, n - 1);
    }
  }

  lemma GivenUpStrands(bus: Bus, log: seq<Event>, a: nat, q: nat, n: nat)
    requires bus.blk > 0 && Watch(bus, log).ok && a <= q < n <= |log| && Alive(Seen(bus, log, a))
    requires forall k :: a <= k < q ==> log[k].Moved? || log[k].DataError?
    requires (log[q].Begin? || log[q].Post?) && NoDataIn(log, a, n)
    ensures Stranded(Seen(bus, log, n))
  {
    UntilGivenUp(bus, log, a, q);
    SeenStep(bus, log, q);
    NothingUnderWay(bus, log, q + 1, n);
  }

  lemma StoppedStays(bus: Bus, log: seq<Event>, a: nat, n: nat)
    requires bus.blk > 0 && Watch(bus, log).ok && a < n <= |log| && log[a] == StopDone && NoDataIn(log, a, n)
    ensures Seen(bus, log, n).bus == Stopped
  {
    AlwaysConsistent(bus, log, a);
    SeenStep(bus, log, a);
    NothingUnderWay(bus, log, a + 1, n);
  }

  // ---------------------------------------------------------------- the steps that give a transfer up

  /** The stop command of the transfer met an error and is not sent again, because the media is gone, it was
      retried often enough, or it is refused. */
  predicate StopGivenUp(e: Ext, hw: Hw) {
    !hw.detect || e.stopsRetry > MAX_STOP_RETRIES || !hw.stopOk
  }

  /** The end of programmed I/O is noticed in this interrupt, but its stop command is refused. */
  predicate PioStopRefused(e: Ext, hw: Hw)
    requires e.nexus.Some? && CursorOk(e.nexus.value.Counts(), PioCursor(e))
  {
    && !hw.stopOk
    && (if e.offset == DONE then !e.dirIn
        else Walk(e.nexus.value.Counts(), PioCursor(e), hw.grants).offset == DONE && e.dirIn)
  }

  /** An interrupt of an open-ended transfer that is not being stopped yet */
  predicate TransferGivenUp(h: Host, e: Ext, hw: Hw)
    requires DataPhaseOk(h, e) && e.state == InData
  {
    if hw.intr.error then !hw.detect || !hw.stopOk
    else if h.pio then (hw.intr.data || hw.intr.bufferReady) && PioStopRefused(e, hw)
    else hw.intr.data && (!hw.dmaDone || !hw.stopOk)
  }

  predicate InterruptGivesUp(h: Host, e: Ext, hw: Hw)
    requires DataPhaseOk(h, e)
  {
    || hw.intr.card
    || (e.state == Ident && hw.ident != IdentBusy)
    || (e.state == InData && if e.stop == StopIssued then hw.intr.error && StopGivenUp(e, hw)
                             else TransferGivenUp(h, e, hw))
  }

  /** The branches in which an attempt ends although its transfer is open or only being stopped: a card
      interrupt, the end of an identification that came in between, media that is gone, a failing dma_done,
      and a stop command that is refused or given up. */
  predicate GivesUp(h: Host, e: Ext, step: Step)
    requires DataPhaseOk(h, e)
  {
    match step
    case InterruptPulse(hw, _) => !hw.intr.Nothing() && InterruptGivesUp(h, e, hw)
    case TimerTick(hw, _) => !(if h.cdIntr then e else MediaCheck(e, hw.detect)).inserted
    case _ => false
  }

  /** What a handler does to a transfer that was open or being stopped: it gives it up, it sees the stop
      complete, or the transfer goes on. */
  ghost predicate Handled(o: Out, givesUp: bool) {
    if givesUp then
      || (Settled(o.ext) && forall k :: 0 <= k < |o.events| ==> o.events[k].Moved? || o.events[k].DataError?)
      || (o.events != [] && o.events[0].Begin?)
    else
      || (o.events != [] && o.events[0] == StopDone)
      || (!Settled(o.ext) && o.ext.nexus.Some? && forall k :: 0 <= k < |o.events| ==> GoesOn(o.events[k]))
  }

  /** A request in progress with an open transfer, or one that is being stopped. */
  predicate Engaged(h: Host, e: Ext) {
    && e.nexus.Some? && e.nexus.value.status == InProg && e.nexus.value.ReadWrite() && DataPhaseOk(h, e)
    && (e.state == InData ==> e.stop == StopPend || e.stop == StopIssued)
  }

  lemma StopIrqHandled(h: Host, e: Ext, hw: Hw)
    requires h.blk > 0 && Engaged(h, e) && e.state == InData && e.stop == StopIssued
    ensures Handled(StopIrq(h, e, hw), hw.intr.error && StopGivenUp(e, hw))
  {
    if hw.intr.error && hw.detect {
      assert MediaCheck(e, true) == e.(inserted := true);
      assert StopIrq(h, e, hw) == RetryStop(e.(inserted := true), hw.stopOk);
    }
  }

  lemma PioRwHandled(h: Host, e: Ext, hw: Hw)
    requires h.blk > 0 && h.pio && Engaged(h, e) && e.state == InData && e.stop == StopPend
    ensures Handled(PioRw(e, hw), PioStopRefused(e, hw))
  {
    if e.offset != DONE {
      PioRwIs(e, hw);
    }
  }

  lemma TransferErrorHandled(h: Host, e: Ext, hw: Hw)
    requires h.blk > 0 && Engaged(h, e)
    ensures Handled(TransferError(e, hw), !hw.detect || !hw.stopOk)
  {
    var e1 := MediaCheck(e, hw.detect);
    assert e1.inserted == hw.detect && e1.nexus == e.nexus;
  }

  lemma DmaTransferHandled(h: Host, e: Ext, hw: Hw)
    requires h.blk > 0 && !h.pio && Engaged(h, e) && e.state == InData && e.stop == StopPend && !hw.intr.error
    ensures Handled(TransferIrq(h, e, hw), TransferGivenUp(h, e, hw))
  {
    var e0 := e.(stopsRetry := 0);
    if hw.intr.data && hw.dmaDone {
      assert TransferIrq(h, e, hw) == SendStop(e0, hw.stopOk);
    } else if hw.intr.data {
      assert TransferIrq(h, e, hw) == Quiet(Fail(e0));
    } else {
      assert TransferIrq(h, e, hw) == Quiet(e0);
    }
  }

  lemma PioTransferHandled(h: Host, e: Ext, hw: Hw)
    requires h.blk > 0 && h.pio && Engaged(h, e) && e.state == InData && e.stop == StopPend && !hw.intr.error
    ensures Handled(TransferIrq(h, e, hw), TransferGivenUp(h, e, hw))
  {
    var e0 := e.(stopsRetry := 0);
    assert PioCursor(e0) == PioCursor(e);
    if hw.intr.data || hw.intr.bufferReady {
      PioRwHandled(h, e0, hw);
      assert TransferIrq(h, e, hw) == PioRw(e0, hw);
      assert PioStopRefused(e0, hw) == PioStopRefused(e, hw);
    } else {
      assert TransferIrq(h, e, hw) == Quiet(e0);
    }
  }

  lemma TransferIrqHandled(h: Host, e: Ext, hw: Hw)
    requires h.blk > 0 && Engaged(h, e) && e.state == InData && e.stop == StopPend
    ensures Handled(TransferIrq(h, e, hw), TransferGivenUp(h, e, hw))
  {
    if hw.intr.error {
      TransferErrorHandled(h, e.(stopsRetry := 0), hw);
    } else if h.pio {
      PioTransferHandled(h, e, hw);
    } else {
      DmaTransferHandled(h, e, hw);
    }
  }

  lemma AfterDataHandled(h: Host, o: Out, hw: Hw, givesUp: bool)
    requires Handled(o, givesUp)
    ensures Handled(Out(AfterData(h, o.ext, hw), o.events), givesUp)
  {
    if Settled(o.ext) {
      AfterDataOnlyFails(h, o.ext, hw);
    }
  }

  lemma IdentHandled(h: Host, e: Ext, hw: Hw)
    requires h.blk > 0 && Engaged(h, e) && e.state == Ident
    ensures Handled(IdentIrq(h, e, hw), hw.ident != IdentBusy)
  {
    if hw.ident == IdentDone {
      var e1 := e.(state := Idle, resetting := false, ready := true);
      assert IdentIrq(h, e, hw) == IoCmds(h, e1, hw);
    }
  }

  lemma InterruptHandled(h: Host, e: Ext, hw: Hw)
    requires h.blk > 0 && Engaged(h, e)
    ensures Handled(HandleInterrupt(h, e, hw), InterruptGivesUp(h, e, hw))
  {
    if hw.intr.card {
      assert MediaCheck(e, hw.detect).nexus == e.nexus;
    } else if e.state == Ident {
      IdentHandled(h, e, hw);
    } else if e.state == InData {
      if e.stop == StopIssued { StopIrqHandled(h, e, hw); } else { TransferIrqHandled(h, e, hw); }
      AfterDataHandled(h, DataIrq(h, e, hw), hw,
                       if e.stop == StopIssued then hw.intr.error && StopGivenUp(e, hw) else TransferGivenUp(h, e, hw));
    }
  }

  /** The same of a whole step, seen in its events: the attempt is over at some point, or its stop completes
      first of all, or it goes on. */
  ghost predicate StepHandled(events: seq<Event>, givesUp: bool) {
    if givesUp then exists q: nat :: GivenUpAt(events, q)
    else (events != [] && events[0] == StopDone) || forall k :: 0 <= k < |events| ==> GoesOn(events[k])
  }

  lemma PostedHandled(o: Out, rest: seq<Event>, givesUp: bool)
    requires Handled(o, givesUp) && Settled(o.ext)
    ensures StepHandled(o.events + [PostEvent(o.ext)] + rest, givesUp)
  {
    var events := o.events + [PostEvent(o.ext)] + rest;
    if givesUp {
      assert GivenUpAt(events, if o.events != [] && o.events[0].Begin? then 0 else |o.events|);
    }
  }

  lemma KeptHandled(o: Out, givesUp: bool)
    requires Handled(o, givesUp) && !Settled(o.ext)
    ensures StepHandled(o.events, givesUp)
  {
    if givesUp {
      assert GivenUpAt(o.events, 0);
    }
  }

  lemma PulseHandled(h: Host, e: Ext, hw: Hw, hws: nat -> Hw)
    requires h.blk > 0 && Engaged(h, e)
    ensures StepHandled(Take(h, e, InterruptPulse(hw, hws)).events, GivesUp(h, e, InterruptPulse(hw, hws)))
  {
    if !hw.intr.Nothing() {
      var o := HandleInterrupt(h, e, hw);
      InterruptHandled(h, e, hw);
      if Settled(o.ext) {
        var rest := StartCcb(h, o.ext.(nexus := None, state := Idle), hws, 0);
        PostedHandled(o, rest.events, InterruptGivesUp(h, e, hw));
      } else {
        KeptHandled(o, InterruptGivesUp(h, e, hw));
      }
    }
  }

  lemma TimerHandled(h: Host, e: Ext, hw: Hw, hws: nat -> Hw)
    requires h.blk > 0 && Engaged(h, e)
    ensures StepHandled(Take(h, e, TimerTick(hw, hws)).events, GivesUp(h, e, TimerTick(hw, hws)))
  {
    var e1 := if h.cdIntr then e else MediaCheck(e, hw.detect);
    assert e1.nexus == e.nexus;
    if !e1.inserted {
      assert GivenUpAt(Take(h, e, TimerTick(hw, hws)).events, 0);
    }
  }

  /** Every step gives the transfer up, or completes its stop, or lets it go on, as GivesUp says. */
  lemma StepIsHandled(h: Host, e: Ext, step: Step)
    requires h.blk > 0 && Engaged(h, e)
    ensures StepHandled(Take(h, e, step).events, GivesUp(h, e, step))
  {
    match step
    case InterruptPulse(hw, hws) => PulseHandled(h, e, hw, hws);
    case TimerTick(hw, hws) => TimerHandled(h, e, hw, hws);
    case _ =>
  }

  lemma AliveIsEngaged(h: Host, e: Ext, log: seq<Event>)
    requires h.blk > 0 && Inv(h, e, log) && Alive(Seen(h.AsBus(), log, |log|))
    ensures Engaged(h, e)
  {
    assert log[..|log|] == log;
    RestMeansDataPhaseOk(h, e, Watch(h.AsBus(), log));
  }

  // ---------------------------------------------------------------- runs

  function LogOf(h: Host, steps: seq<Step>): seq<Event>
    requires h.blk > 0
  {
    Run(h, steps).events
  }

  lemma {:induction false} LogPrefix(h: Host, steps: seq<Step>, t: nat)
    requires h.blk > 0 && t <= |steps|
    ensures |LogOf(h, steps[..t])| <= |LogOf(h, steps)|
    ensures LogOf(h, steps[..t]) == LogOf(h, steps)[..|LogOf(h, steps[..t])|]
  {
    if t == |steps| {
      assert steps[..t] == steps;
    } else {
      LogPrefix(h, steps[..|steps| - 1], t);
      assert steps[..|steps| - 1][..t] == steps[..t];
    }
  }

  /** Step t, with the log so far, gives an unstopped transfer up. */
  ghost predicate Abandons(h: Host, before: seq<Step>, step: Step)
    requires h.blk > 0
  {
    var r := Run(h, before);
    Unstopped(BusPhase(r.events)) && DataPhaseOk(h, r.ext) && GivesUp(h, r.ext, step)
  }

  /** Step t of the run does, with what is in the log beyond position i. */
  ghost predicate AbandonsAt(h: Host, steps: seq<Step>, i: nat, t: nat)
    requires h.blk > 0 && t < |steps|
  {
    i < |LogOf(h, steps[..t])| && Abandons(h, steps[..t], steps[t])
  }

  /** One of the first n steps does. */
  ghost predicate AbandonedSince(h: Host, steps: seq<Step>, i: nat, n: nat)
    requires h.blk > 0 && n <= |steps|
  {
    exists t: nat :: t < n && AbandonsAt(h, steps, i, t)
  }

  /** One of the steps that begin between log positions i and j does. */
  ghost predicate AbandonedBetween(h: Host, steps: seq<Step>, i: nat, j: nat)
    requires h.blk > 0
  {
    exists t: nat :: t < |steps| && |LogOf(h, steps[..t])| <= j && AbandonsAt(h, steps, i, t)
  }

  /** The events of a step, in place. */
  lemma StepInLog(h: Host, before: seq<Step>, step: Step)
    requires h.blk > 0
    ensures DataPhaseOk(h, Run(h, before).ext)
    ensures LogOf(h, before + [step]) == LogOf(h, before) + Take(h, Run(h, before).ext, step).events
  {
    RunStep(h, before, step);
  }

  /** A data command for some blocks ends the events, and leaves its request the nexus. */
  ghost predicate EndsWithData(o: Out) {
    forall k :: 0 <= k < |o.events| && o.events[k].Data? && o.events[k].blocks > 0 ==>
      k == |o.events| - 1 && o.ext.nexus.Some?
  }

  lemma TakeNextEndsWithData(h: Host, e: Ext, hw: Hw)
    requires h.blk > 0 && e.nexus.None? && e.queue != [] && e.queue[0].status == InProg
    ensures EndsWithData(TakeNext(h, e, hw))
  {
    var e1 := e.(nexus := Some(e.queue[0]), queue := e.queue[1..]);
    var o := Dispatch(h, e1, hw);
    assert DataLast(e1, o);
  }

  lemma ThenEndsWithData(a: Out, b: Out)
    requires EndsWithData(a) && EndsWithData(b) && (a.ext.nexus.Some? ==> b == Quiet(a.ext))
    ensures EndsWithData(Out(b.ext, a.events + b.events))
  {
    if a.ext.nexus.Some? {
      assert a.events + b.events == a.events;
    }
  }

  lemma {:induction false} StartCcbEndsWithData(h: Host, e: Ext, hws: nat -> Hw, k: nat)
    requires h.blk > 0 && QueueInProg(e.queue)
    ensures EndsWithData(StartCcb(h, e, hws, k))
    decreases |e.queue|
  {
    if e.nexus.None? && e.queue != [] {
      var o := TakeNext(h, e, hws(k));
      TakeNextEndsWithData(h, e, hws(k));
      TakeNextAccounts(h, e, hws(k));
      StartCcbEndsWithData(h, o.ext, hws, k + 1);
      ThenEndsWithData(o, StartCcb(h, o.ext, hws, k + 1));
    }
  }

  lemma TailEndsWithData(h: Host, o: Out, hws: nat -> Hw)
    requires h.blk > 0 && EndsWithData(o) && QueueInProg(o.ext.queue)
    ensures EndsWithData(TailCheck(h, o, hws))
  {
    if o.ext.nexus.None? {
      StartCcbEndsWithData(h, o.ext, hws, 0);
      ThenEndsWithData(o, StartCcb(h, o.ext, hws, 0));
    }
  }

  lemma InterruptEndsWithData(h: Host, e: Ext, hw: Hw)
    requires h.blk > 0 && DataPhaseOk(h, e) && !Settled(e)
    ensures EndsWithData(ProcessInterrupt(h, e, hw))
  {
    if !hw.intr.Nothing() {
      var o := HandleInterrupt(h, e, hw);
      assert DataLast(e, o);
      if e.nexus.None? {
        assert o.events == [];
      }
    }
  }

  lemma StepEndsWithData(h: Host, e: Ext, step: Step)
    requires h.blk > 0 && DataPhaseOk(h, e) && !Settled(e) && QueueInProg(e.queue)
    ensures EndsWithData(Take(h, e, step))
  {
    match step
    case EnqueuePulse(hws) =>
      StartCcbEndsWithData(h, e, hws, 0);
      StartCcbAccounts(h, e, hws, 0);
      TailEndsWithData(h, StartCcb(h, e, hws, 0), hws);
    case InterruptPulse(hw, hws) =>
      InterruptEndsWithData(h, e, hw);
      ProcessInterruptAccounts(h, e, hw);
      TailEndsWithData(h, ProcessInterrupt(h, e, hw), hws);
    case TimerTick(hw, hws) =>
      TimerPulseAccounts(h, e, hw);
      TailEndsWithData(h, TimerPulse(h, e, hw), hws);
    case _ =>
  }

  // ---------------------------------------------------------------- the verdict on every run

  /** After an open-ended command: stopped, or given up, or still being transferred. */
  predicate Verdict(v: View, abandoned: bool) {
    if abandoned then Stranded(v) else v.bus == Stopped || Alive(v)
  }

  /** The events of a step from a state with such a transfer */
  lemma EngagedEvents(h: Host, before: seq<Step>, step: Step) returns (events: seq<Event>)
    requires h.blk > 0 && Alive(Seen(h.AsBus(), LogOf(h, before), |LogOf(h, before)|))
    ensures LogOf(h, before + [step]) == LogOf(h, before) + events
    ensures StepHandled(events, Abandons(h, before, step))
  {
    SeenAtEnd(h.AsBus(), LogOf(h, before), |LogOf(h, before)|, LogOf(h, before));
    AbandonsIf(h, before, step);
    StepInLog(h, before, step);
    AliveIsEngaged(h, Run(h, before).ext, LogOf(h, before));
    StepIsHandled(h, Run(h, before).ext, step);
    events := Take(h, Run(h, before).ext, step).events;
  }

  lemma AbandonsIf(h: Host, before: seq<Step>, step: Step)
    requires h.blk > 0 && Unstopped(BusPhase(LogOf(h, before)))
    ensures DataPhaseOk(h, Run(h, before).ext)
    ensures Abandons(h, before, step) == GivesUp(h, Run(h, before).ext, step)
  {
    StepInLog(h, before, step);
  }

  lemma SeenAtEnd(bus: Bus, log: seq<Event>, a: nat, part: seq<Event>)
    requires bus.blk > 0 && a <= |log| && part == log[..a]
    ensures Seen(bus, part, |part|) == Seen(bus, log, a) && Seen(bus, log, a).bus == BusPhase(part)
  {
    assert part[..|part|] == log[..a];
  }

  lemma AliveVerdict(h: Host, before: seq<Step>, step: Step, n: nat)
    requires h.blk > 0
    requires var log, a := LogOf(h, before + [step]), |LogOf(h, before)|;
             && a <= n <= |log| && log[..a] == LogOf(h, before) && NoDataIn(log, a, n) && (n < |log| ==> log[n].Data?)
             && Alive(Seen(h.AsBus(), log, a))
    ensures Verdict(Seen(h.AsBus(), LogOf(h, before + [step]), n), Abandons(h, before, step))
  {
    var log, part := LogOf(h, before + [step]), LogOf(h, before);
    SeenAtEnd(h.AsBus(), log, |part|, part);
    RunIsAccepted(h, before + [step]);
    var events := EngagedEvents(h, before, step);
    AliveStep(h.AsBus(), log, part, events, n, Abandons(h, before, step));
  }

  lemma RunIsAccepted(h: Host, steps: seq<Step>)
    requires h.blk > 0
    ensures Watch(h.AsBus(), LogOf(h, steps)).ok
  {
  }

  lemma AliveStep(bus: Bus, log: seq<Event>, part: seq<Event>, events: seq<Event>, n: nat, givesUp: bool)
    requires bus.blk > 0 && Watch(bus, log).ok && log == part + events && |part| <= n <= |log|
    requires NoDataIn(log, |part|, n) && (n < |log| ==> log[n].Data?) && Alive(Seen(bus, log, |part|))
    requires StepHandled(events, givesUp)
    ensures Verdict(Seen(bus, log, n), givesUp)
  {
    var a := |part|;
    assert n < |log| ==> events[n - a].Data?;
    if givesUp {
      var q: nat :| GivenUpAt(events, q);
      assert q < n - a;
      assert forall k :: a <= k < a + q ==> log[k] == events[k - a];
      GivenUpStrands(bus, log, a, a + q, n);
    } else if events != [] && events[0] == StopDone {
      StoppedStays(bus, log, a, n);
    } else {
      assert forall k :: a <= k < n ==> log[k] == events[k - a];
      StaysAlive(bus, log, a, n);
    }
  }

  /** The verdict at the start of a step leads to the one at its end, or at its first data command. */
  lemma VerdictStep(h: Host, before: seq<Step>, step: Step, n: nat, abandoned: bool)
    requires h.blk > 0
    requires var log, a := LogOf(h, before + [step]), |LogOf(h, before)|;
             && a <= n <= |log| && log[..a] == LogOf(h, before) && NoDataIn(log, a, n) && (n < |log| ==> log[n].Data?)
             && Verdict(Seen(h.AsBus(), log, a), abandoned)
    ensures Verdict(Seen(h.AsBus(), LogOf(h, before + [step]), n), abandoned || Abandons(h, before, step))
  {
    var bus, log, a := h.AsBus(), LogOf(h, before + [step]), |LogOf(h, before)|;
    var v := Seen(bus, log, a);
    AlwaysConsistent(bus, log, a);
    if !abandoned && Alive(v) {
      AliveVerdict(h, before, step, n);
    } else {
      NothingUnderWay(bus, log, a, n);
    }
  }

  /** An open-ended command for some blocks, and none after it */
  predicate LastOpen(log: seq<Event>, i: nat) {
    i < |log| && log[i].Data? && log[i].openEnded && log[i].blocks > 0 && NoDataIn(log, i + 1, |log|)
  }

  /** Such a command is the last event of its step. */
  lemma LastOfStep(h: Host, before: seq<Step>, step: Step, i: nat)
    requires h.blk > 0 && |LogOf(h, before)| <= i < |LogOf(h, before + [step])|
    requires LogOf(h, before + [step])[i].Data? && LogOf(h, before + [step])[i].blocks > 0
    ensures i == |LogOf(h, before + [step])| - 1
  {
    StepInLog(h, before, step);
    var o := Take(h, Run(h, before).ext, step);
    StepEndsWithData(h, Run(h, before).ext, step);
    assert o.events[i - |LogOf(h, before)|] == LogOf(h, before + [step])[i];
  }

  /** At the end of its own step, it is under way. */
  lemma JustSent(h: Host, before: seq<Step>, step: Step, i: nat)
    requires h.blk > 0 && LastOpen(LogOf(h, before + [step]), i) && |LogOf(h, before)| <= i
    ensures var log := LogOf(h, before + [step]); Alive(Seen(h.AsBus(), log, |log|))
  {
    var log := LogOf(h, before + [step]);
    LastOfStep(h, before, step, i);
    AlwaysConsistent(h.AsBus(), log, |log|);
    SeenStep(h.AsBus(), log, i);
  }

  lemma OneMoreStep(h: Host, steps: seq<Step>, i: nat, n: nat)
    requires h.blk > 0 && n < |steps|
    ensures AbandonedSince(h, steps, i, n + 1) <==> AbandonedSince(h, steps, i, n) || AbandonsAt(h, steps, i, n)
  {
  }

  lemma LogGrows(h: Host, steps: seq<Step>, t: nat, n: nat)
    requires h.blk > 0 && t <= n <= |steps|
    ensures |LogOf(h, steps[..t])| <= |LogOf(h, steps[..n])|
    ensures LogOf(h, steps[..t]) == LogOf(h, steps[..n])[..|LogOf(h, steps[..t])|]
  {
    assert steps[..n][..t] == steps[..t];
    LogPrefix(h, steps[..n], t);
  }

  lemma {:induction false} RunVerdict(h: Host, steps: seq<Step>, i: nat, n: nat)
    requires h.blk > 0 && n <= |steps| && LastOpen(LogOf(h, steps[..n]), i)
    ensures var log := LogOf(h, steps[..n]); Verdict(Seen(h.AsBus(), log, |log|), AbandonedSince(h, steps, i, n))
    decreases n
  {
    if n > 0 {
      assert steps[..n] == steps[..n - 1] + [steps[n - 1]];
      LogGrows(h, steps, n - 1, n);
      if i >= |LogOf(h, steps[..n - 1])| {
        JustSent(h, steps[..n - 1], steps[n - 1], i);
        NoneBefore(h, steps, i, n);
      } else {
        var log, a := LogOf(h, steps[..n]), |LogOf(h, steps[..n - 1])|;
        SamePrefix(log, a, LogOf(h, steps[..n - 1]));
        RunVerdict(h, steps, i, n - 1);
        VerdictStep(h, steps[..n - 1], steps[n - 1], |log|, AbandonedSince(h, steps, i, n - 1));
        OneMoreStep(h, steps, i, n - 1);
      }
    }
  }

  lemma SamePrefix(log: seq<Event>, a: nat, part: seq<Event>)
    requires a <= |log| && part == log[..a]
    ensures part[..a] == log[..a] && |part| == a && forall k :: 0 <= k < a ==> part[k] == log[k]
  {
  }

  lemma NoneBefore(h: Host, steps: seq<Step>, i: nat, n: nat)
    requires h.blk > 0 && 0 < n <= |steps| && |LogOf(h, steps[..n - 1])| <= i
    ensures !AbandonedSince(h, steps, i, n)
  {
    forall t: nat | t < n ensures |LogOf(h, steps[..t])| <= i {
      LogGrows(h, steps, t, n - 1);
    }
  }

  lemma NoStepsNoLog(h: Host, steps: seq<Step>)
    requires h.blk > 0
    ensures LogOf(h, steps[..0]) == []
  {
  }

  lemma {:induction false} Crossing(len: nat -> nat, n: nat, j: nat) returns (t: nat)
    requires len(0) == 0 && j < len(n + 1)
    ensures t <= n && len(t) <= j < len(t + 1)
    decreases n
  {
    if n > 0 && j < len(n) {
      t := Crossing(len, n - 1, j);
    } else {
      t := n;
    }
  }

  /** The step that an event belongs to */
  lemma StepOf(h: Host, steps: seq<Step>, n: nat, j: nat) returns (t: nat)
    requires h.blk > 0 && n < |steps| && j < |LogOf(h, steps[..n + 1])|
    ensures t <= n && |LogOf(h, steps[..t])| <= j < |LogOf(h, steps[..t + 1])|
  {
    NoStepsNoLog(h, steps);
    t := Crossing(LengthAt(h, steps), n, j);
  }

  function LengthAt(h: Host, steps: seq<Step>): nat -> nat
    requires h.blk > 0
  {
    (k: nat) => if k <= |steps| then |LogOf(h, steps[..k])| else 0
  }

  predicate CoversNothing(m: Monitor) { m.phase == NoData || m.covered == 0 }

  lemma EmptyStep(bus: Bus, m: Monitor, ev: Event)
    requires bus.blk > 0 && CoversNothing(m) && !ev.Data? && Watch1(bus, m, ev).ok
    ensures CoversNothing(Watch1(bus, m, ev)) && ev != StopSent
  {
  }

  /** A command for no blocks is never stopped. */
  lemma {:induction false} EmptyIsNotStopped(bus: Bus, log: seq<Event>, i: nat, n: nat)
    requires bus.blk > 0 && Watch(bus, log).ok && i < n <= |log|
    requires log[i].Data? && log[i].blocks == 0 && NoDataIn(log, i + 1, n)
    ensures CoversNothing(Watch(bus, log[..n])) && !StopSentBetween(log, i, n)
  {
    PrefixOk(bus, log, n);
    PrefixStep(bus, log, n - 1);
    if n > i + 1 {
      EmptyIsNotStopped(bus, log, i, n - 1);
      EmptyStep(bus, Watch(bus, log[..n - 1]), log[n - 1]);
    } else {
      EmptyCoversNothing(bus, Watch(bus, log[..i]), log[i]);
    }
  }

  lemma EmptyCoversNothing(bus: Bus, m: Monitor, ev: Event)
    requires bus.blk > 0 && ev.Data? && ev.blocks == 0 && Watch1(bus, m, ev).ok
    ensures Watch1(bus, m, ev).covered == 0
  {
  }

  /** For all runs and any two data commands in a row, the first of them open-ended: CMD12 is sent and
      completed in between exactly if the first was for some blocks and no step in between gave it up. */
  lemma StoppedIff(h: Host, steps: seq<Step>, i: nat, j: nat)
    requires h.blk > 0 && i < j < |LogOf(h, steps)|
    requires var log := LogOf(h, steps); log[i].Data? && log[i].openEnded && log[j].Data? && NoDataIn(log, i + 1, j)
    ensures StoppedBetween(LogOf(h, steps), i, j)
            <==> LogOf(h, steps)[i].blocks > 0 && !AbandonedBetween(h, steps, i, j)
  {
    var bus, log := h.AsBus(), LogOf(h, steps);
    BusTellsOfStop(bus, log, i, j);
    if log[i].blocks == 0 {
      EmptyIsNotStopped(bus, log, i, j);
      assert !StoppedBetween(log, i, j);
    } else {
      StoppedIfSome(h, steps, i, j);
    }
  }

  /** The first t + 1 steps have logged j. */
  lemma PartOfLog(h: Host, steps: seq<Step>, j: nat) returns (t: nat)
    requires h.blk > 0 && j < |LogOf(h, steps)|
    ensures t < |steps| && |LogOf(h, steps[..t])| <= j < |LogOf(h, steps[..t + 1])|
    ensures var part := LogOf(h, steps[..t + 1]);
            part[..j] == LogOf(h, steps)[..j] && forall k :: 0 <= k <= j ==> part[k] == LogOf(h, steps)[k]
  {
    assert steps[..|steps|] == steps;
    NoStepsNoLog(h, steps);
    t := StepOf(h, steps, |steps| - 1, j);
    LogGrows(h, steps, t + 1, |steps|);
    SameUpTo(LogOf(h, steps), LogOf(h, steps[..t + 1]), j);
  }

  lemma SameUpTo(log: seq<Event>, part: seq<Event>, j: nat)
    requires |part| <= |log| && part == log[..|part|] && j < |part|
    ensures part[..j] == log[..j] && forall k :: 0 <= k <= j ==> part[k] == log[k]
  {
  }

  lemma StoppedIfSome(h: Host, steps: seq<Step>, i: nat, j: nat)
    requires h.blk > 0 && i < j < |LogOf(h, steps)|
    requires var log := LogOf(h, steps); log[i].Data? && log[i].openEnded && log[j].Data? && NoDataIn(log, i + 1, j)
    requires LogOf(h, steps)[i].blocks > 0
    ensures BusPhase(LogOf(h, steps)[..j]) == Stopped <==> !AbandonedBetween(h, steps, i, j)
  {
    var t := PartOfLog(h, steps, j);
    StoppedInStep(h, steps, t, i, j);
    OnlyEarlierSteps(h, steps, t, i, j);
  }

  /** An open-ended command for some blocks and the next data command after it */
  predicate Twice(log: seq<Event>, i: nat, j: nat) {
    && i < j < |log| && log[i].Data? && log[i].openEnded && log[i].blocks > 0 && log[j].Data?
    && NoDataIn(log, i + 1, j)
  }

  /** If these are from an earlier step and a later one, the first is the last of the earlier steps. */
  lemma SentEarlier(h: Host, before: seq<Step>, step: Step, upTo: seq<Step>, i: nat, j: nat)
    requires h.blk > 0 && upTo == before + [step] && |LogOf(h, before)| <= j && Twice(LogOf(h, upTo), i, j)
    ensures var log, part := LogOf(h, upTo), LogOf(h, before);
            LastOpen(part, i) && |part| <= |log| && log[..|part|] == part
  {
    var log, part := LogOf(h, upTo), LogOf(h, before);
    if i >= |part| {
      LastOfStep(h, before, step, i);
    }
    StepInLog(h, before, step);
    SamePrefix(log, |part|, part);
  }

  /** And the verdict on it before the step leads to the one at the second command. */
  lemma StoppedHere(h: Host, before: seq<Step>, step: Step, upTo: seq<Step>, i: nat, j: nat, abandoned: bool)
    requires h.blk > 0 && upTo == before + [step] && |LogOf(h, before)| <= j && Twice(LogOf(h, upTo), i, j)
    requires Verdict(Seen(h.AsBus(), LogOf(h, before), |LogOf(h, before)|), abandoned)
    ensures BusPhase(LogOf(h, upTo)[..j]) == Stopped <==> !(abandoned || Abandons(h, before, step))
  {
    var log, part := LogOf(h, upTo), LogOf(h, before);
    SentEarlier(h, before, step, upTo, i, j);
    SeenAtEnd(h.AsBus(), log, |part|, part);
    VerdictStep(h, before, step, j, abandoned);
    RunIsAccepted(h, upTo);
    DataFindsIt(h.AsBus(), log, j, abandoned || Abandons(h, before, step));
  }

  /** The same for the first t + 1 steps, when the second command belongs to the last of them. */
  lemma StoppedInStep(h: Host, steps: seq<Step>, t: nat, i: nat, j: nat)
    requires h.blk > 0 && t < |steps| && |LogOf(h, steps[..t])| <= j && Twice(LogOf(h, steps[..t + 1]), i, j)
    ensures BusPhase(LogOf(h, steps[..t + 1])[..j]) == Stopped <==> !AbandonedSince(h, steps, i, t + 1)
  {
    SentEarlier(h, steps[..t], steps[t], steps[..t + 1], i, j);
    RunVerdict(h, steps, i, t);
    StoppedHere(h, steps[..t], steps[t], steps[..t + 1], i, j, AbandonedSince(h, steps, i, t));
    OneMoreStep(h, steps, i, t);
  }

  /** A data command is only sent where the transfer before it was stopped or given up. */
  lemma DataFindsIt(bus: Bus, log: seq<Event>, j: nat, abandoned: bool)
    requires bus.blk > 0 && Watch(bus, log).ok && j < |log| && log[j].Data? && Verdict(Seen(bus, log, j), abandoned)
    ensures BusPhase(log[..j]) == Stopped <==> !abandoned
  {
    AlwaysConsistent(bus, log, j + 1);
    SeenStep(bus, log, j);
  }

  /** Steps after the one that j belongs to play no part. */
  lemma OnlyEarlierSteps(h: Host, steps: seq<Step>, t: nat, i: nat, j: nat)
    requires h.blk > 0 && t < |steps| && |LogOf(h, steps[..t])| <= j < |LogOf(h, steps[..t + 1])|
    ensures AbandonedBetween(h, steps, i, j) <==> AbandonedSince(h, steps, i, t + 1)
  {
    forall u: nat | u < |steps| ensures |LogOf(h, steps[..u])| <= j <==> u <= t {
      if u <= t {
        LogGrows(h, steps, u, t);
      } else {
        LogGrows(h, steps, t + 1, u);
      }
    }
  }
}
