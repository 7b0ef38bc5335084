/**
 How long a data error sticks to a request.  An attempt that met one is never reported as a success; the
 request is, if it is restarted and then needs no open-ended command, and only then.
 */
module RequestErrors {
  import opened Wrappers
  import opened Blocks
  import opened MmcTypes
  import opened BusRules
  import opened RequestMonitor
  import opened RequestEngine
  import opened RequestInvariant
  import opened RequestRuns
  import opened RequestProgress

  // ---------------------------------------------------------------- what a forgotten error takes

  /** The same request as before, as long as nothing is posted */
  predicate SameRequest(m: Monitor, m': Monitor) {
    m.id.Some? ==> m'.id == m.id && m'.lba == m.lba && m'.length == m.length && m'.mode == m.mode
  }

  lemma {:induction false} RequestStays(bus: Bus, log: seq<Event>, i: nat, j: nat)
    requires bus.blk > 0 && Watch(bus, log).ok && i <= j <= |log| && forall k :: i <= k < j ==> !log[k].Post?
    ensures SameRequest(Watch(bus, log[..i]), Watch(bus, log[..j]))
  {
    if i < j {
      RequestStays(bus, log, i, j - 1);
      PrefixStep(bus, log, j - 1);
      PrefixOk(bus, log, j);
      RequestStep(bus, Watch(bus, log[..j - 1]), log[j - 1]);
    }
  }

  lemma RequestStep(bus: Bus, m: Monitor, ev: Event)
    requires bus.blk > 0 && Watch1(bus, m, ev).ok && !ev.Post?
    ensures SameRequest(m, Watch1(bus, m, ev))
  {
  }

  predicate WithinRequest(bus: Bus, m: Monitor)
    requires bus.blk > 0
  {
    m.covered <= BlocksIn(bus.blk, m.length) && (m.covered > 0 ==> m.mode in bus.modes)
  }

  lemma WithinStep(bus: Bus, m: Monitor, ev: Event)
    requires bus.blk > 0 && WithinRequest(bus, m) && Watch1(bus, m, ev).ok
    ensures WithinRequest(bus, Watch1(bus, m, ev))
  {
  }

  lemma {:induction false} AlwaysWithin(bus: Bus, log: seq<Event>, n: nat)
    requires bus.blk > 0 && Watch(bus, log).ok && n <= |log|
    ensures WithinRequest(bus, Watch(bus, log[..n]))
  {
    if n > 0 {
      AlwaysWithin(bus, log, n - 1);
      PrefixStep(bus, log, n - 1);
      PrefixOk(bus, log, n);
      WithinStep(bus, Watch(bus, log[..n - 1]), log[n - 1]);
    }
  }

  /** A request of that length and mode sees a data error at i, is restarted at k, and is a success at j. */
  ghost predicate ForgetsError(log: seq<Event>, length: nat, mode: Mode, i: nat, k: nat, j: nat) {
    && i < k < j < |log| && log[i] == DataError && Success(log[j]) && (forall l :: i < l < j ==> !log[l].Post?)
    && log[k].Begin? && log[k].length == length && log[k].mode == mode
  }

  /** The controller can transfer all of such a request, at least a block, without an open-ended command:
      because it stops by itself, or there is one block only, or blocks can be commanded one by one. */
  predicate Forgettable(bus: Bus, length: nat, mode: Mode)
    requires bus.blk > 0
  {
    var blocks := BlocksIn(bus.blk, length);
    && mode in bus.modes && blocks > 0 && (mode != Scatter ==> Bytes(bus.blk, blocks) == length)
    && (bus.autoStop || blocks == 1 || mode == Flat)
  }

  lemma {:induction false} SomeCommand(log: seq<Event>, blk: nat, write: bool, lba: nat, n: nat) returns (l: nat)
    requires Tiles(blk, Commands(log), write, lba, n) && n > 0
    ensures l < |log| && log[l].Data?
  {
    if log[|log| - 1].Data? {
      l := |log| - 1;
    } else {
      assert Commands(log) == Commands(log[..|log| - 1]);
      l := SomeCommand(log[..|log| - 1], blk, write, lba, n);
    }
  }

  lemma CommandAllowed(bus: Bus, log: seq<Event>, l: nat)
    requires bus.blk > 0 && Watch(bus, log).ok && l < |log| && log[l].Data?
    ensures DataAllowed(bus, Watch(bus, log[..l]), log[l])
  {
    PrefixStep(bus, log, l);
    PrefixOk(bus, log, l + 1);
  }

  /** The data error came in an attempt that had commanded a block of the request. */
  lemma ErrorMeansBlocks(bus: Bus, log: seq<Event>, i: nat)
    requires bus.blk > 0 && Watch(bus, log).ok && i < |log| && log[i] == DataError
    ensures var m := Watch(bus, log[..i + 1]); m.id.Some? && BlocksIn(bus.blk, m.length) > 0 && m.mode in bus.modes
  {
    PrefixStep(bus, log, i);
    PrefixOk(bus, log, i + 1);
    AlwaysWithin(bus, log, i);
  }

  /** The request of the error is the one that is restarted at b. */
  lemma RestartIsOfError(bus: Bus, log: seq<Event>, i: nat, b: nat)
    requires bus.blk > 0 && Watch(bus, log).ok && i < b < |log| && log[i] == DataError && log[b].Begin?
    requires forall l :: i < l <= b ==> !log[l].Post?
    ensures BlocksIn(bus.blk, log[b].length) > 0 && log[b].mode in bus.modes
    ensures Watch(bus, log[..b + 1]).id.Some? && SameRequest(Watch(bus, log[..i + 1]), Watch(bus, log[..b + 1]))
  {
    ErrorMeansBlocks(bus, log, i);
    RequestStays(bus, log, i + 1, b + 1);
    PrefixStep(bus, log, b);
  }

  /** The attempt from b on succeeded without an open-ended command. */
  lemma ClosedAttempt(bus: Bus, log: seq<Event>, b: nat, j: nat)
    requires bus.blk > 0 && Watch(bus, log).ok && b < j < |log| && log[b].Begin?
    requires forall l :: b < l < j ==> !log[l].Post? && (log[l].Data? ==> !log[l].openEnded)
    requires BlocksIn(bus.blk, log[b].length) > 0
    requires Tiles(bus.blk, Commands(log[b + 1..j]), log[b].write, log[b].lba, BlocksIn(bus.blk, log[b].length))
    ensures bus.autoStop || BlocksIn(bus.blk, log[b].length) == 1 || log[b].mode == Flat
  {
    var l := SomeCommand(log[b + 1..j], bus.blk, log[b].write, log[b].lba, BlocksIn(bus.blk, log[b].length));
    assert log[b + 1 + l] == log[b + 1..j][l];
    ClosedCommand(bus, log, b, b + 1 + l);
  }

  lemma ClosedCommand(bus: Bus, log: seq<Event>, b: nat, at: nat)
    requires bus.blk > 0 && Watch(bus, log).ok && b < at < |log| && log[b].Begin?
    requires log[at].Data? && !log[at].openEnded && forall l :: b < l < at ==> !log[l].Post?
    ensures bus.autoStop || BlocksIn(bus.blk, log[b].length) == 1 || log[b].mode == Flat
  {
    PrefixStep(bus, log, b);
    RequestStays(bus, log, b + 1, at);
    CommandAllowed(bus, log, at);
  }

  /** In a log that the monitor accepts, an error is forgotten only where it can be. */
  lemma ForgottenOnlyIf(bus: Bus, log: seq<Event>, length: nat, mode: Mode, i: nat, k: nat, j: nat)
    requires bus.blk > 0 && Watch(bus, log).ok && ForgetsError(log, length, mode, i, k, j)
    ensures Forgettable(bus, length, mode)
  {
    var b := SuccessMeansTiled(bus, log, j);
    FailedSucceedsClosed(bus, log, i, j, b);
    RestartIsOfError(bus, log, i, b);
    RestartIsOfError(bus, log, i, k);
    SameLength(bus, log, i, k, b);
    ClosedAttempt(bus, log, b, j);
  }

  lemma SameLength(bus: Bus, log: seq<Event>, i: nat, k: nat, b: nat)
    requires bus.blk > 0 && Watch(bus, log).ok && i < k < |log| && i < b < |log|
    requires log[i] == DataError && log[k].Begin? && log[b].Begin?
    requires forall l :: i < l <= k || i < l <= b ==> !log[l].Post?
    ensures log[k].length == log[b].length && log[k].mode == log[b].mode
  {
    RestartIsOfError(bus, log, i, b);
    RestartIsOfError(bus, log, i, k);
    ErrorMeansBlocks(bus, log, i);
    PrefixStep(bus, log, b);
    PrefixStep(bus, log, k);
  }

  // ---------------------------------------------------------------- a run that forgets one

  function Request(length: nat, mode: Mode): Ccb {
    Ccb(0, Read, mode == Scatter, false, 0, length, if mode == Scatter then [length] else [], InProg, Good)
  }

  lemma RequestIs(h: Host, length: nat, mode: Mode)
    requires h.blk > 0 && Forgettable(h.AsBus(), length, mode)
    ensures Request(length, mode).Length() == length && h.ModeOf(Request(length, mode)) == mode
  {
    SumOfOne(length);
    assert mode == Pio <==> h.pio;
  }

  /** Hardware that does what it is asked, a block at a time */
  function Working(intr: Intr, ident: IdentOutcome, length: nat): Hw {
    Hw(intr, true, [], true, true, 1, true, true, true, true, true, [length], true, ident)
  }

  function Identified(length: nat): Hw { Working(Intr(false, false, true, false, false), IdentDone, length) }

  function Erring(length: nat): Hw { Working(Intr(false, true, false, false, false), IdentBusy, length) }

  /** Ready to start the request, which may be marked. */
  predicate Poised(e: Ext, length: nat, mode: Mode) {
    && e.state == Idle && e.ready && e.inserted && e.queue == [] && e.nexus.Some?
    && e.nexus.value == Request(length, mode).(scsi := e.nexus.value.scsi)
  }

  /** It is under way, without an open-ended command. */
  predicate Launched(e: Ext, length: nat, mode: Mode) {
    && InFlight(e) && e.inserted && e.queue == [] && e.stop != StopPend && e.stop != StopIssued
    && e.nexus.value == Request(length, mode).(scsi := e.nexus.value.scsi)
  }

  /** What one start of the request does to the bus */
  function Attempt(h: Host, length: nat, mode: Mode): seq<Event>
    requires h.blk > 0
  {
    [Begin(0, false, 0, length, mode)] + [Data(false, 0, 0, if mode == Flat then 1 else BlocksIn(h.blk, length), false)]
  }

  lemma PioStarts(h: Host, e: Ext, hw: Hw, length: nat)
    requires h.blk > 0 && Forgettable(h.AsBus(), length, Pio) && Poised(e, length, Pio) && e.blkno == 0
    requires hw.setupOk && hw.rwOk && e.dirIn
    ensures var o := PioInitiate(h, e, hw);
            Launched(o.ext, length, Pio) && o.events == [Data(false, 0, 0, BlocksIn(h.blk, length), false)]
            && o.ext.nexus == e.nexus
  {
    RequestIs(h, length, Pio);
    OneBlock(h.blk, BlocksIn(h.blk, length));
    assert PioInitiate(h, e, hw) == PioSend(h, e.(nbytes := length), length, true);
    assert Settle(e, InProg, e.nexus.value.scsi) == e;
  }

  lemma ScatterStarts(h: Host, e: Ext, hw: Hw, length: nat)
    requires h.blk > 0 && Forgettable(h.AsBus(), length, Scatter) && Poised(e, length, Scatter) && e.blkno == 0
    requires hw.setupOk && hw.rwOk && hw.cardReady && hw.media == [] && e.dirIn
    ensures var o := SgDmaInitiate(h, e, hw);
            Launched(o.ext, length, Scatter) && o.events == [Data(false, 0, 0, BlocksIn(h.blk, length), false)]
            && o.ext.nexus == e.nexus
  {
    RequestIs(h, length, Scatter);
    var n := BlocksIn(h.blk, length);
    OneBlock(h.blk, n);
    BlocksInBytes(h.blk, n);
    assert Waited(e, hw) == e;
    assert SgDmaInitiate(h, e, hw) == SgSend(h, e, Bytes(h.blk, n), true);
    assert Settle(e, InProg, e.nexus.value.scsi) == e;
  }

  lemma FlatStarts(h: Host, e: Ext, hw: Hw, length: nat)
    requires h.blk > 0 && Forgettable(h.AsBus(), length, Flat) && Poised(e, length, Flat)
    requires e.blkno == 0 && e.offset == 0
    requires hw.chunkBlocks == 1 && hw.rwOk && e.dirIn
    ensures var o := FlatDmaInitiate(h, e, hw);
            Launched(o.ext, length, Flat) && o.events == [Data(false, 0, 0, 1, false)] && o.ext.nexus == e.nexus
  {
    OneBlock(h.blk, 1);
    BlocksInBytes(h.blk, 1);
    var e1 := e.(nbytes := length);
    assert Settle(e, InProg, e.nexus.value.scsi) == e;
    assert DmaRw(h, e1, hw) == DmaXfer(h, e1, Bytes(h.blk, 1), true);
  }

  /** A poised request is started. */
  lemma Starts(h: Host, e: Ext, hw: Hw, length: nat, mode: Mode)
    requires h.blk > 0 && Forgettable(h.AsBus(), length, mode) && Poised(e, length, mode)
    requires hw == Identified(length) || hw == Erring(length)
    ensures var o := IoCmds(h, e, hw);
            Launched(o.ext, length, mode) && o.events == Attempt(h, length, mode) && o.ext.nexus == e.nexus
  {
    RequestIs(h, length, mode);
    var e1 := Rewound(e, hw);
    assert e1 == e.(offset := 0, curSg := 0, dirIn := true, blkno := 0);
    var o := Initiate(h, e1, hw);
    match mode
    case Pio => PioStarts(h, e1, hw, length); assert o == PioInitiate(h, e1, hw);
    case Flat => FlatStarts(h, e1, hw, length); assert o == FlatDmaInitiate(h, e1, hw);
    case Scatter => ScatterStarts(h, e1, hw, length); assert o == SgDmaInitiate(h, e1, hw);
    assert IoCmds(h, e, hw) == After(Begin(0, false, 0, length, mode), o);
  }

  function LaterHw(length: nat): nat -> Hw { _ => Erring(length) }

  function Pulse(hw: Hw, length: nat): Step { InterruptPulse(hw, LaterHw(length)) }

  /** A run that has led to this state with this log */
  ghost predicate Reached(h: Host, steps: seq<Step>, e: Ext, log: seq<Event>)
    requires h.blk > 0
  {
    Run(h, steps) == Out(e, log) && DataPhaseOk(h, e)
  }

  lemma ReachNext(h: Host, steps: seq<Step>, step: Step, e: Ext, log: seq<Event>, o: Out)
    requires h.blk > 0 && Reached(h, steps, e, log) && Take(h, e, step) == o
    ensures Reached(h, steps + [step], o.ext, log + o.events)
  {
    RunStep(h, steps, step);
    RestMeansDataPhaseOk(h, o.ext, Watch(h.AsBus(), log + o.events));
  }

  /** The request is the nexus of a driver that has just been initialized, and has been started. */
  lemma Arrives(h: Host, length: nat, mode: Mode) returns (steps: seq<Step>, e: Ext)
    requires h.blk > 0 && Forgettable(h.AsBus(), length, mode)
    ensures Reached(h, steps, e, Attempt(h, length, mode)) && Launched(e, length, mode)
    ensures e.nexus == Some(Request(length, mode))
  {
    var e1 := Start.(inserted := true, state := Ident);
    ReachNext(h, [], CardInserted(true), Start, [], Quiet(e1));
    var e2 := Start.(inserted := true, ready := true);
    assert Take(h, e1, Pulse(Identified(length), length)) == Quiet(e2) by {
      assert HandleInterrupt(h, e1, Identified(length)) == Quiet(e2);
      assert StartCcb(h, e2, LaterHw(length), 0) == Quiet(e2);
    }
    ReachNext(h, [] + [CardInserted(true)], Pulse(Identified(length), length), e1, [] + [], Quiet(e2));
    var ccb := Request(length, mode);
    var e3 := e2.(queue := [ccb], submitted := 1);
    var upTo2 := [] + [CardInserted(true)] + [Pulse(Identified(length), length)];
    ReachNext(h, upTo2, Submit(ccb), e2, [] + [] + [], Quiet(e3));
    var e4 := e2.(nexus := Some(ccb), submitted := 1);
    Starts(h, e4, Erring(length), length, mode);
    var o := IoCmds(h, e4, Erring(length));
    Dequeued(h, e3, ccb, length, o);
    steps := upTo2 + [Submit(ccb)] + [EnqueuePulse(LaterHw(length))];
    e := o.ext;
    ReachNext(h, upTo2 + [Submit(ccb)], EnqueuePulse(LaterHw(length)), e3, [] + [] + [] + [], o);
    assert [] + [] + [] + [] + o.events == o.events;
  }

  lemma Dequeued(h: Host, e: Ext, ccb: Ccb, length: nat, o: Out)
    requires h.blk > 0 && e.nexus.None? && e.queue == [ccb] && ccb.func == Read && e.state == Idle
    requires o == IoCmds(h, e.(nexus := Some(ccb), queue := []), Erring(length)) && InFlight(o.ext)
    ensures Take(h, e, EnqueuePulse(LaterHw(length))) == o
  {
    assert [ccb][1..] == [];
    assert TakeNext(h, e, LaterHw(length)(0)) == o;
    assert StartCcb(h, o.ext, LaterHw(length), 1) == Quiet(o.ext);
    assert o.events + [] == o.events;
  }

  /** The data error: CMD12 goes out, and the request is marked. */
  lemma Errs(h: Host, e: Ext, length: nat, mode: Mode)
    requires h.blk > 0 && Launched(e, length, mode) && DataPhaseOk(h, e)
    ensures Take(h, e, Pulse(Erring(length), length))
            == Out(e.(inserted := true, stopsRetry := 0, stop := StopIssued,
                      nexus := Some(Request(length, mode).(scsi := Check))), [DataError] + [StopSent])
  {
    var hw, e1 := Erring(length), e.(inserted := true, stopsRetry := 0);
    assert TransferError(e.(stopsRetry := 0), hw)
      == After(DataError, SendStop(Settle(e1, InProg, Check), true));
    assert DataIrq(h, e, hw) == TransferError(e.(stopsRetry := 0), hw);
    assert HandleInterrupt(h, e, hw) == DataIrq(h, e, hw);
  }

  /** The reset, and the identification that ends by starting the request afresh */
  lemma Restarts(h: Host, e: Ext, length: nat, mode: Mode) returns (o: Out)
    requires h.blk > 0 && Forgettable(h.AsBus(), length, mode)
    requires e.state == InData && e.inserted && e.queue == [] && e.nexus == Some(Request(length, mode).(scsi := Check))
    ensures Launched(o.ext, length, mode) && o.events == Attempt(h, length, mode)
            && o.ext.nexus.value.scsi == Check
    ensures Take(h, e.(resetting := true, state := Ident), Pulse(Identified(length), length)) == o
  {
    var e1 := e.(resetting := false, state := Idle, ready := true);
    Starts(h, e1, Identified(length), length, mode);
    o := IoCmds(h, e1, Identified(length));
    assert HandleInterrupt(h, e.(resetting := true, state := Ident), Identified(length)) == o;
  }

  // ---------------------------------------------------------------- the rest of the run

  /** Step after step, from any state on */
  function Fold(f: (Ext, Step) -> Out, e: Ext, steps: seq<Step>): Out {
    if steps == [] then Quiet(e)
    else
      var before := Fold(f, e, steps[..|steps| - 1]);
      var o := f(before.ext, steps[|steps| - 1]);
      Out(o.ext, before.events + o.events)
  }

  lemma {:induction false} FoldConcat(f: (Ext, Step) -> Out, e: Ext, a: seq<Step>, b: seq<Step>)
    ensures var o := Fold(f, e, a);
            var rest := Fold(f, o.ext, b);
            Fold(f, e, a + b) == Out(rest.ext, o.events + rest.events)
    decreases |b|
  {
    if b == [] {
      assert a + b == a;
    } else {
      var n := |b| - 1;
      FoldConcat(f, e, a, b[..n]);
      assert (a + b)[..|a| + n] == a + b[..n];
    }
  }

  lemma FoldStep(f: (Ext, Step) -> Out, e: Ext, before: seq<Step>, step: Step)
    ensures var o := f(Fold(f, e, before).ext, step);
            Fold(f, e, before + [step]) == Out(o.ext, Fold(f, e, before).events + o.events)
  {
    assert (before + [step])[..|before|] == before;
  }

  function TakeOf(h: Host): (Ext, Step) -> Out
    requires h.blk > 0
  {
    (e: Ext, step: Step) => if DataPhaseOk(h, e) then Take(h, e, step) else Quiet(e)
  }

  lemma FoldOne(f: (Ext, Step) -> Out, e: Ext, step: Step)
    ensures Fold(f, e, [step]) == f(e, step)
  {
    assert [step][..0] == [];
  }

  /** What a run makes of some steps, as a fold */
  function Folded(h: Host, steps: seq<Step>): Out
    requires h.blk > 0
  {
    Fold(TakeOf(h), Start, steps)
  }

  lemma NothingFolded(h: Host)
    requires h.blk > 0
    ensures Run(h, []) == Folded(h, [])
  {
  }

  lemma FoldKeepsUp(h: Host, before: seq<Step>, step: Step, upTo: seq<Step>)
    requires h.blk > 0 && upTo == before + [step] && Run(h, before) == Folded(h, before)
    ensures Run(h, upTo) == Folded(h, upTo)
  {
    RunIsStep(h, before, step);
    FoldStep(TakeOf(h), Start, before, step);
  }

  lemma {:induction false} RunIsFold(h: Host, steps: seq<Step>)
    requires h.blk > 0
    ensures Run(h, steps) == Folded(h, steps)
  {
    if steps == [] {
      NothingFolded(h);
    } else {
      RunIsFold(h, steps[..|steps| - 1]);
      FoldKeepsUp(h, steps[..|steps| - 1], steps[|steps| - 1], steps);
    }
  }

  lemma RunIsStep(h: Host, before: seq<Step>, step: Step)
    requires h.blk > 0
    ensures var r := Run(h, before);
            var o := TakeOf(h)(r.ext, step);
            Run(h, before + [step]) == Out(o.ext, r.events + o.events)
  {
    RunStep(h, before, step);
  }

  lemma RunTakes(h: Host, steps: seq<Step>, more: seq<Step>)
    requires h.blk > 0
    ensures Run(h, steps + more).events == Run(h, steps).events + Fold(TakeOf(h), Run(h, steps).ext, more).events
  {
    RunIsFold(h, steps);
    RunIsFold(h, steps + more);
    FoldConcat(TakeOf(h), Start, steps, more);
  }

  /** The same next step, seen as a step of a run */
  ghost predicate StepsAs(f: (Ext, Step) -> Out, step: (Ext, nat) -> Step, next: (Ext, nat) -> Out) {
    forall e, k :: InFlight(e) && e.queue == [] ==> f(e, step(e, k)) == next(e, k) && next(e, k).ext.queue == []
  }

  lemma {:induction false} RepeatIsFold(f: (Ext, Step) -> Out, step: (Ext, nat) -> Step, next: (Ext, nat) -> Out,
                                        e: Ext, k: nat, n: nat) returns (steps: seq<Step>)
    requires StepsAs(f, step, next) && e.queue == []
    ensures Fold(f, e, steps) == Repeat(next, e, k, n)
    decreases n
  {
    steps := [];
    if n > 0 && InFlight(e) {
      steps := RepeatIsFold(f, step, next, next(e, k).ext, k + 1, n - 1);
      FoldOne(f, e, step(e, k));
      FoldConcat(f, e, [step(e, k)], steps);
      steps := [step(e, k)] + steps;
    }
  }

  function PulseOf(feeds: nat -> Feed): (Ext, nat) -> Step {
    (e: Ext, k: nat) => InterruptPulse(Answer(e, feeds(k)), LaterHw(0))
  }

  /** With an empty queue, serving a request is a run of interrupts. */
  lemma ServeTakes(h: Host, e: Ext, feeds: nat -> Feed, k: nat, n: nat) returns (more: seq<Step>)
    requires h.blk > 0 && e.queue == []
    ensures Fold(TakeOf(h), e, more) == Serve(h, e, feeds, k, n)
  {
    forall e, k | InFlight(e) && e.queue == []
      ensures TakeOf(h)(e, PulseOf(feeds)(e, k)) == Interrupt(h, feeds)(e, k)
      ensures Interrupt(h, feeds)(e, k).ext.queue == []
    {
      if DataPhaseOk(h, e) {
        QueueStaysEmpty(h, e, Answer(e, feeds(k)), LaterHw(0));
        assert Interrupt(h, feeds)(e, k) == ProcessInterrupt(h, e, Answer(e, feeds(k)));
      } else {
        assert Interrupt(h, feeds)(e, k) == Quiet(e);
      }
    }
    more := RepeatIsFold(TakeOf(h), PulseOf(feeds), Interrupt(h, feeds), e, k, n);
  }

  lemma QueueStaysEmpty(h: Host, e: Ext, hw: Hw, hws: nat -> Hw)
    requires h.blk > 0 && DataPhaseOk(h, e) && e.queue == []
    ensures var o := ProcessInterrupt(h, e, hw); o.ext.queue == [] && Take(h, e, InterruptPulse(hw, hws)) == o
  {
    var o := ProcessInterrupt(h, e, hw);
    assert o.events + [] == o.events;
  }

  lemma DmaRwOneBlock(h: Host, e: Ext, hw: Hw)
    requires h.blk > 0 && e.nexus.Some? && 0 <= e.offset <= e.nbytes && hw.chunkBlocks == 1
    ensures !OpenIn(DmaRw(h, e, hw).events)
  {
    OneBlock(h.blk, 1);
  }

  /** Commands for one block at a time are not open-ended. */
  lemma OneBlockEach(h: Host, e: Ext, feed: Feed)
    requires h.blk > 0 && !h.pio && InFlight(e) && DataPhaseOk(h, e) && feed.blocks == 1
    ensures !OpenIn(ProcessInterrupt(h, e, Answer(e, feed)).events)
  {
    var hw := Answer(e, feed);
    var o := DataIrq(h, e, hw);
    if e.stop == StopIssued {
      var e1 := e.(stopsRetry := 0, stop := StopNone);
      DmaRwOneBlock(h, e1, hw);
      assert o == After(StopDone, if e.nexus.value.scsi == Check then Quiet(Fail(e1)) else DmaRw(h, e1, hw));
      AfterIsNotOpen(StopDone, if e.nexus.value.scsi == Check then Quiet(Fail(e1)) else DmaRw(h, e1, hw));
    } else {
      DmaRwOneBlock(h, e.(stopsRetry := 0), hw);
      assert o == DmaIrq(h, e.(stopsRetry := 0), hw);
    }
    assert HandleInterrupt(h, e, hw).events == o.events;
  }

  lemma AfterIsNotOpen(ev: Event, o: Out)
    requires !ev.Data? && !OpenIn(o.events)
    ensures !OpenIn(After(ev, o).events)
  {
    var events := After(ev, o).events;
    assert forall k :: 1 <= k < |events| ==> events[k] == o.events[k - 1];
  }

  /** What holds of the events of every step, and of such events put together, holds of all of them. */
  lemma {:induction false} RepeatAll(next: (Ext, nat) -> Out, e: Ext, k: nat, n: nat, good: seq<Event> -> bool)
    requires good([]) && forall a, b :: good(a) && good(b) ==> good(a + b)
    requires forall e, k :: InFlight(e) ==> good(next(e, k).events)
    ensures good(Repeat(next, e, k, n).events)
    decreases n
  {
    if n > 0 && InFlight(e) {
      RepeatAll(next, next(e, k).ext, k + 1, n - 1, good);
    }
  }

  lemma ServeOneBlock(h: Host, e: Ext, feeds: nat -> Feed, k: nat, n: nat)
    requires h.blk > 0 && !h.pio && forall k :: feeds(k).blocks == 1
    ensures !OpenIn(Serve(h, e, feeds, k, n).events)
  {
    var good := (events: seq<Event>) => !OpenIn(events);
    forall a, b | good(a) && good(b) ensures good(a + b) {
      OpenInEither(a, b);
    }
    forall e, k | InFlight(e) ensures good(Interrupt(h, feeds)(e, k).events) {
      if DataPhaseOk(h, e) {
        OneBlockEach(h, e, feeds(k));
        assert Interrupt(h, feeds)(e, k) == ProcessInterrupt(h, e, Answer(e, feeds(k)));
      } else {
        assert Interrupt(h, feeds)(e, k) == Quiet(e);
      }
    }
    RepeatAll(Interrupt(h, feeds), e, k, n, good);
  }

  /** Nor are commands of a controller that stops by itself, or for a request of one block. */
  lemma AcceptedClosed(bus: Bus, log: seq<Event>, b: nat, l: nat)
    requires bus.blk > 0 && Watch(bus, log).ok && b < l < |log| && log[b].Begin? && log[l].Data?
    requires forall k :: b < k < l ==> !log[k].Post?
    requires bus.autoStop || BlocksIn(bus.blk, log[b].length) == 1
    ensures !log[l].openEnded
  {
    PrefixStep(bus, log, b);
    RequestStays(bus, log, b + 1, l);
    CommandAllowed(bus, log, l);
  }

  lemma RestIsClosed(h: Host, log: seq<Event>, b: nat, rest: seq<Event>, length: nat, mode: Mode)
    requires h.blk > 0 && Watch(h.AsBus(), log + rest).ok && Forgettable(h.AsBus(), length, mode)
    requires b < |log| && log[b].Begin? && log[b].length == length && forall k :: b < k < |log| ==> !log[k].Post?
    requires forall k :: 0 <= k < |rest| - 1 ==> !rest[k].Post?
    requires h.acmd12 || BlocksIn(h.blk, length) == 1
    ensures !OpenIn(rest)
  {
    forall l | 0 <= l < |rest| && rest[l].Data? ensures !rest[l].openEnded {
      var all := log + rest;
      assert all[|log| + l] == rest[l] && all[b] == log[b];
      AcceptedClosed(h.AsBus(), all, b, |log| + l);
    }
  }

  const ONE_BY_ONE: nat -> Feed := _ => Feed(1, [1])

  /** From the start of the request to its mark, and from there to its restart */
  lemma UpToMark(h: Host, length: nat, mode: Mode) returns (steps: seq<Step>, e: Ext)
    requires h.blk > 0 && Forgettable(h.AsBus(), length, mode)
    ensures Reached(h, steps, e, Attempt(h, length, mode) + ([DataError] + [StopSent]))
    ensures e.state == InData && e.inserted && e.queue == [] && e.nexus == Some(Request(length, mode).(scsi := Check))
  {
    steps, e := Arrives(h, length, mode);
    Errs(h, e, length, mode);
    var o := Take(h, e, Pulse(Erring(length), length));
    ReachNext(h, steps, Pulse(Erring(length), length), e, Attempt(h, length, mode), o);
    steps, e := steps + [Pulse(Erring(length), length)], o.ext;
  }

  lemma UpToReset(h: Host, length: nat, mode: Mode) returns (steps: seq<Step>, e: Ext)
    requires h.blk > 0 && Forgettable(h.AsBus(), length, mode)
    ensures Reached(h, steps, e.(resetting := true, state := Ident),
                    Attempt(h, length, mode) + ([DataError] + [StopSent]) + [])
    ensures e.state == InData && e.inserted && e.queue == [] && e.nexus == Some(Request(length, mode).(scsi := Check))
  {
    steps, e := UpToMark(h, length, mode);
    ReachNext(h, steps, Reset(true), e, Attempt(h, length, mode) + ([DataError] + [StopSent]),
              Quiet(e.(resetting := true, state := Ident)));
    steps := steps + [Reset(true)];
  }

  lemma UpToRestart(h: Host, length: nat, mode: Mode) returns (steps: seq<Step>, e: Ext, log: seq<Event>)
    requires h.blk > 0 && Forgettable(h.AsBus(), length, mode)
    ensures Reached(h, steps, e, log) && Launched(e, length, mode)
    ensures log == Attempt(h, length, mode) + [DataError] + [StopSent] + Attempt(h, length, mode)
  {
    steps, e := UpToReset(h, length, mode);
    log := Attempt(h, length, mode) + ([DataError] + [StopSent]) + [];
    var o := Restarts(h, e, length, mode);
    ReachNext(h, steps, Pulse(Identified(length), length), e.(resetting := true, state := Ident), log, o);
    steps, e, log := steps + [Pulse(Identified(length), length)], o.ext, log + o.events;
    BothAttempts(Attempt(h, length, mode));
  }

  lemma BothAttempts(a: seq<Event>)
    ensures a + ([DataError] + [StopSent]) + [] + a == a + [DataError] + [StopSent] + a
  {
  }

  /** A launched request has whole blocks to go. */
  lemma LaunchedEnds(h: Host, steps: seq<Step>, e: Ext, log: seq<Event>, length: nat, mode: Mode) returns (n: nat)
    requires h.blk > 0 && Forgettable(h.AsBus(), length, mode) && Reached(h, steps, e, log) && Launched(e, length, mode)
    ensures Ends(e, Serve(h, e, ONE_BY_ONE, 0, n))
  {
    n := RequestEnds(h, steps, ONE_BY_ONE);
  }

  /** The log of such a run, put together */
  lemma ForgottenLog(h: Host, length: nat, mode: Mode, log: seq<Event>, rest: seq<Event>)
    requires h.blk > 0 && log == Attempt(h, length, mode) + [DataError] + [StopSent] + Attempt(h, length, mode)
    requires rest != [] && Success(rest[|rest| - 1]) && forall k :: 0 <= k < |rest| - 1 ==> !rest[k].Post?
    ensures ForgetsError(log + rest, length, mode, 2, 4, |log| + |rest| - 1)
  {
    var all := log + rest;
    assert |log| == 6 && log[2] == DataError && log[4] == Begin(0, false, 0, length, mode);
    assert forall k :: 0 <= k < |log| ==> all[k] == log[k] && !log[k].Post?;
    assert forall k :: 0 <= k < |rest| ==> all[|log| + k] == rest[k];
  }

  /** Nothing that is sent after the restart is open-ended, so the mark does no harm. */
  lemma ServedWell(h: Host, e: Ext, log: seq<Event>, o: Out, length: nat, mode: Mode)
    requires h.blk > 0 && Forgettable(h.AsBus(), length, mode) && Launched(e, length, mode)
    requires log == Attempt(h, length, mode) + [DataError] + [StopSent] + Attempt(h, length, mode)
    requires Ends(e, o) && (mode == Flat ==> !OpenIn(o.events)) && Watch(h.AsBus(), log + o.events).ok
    ensures Success(o.events[|o.events| - 1])
  {
    if mode != Flat {
      assert |log| == 6 && log[4] == Begin(0, false, 0, length, mode);
      RestIsClosed(h, log, 4, o.events, length, mode);
    }
  }

  /** Some run forgets a data error of such a request. */
  ghost predicate Forgets(h: Host, length: nat, mode: Mode)
    requires h.blk > 0
  {
    exists steps: seq<Step>, i: nat, k: nat, j: nat :: ForgetsError(Run(h, steps).events, length, mode, i, k, j)
  }

  lemma RunAccepted(h: Host, steps: seq<Step>)
    requires h.blk > 0
    ensures Watch(h.AsBus(), Run(h, steps).events).ok
  {
  }

  lemma ItForgets(h: Host, length: nat, mode: Mode, steps: seq<Step>, i: nat, k: nat, j: nat)
    requires h.blk > 0 && ForgetsError(Run(h, steps).events, length, mode, i, k, j)
    ensures Forgets(h, length, mode)
  {
  }

  lemma ForgetsIf(h: Host, length: nat, mode: Mode)
    requires h.blk > 0 && Forgettable(h.AsBus(), length, mode)
    ensures Forgets(h, length, mode)
  {
    var upTo, e, log := UpToRestart(h, length, mode);
    var n := LaunchedEnds(h, upTo, e, log, length, mode);
    var steps := ServedRun(h, upTo, e, log, n);
    if mode == Flat {
      ServeOneBlock(h, e, ONE_BY_ONE, 0, n);
    }
    Concluded(h, length, mode, e, log, Serve(h, e, ONE_BY_ONE, 0, n), steps);
  }

  lemma ConcludedLog(h: Host, length: nat, mode: Mode, e: Ext, log: seq<Event>, o: Out)
    requires h.blk > 0 && Forgettable(h.AsBus(), length, mode) && Launched(e, length, mode)
    requires log == Attempt(h, length, mode) + [DataError] + [StopSent] + Attempt(h, length, mode)
    requires Ends(e, o) && (mode == Flat ==> !OpenIn(o.events)) && Watch(h.AsBus(), log + o.events).ok
    ensures ForgetsError(log + o.events, length, mode, 2, 4, |log| + |o.events| - 1)
  {
    ServedWell(h, e, log, o, length, mode);
    ForgottenLog(h, length, mode, log, o.events);
  }

  lemma Concluded(h: Host, length: nat, mode: Mode, e: Ext, log: seq<Event>, o: Out, steps: seq<Step>)
    requires h.blk > 0 && Forgettable(h.AsBus(), length, mode) && Launched(e, length, mode)
    requires log == Attempt(h, length, mode) + [DataError] + [StopSent] + Attempt(h, length, mode)
    requires Ends(e, o) && (mode == Flat ==> !OpenIn(o.events)) && Run(h, steps).events == log + o.events
    ensures Forgets(h, length, mode)
  {
    RunAccepted(h, steps);
    ConcludedLog(h, length, mode, e, log, o);
    ItForgets(h, length, mode, steps, 2, 4, |log| + |o.events| - 1);
  }

  lemma ServedRun(h: Host, steps: seq<Step>, e: Ext, log: seq<Event>, n: nat) returns (all: seq<Step>)
    requires h.blk > 0 && Reached(h, steps, e, log) && e.queue == []
    ensures Run(h, all).events == log + Serve(h, e, ONE_BY_ONE, 0, n).events
  {
    var more := ServeTakes(h, e, ONE_BY_ONE, 0, n);
    RunTakes(h, steps, more);
    all := steps + more;
  }

  lemma ForgetsOnlyIf(h: Host, length: nat, mode: Mode)
    requires h.blk > 0 && Forgets(h, length, mode)
    ensures Forgettable(h.AsBus(), length, mode)
  {
    var steps: seq<Step>, i: nat, k: nat, j: nat :| ForgetsError(Run(h, steps).events, length, mode, i, k, j);
    RunAccepted(h, steps);
    ForgottenOnlyIf(h.AsBus(), Run(h, steps).events, length, mode, i, k, j);
  }

  // ---------------------------------------------------------------- both directions

  /** A data error of a request is forgotten in some run exactly if the request is forgettable. */
  lemma ErrorForgottenIff(h: Host, length: nat, mode: Mode)
    requires h.blk > 0
    ensures Forgets(h, length, mode) <==> Forgettable(h.AsBus(), length, mode)
  {
    if Forgettable(h.AsBus(), length, mode) {
      ForgetsIf(h, length, mode);
    } else if Forgets(h, length, mode) {
      ForgetsOnlyIf(h, length, mode);
    }
  }

  /** In every run, a success that follows a data error is that of an attempt that began after the error.  If
      it is the same request, no command of that attempt was open-ended. */
  lemma ErrorSticks(h: Host, steps: seq<Step>, i: nat, j: nat) returns (k: nat)
    requires h.blk > 0
    requires var log := Run(h, steps).events; i < j < |log| && log[i] == DataError && Success(log[j])
    ensures var log := Run(h, steps).events;
            && i < k < j && log[k].Begin? && log[k].id == log[j].id && SameAttempt(log, k + 1, j)
            && ((forall l :: i < l < j ==> !log[l].Post?) ==>
                  && (forall l :: k < l < j && log[l].Data? ==> !log[l].openEnded)
                  && Forgettable(h.AsBus(), log[k].length, log[k].mode))
  {
    RunAccepted(h, steps);
    k := StickyInLog(h.AsBus(), Run(h, steps).events, i, j);
  }

  lemma StickyInLog(bus: Bus, log: seq<Event>, i: nat, j: nat) returns (k: nat)
    requires bus.blk > 0 && Watch(bus, log).ok && i < j < |log| && log[i] == DataError && Success(log[j])
    ensures i < k < j && log[k].Begin? && log[k].id == log[j].id && SameAttempt(log, k + 1, j)
    ensures (forall l :: i < l < j ==> !log[l].Post?) ==>
              && (forall l :: k < l < j && log[l].Data? ==> !log[l].openEnded)
              && Forgettable(bus, log[k].length, log[k].mode)
  {
    k := SuccessMeansTiled(bus, log, j);
    if k < i {
      ErrorIsSticky(bus, log, i, j);
    } else if forall l :: i < l < j ==> !log[l].Post? {
      FailedSucceedsClosed(bus, log, i, j, k);
      ForgottenOnlyIf(bus, log, log[k].length, log[k].mode, i, k, j);
    }
  }
}
