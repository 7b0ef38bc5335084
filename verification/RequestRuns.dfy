/**
 Whole runs of the request engine: every step keeps the invariant, so every run completes each request
 at most once and in order, closes what it opens, and reports success only for what was transferred.
 */
module RequestRuns {
  import opened Wrappers
  import opened MmcTypes
  import opened BusRules
  import opened RequestMonitor
  import opened RequestEngine
  import opened RequestInvariant

  // ---------------------------------------------------------------- the bus, step by step

  /** Between steps: no request is settled but unposted, and a data phase agrees with the log. */
  predicate Rest(h: Host, e: Ext, m: Monitor)
    requires h.blk > 0
  {
    && m.ok && !Settled(e) && Held(h, e, m)
    && (e.state == InData ==> UnderWay(h, e, m) && AtRest(h, e, m))
  }

  lemma RestMeansDataPhaseOk(h: Host, e: Ext, m: Monitor)
    requires h.blk > 0 && Rest(h, e, m)
    ensures DataPhaseOk(h, e)
  {
  }

  /** What a handler leaves for the tail of mmc_process_interrupt. */
  ghost predicate Coherent(h: Host, m: Monitor, o: Out)
    requires h.blk > 0
  {
    var m' := WatchFrom(h.AsBus(), m, o.events);
    if Settled(o.ext) then m'.ok && SuccessEarned(h, o.ext, m') else Rest(h, o.ext, m')
  }

  lemma SoundIsCoherent(h: Host, m: Monitor, o: Out)
    requires h.blk > 0 && Sound(h, m, o)
    ensures Coherent(h, m, o)
  {
  }

  lemma QuietCoherent(h: Host, e: Ext, m: Monitor)
    requires h.blk > 0 && Rest(h, e, m)
    ensures Coherent(h, m, Quiet(e))
  {
  }

  lemma FailCoherent(h: Host, e: Ext, m: Monitor)
    requires h.blk > 0 && m.ok && !Settled(e) && e.state != InData
    requires Held(h, e, m)
    ensures Coherent(h, m, Quiet(Fail(e)))
  {
  }

  lemma IdentDoneCoherent(h: Host, e: Ext, hw: Hw, m: Monitor)
    requires h.blk > 0 && Rest(h, e, m) && e.state == Ident && hw.ident == IdentDone
    ensures Coherent(h, m, IdentIrq(h, e, hw))
  {
    var e1 := e.(state := Idle, resetting := false, ready := true);
    if e.nexus.Some? {
      IoCmdsSound(h, e1, hw, m);
      SoundIsCoherent(h, m, IoCmds(h, e1, hw));
      assert IdentIrq(h, e, hw) == IoCmds(h, e1, hw);
    } else {
      QuietCoherent(h, e1, m);
      assert IdentIrq(h, e, hw) == Quiet(e1);
    }
  }

  lemma IdentFailedCoherent(h: Host, e: Ext, hw: Hw, m: Monitor)
    requires h.blk > 0 && Rest(h, e, m) && e.state == Ident && hw.ident == IdentFailed
    ensures Coherent(h, m, IdentIrq(h, e, hw))
  {
    var e1 := Fail(e);
    FailCoherent(h, e, m);
    if !e.resetting {
      NotDataCoherent(h, e1, MediaCheck(e1.(state := Idle), false), m);
      NotDataCoherent(h, e1, e1.(state := Idle), m);
    }
  }

  /** Outside the data phase only the nexus matters. */
  lemma NotDataCoherent(h: Host, e: Ext, e': Ext, m: Monitor)
    requires h.blk > 0 && Coherent(h, m, Quiet(e)) && e'.nexus == e.nexus && e'.state == Idle
    ensures Coherent(h, m, Quiet(e'))
  {
  }

  lemma IdentIrqCoherent(h: Host, e: Ext, hw: Hw, m: Monitor)
    requires h.blk > 0 && Rest(h, e, m) && e.state == Ident
    ensures Coherent(h, m, IdentIrq(h, e, hw))
  {
    match hw.ident
    case IdentBusy => QuietCoherent(h, e, m);
    case IdentDone => IdentDoneCoherent(h, e, hw, m);
    case IdentFailed => IdentFailedCoherent(h, e, hw, m);
  }

  lemma CardIrqCoherent(h: Host, e: Ext, detect: bool, m: Monitor)
    requires h.blk > 0 && Rest(h, e, m)
    ensures Coherent(h, m, Quiet(Fail(MediaCheck(e, detect))))
  {
    var e1 := MediaCheck(e, detect);
    if e.nexus.Some? {
      assert Fail(e1).nexus.value.status == CmdTimeout;
    } else {
      assert e1.state == e.state;
    }
  }

  lemma DataArmCoherent(h: Host, e: Ext, hw: Hw, m: Monitor)
    requires h.blk > 0 && Rest(h, e, m) && e.state == InData && !hw.intr.card
    ensures DataPhaseOk(h, e) && Coherent(h, m, HandleInterrupt(h, e, hw))
  {
    DataIrqSound(h, e, hw, m);
    var o := DataIrq(h, e, hw);
    AfterDataSound(h, o, hw, m);
    SoundIsCoherent(h, m, Out(AfterData(h, o.ext, hw), o.events));
  }

  lemma HandleInterruptCoherent(h: Host, e: Ext, hw: Hw, m: Monitor)
    requires h.blk > 0 && Rest(h, e, m)
    ensures DataPhaseOk(h, e) && Coherent(h, m, HandleInterrupt(h, e, hw))
  {
    RestMeansDataPhaseOk(h, e, m);
    if hw.intr.card {
      CardIrqCoherent(h, e, hw.detect, m);
    } else if e.state == Ident {
      IdentIrqCoherent(h, e, hw, m);
    } else if e.state == InData {
      DataArmCoherent(h, e, hw, m);
    } else {
      QuietCoherent(h, e, m);
    }
  }

  /** The state after o at rest, seen from the monitor before o. */
  ghost predicate LeavesRest(h: Host, m: Monitor, o: Out)
    requires h.blk > 0
  {
    Rest(h, o.ext, WatchFrom(h.AsBus(), m, o.events))
  }

  /** Posting the nexus that o settled; whatever state is kept, it is not the data phase. */
  lemma PostLeavesRest(h: Host, m: Monitor, o: Out, state: State)
    requires h.blk > 0 && Coherent(h, m, o) && Settled(o.ext) && state != InData
    ensures LeavesRest(h, m, Out(o.ext.(nexus := None, state := state), o.events + [PostEvent(o.ext)]))
  {
    WatchConcat(h.AsBus(), m, o.events, [PostEvent(o.ext)]);
  }

  lemma ProcessInterruptLeavesRest(h: Host, e: Ext, hw: Hw, m: Monitor)
    requires h.blk > 0 && Rest(h, e, m)
    ensures DataPhaseOk(h, e) && LeavesRest(h, m, ProcessInterrupt(h, e, hw))
  {
    HandleInterruptCoherent(h, e, hw, m);
    if !hw.intr.Nothing() && Settled(HandleInterrupt(h, e, hw).ext) {
      PostLeavesRest(h, m, HandleInterrupt(h, e, hw), Idle);
    }
  }

  lemma MediaGoneLeavesRest(h: Host, e: Ext, m: Monitor)
    requires h.blk > 0 && m.ok && e.nexus.Some?
    ensures LeavesRest(h, m, Out(e.(nexus := None, state := Idle), [PostEvent(Sense(e))]))
  {
    assert PostEvent(Sense(e)).status == CmpErr;
  }

  lemma MediaRest(h: Host, e: Ext, detect: bool, m: Monitor)
    requires h.blk > 0 && Rest(h, e, m)
    ensures Rest(h, MediaCheck(e, detect), m)
  {
    if e.state == InData {
      MediaUnderWay(h, e, detect, m);
    } else {
      assert MediaCheck(e, detect).state == e.state;
    }
  }

  lemma TimerPulseLeavesRest(h: Host, e: Ext, hw: Hw, m: Monitor)
    requires h.blk > 0 && Rest(h, e, m)
    ensures LeavesRest(h, m, TimerPulse(h, e, hw))
  {
    MediaRest(h, e, hw.detect, m);
    var e1 := if h.cdIntr then e else MediaCheck(e, hw.detect);
    if e1.nexus.Some? && !e1.inserted {
      MediaGoneLeavesRest(h, e1, m);
    }
  }

  // ---------------------------------------------------------------- starting requests

  /** A request that settles while it is started leaves the state alone. */
  predicate SettledKeeps(e: Ext, o: Out) {
    Settled(o.ext) ==> o.ext.state == e.state
  }

  lemma PioSendKeepsState(h: Host, e: Ext, n: nat, ok: bool)
    requires h.blk > 0 && e.nexus.Some?
    ensures SettledKeeps(e, PioSend(h, e, n, ok))
  {
  }

  lemma PioInitiateKeepsState(h: Host, e: Ext, hw: Hw)
    requires h.blk > 0 && e.nexus.Some?
    ensures SettledKeeps(e, PioInitiate(h, e, hw))
  {
    var n := e.nexus.value.Length();
    if !e.nexus.value.phys && (if hw.setupOk then WholeBlocks(h, n) else 0) == n {
      PioSendKeepsState(h, e.(nbytes := n), n, hw.rwOk);
    }
  }

  lemma SgDmaInitiateKeepsState(h: Host, e: Ext, hw: Hw)
    requires h.blk > 0 && e.nexus.Some?
    ensures SettledKeeps(e, SgDmaInitiate(h, e, hw))
  {
    var n := if hw.setupOk then WholeBlocks(h, e.nexus.value.Length()) else 0;
    var e1 := if h.nocdBusy then Waited(e, hw) else e;
    assert e1.state == e.state;
    assert SettledKeeps(e, SgSend(h, e1, n, hw.rwOk));
  }

  lemma InitiateKeepsState(h: Host, e: Ext, hw: Hw)
    requires h.blk > 0 && e.nexus.Some? && e.offset == 0
    ensures SettledKeeps(e, Initiate(h, e, hw))
  {
    PioInitiateKeepsState(h, e, hw);
    SgDmaInitiateKeepsState(h, e, hw);
  }

  lemma IoCmdsKeepsState(h: Host, e: Ext, hw: Hw)
    requires h.blk > 0 && e.nexus.Some?
    ensures SettledKeeps(e, IoCmds(h, e, hw))
  {
    if e.state != Ident && e.nexus.value.ReadWrite() {
      InitiateKeepsState(h, Rewound(e, hw), hw);
    } else {
      assert Waited(e, hw).state == e.state;
    }
  }

  lemma DispatchCoherent(h: Host, e: Ext, hw: Hw, m: Monitor)
    requires h.blk > 0 && m.ok && e.nexus.Some? && e.nexus.value.status == InProg && e.state != InData
    requires Held(h, e, m)
    ensures Coherent(h, m, Dispatch(h, e, hw))
    ensures Settled(Dispatch(h, e, hw).ext) ==> Dispatch(h, e, hw).ext.state != InData
  {
    if e.nexus.value.func == Devctl || e.nexus.value.func == Unsupported {
      SettledOtherCoherent(h, e, hw, m);
    } else if e.state == Ident {
      QuietCoherent(h, e, m);
    } else {
      IoCmdsSound(h, e, hw, m);
      SoundIsCoherent(h, m, IoCmds(h, e, hw));
      IoCmdsKeepsState(h, e, hw);
    }
  }

  lemma SettledOtherCoherent(h: Host, e: Ext, hw: Hw, m: Monitor)
    requires h.blk > 0 && m.ok && e.nexus.Some? && e.state != InData
    requires e.nexus.value.func == Devctl || e.nexus.value.func == Unsupported
    ensures Coherent(h, m, Dispatch(h, e, hw)) && Dispatch(h, e, hw).ext.state != InData
  {
    var o := Dispatch(h, e, hw);
    assert o.events == [] && Settled(o.ext) && o.ext.state == e.state;
  }

  predicate QueueInProg(queue: seq<Ccb>) {
    forall i :: 0 <= i < |queue| ==> queue[i].status == InProg
  }

  lemma TakeNextLeavesRest(h: Host, e: Ext, hw: Hw, m: Monitor)
    requires h.blk > 0 && Rest(h, e, m) && e.nexus.None? && e.queue != [] && e.queue[0].status == InProg
    ensures LeavesRest(h, m, TakeNext(h, e, hw))
  {
    var e1 := e.(nexus := Some(e.queue[0]), queue := e.queue[1..]);
    var o := Dispatch(h, e1, hw);
    DispatchCoherent(h, e1, hw, m);
    if Settled(o.ext) {
      PostLeavesRest(h, m, o, o.ext.state);
      assert o.ext.(nexus := None) == o.ext.(nexus := None, state := o.ext.state);
    }
  }

  lemma {:induction false} StartCcbLeavesRest(h: Host, e: Ext, hws: nat -> Hw, k: nat, m: Monitor)
    requires h.blk > 0 && Rest(h, e, m) && QueueInProg(e.queue)
    ensures LeavesRest(h, m, StartCcb(h, e, hws, k))
    decreases |e.queue|
  {
    if e.nexus.None? && e.queue != [] {
      var o := TakeNext(h, e, hws(k));
      TakeNextLeavesRest(h, e, hws(k), m);
      TakeNextAccounts(h, e, hws(k));
      StartCcbLeavesRest(h, o.ext, hws, k + 1, WatchFrom(h.AsBus(), m, o.events));
      WatchConcat(h.AsBus(), m, o.events, StartCcb(h, o.ext, hws, k + 1).events);
    }
  }

  // ---------------------------------------------------------------- every request accounted for

  function PostedIds(events: seq<Event>): seq<nat> {
    if events == [] then []
    else (if events[0].Post? then [events[0].id] else []) + PostedIds(events[1..])
  }

  function QueueIds(queue: seq<Ccb>): seq<nat> {
    seq(|queue|, i requires 0 <= i < |queue| => queue[i].id)
  }

  /** The requests taken on and not yet posted, oldest first. */
  function Outstanding(e: Ext): seq<nat> {
    (if e.nexus.Some? then [e.nexus.value.id] else []) + QueueIds(e.queue)
  }

  function UpTo(n: nat): seq<nat> { seq(n, i => i) }

  lemma {:induction false} PostedConcat(a: seq<Event>, b: seq<Event>)
    ensures PostedIds(a + b) == PostedIds(a) + PostedIds(b)
    decreases |a|
  {
    if a == [] {
      assert a + b == b;
    } else {
      assert (a + b)[1..] == a[1..] + b;
      PostedConcat(a[1..], b);
      var first := if a[0].Post? then [a[0].id] else [];
      assert first + (PostedIds(a[1..]) + PostedIds(b)) == first + PostedIds(a[1..]) + PostedIds(b);
    }
  }

  lemma {:induction false} NothingPosted(events: seq<Event>)
    requires NoPosts(events)
    ensures PostedIds(events) == []
    decreases |events|
  {
    if events != [] {
      assert !events[0].Post?;
      NothingPosted(events[1..]);
    }
  }

  /** Over o, what was outstanding is posted, in order, or still outstanding. */
  ghost predicate Accounts(e: Ext, o: Out) {
    && PostedIds(o.events) + Outstanding(o.ext) == Outstanding(e)
    && o.ext.submitted == e.submitted
    && (QueueInProg(e.queue) ==> QueueInProg(o.ext.queue))
  }

  lemma QuietAccounts(e: Ext, o: Out)
    requires Kept(e, o.ext) && NoPosts(o.events)
    ensures Accounts(e, o)
  {
    NothingPosted(o.events);
  }

  lemma PostAccounts(e: Ext, o: Out, state: State)
    requires Kept(e, o.ext) && NoPosts(o.events) && o.ext.nexus.Some?
    ensures Accounts(e, Out(o.ext.(nexus := None, state := state), o.events + [PostEvent(o.ext)]))
  {
    NothingPosted(o.events);
    PostedConcat(o.events, [PostEvent(o.ext)]);
    assert PostedIds([PostEvent(o.ext)]) == [o.ext.nexus.value.id];
  }

  lemma ThenAccounts(e: Ext, a: Out, b: Out)
    requires Accounts(e, a) && Accounts(a.ext, b)
    ensures Accounts(e, Out(b.ext, a.events + b.events))
  {
    PostedConcat(a.events, b.events);
  }

  lemma ProcessInterruptAccounts(h: Host, e: Ext, hw: Hw)
    requires h.blk > 0 && DataPhaseOk(h, e)
    ensures Accounts(e, ProcessInterrupt(h, e, hw))
  {
    if hw.intr.Nothing() {
      QuietAccounts(e, Quiet(e));
    } else {
      var o := HandleInterrupt(h, e, hw);
      if Settled(o.ext) {
        PostAccounts(e, o, Idle);
      } else {
        QuietAccounts(e, o);
      }
    }
  }

  lemma TimerPulseAccounts(h: Host, e: Ext, hw: Hw)
    ensures Accounts(e, TimerPulse(h, e, hw))
  {
    var e1 := if h.cdIntr then e else MediaCheck(e, hw.detect);
    QuietAccounts(e, Quiet(e1));
    if e1.nexus.Some? {
      PostAccounts(e, Quiet(Sense(e1)), Idle);
      assert [] + [PostEvent(Sense(e1))] == [PostEvent(Sense(e1))];
    }
  }

  lemma DequeueAccounts(e: Ext, ccb: Ccb, rest: seq<Ccb>)
    requires e.nexus.None? && e.queue == [ccb] + rest
    ensures Outstanding(e.(nexus := Some(ccb), queue := rest)) == Outstanding(e)
    ensures QueueInProg(e.queue) ==> QueueInProg(rest)
  {
    assert QueueIds(e.queue) == [ccb.id] + QueueIds(rest);
    assert forall i :: 0 <= i < |rest| ==> rest[i] == e.queue[i + 1];
  }

  lemma TakeNextAccounts(h: Host, e: Ext, hw: Hw)
    requires h.blk > 0 && e.nexus.None? && e.queue != []
    ensures Accounts(e, TakeNext(h, e, hw))
  {
    var e1 := e.(nexus := Some(e.queue[0]), queue := e.queue[1..]);
    DequeueAccounts(e, e.queue[0], e.queue[1..]);
    var o := Dispatch(h, e1, hw);
    if Settled(o.ext) {
      PostAccounts(e1, o, o.ext.state);
      assert o.ext.(nexus := None) == o.ext.(nexus := None, state := o.ext.state);
    } else {
      QuietAccounts(e1, o);
    }
  }

  lemma {:induction false} StartCcbAccounts(h: Host, e: Ext, hws: nat -> Hw, k: nat)
    requires h.blk > 0
    ensures Accounts(e, StartCcb(h, e, hws, k))
    decreases |e.queue|
  {
    if e.nexus.Some? || e.queue == [] {
      QuietAccounts(e, Quiet(e));
    } else {
      var o := TakeNext(h, e, hws(k));
      TakeNextAccounts(h, e, hws(k));
      StartCcbAccounts(h, o.ext, hws, k + 1);
      ThenAccounts(e, o, StartCcb(h, o.ext, hws, k + 1));
    }
  }

  // ---------------------------------------------------------------- runs

  /** What holds after every run. */
  ghost predicate Inv(h: Host, e: Ext, log: seq<Event>)
    requires h.blk > 0
  {
    && Rest(h, e, Watch(h.AsBus(), log))
    && QueueInProg(e.queue)
    && PostedIds(log) + Outstanding(e) == UpTo(e.submitted)
  }

  /** o, from e on, is a good continuation of any log that e agrees with. */
  ghost predicate Continues(h: Host, e: Ext, m: Monitor, o: Out)
    requires h.blk > 0
  {
    LeavesRest(h, m, o) && Accounts(e, o)
  }

  lemma StartCcbContinues(h: Host, e: Ext, hws: nat -> Hw, m: Monitor)
    requires h.blk > 0 && Rest(h, e, m) && QueueInProg(e.queue)
    ensures Continues(h, e, m, StartCcb(h, e, hws, 0))
  {
    StartCcbLeavesRest(h, e, hws, 0, m);
    StartCcbAccounts(h, e, hws, 0);
  }

  lemma TailCheckContinues(h: Host, e: Ext, o: Out, hws: nat -> Hw, m: Monitor)
    requires h.blk > 0 && QueueInProg(e.queue) && Continues(h, e, m, o)
    ensures Continues(h, e, m, TailCheck(h, o, hws))
  {
    if o.ext.nexus.None? {
      var rest := StartCcb(h, o.ext, hws, 0);
      StartCcbContinues(h, o.ext, hws, WatchFrom(h.AsBus(), m, o.events));
      WatchConcat(h.AsBus(), m, o.events, rest.events);
      ThenAccounts(e, o, rest);
    }
  }

  lemma PulseContinues(h: Host, e: Ext, step: Step, m: Monitor)
    requires h.blk > 0 && Rest(h, e, m) && QueueInProg(e.queue)
    requires step.EnqueuePulse? || step.InterruptPulse? || step.TimerTick?
    ensures DataPhaseOk(h, e) && Continues(h, e, m, Take(h, e, step))
  {
    RestMeansDataPhaseOk(h, e, m);
    match step
    case EnqueuePulse(hws) =>
      StartCcbContinues(h, e, hws, m);
      TailCheckContinues(h, e, StartCcb(h, e, hws, 0), hws, m);
    case InterruptPulse(hw, hws) =>
      ProcessInterruptLeavesRest(h, e, hw, m);
      ProcessInterruptAccounts(h, e, hw);
      TailCheckContinues(h, e, ProcessInterrupt(h, e, hw), hws, m);
    case TimerTick(hw, hws) =>
      TimerPulseLeavesRest(h, e, hw, m);
      TimerPulseAccounts(h, e, hw);
      TailCheckContinues(h, e, TimerPulse(h, e, hw), hws, m);
  }

  lemma AccountsKept(e: Ext, log: seq<Event>, o: Out)
    requires PostedIds(log) + Outstanding(e) == UpTo(e.submitted) && Accounts(e, o)
    ensures PostedIds(log + o.events) + Outstanding(o.ext) == UpTo(o.ext.submitted)
  {
    PostedConcat(log, o.events);
  }

  lemma ContinuesKeepsInv(h: Host, e: Ext, log: seq<Event>, o: Out)
    requires h.blk > 0 && Inv(h, e, log) && Continues(h, e, Watch(h.AsBus(), log), o)
    ensures Inv(h, o.ext, log + o.events)
  {
    WatchLonger(h.AsBus(), log, o.events);
    AccountsKept(e, log, o);
  }

  lemma SubmitKeepsInv(h: Host, e: Ext, log: seq<Event>, ccb: Ccb)
    requires h.blk > 0 && Inv(h, e, log)
    ensures Inv(h, Take(h, e, Submit(ccb)).ext, log)
  {
    var e' := Take(h, e, Submit(ccb)).ext;
    assert e' == e.(queue := e'.queue, submitted := e'.submitted);
    assert QueueIds(e'.queue) == QueueIds(e.queue) + [e.submitted];
    assert UpTo(e'.submitted) == UpTo(e.submitted) + [e.submitted];
  }

  /** The control thread only touches the state and the flags. */
  lemma ControlKeepsInv(h: Host, e: Ext, log: seq<Event>, step: Step)
    requires h.blk > 0 && Inv(h, e, log)
    requires step.CardInserted? || step.CardRemoved? || step.Protect? || step.Reset?
    ensures Inv(h, Take(h, e, step).ext, log)
  {
    var e' := Take(h, e, step).ext;
    assert e' == e.(inserted := e'.inserted, ready := e'.ready, resetting := e'.resetting, state := e'.state,
                    writeProtected := e'.writeProtected);
    assert e'.state == InData ==> e.state == InData;
  }

  lemma StepKeepsInv(h: Host, e: Ext, log: seq<Event>, step: Step)
    requires h.blk > 0 && Inv(h, e, log)
    ensures DataPhaseOk(h, e)
    ensures Inv(h, Take(h, e, step).ext, log + Take(h, e, step).events)
  {
    RestMeansDataPhaseOk(h, e, Watch(h.AsBus(), log));
    assert log + [] == log;
    match step
    case Submit(ccb) => SubmitKeepsInv(h, e, log, ccb);
    case CardInserted(_) => ControlKeepsInv(h, e, log, step);
    case CardRemoved => ControlKeepsInv(h, e, log, step);
    case Protect(_) => ControlKeepsInv(h, e, log, step);
    case Reset(_) => ControlKeepsInv(h, e, log, step);
    case _ =>
      PulseContinues(h, e, step, Watch(h.AsBus(), log));
      ContinuesKeepsInv(h, e, log, Take(h, e, step));
  }

  /** The state and the whole bus log after a run of steps; every step is possible in every run. */
  function Run(h: Host, steps: seq<Step>): (r: Out)
    requires h.blk > 0
    ensures Inv(h, r.ext, r.events)
  {
    if steps == [] then Quiet(Start)
    else
      var before := Run(h, steps[..|steps| - 1]);
      StepKeepsInv(h, before.ext, before.events, steps[|steps| - 1]);
      var o := Take(h, before.ext, steps[|steps| - 1]);
      Out(o.ext, before.events + o.events)
  }

  lemma RunStep(h: Host, steps: seq<Step>, step: Step)
    requires h.blk > 0
    ensures var before := Run(h, steps);
            && DataPhaseOk(h, before.ext)
            && var o := Take(h, before.ext, step);
               Run(h, steps + [step]) == Out(o.ext, before.events + o.events)
  {
    assert (steps + [step])[..|steps|] == steps;
    RestMeansDataPhaseOk(h, Run(h, steps).ext, Watch(h.AsBus(), Run(h, steps).events));
  }
}
