/**
 Identification inside the driver: interrupts that arrive while the state says so call mmc_card_ident, and
 the control thread starts it afresh.  A call that fails during a reset does not end it, so that interrupts
 go on calling.  MMC_EFLAG_READY, when it goes from clear to set, has been earned exactly if no call lapsed
 since the last start; and no identification sends more than a fixed number of commands, failing calls or not.
 */
module CardReady {
  import opened Wrappers
  import opened RequestEngine
  import opened RequestRuns
  import CI = CardIdent
  import CP = CardProtocol

  /** What happens to the driver.  Where mmc_card_ident is called, reply is what the hardware answers to it;
      the other steps of the engine are left as they are. */
  datatype Input =
    | Other(step: Step)
    | Interrupt(hw: Hw, hws: nat -> Hw, reply: CI.Reply)
    | Insert(reply: CI.Reply)
    | ResetCard(reply: CI.Reply)

  /** The identification as it stands.  lapsed says that since the last start some call failed and left a
      stage that awaits the answer to a milestone; sent counts the commands since then. */
  datatype Identification = Identification(card: CI.Card, lapsed: bool, sent: nat, log: seq<CI.Event>)

  /** The engine's steps so far, and the identification */
  datatype Both = Both(steps: seq<Step>, ident: Identification)

  /** One more call of mmc_card_ident, whether calls before it failed or not */
  function Again(c: CI.Host, o: Identification, r: CI.Reply): Identification {
    var result := CI.Ident(c, o.card, r);
    Identification(result.card, o.lapsed || CI.Lapse(result), o.sent + (if result.sent.Some? then 1 else 0),
                   CI.Logged(o.log, CI.Heard(o.card, r), result.sent))
  }

  /** The control thread's call, from the start */
  function Restarted(o: Identification): Identification {
    Identification(o.card.(stage := CI.Start), false, 0, o.log)
  }

  function Afresh(c: CI.Host, o: Identification, r: CI.Reply): Identification {
    Again(c, Restarted(o), r)
  }

  /** What mmc_ident_irq makes of the call */
  function Verdict(c: CI.Host, o: Identification, r: CI.Reply): IdentOutcome {
    var result := CI.Ident(c, o.card, r);
    if !result.ok then IdentFailed else if result.card.stage == CI.Done then IdentDone else IdentBusy
  }

  /** The interrupt is for mmc_card_ident. */
  predicate Identifies(e: Ext, hw: Hw) {
    e.state == Ident && !hw.intr.Nothing() && !hw.intr.card
  }

  /** The interrupt bits are the same for both. */
  function Seen(hw: Hw, r: CI.Reply): CI.Reply {
    r.(error := hw.intr.error, command := hw.intr.command)
  }

  /** The step of the engine that an input is */
  function StepOf(h: Host, c: CI.Host, b: Both, input: Input): Step
    requires h.blk > 0
  {
    match input
    case Other(step) => step
    case Interrupt(hw, hws, r) => InterruptPulse(hw.(ident := Verdict(c, b.ident, Seen(hw, r))), hws)
    case Insert(r) => Step.CardInserted(CI.Ident(c, Restarted(b.ident).card, r).ok)
    case ResetCard(r) => Step.Reset(CI.Ident(c, Restarted(b.ident).card, r).ok)
  }

  function IdentAfter(h: Host, c: CI.Host, b: Both, input: Input): Identification
    requires h.blk > 0
  {
    var e := Run(h, b.steps).ext;
    match input
    case Other(_) => b.ident
    case Interrupt(hw, _, r) => if Identifies(e, hw) then Again(c, b.ident, Seen(hw, r)) else b.ident
    case Insert(r) => Afresh(c, b.ident, r)
    case ResetCard(r) => if e.inserted then Afresh(c, b.ident, r) else b.ident
  }

  /** Interrupts and the control thread's pulses are not among the other steps. */
  predicate Fits(input: Input) {
    input.Other? ==>
      || input.step.Submit? || input.step.EnqueuePulse? || input.step.TimerTick? || input.step.CardRemoved?
      || input.step.Protect?
  }

  function Unidentified(card: CI.Card): Both { Both([], Identification(card, false, 0, [])) }

  /** The driver and its identification together */
  function RunBoth(h: Host, c: CI.Host, card: CI.Card, inputs: seq<Input>): Both
    requires h.blk > 0
  {
    if inputs == [] then Unidentified(card)
    else
      var b := RunBoth(h, c, card, inputs[..|inputs| - 1]);
      var input := inputs[|inputs| - 1];
      Both(b.steps + [StepOf(h, c, b, input)], IdentAfter(h, c, b, input))
  }

  // ---------------------------------------------------------------- what identification keeps

  /** The most commands from a start to the next */
  function MostCommands(c: CI.Host): nat { c.pwrRetry + 4019 }

  /** Without a lapse the stage is where the milestones say; after one, a milestone has been passed over. */
  ghost predicate Tracked(o: Identification) {
    || o.card.stage == CI.Done
    || (if o.lapsed then CI.Behind(o.card.stage, CI.Track(o.log)) else CI.OnTrack(o.card.stage, CI.Track(o.log)))
  }

  ghost predicate IdentGood(c: CI.Host, o: Identification) {
    && Tracked(o) && CI.BlkszFits(c, o.card.(blksz := 512), o.card)
    && o.sent + CI.CommandsLeft(c, o.card) <= MostCommands(c)
  }

  lemma AgainTracked(c: CI.Host, o: Identification, r: CI.Reply)
    requires Tracked(o)
    ensures Tracked(Again(c, o, r))
  {
    var result, p := CI.Ident(c, o.card, r), CI.Track(o.log);
    CI.TrackOfLogged(o.log, CI.Heard(o.card, r), result.sent);
    if o.card.stage == CI.Done {
      assert result.card.stage == CI.Done;
    } else if o.lapsed {
      CI.CallStaysBehind(c, o.card, r, p);
    } else {
      CI.CallKeepsTrack(c, o.card, r, p);
    }
  }

  lemma AgainKeepsGood(c: CI.Host, o: Identification, r: CI.Reply)
    requires IdentGood(c, o)
    ensures IdentGood(c, Again(c, o, r))
  {
    CI.CallBlkszFits(c, o.card.(blksz := 512), o.card, r);
    CI.CallSpends(c, o.card, r);
    AgainTracked(c, o, r);
  }

  lemma AfreshKeepsGood(c: CI.Host, o: Identification, r: CI.Reply)
    ensures IdentGood(c, Afresh(c, o, r))
  {
    AgainKeepsGood(c, Restarted(o), r);
  }

  lemma {:induction false} IdentStaysGood(h: Host, c: CI.Host, card: CI.Card, inputs: seq<Input>)
    requires h.blk > 0 && card.stage == CI.Start
    ensures IdentGood(c, RunBoth(h, c, card, inputs).ident)
  {
    if inputs != [] {
      IdentStaysGood(h, c, card, inputs[..|inputs| - 1]);
      InputKeepsGood(h, c, RunBoth(h, c, card, inputs[..|inputs| - 1]), inputs[|inputs| - 1]);
    }
  }

  lemma InputKeepsGood(h: Host, c: CI.Host, b: Both, input: Input)
    requires h.blk > 0 && IdentGood(c, b.ident)
    ensures IdentGood(c, IdentAfter(h, c, b, input))
  {
    match input
    case Other(_) =>
    case Interrupt(hw, _, r) => AgainKeepsGood(c, b.ident, Seen(hw, r));
    case Insert(r) => AfreshKeepsGood(c, b.ident, r);
    case ResetCard(r) => AfreshKeepsGood(c, b.ident, r);
  }

  /** From a start to the next, calls send boundedly many commands, whatever the card answers and however
      many of the calls fail. */
  lemma CommandsAreBounded(h: Host, c: CI.Host, card: CI.Card, inputs: seq<Input>)
    requires h.blk > 0 && card.stage == CI.Start
    ensures RunBoth(h, c, card, inputs).ident.sent <= MostCommands(c)
  {
    IdentStaysGood(h, c, card, inputs);
  }

  // ---------------------------------------------------------------- the address of the card

  predicate NamesCard(o: Identification) {
    CP.AllNamed(o.log) && CP.Addressable(o.card, CP.Watch(o.log))
  }

  lemma AgainNamesCard(c: CI.Host, o: Identification, r: CI.Reply)
    requires NamesCard(o)
    ensures NamesCard(Again(c, o, r))
  {
    CP.LoggedNamed(c, o.card, r, o.log);
  }

  lemma InputNamesCard(h: Host, c: CI.Host, b: Both, input: Input)
    requires h.blk > 0 && NamesCard(b.ident)
    ensures NamesCard(IdentAfter(h, c, b, input))
  {
    match input
    case Other(_) =>
    case Interrupt(hw, _, r) => AgainNamesCard(c, b.ident, Seen(hw, r));
    case Insert(r) => AgainNamesCard(c, Restarted(b.ident), r);
    case ResetCard(r) => AgainNamesCard(c, Restarted(b.ident), r);
  }

  /** Over every run of the driver, whichever calls fail: once a card has been given an address, or has published
      one, every command that names a card names it by that, up to the next start. */
  lemma {:induction false} CardIsNamed(h: Host, c: CI.Host, card: CI.Card, inputs: seq<Input>)
    requires h.blk > 0 && card.stage == CI.Start
    ensures NamesCard(RunBoth(h, c, card, inputs).ident)
  {
    if inputs != [] {
      CardIsNamed(h, c, card, inputs[..|inputs| - 1]);
      InputNamesCard(h, c, RunBoth(h, c, card, inputs[..|inputs| - 1]), inputs[|inputs| - 1]);
    }
  }

  // ---------------------------------------------------------------- lapses, among the inputs

  /** The control thread starts identification. */
  predicate Starts(h: Host, b: Both, input: Input)
    requires h.blk > 0
  {
    input.Insert? || (input.ResetCard? && Run(h, b.steps).ext.inserted)
  }

  /** The interrupt makes a call that fails and leaves a stage that awaits the answer to a milestone. */
  predicate Lapses(h: Host, c: CI.Host, b: Both, input: Input)
    requires h.blk > 0
  {
    && input.Interrupt? && Identifies(Run(h, b.steps).ext, input.hw)
    && CI.Lapse(CI.Ident(c, b.ident.card, Seen(input.hw, input.reply)))
  }

  ghost function StartsAt(h: Host, c: CI.Host, card: CI.Card, inputs: seq<Input>): nat -> bool
    requires h.blk > 0
  {
    (t: nat) => t < |inputs| && Starts(h, RunBoth(h, c, card, inputs[..t]), inputs[t])
  }

  ghost function LapsesAt(h: Host, c: CI.Host, card: CI.Card, inputs: seq<Input>): nat -> bool
    requires h.blk > 0
  {
    (t: nat) => t < |inputs| && Lapses(h, c, RunBoth(h, c, card, inputs[..t]), inputs[t])
  }

  /** It happened before n, and was not undone since. */
  ghost predicate Stands(happens: nat -> bool, undone: nat -> bool, n: nat) {
    exists t: nat :: t < n && happens(t) && forall u: nat :: t < u < n ==> !undone(u)
  }

  lemma StandsStep(happens: nat -> bool, undone: nat -> bool, n: nat)
    ensures Stands(happens, undone, n + 1) <==> happens(n) || (Stands(happens, undone, n) && !undone(n))
  {
    if Stands(happens, undone, n) && !undone(n) {
      var t: nat :| t < n && happens(t) && forall u: nat :: t < u < n ==> !undone(u);
      assert forall u: nat :: t < u < n + 1 ==> !undone(u);
    }
  }

  /** Of the first n inputs one lapses, and none after it starts afresh. */
  ghost predicate SomeLapse(h: Host, c: CI.Host, card: CI.Card, inputs: seq<Input>, n: nat)
    requires h.blk > 0
  {
    Stands(LapsesAt(h, c, card, inputs), StartsAt(h, c, card, inputs), n)
  }

  lemma StartNeverLapses(c: CI.Host, o: Identification, r: CI.Reply)
    ensures !Afresh(c, o, r).lapsed
  {
  }

  lemma LapsedStep(h: Host, c: CI.Host, b: Both, input: Input)
    requires h.blk > 0
    ensures IdentAfter(h, c, b, input).lapsed <==> Lapses(h, c, b, input) || (b.ident.lapsed && !Starts(h, b, input))
  {
    match input
    case Other(_) =>
    case Interrupt(_, _, _) =>
    case Insert(r) => StartNeverLapses(c, b.ident, r);
    case ResetCard(r) => StartNeverLapses(c, b.ident, r);
  }

  lemma OneMoreInput(h: Host, c: CI.Host, card: CI.Card, inputs: seq<Input>, n: nat)
    requires h.blk > 0 && n < |inputs|
    ensures RunBoth(h, c, card, inputs[..n + 1]).ident.lapsed
            <==> LapsesAt(h, c, card, inputs)(n)
                 || (RunBoth(h, c, card, inputs[..n]).ident.lapsed && !StartsAt(h, c, card, inputs)(n))
  {
    assert inputs[..n + 1][..n] == inputs[..n];
    LapsedStep(h, c, RunBoth(h, c, card, inputs[..n]), inputs[n]);
  }

  /** What lapsed records: since the last start some interrupt made such a call. */
  lemma {:induction false} LapsedIff(h: Host, c: CI.Host, card: CI.Card, inputs: seq<Input>, n: nat)
    requires h.blk > 0 && n <= |inputs|
    ensures RunBoth(h, c, card, inputs[..n]).ident.lapsed <==> SomeLapse(h, c, card, inputs, n)
    decreases n
  {
    if n == 0 {
      NothingLapsed(h, c, card, inputs);
    } else {
      LapsedIff(h, c, card, inputs, n - 1);
      OneMoreInput(h, c, card, inputs, n - 1);
      StandsStep(LapsesAt(h, c, card, inputs), StartsAt(h, c, card, inputs), n - 1);
    }
  }

  lemma NothingLapsed(h: Host, c: CI.Host, card: CI.Card, inputs: seq<Input>)
    requires h.blk > 0
    ensures !RunBoth(h, c, card, inputs[..0]).ident.lapsed && !SomeLapse(h, c, card, inputs, 0)
  {
  }

  /** Some interrupt since the last start made a call that lapsed. */
  ghost predicate HasLapsed(h: Host, c: CI.Host, card: CI.Card, inputs: seq<Input>)
    requires h.blk > 0
  {
    SomeLapse(h, c, card, inputs, |inputs|)
  }

  // ---------------------------------------------------------------- who sets READY

  lemma {:induction false} StartCcbNotReadied(h: Host, e: Ext, hws: nat -> Hw, k: nat)
    requires h.blk > 0
    ensures NotReadied(e, StartCcb(h, e, hws, k).ext)
    decreases |e.queue|
  {
    if e.nexus.None? && e.queue != [] {
      var e1 := e.(nexus := Some(e.queue[0]), queue := e.queue[1..]);
      assert NotReadied(e1, Dispatch(h, e1, hws(k)).ext);
      StartCcbNotReadied(h, TakeNext(h, e, hws(k)).ext, hws, k + 1);
    }
  }

  /** READY goes from clear to set only in the interrupt that ends an identification. */
  lemma OnlyIdentReadies(h: Host, e: Ext, step: Step)
    requires h.blk > 0 && DataPhaseOk(h, e) && !e.ready && Take(h, e, step).ext.ready
    ensures step.InterruptPulse? && EndsIdent(e, step.hw)
  {
    match step
    case EnqueuePulse(hws) =>
      StartCcbNotReadied(h, e, hws, 0);
      StartCcbNotReadied(h, StartCcb(h, e, hws, 0).ext, hws, 0);
    case InterruptPulse(hw, hws) => StartCcbNotReadied(h, ProcessInterrupt(h, e, hw).ext, hws, 0);
    case TimerTick(hw, hws) => StartCcbNotReadied(h, TimerPulse(h, e, hw).ext, hws, 0);
    case _ =>
  }

  /** The call that ends the identification meets the last milestone, unless one was passed over. */
  lemma LastCall(c: CI.Host, o: Identification, r: CI.Reply)
    requires Tracked(o) && Verdict(c, o, r) == IdentDone
    ensures CI.Track(Again(c, o, r).log).met == |CI.MILESTONES| <==> !Again(c, o, r).lapsed
  {
    var result, p := CI.Ident(c, o.card, r), CI.Track(o.log);
    CI.TrackOfLogged(o.log, CI.Heard(o.card, r), result.sent);
    if o.lapsed {
      CI.CallStaysBehind(c, o.card, r, p);
    } else {
      CI.CallKeepsTrack(c, o.card, r, p);
    }
  }

  /** The milestones were sent in order since the last start, each answered by an interrupt without error. */
  ghost predicate Earned(log: seq<CI.Event>) {
    exists at: seq<nat> :: |at| == |CI.MILESTONES| && CI.MetAt(log, at)
  }

  lemma EarnedIff(log: seq<CI.Event>)
    ensures Earned(log) <==> CI.Track(log).met == |CI.MILESTONES|
  {
    var at := CI.MilestonesWereMet(log);
    if at': seq<nat> :| |at'| == |CI.MILESTONES| && CI.MetAt(log, at') {
      CI.MetAtMost(log, at');
    }
  }

  /** MMC_EFLAG_READY, when a step sets it where it was clear: the identification is over; a host that takes
      blocks of 512 bytes has that size; and the milestones were met if and only if no call since the
      last start lapsed. */
  lemma ReadyIsEarned(h: Host, c: CI.Host, card: CI.Card, inputs: seq<Input>, input: Input)
    requires h.blk > 0 && card.stage == CI.Start && Fits(input)
    requires !Run(h, RunBoth(h, c, card, inputs).steps).ext.ready
    requires Run(h, RunBoth(h, c, card, inputs + [input]).steps).ext.ready
    ensures var o := RunBoth(h, c, card, inputs + [input]).ident;
            && o.card.stage == CI.Done
            && (c.maxBlksz >= 512 ==> o.card.blksz == 512)
            && (Earned(o.log) <==> !HasLapsed(h, c, card, inputs + [input]))
  {
    EarnedUnlessLapsed(h, c, card, inputs, input);
    var all := inputs + [input];
    LapsedIff(h, c, card, all, |all|);
    assert all[..|all|] == all;
  }

  lemma EarnedUnlessLapsed(h: Host, c: CI.Host, card: CI.Card, inputs: seq<Input>, input: Input)
    requires h.blk > 0 && card.stage == CI.Start && Fits(input)
    requires !Run(h, RunBoth(h, c, card, inputs).steps).ext.ready
    requires Run(h, RunBoth(h, c, card, inputs + [input]).steps).ext.ready
    ensures var o := RunBoth(h, c, card, inputs + [input]).ident;
            && o.card.stage == CI.Done
            && (c.maxBlksz >= 512 ==> o.card.blksz == 512)
            && (Earned(o.log) <==> !o.lapsed)
  {
    IdentStaysGood(h, c, card, inputs);
    IdentStaysGood(h, c, card, inputs + [input]);
    var b := RunBoth(h, c, card, inputs);
    assert (inputs + [input])[..|inputs|] == inputs;
    RunStep(h, b.steps, StepOf(h, c, b, input));
    ReadiedBy(h, c, b, input);
    EarnedIff(IdentAfter(h, c, b, input).log);
  }

  lemma ReadiedBy(h: Host, c: CI.Host, b: Both, input: Input)
    requires h.blk > 0 && Fits(input) && DataPhaseOk(h, Run(h, b.steps).ext) && Tracked(b.ident)
    requires !Run(h, b.steps).ext.ready && Take(h, Run(h, b.steps).ext, StepOf(h, c, b, input)).ext.ready
    ensures var o := IdentAfter(h, c, b, input);
            o.card.stage == CI.Done && (CI.Track(o.log).met == |CI.MILESTONES| <==> !o.lapsed)
  {
    OnlyIdentReadies(h, Run(h, b.steps).ext, StepOf(h, c, b, input));
    LastCall(c, b.ident, Seen(input.hw, input.reply));
  }
}
