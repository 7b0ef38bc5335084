/**
 A run in which MMC_EFLAG_READY is set although a milestone was answered with an error: a reset is under way
 and no request is held, so that the interrupt after the error is taken for the answer to the same command.
 */
module ReadyUnearned {
  import opened RequestEngine
  import opened RequestRuns
  import opened CardReady

  const CARD := CI.Card(CI.Start, 0, 0, CI.Sd1, 0, false, false, false, 0)

  /** A slot for SD cards of normal speed */
  const SLOT := CI.Host(0, 0, false, false, false, true, true, 512)

  /** What a card answers to which everything works; the error bit comes from the interrupt. */
  const FINE := CI.Reply(false, false, true, false, true, true, 0, true, true, true, true, true, true, false, false,
                         false, false, true)

  function Answering(error: bool): Hw {
    Hw(Intr(false, error, !error, false, false), true, [], true, true, 1, true, true, true, true, true, [], true,
       IdentBusy)
  }

  const LATER: nat -> Hw := _ => Answering(false)

  function Answer(error: bool): Input { Interrupt(Answering(error), LATER, FINE) }

  /** The driver while a reset identifies the card */
  const RESETTING := Start.(inserted := true, resetting := true, state := Ident)

  /** These inputs have led to this state of the engine and this identification. */
  ghost predicate Reached(h: Host, inputs: seq<Input>, e: Ext, o: Identification)
    requires h.blk > 0
  {
    var b := RunBoth(h, SLOT, CARD, inputs);
    Run(h, b.steps).ext == e && b.ident == o
  }

  lemma ReachNext(h: Host, inputs: seq<Input>, e: Ext, o: Identification, input: Input)
    requires h.blk > 0 && Reached(h, inputs, e, o)
    ensures var b := RunBoth(h, SLOT, CARD, inputs);
            && DataPhaseOk(h, e)
            && Reached(h, inputs + [input], Take(h, e, StepOf(h, SLOT, b, input)).ext, IdentAfter(h, SLOT, b, input))
  {
    var b := RunBoth(h, SLOT, CARD, inputs);
    assert (inputs + [input])[..|inputs|] == inputs;
    RunStep(h, b.steps, StepOf(h, SLOT, b, input));
  }

  /** A call that fails leaves the driver in identification, so that interrupts go on calling, exactly if a
      reset is under way and no request is held. */
  lemma FailureGoesOnIff(h: Host, e: Ext, hw: Hw)
    requires h.blk > 0 && DataPhaseOk(h, e) && !Settled(e) && Identifies(e, hw) && hw.ident == IdentFailed
    ensures ProcessInterrupt(h, e, hw).ext.state == Ident <==> e.resetting && e.nexus.None?
  {
  }

  /** So during the reset nothing changes but the identification, */
  lemma StepGoesOn(h: Host, hw: Hw)
    requires h.blk > 0 && Identifies(RESETTING, hw) && hw.ident != IdentDone && hw.detect
    ensures DataPhaseOk(h, RESETTING) && Take(h, RESETTING, InterruptPulse(hw, LATER)) == Quiet(RESETTING)
  {
    if hw.ident == IdentFailed {
      FailureGoesOnIff(h, RESETTING, hw);
    }
    assert HandleInterrupt(h, RESETTING, hw) == Quiet(RESETTING);
    assert StartCcb(h, RESETTING, LATER, 0) == Quiet(RESETTING);
  }

  const READY := RESETTING.(resetting := false, state := Idle, ready := true)

  /** until it succeeds. */
  lemma StepEnds(h: Host, hw: Hw)
    requires h.blk > 0 && Identifies(RESETTING, hw) && hw.ident == IdentDone
    ensures DataPhaseOk(h, RESETTING) && Take(h, RESETTING, InterruptPulse(hw, LATER)) == Quiet(READY)
  {
    assert HandleInterrupt(h, RESETTING, hw) == Quiet(READY);
    assert StartCcb(h, READY, LATER, 0) == Quiet(READY);
  }

  /** The identification of that card, call by call */
  function Called(o: Identification, error: bool): Identification {
    Again(SLOT, o, Seen(Answering(error), FINE))
  }

  function Judged(o: Identification, error: bool): IdentOutcome {
    Verdict(SLOT, o, Seen(Answering(error), FINE))
  }

  /** In the lemmas below R says which inputs reach which identification. */
  ghost predicate GoesOn(R: (seq<Input>, Identification) -> bool) {
    forall inputs, o, error {:trigger R(inputs, o), Judged(o, error)} ::
      R(inputs, o) && Judged(o, error) != IdentDone ==> R(inputs + [Answer(error)], Called(o, error))
  }

  lemma ResetGoesOn(h: Host)
    requires h.blk > 0
    ensures GoesOn((inputs, o) => Reached(h, inputs, RESETTING, o))
  {
    forall inputs, o, error | Reached(h, inputs, RESETTING, o) && Judged(o, error) != IdentDone
      ensures Reached(h, inputs + [Answer(error)], RESETTING, Called(o, error))
    {
      ReachNext(h, inputs, RESETTING, o, Answer(error));
      StepGoesOn(h, Answering(error).(ident := Judged(o, error)));
    }
  }

  /** Where an answer without an error takes the card */
  function NextStage(stage: CI.Stage): CI.Stage {
    match stage
    case GoIdle => CI.CardVersion
    case CardVersion => CI.SdPowerup
    case AllSendCid => CI.SetAddress
    case SetAddress => CI.SendCid
    case SendCid => CI.SendCsd
    case SendCsd => CI.SelDesCard
    case SelDesCard => CI.CheckSts
    case CheckSts => CI.SendScr
    case SendScr => CI.ParseScr
    case ParseScr => CI.Final
    case _ => CI.Done
  }

  /** An SD card of version 2 at a stage */
  predicate At(o: Identification, stage: CI.Stage) {
    o.card.stage == stage && o.card.version == CI.Sd2
  }

  /** The call takes such a card on to the next stage, without a failure and not to the end. */
  predicate TakesOn(o: Identification, stage: CI.Stage) {
    At(Called(o, false), NextStage(stage)) && Called(o, false).lapsed == o.lapsed && Judged(o, false) == IdentBusy
  }

  lemma Addressed(o: Identification, stage: CI.Stage)
    requires At(o, stage) && stage in {CI.AllSendCid, CI.SetAddress, CI.SendCid}
    ensures TakesOn(o, stage)
  {
  }

  lemma Selected(o: Identification, stage: CI.Stage)
    requires At(o, stage) && stage in {CI.SendCsd, CI.SelDesCard}
    ensures TakesOn(o, stage)
  {
  }

  lemma Configured(o: Identification, stage: CI.Stage)
    requires At(o, stage) && stage in {CI.CheckSts, CI.SendScr, CI.ParseScr}
    ensures TakesOn(o, stage)
  {
  }

  lemma Begun(o: Identification)
    requires o.card.stage == CI.GoIdle
    ensures Called(o, false).card.stage == CI.CardVersion && Called(o, false).lapsed == o.lapsed
    ensures Judged(o, false) == IdentBusy
  {
  }

  lemma Versioned(o: Identification)
    requires o.card.stage == CI.CardVersion
    ensures At(Called(o, false), CI.SdPowerup) && Called(o, false).card.istage == 1
    ensures Called(o, false).lapsed == o.lapsed && Judged(o, false) == IdentBusy
  {
  }

  lemma Asked(o: Identification)
    requires At(o, CI.SdPowerup) && o.card.istage == 1
    ensures At(Called(o, false), CI.SdPowerup) && Called(o, false).card.istage == 2
    ensures Called(o, false).lapsed == o.lapsed && Judged(o, false) == IdentBusy
  {
  }

  lemma PoweredUp(o: Identification)
    requires At(o, CI.SdPowerup) && o.card.istage == 2
    ensures At(Called(o, false), CI.AllSendCid) && Called(o, false).lapsed == o.lapsed && Judged(o, false) == IdentBusy
  {
  }

  lemma ErrorLapses(o: Identification)
    requires At(o, CI.SendCsd)
    ensures At(Called(o, true), CI.SendCsd) && Called(o, true).lapsed && Judged(o, true) == IdentFailed
  {
  }

  lemma Concludes(o: Identification)
    requires At(o, CI.Final)
    ensures Judged(o, false) == IdentDone && Called(o, false).lapsed == o.lapsed
  {
  }

  lemma OneCall(R: (seq<Input>, Identification) -> bool, inputs: seq<Input>, o: Identification, error: bool)
    returns (more: seq<Input>, o': Identification)
    requires GoesOn(R) && R(inputs, o) && Judged(o, error) != IdentDone
    ensures R(more, o') && o' == Called(o, error)
  {
    more, o' := inputs + [Answer(error)], Called(o, error);
  }

  lemma Pass(R: (seq<Input>, Identification) -> bool, inputs: seq<Input>, o: Identification, stage: CI.Stage)
    returns (more: seq<Input>, o': Identification)
    requires GoesOn(R) && R(inputs, o) && At(o, stage) && TakesOn(o, stage)
    ensures R(more, o') && At(o', NextStage(stage)) && o'.lapsed == o.lapsed
  {
    more, o' := OneCall(R, inputs, o, false);
  }

  /** The power-up, with two calls for the operating conditions */
  lemma UpToCid(R: (seq<Input>, Identification) -> bool, inputs: seq<Input>, o: Identification)
    returns (more: seq<Input>, o': Identification)
    requires GoesOn(R) && R(inputs, o) && o.card.stage == CI.GoIdle
    ensures R(more, o') && At(o', CI.AllSendCid)
  {
    Begun(o);
    more, o' := OneCall(R, inputs, o, false);
    Versioned(o');
    more, o' := OneCall(R, more, o', false);
    Asked(o');
    more, o' := OneCall(R, more, o', false);
    PoweredUp(o');
    more, o' := OneCall(R, more, o', false);
  }

  /** Two milestones later the CSD is answered with an error. */
  lemma UpToError(R: (seq<Input>, Identification) -> bool, inputs: seq<Input>, o: Identification)
    returns (more: seq<Input>, o': Identification)
    requires GoesOn(R) && R(inputs, o) && At(o, CI.AllSendCid)
    ensures R(more, o') && At(o', CI.SendCsd) && o'.lapsed
  {
    Addressed(o, CI.AllSendCid);
    more, o' := Pass(R, inputs, o, CI.AllSendCid);
    Addressed(o', CI.SetAddress);
    more, o' := Pass(R, more, o', CI.SetAddress);
    Addressed(o', CI.SendCid);
    more, o' := Pass(R, more, o', CI.SendCid);
    ErrorLapses(o');
    more, o' := OneCall(R, more, o', true);
  }

  /** And the identification goes on as if it had been an answer. */
  lemma UpToEnd(R: (seq<Input>, Identification) -> bool, inputs: seq<Input>, o: Identification)
    returns (more: seq<Input>, o': Identification)
    requires GoesOn(R) && R(inputs, o) && At(o, CI.SendCsd) && o.lapsed
    ensures R(more, o') && At(o', CI.Final) && o'.lapsed
  {
    Selected(o, CI.SendCsd);
    more, o' := Pass(R, inputs, o, CI.SendCsd);
    Selected(o', CI.SelDesCard);
    more, o' := Pass(R, more, o', CI.SelDesCard);
    Configured(o', CI.CheckSts);
    more, o' := Pass(R, more, o', CI.CheckSts);
    Configured(o', CI.SendScr);
    more, o' := Pass(R, more, o', CI.SendScr);
    Configured(o', CI.ParseScr);
    more, o' := Pass(R, more, o', CI.ParseScr);
  }

  lemma StartSends(o: Identification)
    ensures CI.Ident(SLOT, Restarted(o).card, FINE).ok
    ensures o.card.count == 0 ==> Afresh(SLOT, o, FINE).card.stage == CI.GoIdle && Afresh(SLOT, o, FINE).card.count == 0
  {
  }

  const INSERTED := Start.(inserted := true, state := Ident)

  lemma CardComes(h: Host) returns (inputs: seq<Input>, o: Identification)
    requires h.blk > 0
    ensures Reached(h, inputs, INSERTED, o) && o.card.count == 0
  {
    var o0 := Identification(CARD, false, 0, []);
    StartSends(o0);
    ReachNext(h, [], Start, o0, Insert(FINE));
    inputs, o := [] + [Insert(FINE)], Afresh(SLOT, o0, FINE);
  }

  lemma ResetTaken(h: Host)
    requires h.blk > 0
    ensures DataPhaseOk(h, INSERTED) && Take(h, INSERTED, Step.Reset(true)) == Quiet(RESETTING)
  {
  }

  /** The card is inserted, and reset in the middle of its identification. */
  lemma ResetBegins(h: Host) returns (inputs: seq<Input>, o: Identification)
    requires h.blk > 0
    ensures Reached(h, inputs, RESETTING, o) && o.card.stage == CI.GoIdle
  {
    var before;
    inputs, before := CardComes(h);
    StartSends(before);
    ResetTaken(h);
    ReachNext(h, inputs, INSERTED, before, ResetCard(FINE));
    inputs, o := inputs + [ResetCard(FINE)], Afresh(SLOT, before, FINE);
  }

  lemma AlmostDone(h: Host) returns (inputs: seq<Input>, o: Identification)
    requires h.blk > 0
    ensures Reached(h, inputs, RESETTING, o) && At(o, CI.Final) && o.lapsed
  {
    inputs, o := ResetBegins(h);
    ResetGoesOn(h);
    var R := (inputs, o) => Reached(h, inputs, RESETTING, o);
    inputs, o := UpToCid(R, inputs, o);
    inputs, o := UpToError(R, inputs, o);
    inputs, o := UpToEnd(R, inputs, o);
  }

  lemma LastAnswer(h: Host, inputs: seq<Input>, o: Identification)
    requires h.blk > 0 && Reached(h, inputs, RESETTING, o) && Judged(o, false) == IdentDone
    ensures Reached(h, inputs + [Answer(false)], READY, Called(o, false))
  {
    ReachNext(h, inputs, RESETTING, o, Answer(false));
    StepEnds(h, Answering(false).(ident := IdentDone));
  }

  /** READY goes from clear to set, and the milestones were not met. */
  lemma ReadyUnearned(h: Host) returns (inputs: seq<Input>, input: Input)
    requires h.blk > 0
    ensures !Run(h, RunBoth(h, SLOT, CARD, inputs).steps).ext.ready
    ensures Run(h, RunBoth(h, SLOT, CARD, inputs + [input]).steps).ext.ready
    ensures !Earned(RunBoth(h, SLOT, CARD, inputs + [input]).ident.log)
  {
    var o;
    inputs, o := AlmostDone(h);
    input := Answer(false);
    Concludes(o);
    LastAnswer(h, inputs, o);
    EarnedUnlessLapsed(h, SLOT, CARD, inputs, input);
  }
}
