/**
 What a card makes of the commands of identification: its state, the address that it has, and whether the next
 command is an application command.  A card accepts every command that a run sends, and is addressed by the
 address it published, or was given.  (SD Physical Layer Simplified Specification, sections 4.2, 4.3.9 and 4.8.)
 */
module CardProtocol {
  import opened Wrappers
  import opened CardIdent

  datatype CardState = Off | Idle | Ready | Identified | StandBy | Transfer

  /** The card as the bus has it: app says that its last command was CMD55, asked is the command that it has not
      answered, mmc says that it was powered up by CMD1, capacity what it said of that then. */
  datatype Seen = Seen(state: CardState, app: bool, asked: Option<Command>, mmc: bool, capacity: bool,
                       address: Option<nat>)

  const Unseen := Seen(Off, false, None, false, false, None)

  /** The card has answered its command: an operating-condition command may find it powered up, CMD3 gives it the
      address in the argument, or with none there the card publishes one. */
  function Answer(s: Seen, command: Command, r: Reply): Seen {
    var s1 := s.(asked := None, app := command.index == APP_CMD);
    if command.index == SD_OP_COND || command.index == SEND_OP_COND then
      s1.(capacity := s.capacity || r.highCapacity, mmc := command.index == SEND_OP_COND,
          state := if r.poweredUp then Ready else Idle)
    else if command.index == ALL_SEND_CID then s1.(state := Identified)
    else if command.index == SET_RELATIVE_ADDR then
      s1.(state := StandBy, address := Some(if command.rca != 0 then command.rca else r.upperHalf))
    else if command.index == SEL_DES_CARD then s1.(state := Transfer)
    else s1
  }

  /** A command that is answered by an error is not answered yet. */
  function Observe(s: Seen, ev: Event): Seen {
    match ev
    case Begun => Unseen
    case Sent(command) => if command.index == GO_IDLE_STATE then Unseen.(state := Idle) else s.(asked := Some(command))
    case Answered(r) => if r.error || s.asked.None? then s else Answer(s, s.asked.value, r)
  }

  function Watch(log: seq<Event>): Seen {
    if log == [] then Unseen else Observe(Watch(log[..|log| - 1]), log[|log| - 1])
  }

  lemma WatchAppend(log: seq<Event>, ev: Event)
    ensures Watch(log + [ev]) == Observe(Watch(log), ev)
  {
    assert (log + [ev])[..|log|] == log;
  }

  /** The commands that name the card they are for */
  const ADDRESSED := {SEL_DES_CARD, SEND_CSD, SEND_CID, SEND_STATUS, APP_CMD}

  /** The card takes the command: it is one of its state, CMD41 and CMD51 after CMD55, and names it by its
      address. */
  predicate Takes(s: Seen, command: Command) {
    && (command.index in ADDRESSED && s.state != Idle ==> Some(command.rca) == s.address)
    && match s.state
       case Off => command.index == GO_IDLE_STATE
       case Idle => if s.app then command.index in {SD_OP_COND, GO_IDLE_STATE}
                    else command.index in {GO_IDLE_STATE, IF_COND, APP_CMD, SEND_OP_COND} && command.rca == 0
       case Ready => command.index == ALL_SEND_CID
       case Identified => command.index == SET_RELATIVE_ADDR && command.rca == (if s.mmc then 2 else 0)
       case StandBy => command.index in {SEND_CID, SEND_CSD, SEL_DES_CARD}
       case Transfer =>
         if s.app then command.index in {SWITCH, SEND_SCR}
         else || command.index in {SEND_STATUS, SET_BLOCKLEN, SWITCH}
              || command.index == (if s.mmc then IF_COND else APP_CMD)
  }

  // ---------------------------------------------------------------- runs without a failing call

  function Sending(s: Seen, o: Result): Seen {
    if o.sent.Some? then Observe(s, Sent(o.sent.value)) else s
  }

  /** At this stage this is the command that the card has been asked. */
  predicate Asked(s: Seen, state: CardState, index: nat) {
    s.state == state && s.asked.Some? && s.asked.value.index == index
  }

  /** How the driver's stages go with the card; known says that its capacity is. */
  predicate Agrees(c: Card, s: Seen, known: bool) {
    && (Rank(c.stage) <= 11 ==> s.address == Some(c.rca))
    && (Rank(c.stage) <= 13 ==> (s.mmc <==> c.version == Mmc1))
    && (known && (c.stage == MmcPowerup || Rank(c.stage) <= 13 || (c.stage == SdPowerup && c.istage > 0)) ==>
          s.capacity == c.hc)
    && match c.stage
       case Start => known ==> c.count == 0 || !c.hc
       case GoIdle => s == Unseen.(state := Idle) && (known ==> !c.hc)
       case CardVersion => Asked(s, Idle, IF_COND) && !s.app && !s.capacity && (known ==> !c.hc)
       case SdPowerup =>
         c.version != Mmc1 &&
         (if c.istage % 3 == 2 then Asked(s, Idle, SD_OP_COND)
          else c.istage > 0 && Asked(s, Idle, APP_CMD) && !s.app && (known && c.istage == 1 ==> !c.hc))
       case MmcPowerup =>
         if c.istage == 0 then s == Unseen.(state := Idle) && (known ==> !c.hc) else Asked(s, Idle, SEND_OP_COND)
       case AllSendCid => Asked(s, Ready, ALL_SEND_CID)
       case SetAddress =>
         Asked(s, Identified, SET_RELATIVE_ADDR) && s.asked.value.rca == c.rca == (if s.mmc then 2 else 0)
       case SendCid => Asked(s, StandBy, SEND_CID)
       case SendCsd => Asked(s, StandBy, SEND_CSD)
       case SelDesCard => Asked(s, StandBy, SEL_DES_CARD)
       case CheckSts => Asked(s, Transfer, SEND_STATUS)
       case SetBwApp => Asked(s, Transfer, APP_CMD) && !s.mmc
       case SendScr => Asked(s, Transfer, APP_CMD) && !s.mmc
       case ParseScr => Asked(s, Transfer, SEND_SCR) && !s.mmc
       case SetBw => Asked(s, Transfer, SWITCH) && !s.mmc
       case CheckMode => Asked(s, Transfer, SWITCH) && !s.app
       case SwitchMode => Asked(s, Transfer, SWITCH)
       case ExtCsd => Asked(s, Transfer, IF_COND)
       case ModeHs => Asked(s, Transfer, SWITCH)
       case BusWidth => Asked(s, Transfer, SWITCH)
       case Final => Asked(s, Transfer, SET_BLOCKLEN)
       case Done => s.state == Transfer
  }

  /** A call sends what the card takes, and if it succeeds leaves the two in agreement. */
  predicate KeepsAgreement(c: Card, o: Result, r: Reply, s: Seen, known: bool) {
    SendsWell(Observe(s, Heard(c, r)), o, known)
  }

  predicate SendsWell(s: Seen, o: Result, known: bool) {
    (o.sent.Some? ==> Takes(s, o.sent.value)) && (o.ok ==> Agrees(o.card, Sending(s, o), known))
  }

  /** A selected card, of a driver that knows what it is */
  predicate Selected(c: Card, s: Seen, known: bool) {
    && s.state == Transfer && !s.app && s.address == Some(c.rca)
    && (s.mmc <==> c.version == Mmc1) && (known ==> s.capacity == c.hc)
  }

  lemma ClockAgrees(h: Host, c: Card, r: Reply, s: Seen, known: bool)
    requires Selected(c, s, known)
    ensures SendsWell(s, Clock(h, c, r), known)
  {
  }

  /** The commands that the stages of a selected card send, and the stages they lead to */
  lemma SwitchAgrees(c: Card, stage: Stage, r: Reply, s: Seen, known: bool)
    requires Selected(c, s, known) && stage in {ModeHs, BusWidth, SwitchMode, CheckMode}
    ensures SendsWell(s, Send(c.(stage := stage), SWITCH, 0, r), known)
  {
  }

  lemma AppAgrees(c: Card, stage: Stage, r: Reply, s: Seen, known: bool)
    requires Selected(c, s, known) && stage in {SetBwApp, SendScr} && !s.mmc
    ensures SendsWell(s, Send(c.(stage := stage), APP_CMD, c.rca, r), known)
  {
  }

  lemma ExtCsdAgrees(c: Card, r: Reply, s: Seen, known: bool)
    requires Selected(c, s, known) && s.mmc
    ensures SendsWell(s, Send(c.(stage := ExtCsd), IF_COND, 0, r), known)
  {
  }

  lemma StartAgrees(h: Host, c: Card, r: Reply, s: Seen, known: bool)
    requires c.stage in {Start, GoIdle} && Agrees(c, s, known)
    ensures KeepsAgreement(c, Ident(h, c, r), r, s, known)
  {
  }

  lemma VersionAgrees(c: Card, r: Reply, s: Seen, known: bool)
    requires c.stage == CardVersion && Agrees(c, s, known)
    ensures KeepsAgreement(c, IdentCardVersion(c, r), r, s, known)
  {
  }

  lemma SdOpCondAgrees(c: Card, r: Reply, s: Seen, known: bool)
    requires c.stage == SdPowerup && c.istage % 3 == 2 && Agrees(c, s, known) && !r.error
    ensures SendsWell(Observe(s, Answered(r)), SdOpCondDone(if r.highCapacity then c.(hc := true) else c, r), known)
  {
  }

  lemma SdAskAgrees(c: Card, r: Reply, s: Seen, known: bool)
    requires c.stage == SdPowerup && c.version != Mmc1 && c.istage % 3 == 1 && (known ==> s.capacity == c.hc)
    requires Asked(s, Idle, APP_CMD) && !r.error
    ensures SendsWell(Observe(s, Answered(r)), Send(c.(istage := c.istage + 1), SD_OP_COND, 0, r), known)
  {
  }

  /** The next round of the polling */
  lemma SdRoundAgrees(c: Card, r: Reply, s: Seen, known: bool)
    requires c.stage == SdPowerup && c.istage % 3 == 0 && Agrees(c, s, known)
    ensures KeepsAgreement(c, IdentSdPowerup(c, r), r, s, known)
  {
    if !r.error && c.istage <= MAX_SD_STAGE {
      SdAskAgrees(c.(istage := c.istage + 1), r, s, known);
    }
  }

  /** The first one, in which the card may turn out to be none for SD */
  lemma SdFirstAgrees(c: Card, r: Reply, s: Seen, known: bool)
    requires c.stage == SdPowerup && c.istage % 3 == 1 && Agrees(c, s, known)
    ensures KeepsAgreement(c, IdentSdPowerup(c, r), r, s, known)
  {
    if !r.error { SdAskAgrees(c, r, s, known); }
  }

  lemma SdPowerupAgrees(c: Card, r: Reply, s: Seen, known: bool)
    requires c.stage == SdPowerup && Agrees(c, s, known)
    ensures KeepsAgreement(c, IdentSdPowerup(c, r), r, s, known)
  {
    if c.istage % 3 == 0 {
      SdRoundAgrees(c, r, s, known);
    } else if c.istage % 3 == 1 {
      SdFirstAgrees(c, r, s, known);
    } else if c.istage <= MAX_SD_STAGE && !r.error {
      SdOpCondAgrees(c, r, s, known);
      assert IdentSdPowerup(c, r) == SdOpCondDone(if r.highCapacity then c.(hc := true) else c, r);
    }
  }

  lemma MmcPowerupAgrees(h: Host, c: Card, r: Reply, s: Seen, known: bool)
    requires c.stage == MmcPowerup && Agrees(c, s, known)
    ensures KeepsAgreement(c, IdentMmcPowerup(h, c, r), r, s, known)
  {
  }

  lemma AddressingAgrees(h: Host, c: Card, r: Reply, s: Seen, known: bool)
    requires c.stage in {AllSendCid, SetAddress} && Agrees(c, s, known)
    ensures KeepsAgreement(c, Ident(h, c, r), r, s, known)
  {
  }

  lemma SendCidAgrees(c: Card, r: Reply, s: Seen, known: bool)
    requires c.stage == SendCid && Agrees(c, s, known)
    ensures KeepsAgreement(c, IdentSendCid(c, r), r, s, known)
  {
  }

  lemma SelectingAgrees(h: Host, c: Card, r: Reply, s: Seen, known: bool)
    requires c.stage in {SendCsd, SelDesCard} && Agrees(c, s, known)
    ensures KeepsAgreement(c, Ident(h, c, r), r, s, known)
  {
  }

  /** An answer without error, of a selected card */
  lemma AnsweredSelected(c: Card, r: Reply, s: Seen, known: bool)
    requires Agrees(c, s, known) && !r.error
    requires c.stage in {CheckSts, ExtCsd, ModeHs, BusWidth, SetBw, ParseScr, CheckMode, SwitchMode}
    ensures Selected(c, Observe(s, Heard(c, r)), known)
  {
  }

  lemma StatusAgrees(h: Host, c: Card, r: Reply, s: Seen, known: bool)
    requires c.stage == CheckSts && Agrees(c, s, known)
    ensures KeepsAgreement(c, Ident(h, c, r), r, s, known)
  {
    if !r.error {
      AnsweredSelected(c, r, s, known);
      var s1 := Observe(s, Heard(c, r));
      ClockAgrees(h, c, r, s1, known);
      if c.version == Mmc1 {
        ExtCsdAgrees(SetBlksz(h, c, 512), r, s1, known);
      } else {
        AppAgrees(c, SetBwApp, r, s1, known);
        AppAgrees(SetBlksz(h, c, 8), SendScr, r, s1, known);
      }
    }
  }

  lemma WidthAgrees(c: Card, r: Reply, s: Seen, known: bool)
    requires Selected(c, s, known)
    ensures SendsWell(s, ConfigBusWidth(c, r), known)
  {
    SwitchAgrees(c, BusWidth, r, s, known);
  }

  lemma MmcModesAgree(h: Host, c: Card, r: Reply, s: Seen, known: bool)
    requires c.stage in {ExtCsd, ModeHs, BusWidth} && Agrees(c, s, known)
    ensures KeepsAgreement(c, Ident(h, c, r), r, s, known)
  {
    if !r.error {
      AnsweredSelected(c, r, s, known);
      var s1 := Observe(s, Heard(c, r));
      var c1 := if c.stage == ModeHs then c.(hs := true) else c;
      ClockAgrees(h, c1, r, s1, known);
      WidthAgrees(c1, r, s1, known);
      SwitchAgrees(c, ModeHs, r, s1, known);
    }
  }

  lemma SetBwAppAgrees(c: Card, r: Reply, s: Seen, known: bool)
    requires c.stage == SetBwApp && Agrees(c, s, known)
    ensures KeepsAgreement(c, IdentSetBwApp(c, r), r, s, known)
  {
  }

  lemma SendScrAgrees(c: Card, r: Reply, s: Seen, known: bool)
    requires c.stage == SendScr && Agrees(c, s, known)
    ensures KeepsAgreement(c, IdentSendScr(c, r), r, s, known)
  {
  }

  lemma SdConfigAgrees(h: Host, c: Card, r: Reply, s: Seen, known: bool)
    requires c.stage in {SetBw, ParseScr} && Agrees(c, s, known)
    ensures KeepsAgreement(c, Ident(h, c, r), r, s, known)
  {
    if !r.error {
      AnsweredSelected(c, r, s, known);
      var s1 := Observe(s, Heard(c, r));
      ClockAgrees(h, c, r, s1, known);
      ClockAgrees(h, SetBlksz(h, c, 64), r, s1, known);
      AppAgrees(SetBlksz(h, c, 8), SendScr, r, s1, known);
      SwitchAgrees(SetBlksz(h, c, 64), CheckMode, r, s1, known);
    }
  }

  lemma SdModesAgree(h: Host, c: Card, r: Reply, s: Seen, known: bool)
    requires c.stage in {CheckMode, SwitchMode} && Agrees(c, s, known)
    ensures KeepsAgreement(c, Ident(h, c, r), r, s, known)
  {
    var s1 := Observe(s, Heard(c, r));
    if c.stage == CheckMode || !r.error {
      assert Selected(c, s1, known);
      ClockAgrees(h, c, r, s1, known);
      ClockAgrees(h, c.(hs := true), r, s1, known);
      SwitchAgrees(c, SwitchMode, r, s1, known);
    }
  }

  lemma CallAgrees(h: Host, c: Card, r: Reply, s: Seen, known: bool)
    requires Agrees(c, s, known)
    ensures KeepsAgreement(c, Ident(h, c, r), r, s, known)
  {
    match c.stage
    case Start | GoIdle => StartAgrees(h, c, r, s, known);
    case CardVersion => VersionAgrees(c, r, s, known);
    case SdPowerup => SdPowerupAgrees(c, r, s, known);
    case MmcPowerup => MmcPowerupAgrees(h, c, r, s, known);
    case AllSendCid | SetAddress => AddressingAgrees(h, c, r, s, known);
    case SendCid => SendCidAgrees(c, r, s, known);
    case SendCsd | SelDesCard => SelectingAgrees(h, c, r, s, known);
    case CheckSts => StatusAgrees(h, c, r, s, known);
    case ExtCsd | ModeHs | BusWidth => MmcModesAgree(h, c, r, s, known);
    case SetBwApp => SetBwAppAgrees(c, r, s, known);
    case SendScr => SendScrAgrees(c, r, s, known);
    case SetBw | ParseScr => SdConfigAgrees(h, c, r, s, known);
    case CheckMode | SwitchMode => SdModesAgree(h, c, r, s, known);
    case Final | Done => EndAgrees(h, c, r, s, known);
  }

  lemma EndAgrees(h: Host, c: Card, r: Reply, s: Seen, known: bool)
    requires c.stage in {Final, Done} && Agrees(c, s, known)
    ensures KeepsAgreement(c, Ident(h, c, r), r, s, known)
  {
  }

  // ---------------------------------------------------------------- the log

  /** Every command was one that the card took. */
  predicate AllTaken(log: seq<Event>) {
    forall i :: 0 <= i < |log| && log[i].Sent? ==> Takes(Watch(log[..i]), log[i].command)
  }

  lemma OneMoreTaken(log: seq<Event>, ev: Event)
    requires AllTaken(log) && (ev.Sent? ==> Takes(Watch(log), ev.command))
    ensures AllTaken(log + [ev])
  {
    assert (log + [ev])[..|log|] == log;
    assert forall i :: 0 <= i < |log| ==> (log + [ev])[..i] == log[..i];
  }

  lemma LoggedTaken(log: seq<Event>, heard: Event, sent: Option<Command>)
    requires AllTaken(log) && !heard.Sent? && (sent.Some? ==> Takes(Observe(Watch(log), heard), sent.value))
    ensures AllTaken(Logged(log, heard, sent))
    ensures Watch(Logged(log, heard, sent))
            == var s := Observe(Watch(log), heard); if sent.Some? then Observe(s, Sent(sent.value)) else s
  {
    WatchAppend(log, heard);
    OneMoreTaken(log, heard);
    if sent.Some? {
      WatchAppend(log + [heard], Sent(sent.value));
      OneMoreTaken(log + [heard], Sent(sent.value));
    }
  }

  lemma {:induction false} RunAgrees(h: Host, c: Card, replies: seq<Reply>)
    requires c.stage == Start
    ensures var o := Run(h, c, replies);
            AllTaken(o.log) && (o.ok ==> Agrees(o.card, Watch(o.log), c.count == 0 || !c.hc))
  {
    if replies != [] {
      var o, r := Run(h, c, replies[..|replies| - 1]), replies[|replies| - 1];
      RunAgrees(h, c, replies[..|replies| - 1]);
      if !Over(o) {
        CallAgrees(h, o.card, r, Watch(o.log), c.count == 0 || !c.hc);
        LoggedTaken(o.log, Heard(o.card, r), Ident(h, o.card, r).sent);
      }
    }
  }

  /** Over every run of an identification: the card takes all its commands.  At the end it is selected, and the
      driver knows its address and its kind, and its capacity unless that was set from before and the start had
      been tried already. */
  lemma CommandsAreTaken(h: Host, c: Card, replies: seq<Reply>)
    requires c.stage == Start
    ensures var o := Run(h, c, replies);
            && AllTaken(o.log)
            && (o.ok && o.card.stage == Done ==>
                  var s := Watch(o.log);
                  && s.state == Transfer && s.address == Some(o.card.rca)
                  && (s.mmc <==> o.card.version == Mmc1)
                  && (c.count == 0 || !c.hc ==> s.capacity == o.card.hc))
  {
    RunAgrees(h, c, replies);
  }

  // ---------------------------------------------------------------- addresses, whether calls fail or not

  /** The driver's address is that of the card, once it has one. */
  predicate Addressable(c: Card, s: Seen) {
    c.stage != Start ==>
      && (s.asked.Some? && s.asked.value.index == SET_RELATIVE_ADDR ==>
            c.stage == SetAddress && s.asked.value.rca == c.rca)
      && (c.stage == SetAddress ==> (c.rca == 0 <==> c.version != Mmc1))
      && (s.address.Some? ==> Rank(c.stage) <= 11 && s.address.value == c.rca)
  }

  /** A card that has an address is named by it. */
  predicate Names(s: Seen, command: Command) {
    command.index in ADDRESSED && s.address.Some? ==> command.rca == s.address.value
  }

  predicate KeepsAddress(c: Card, o: Result, r: Reply, s: Seen) {
    var s1 := Observe(s, Heard(c, r));
    (o.sent.Some? ==> Names(s1, o.sent.value)) && Addressable(o.card, Sending(s1, o))
  }

  /** Before the addressing, no command is about addresses. */
  predicate StaysEarly(o: Result) {
    Rank(o.card.stage) >= 13 && (o.sent.Some? ==> o.sent.value.index != SET_RELATIVE_ADDR)
  }

  lemma EarlyKeepsAddress(c: Card, o: Result, r: Reply, s: Seen)
    requires Rank(c.stage) >= 14 && Addressable(c, s) && StaysEarly(o)
    ensures KeepsAddress(c, o, r, s)
  {
  }

  lemma PowerupStaysEarly(h: Host, c: Card, r: Reply)
    requires c.stage in {Start, GoIdle, CardVersion, MmcPowerup}
    ensures StaysEarly(Ident(h, c, r))
  {
  }

  lemma SdPowerupStaysEarly(c: Card, r: Reply)
    requires c.stage == SdPowerup
    ensures StaysEarly(IdentSdPowerup(c, r))
  {
  }

  /** After it, the address stays, and commands that name one name this. */
  predicate StaysLate(c: Card, o: Result) {
    && Rank(o.card.stage) <= 11 && o.card.rca == c.rca
    && (o.sent.Some? ==> var command := o.sent.value;
                         && command.index != SET_RELATIVE_ADDR && command.index != GO_IDLE_STATE
                         && (command.index in ADDRESSED ==> command.rca == c.rca))
  }

  lemma LateKeepsAddress(c: Card, o: Result, r: Reply, s: Seen)
    requires Rank(c.stage) <= 11 && Addressable(c, s) && StaysLate(c, o)
    ensures KeepsAddress(c, o, r, s)
  {
  }

  lemma SelectingStaysLate(h: Host, c: Card, r: Reply)
    requires c.stage in {SendCid, SendCsd, SelDesCard, Final, Done}
    ensures StaysLate(c, Ident(h, c, r))
  {
  }

  lemma ClockStaysLate(h: Host, c: Card, r: Reply)
    ensures StaysLate(c, Clock(h, c, r))
  {
  }

  lemma ExtCsdStaysLate(h: Host, c: Card, r: Reply)
    requires c.stage == ExtCsd
    ensures StaysLate(c, IdentExtCsd(h, c, r))
  {
    ClockStaysLate(h, c, r);
  }

  lemma MmcStaysLate(h: Host, c: Card, r: Reply)
    requires c.stage in {ModeHs, BusWidth}
    ensures StaysLate(c, Ident(h, c, r))
  {
    ClockStaysLate(h, c.(hs := true), r);
  }

  lemma StatusStaysLate(h: Host, c: Card, r: Reply)
    requires c.stage == CheckSts
    ensures StaysLate(c, IdentStatusDone(h, c, r))
  {
    ClockStaysLate(h, c, r);
  }

  lemma WidthStaysLate(h: Host, c: Card, r: Reply)
    requires c.stage in {SetBwApp, SetBw}
    ensures StaysLate(c, Ident(h, c, r))
  {
    ClockStaysLate(h, c, r);
  }

  lemma ScrStaysLate(h: Host, c: Card, r: Reply)
    requires c.stage in {SendScr, ParseScr}
    ensures StaysLate(c, Ident(h, c, r))
  {
    ClockStaysLate(h, c, r);
    ClockStaysLate(h, SetBlksz(h, c, 64), r);
  }

  lemma ModeStaysLate(h: Host, c: Card, r: Reply)
    requires c.stage in {CheckMode, SwitchMode}
    ensures StaysLate(c, Ident(h, c, r))
  {
    ClockStaysLate(h, c, r);
    ClockStaysLate(h, c.(hs := true), r);
  }

  lemma AddressingKeepsAddress(h: Host, c: Card, r: Reply, s: Seen)
    requires c.stage in {AllSendCid, SetAddress} && Addressable(c, s)
    ensures KeepsAddress(c, Ident(h, c, r), r, s)
  {
  }

  lemma CallKeepsAddress(h: Host, c: Card, r: Reply, s: Seen)
    requires Addressable(c, s)
    ensures KeepsAddress(c, Ident(h, c, r), r, s)
  {
    if Rank(c.stage) >= 14 {
      if c.stage == SdPowerup { SdPowerupStaysEarly(c, r); } else { PowerupStaysEarly(h, c, r); }
      EarlyKeepsAddress(c, Ident(h, c, r), r, s);
    } else if c.stage in {AllSendCid, SetAddress} {
      AddressingKeepsAddress(h, c, r, s);
    } else {
      LateCalls(h, c, r);
      LateKeepsAddress(c, Ident(h, c, r), r, s);
    }
  }

  lemma LateCalls(h: Host, c: Card, r: Reply)
    requires Rank(c.stage) <= 11
    ensures StaysLate(c, Ident(h, c, r))
  {
    match c.stage
    case SendCid | SendCsd | SelDesCard | Final | Done => SelectingStaysLate(h, c, r);
    case ExtCsd => ExtCsdStaysLate(h, c, r);
    case ModeHs | BusWidth => MmcStaysLate(h, c, r);
    case CheckSts => StatusStaysLate(h, c, r);
    case SetBwApp | SetBw => WidthStaysLate(h, c, r);
    case SendScr | ParseScr => ScrStaysLate(h, c, r);
    case CheckMode | SwitchMode => ModeStaysLate(h, c, r);
  }

  /** Every command named the card by the address that it had, if any. */
  predicate AllNamed(log: seq<Event>) {
    forall i :: 0 <= i < |log| && log[i].Sent? ==> Names(Watch(log[..i]), log[i].command)
  }

  lemma OneMoreNamed(log: seq<Event>, ev: Event)
    requires AllNamed(log) && (ev.Sent? ==> Names(Watch(log), ev.command))
    ensures AllNamed(log + [ev])
  {
    assert (log + [ev])[..|log|] == log;
    assert forall i :: 0 <= i < |log| ==> (log + [ev])[..i] == log[..i];
  }

  /** What a call adds to the log keeps that up. */
  lemma LoggedNamed(h: Host, c: Card, r: Reply, log: seq<Event>)
    requires AllNamed(log) && Addressable(c, Watch(log))
    ensures var o := Ident(h, c, r);
            var all := Logged(log, Heard(c, r), o.sent);
            AllNamed(all) && Addressable(o.card, Watch(all))
  {
    var o := Ident(h, c, r);
    CallKeepsAddress(h, c, r, Watch(log));
    WatchAppend(log, Heard(c, r));
    OneMoreNamed(log, Heard(c, r));
    if o.sent.Some? {
      WatchAppend(log + [Heard(c, r)], Sent(o.sent.value));
      OneMoreNamed(log + [Heard(c, r)], Sent(o.sent.value));
    }
  }
}
