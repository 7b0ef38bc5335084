/**
 Identification of a card: the state machine of mmc_card_ident, stage by stage, first as functions on
 its state.  Its stage codes go up and down; a measure that every command decreases shows that it
 ends.  (SD Physical Layer Simplified Specification, section 4.2.3.)
 */
module CardIdent {
  import opened Wrappers

  datatype Stage =
    | Done | Start | GoIdle | CardVersion | SdPowerup | MmcPowerup | AllSendCid | SetAddress | SendCid | SendCsd
    | SendScr | ParseScr | CheckMode | SwitchMode | SelDesCard | CheckSts | SetBwApp | SetBw | ExtCsd
    | ModeHs | BusWidth | Final

  datatype Version = Sd1 | Sd2 | Mmc1

  /** The fields of SIM_MMC_EXT that identification works on, and the static retry count; v4 says that
      the CSD asks for the extended CSD, blksz is the host's block size. */
  datatype Card = Card(stage: Stage, istage: nat, count: nat, version: Version, rca: nat, hc: bool, hs: bool,
                       v4: bool, blksz: nat)

  /** Capabilities and configuration of the host; it takes block sizes up to maxBlksz. */
  datatype Host = Host(pwrRetry: nat, pwrDelay: nat, sdWidth4: bool, wide: bool, hs: bool, noHs: bool, hasPio: bool,
                       maxBlksz: nat)

  datatype Command = Command(index: nat, rca: nat)

  /** What the hardware answers during one call: the interrupt, the parts of the card's response that are
      looked at, and how the callouts end. */
  datatype Reply = Reply(
    error: bool, timedOut: bool, command: bool,
    highCapacity: bool, poweredUp: bool, echoed: bool, upperHalf: nat,
    detected: bool, powered: bool, accepted: bool, pioReady: bool, pioDone: bool, cardReady: bool,
    v4: bool, scrSpec: bool, hsCapable: bool, hsSwitched: bool, cardTypeKnown: bool)

  /** What one call leaves, the command it sent, and whether it returned success. */
  datatype Result = Result(card: Card, sent: Option<Command>, ok: bool)

  function Failure(c: Card): Result { Result(c, None, false) }

  /** mmc_sendcmd, as the last act of a handler */
  function Send(c: Card, index: nat, rca: nat, r: Reply): Result {
    if r.accepted then Result(c, Some(Command(index, rca)), true) else Failure(c)
  }

  function SetBlksz(h: Host, c: Card, n: nat): Card {
    if n > h.maxBlksz then c else c.(blksz := n)
  }

  const GO_IDLE_STATE := 0
  const SEND_OP_COND := 1
  const ALL_SEND_CID := 2
  const SET_RELATIVE_ADDR := 3
  const SWITCH := 6
  const SEL_DES_CARD := 7
  const IF_COND := 8
  const SEND_CSD := 9
  const SEND_CID := 10
  const SEND_STATUS := 13
  const SET_BLOCKLEN := 16
  const SD_OP_COND := 41
  const SEND_SCR := 51
  const APP_CMD := 55

  // ---------------------------------------------------------------- power-up

  function IdentStart(h: Host, c: Card, r: Reply): Result {
    var c0 := if c.count == 0 then c.(hc := false, hs := false) else c;
    if !r.detected || !r.powered then Failure(c0)
    else Send(if c.count + 1 > h.pwrRetry then c0.(stage := GoIdle, count := 0) else c0.(count := c.count + 1),
              GO_IDLE_STATE, 0, r)
  }

  function IdentGoIdle(c: Card, r: Reply): Result {
    if r.error then Failure(c)
    else if r.command then Send(c.(stage := CardVersion, istage := 0), IF_COND, 0, r)
    else Result(c, None, true)
  }

  function IdentCardVersion(c: Card, r: Reply): Result {
    if r.timedOut then IdentSdPowerup(c.(version := Sd1, stage := SdPowerup, istage := 0), r)
    else if !r.error && r.echoed then IdentSdPowerup(c.(version := Sd2, stage := SdPowerup, istage := 0), r)
    else Failure(c)
  }

  const MAX_SD_STAGE := 1000

  function IdentSdPowerup(c: Card, r: Reply): Result {
    if c.istage > MAX_SD_STAGE then Failure(c)
    else if c.istage == 0 then Send(c.(istage := 1), APP_CMD, 0, r)
    else
      var c1 := if c.istage % 3 == 0 then c.(istage := c.istage + 1) else c;
      if c1.istage == 1 && c1.version == Sd1 && r.timedOut then
        Send(c1.(stage := MmcPowerup, istage := 0), GO_IDLE_STATE, 0, r)
      else if r.error then Failure(c1)
      else if c1.istage % 3 == 1 then Send(c1.(istage := c1.istage + 1), SD_OP_COND, 0, r)
      else SdOpCondDone(if r.highCapacity then c1.(hc := true) else c1, r)
  }

  function SdOpCondDone(c: Card, r: Reply): Result {
    if r.poweredUp then Send(c.(stage := AllSendCid, istage := 0), ALL_SEND_CID, 0, r)
    else Send(c.(istage := c.istage + 1), APP_CMD, 0, r)
  }

  const MAX_MMC_STAGE := 3000

  function IdentMmcPowerup(h: Host, c: Card, r: Reply): Result {
    var c1 := c.(istage := c.istage + 1);
    if h.pwrDelay * c.istage > MAX_MMC_STAGE || c.istage > MAX_MMC_STAGE then Failure(c)
    else if c1.istage == 1 then Send(c1, SEND_OP_COND, 0, r)
    else if r.error then Failure(c1)
    else MmcOpCondDone(if r.highCapacity then c1.(hc := true) else c1, r)
  }

  function MmcOpCondDone(c: Card, r: Reply): Result {
    if r.poweredUp then Send(c.(stage := AllSendCid, istage := 0, version := Mmc1), ALL_SEND_CID, 0, r)
    else Send(c, SEND_OP_COND, 0, r)
  }

  // ---------------------------------------------------------------- addressing

  function IdentAllSendCid(c: Card, r: Reply): Result {
    var c1 := c.(stage := SetAddress, rca := if c.version == Mmc1 then 2 else 0);
    if r.error then Failure(c) else Send(c1, SET_RELATIVE_ADDR, c1.rca, r)
  }

  function IdentSetAddress(c: Card, r: Reply): Result {
    var c1 := c.(stage := SendCid, rca := if c.version == Mmc1 then c.rca else r.upperHalf);
    if r.error then Failure(c) else Send(c1, SEND_CID, c1.rca, r)
  }

  function IdentSendCid(c: Card, r: Reply): Result {
    if r.error then Failure(c) else Send(c.(stage := SendCsd), SEND_CSD, c.rca, r)
  }

  function IdentSendCsd(c: Card, r: Reply): Result {
    if r.error then Failure(c) else Send(c.(stage := SelDesCard, v4 := r.v4), SEL_DES_CARD, c.rca, r)
  }

  function IdentSelDesCard(c: Card, r: Reply): Result {
    if r.error then Failure(c) else Send(c.(stage := CheckSts), SEND_STATUS, c.rca, r)
  }

  // ---------------------------------------------------------------- bus width and speed

  /** mmc_ident_sd_clock and mmc_ident_mmc_clock: both end with the block length. */
  function Clock(h: Host, c: Card, r: Reply): Result {
    Send(SetBlksz(h, c, 512).(stage := Final), SET_BLOCKLEN, 0, r)
  }

  function ConfigBusWidth(c: Card, r: Reply): Result {
    if !r.cardReady then Failure(c.(stage := BusWidth)) else Send(c.(stage := BusWidth), SWITCH, 0, r)
  }

  function IdentStatusDone(h: Host, c: Card, r: Reply): Result {
    if r.error then Failure(c)
    else if c.version == Mmc1 then
      if !c.v4 then Clock(h, c, r)
      else if !r.pioReady then Failure(SetBlksz(h, c, 512))
      else Send(SetBlksz(h, c, 512).(stage := ExtCsd), IF_COND, 0, r)
    else if h.sdWidth4 then Send(c.(stage := SetBwApp), APP_CMD, c.rca, r)
    else Send(SetBlksz(h, c, 8).(stage := SendScr), APP_CMD, c.rca, r)
  }

  function IdentExtCsd(h: Host, c: Card, r: Reply): Result {
    if r.error || !r.pioDone || !r.cardTypeKnown then Failure(c)
    else if h.hs then Send(c.(stage := ModeHs), SWITCH, 0, r)
    else if c.v4 && h.wide then ConfigBusWidth(c, r)
    else Clock(h, c, r)
  }

  function IdentModeHs(h: Host, c: Card, r: Reply): Result {
    if r.error then Failure(c)
    else if c.v4 && h.wide then ConfigBusWidth(c.(hs := true), r)
    else Clock(h, c.(hs := true), r)
  }

  function IdentBusWidth(h: Host, c: Card, r: Reply): Result {
    var c1 := SetBlksz(h, c, 512).(stage := Final);
    if r.error then Failure(c)
    else if !r.cardReady then Failure(c1)
    else Send(c1, SET_BLOCKLEN, 0, r)
  }

  function IdentSetBwApp(c: Card, r: Reply): Result {
    if r.error then Failure(c) else Send(c.(stage := SetBw), SWITCH, 0, r)
  }

  function IdentSetBw(h: Host, c: Card, r: Reply): Result {
    if r.error then Failure(c)
    else if h.noHs || !h.hasPio || 8 > h.maxBlksz then Clock(h, c, r)
    else Send(SetBlksz(h, c, 8).(stage := SendScr), APP_CMD, c.rca, r)
  }

  function IdentSendScr(c: Card, r: Reply): Result {
    if r.error || !r.pioReady then Failure(c) else Send(c.(stage := ParseScr), SEND_SCR, 0, r)
  }

  function IdentParseScr(h: Host, c: Card, r: Reply): Result {
    if r.error || !r.pioDone then Failure(c)
    else if !r.scrSpec || 64 > h.maxBlksz then Clock(h, c, r)
    else if !r.pioReady then Clock(h, SetBlksz(h, c, 64), r)
    else Send(SetBlksz(h, c, 64).(stage := CheckMode), SWITCH, 0, r)
  }

  function IdentCheckMode(h: Host, c: Card, r: Reply): Result {
    if r.error then Clock(h, c, r)
    else if !r.pioDone then Failure(c)
    else if !r.hsCapable || !h.hs then Clock(h, c, r)
    else if !r.pioReady then Failure(c)
    else Send(c.(stage := SwitchMode), SWITCH, 0, r)
  }

  function IdentSwitchMode(h: Host, c: Card, r: Reply): Result {
    if r.error || !r.pioDone then Failure(c) else Clock(h, if r.hsSwitched then c.(hs := true) else c, r)
  }

  /** mmc_card_ident */
  function Ident(h: Host, c: Card, r: Reply): Result {
    match c.stage
    case Start => IdentStart(h, c, r)
    case GoIdle => IdentGoIdle(c, r)
    case CardVersion => IdentCardVersion(c, r)
    case SdPowerup => IdentSdPowerup(c, r)
    case MmcPowerup => IdentMmcPowerup(h, c, r)
    case AllSendCid => IdentAllSendCid(c, r)
    case SetAddress => IdentSetAddress(c, r)
    case SendCid => IdentSendCid(c, r)
    case SendCsd => IdentSendCsd(c, r)
    case SelDesCard => IdentSelDesCard(c, r)
    case SendScr => IdentSendScr(c, r)
    case ParseScr => IdentParseScr(h, c, r)
    case CheckMode => IdentCheckMode(h, c, r)
    case SwitchMode => IdentSwitchMode(h, c, r)
    case CheckSts => IdentStatusDone(h, c, r)
    case SetBwApp => IdentSetBwApp(c, r)
    case SetBw => IdentSetBw(h, c, r)
    case ExtCsd => IdentExtCsd(h, c, r)
    case ModeHs => IdentModeHs(h, c, r)
    case BusWidth => IdentBusWidth(h, c, r)
    case Final => Result(c.(stage := Done), None, !r.error)
    case Done => Failure(c)
  }

  // ---------------------------------------------------------------- termination

  /** How far a stage is from the end; the stage codes of the source are not monotonic. */
  function Rank(stage: Stage): nat {
    match stage
    case Done => 0
    case Final => 1
    case SwitchMode => 2
    case BusWidth => 2
    case CheckMode => 3
    case ModeHs => 3
    case ParseScr => 4
    case ExtCsd => 4
    case SendScr => 5
    case SetBw => 6
    case SetBwApp => 7
    case CheckSts => 8
    case SelDesCard => 9
    case SendCsd => 10
    case SendCid => 11
    case SetAddress => 12
    case AllSendCid => 13
    case MmcPowerup => 14
    case SdPowerup => 15
    case CardVersion => 16
    case GoIdle => 17
    case Start => 18
  }

  /** What is left of the retries of Start, or of the polling of a power-up stage. */
  function Budget(h: Host, c: Card): nat {
    match c.stage
    case Start => if c.count <= h.pwrRetry then h.pwrRetry - c.count else 0
    case SdPowerup => if c.istage <= MAX_SD_STAGE then MAX_SD_STAGE + 1 - c.istage else 0
    case MmcPowerup => if c.istage <= MAX_MMC_STAGE then MAX_MMC_STAGE + 1 - c.istage else 0
    case _ => 0
  }

  predicate Before(h: Host, c: Card, c': Card) {
    Rank(c'.stage) < Rank(c.stage) || (Rank(c'.stage) == Rank(c.stage) && Budget(h, c') < Budget(h, c))
  }

  /** Outside the power-up stages every command lowers the rank, and success means a command. */
  predicate Descends(c: Card, o: Result) {
    (o.sent.Some? ==> Rank(o.card.stage) < Rank(c.stage)) && (o.ok ==> o.sent.Some?)
  }

  lemma ClockDescends(h: Host, c: Card, before: Card, r: Reply)
    requires Rank(before.stage) > 1
    ensures Descends(before, Clock(h, c, r))
  {
  }

  lemma SdStagesDescend(h: Host, c: Card, r: Reply)
    requires c.stage in {SendScr, ParseScr, CheckMode, SwitchMode, SetBwApp, SetBw}
    ensures Descends(c, Ident(h, c, r))
  {
    ClockDescends(h, c, c, r);
    ClockDescends(h, SetBlksz(h, c, 64), c, r);
    ClockDescends(h, c.(hs := true), c, r);
  }

  lemma MmcStagesDescend(h: Host, c: Card, r: Reply)
    requires c.stage in {ExtCsd, ModeHs, BusWidth}
    ensures Descends(c, Ident(h, c, r))
  {
    ClockDescends(h, c, c, r);
    ClockDescends(h, c.(hs := true), c, r);
  }

  lemma AddressingDescends(h: Host, c: Card, r: Reply)
    requires c.stage in {AllSendCid, SetAddress, SendCid, SendCsd, SelDesCard, CheckSts}
    ensures Descends(c, Ident(h, c, r))
  {
    if c.stage == CheckSts {
      ClockDescends(h, c, c, r);
    }
  }

  /** In the power-up stages it may be the budget that becomes less. */
  predicate Advances(h: Host, c: Card, o: Result) {
    (o.sent.Some? ==> Before(h, c, o.card)) && (o.ok ==> o.sent.Some?)
  }

  lemma SdPowerupAdvances(h: Host, c: Card, r: Reply)
    requires c.stage == SdPowerup
    ensures Advances(h, c, IdentSdPowerup(c, r))
  {
  }

  lemma OtherPowerupAdvances(h: Host, c: Card, r: Reply)
    requires c.stage in {Start, CardVersion, MmcPowerup} || (c.stage == GoIdle && (r.error || r.command))
    ensures Advances(h, c, Ident(h, c, r))
  {
  }

  /** Every command takes the identification on: the stage comes nearer to the end, or what is left of
      the retries or of the polling becomes less.  A call that succeeds without a command only waits for
      the reset command, or ends the identification. */
  lemma CallAdvances(h: Host, c: Card, r: Reply)
    ensures var o := Ident(h, c, r);
            if c.stage == Final || c.stage == Done || (c.stage == GoIdle && !r.error && !r.command)
            then o.sent.None? && (o.ok ==> o.card == c.(stage := if c.stage == Final then Done else c.stage))
            else Advances(h, c, o)
  {
    if c.stage in {SendScr, ParseScr, CheckMode, SwitchMode, SetBwApp, SetBw} {
      SdStagesDescend(h, c, r);
    } else if c.stage in {ExtCsd, ModeHs, BusWidth} {
      MmcStagesDescend(h, c, r);
    } else if c.stage in {Start, CardVersion, MmcPowerup} || (c.stage == GoIdle && (r.error || r.command)) {
      OtherPowerupAdvances(h, c, r);
    } else if c.stage == SdPowerup {
      SdPowerupAdvances(h, c, r);
    } else if c.stage in {AllSendCid, SetAddress, SendCid, SendCsd, SelDesCard, CheckSts} {
      AddressingDescends(h, c, r);
    }
  }

  /** The most commands that identification can still send. */
  function CommandsLeft(h: Host, c: Card): nat {
    var sd, mmc := MAX_SD_STAGE + 1, MAX_MMC_STAGE + 1;
    match c.stage
    case Start => 17 + mmc + sd + Budget(h, c)
    case GoIdle => 16 + mmc + sd
    case CardVersion => 15 + mmc + sd
    case SdPowerup => 14 + mmc + Budget(h, c)
    case MmcPowerup => 13 + Budget(h, c)
    case Done => 0
    case _ => Rank(c.stage) - 1
  }

  lemma BeforeHasMoreLeft(h: Host, c: Card, c': Card)
    requires Before(h, c, c')
    ensures CommandsLeft(h, c') < CommandsLeft(h, c) || c'.stage == Done
  {
  }

  /** What a call leaves to be sent, with what it sends, is no more than before, even if it fails. */
  predicate SpendsFrom(h: Host, c: Card, o: Result) {
    CommandsLeft(h, o.card) + (if o.sent.Some? then 1 else 0) <= CommandsLeft(h, c)
  }

  lemma ClockSpends(h: Host, before: Card, c: Card, r: Reply)
    requires Rank(before.stage) in {2, 3, 4, 5, 6, 7, 8}
    ensures SpendsFrom(h, before, Clock(h, c, r))
  {
  }

  lemma PowerupSpends(h: Host, c: Card, r: Reply)
    requires c.stage in {Start, GoIdle, MmcPowerup}
    ensures SpendsFrom(h, c, Ident(h, c, r))
  {
  }

  lemma SdPowerupSpends(h: Host, c: Card, r: Reply)
    requires c.stage == SdPowerup
    ensures SpendsFrom(h, c, IdentSdPowerup(c, r))
  {
  }

  lemma VersionSpends(h: Host, c: Card, r: Reply)
    requires c.stage == CardVersion
    ensures SpendsFrom(h, c, IdentCardVersion(c, r))
  {
  }

  lemma AddressingSpends(h: Host, c: Card, r: Reply)
    requires c.stage in {AllSendCid, SetAddress, SendCid, SendCsd, SelDesCard, Final, Done}
    ensures SpendsFrom(h, c, Ident(h, c, r))
  {
  }

  lemma StatusSpends(h: Host, c: Card, r: Reply)
    requires c.stage == CheckSts
    ensures SpendsFrom(h, c, Ident(h, c, r))
  {
    ClockSpends(h, c, c, r);
  }

  lemma ExtCsdSpends(h: Host, c: Card, r: Reply)
    requires c.stage == ExtCsd
    ensures SpendsFrom(h, c, Ident(h, c, r))
  {
    ClockSpends(h, c, c, r);
  }

  lemma BusWidthSpends(h: Host, c: Card, r: Reply)
    requires c.stage in {ModeHs, BusWidth}
    ensures SpendsFrom(h, c, Ident(h, c, r))
  {
    ClockSpends(h, c, c, r);
    ClockSpends(h, c, c.(hs := true), r);
  }

  lemma ScrSpends(h: Host, c: Card, r: Reply)
    requires c.stage in {SendScr, ParseScr}
    ensures SpendsFrom(h, c, Ident(h, c, r))
  {
    ClockSpends(h, c, c, r);
    ClockSpends(h, c, SetBlksz(h, c, 64), r);
  }

  lemma ModeSpends(h: Host, c: Card, r: Reply)
    requires c.stage in {CheckMode, SwitchMode}
    ensures SpendsFrom(h, c, Ident(h, c, r))
  {
    ClockSpends(h, c, c, r);
    ClockSpends(h, c, c.(hs := true), r);
  }

  lemma WidthSpends(h: Host, c: Card, r: Reply)
    requires c.stage in {SetBwApp, SetBw}
    ensures SpendsFrom(h, c, Ident(h, c, r))
  {
    ClockSpends(h, c, c, r);
  }

  lemma BetweenSpends(h: Host, c: Card, r: Reply)
    requires Rank(c.stage) in {2, 3, 4, 5, 6, 7, 8}
    ensures SpendsFrom(h, c, Ident(h, c, r))
  {
    match c.stage
    case CheckSts => StatusSpends(h, c, r);
    case ExtCsd => ExtCsdSpends(h, c, r);
    case ModeHs | BusWidth => BusWidthSpends(h, c, r);
    case SendScr | ParseScr => ScrSpends(h, c, r);
    case CheckMode | SwitchMode => ModeSpends(h, c, r);
    case SetBwApp | SetBw => WidthSpends(h, c, r);
  }

  lemma CallSpends(h: Host, c: Card, r: Reply)
    ensures SpendsFrom(h, c, Ident(h, c, r))
  {
    match c.stage
    case Start | GoIdle | MmcPowerup => PowerupSpends(h, c, r);
    case CardVersion => VersionSpends(h, c, r);
    case SdPowerup => SdPowerupSpends(h, c, r);
    case AllSendCid | SetAddress | SendCid | SendCsd | SelDesCard | Final | Done => AddressingSpends(h, c, r);
    case _ => BetweenSpends(h, c, r);
  }

  // ---------------------------------------------------------------- runs

  datatype Event = Begun | Sent(command: Command) | Answered(reply: Reply)
  {
    predicate Sends(index: nat) { Sent? && command.index == index }

    /** An interrupt without error */
    predicate Affirms() { Answered? && !reply.error }
  }

  /** What a run of calls has led to; it stops where a call returns failure or identification is over. */
  datatype Outcome = Outcome(card: Card, ok: bool, log: seq<Event>)

  predicate Over(o: Outcome) {
    !o.ok || o.card.stage == Done
  }

  /** What a call is an answer to */
  function Heard(c: Card, r: Reply): Event {
    if c.stage == Start then Begun else Answered(r)
  }

  function Logged(log: seq<Event>, heard: Event, sent: Option<Command>): seq<Event> {
    if sent.None? then log + [heard] else log + [heard] + [Sent(sent.value)]
  }

  function Call(h: Host, o: Outcome, r: Reply): Outcome {
    if Over(o) then o
    else
      var result := Ident(h, o.card, r);
      Outcome(result.card, result.ok, Logged(o.log, Heard(o.card, r), result.sent))
  }

  function Run(h: Host, c: Card, replies: seq<Reply>): Outcome {
    if replies == [] then Outcome(c, true, [])
    else Call(h, Run(h, c, replies[..|replies| - 1]), replies[|replies| - 1])
  }

  function CommandsSent(log: seq<Event>): nat {
    if log == [] then 0 else CommandsSent(log[..|log| - 1]) + (if log[|log| - 1].Sent? then 1 else 0)
  }

  lemma CommandsSentAppend(log: seq<Event>, ev: Event)
    ensures CommandsSent(log + [ev]) == CommandsSent(log) + (if ev.Sent? then 1 else 0)
  {
    assert (log + [ev])[..|log|] == log;
  }

  lemma LoggedSends(log: seq<Event>, heard: Event, sent: Option<Command>)
    requires !heard.Sent?
    ensures CommandsSent(Logged(log, heard, sent)) == CommandsSent(log) + (if sent.Some? then 1 else 0)
  {
    CommandsSentAppend(log, heard);
    if sent.Some? {
      CommandsSentAppend(log + [heard], Sent(sent.value));
    }
  }

  lemma CallSends(h: Host, o: Outcome, r: Reply)
    requires !Over(o)
    ensures CommandsSent(Call(h, o, r).log)
            == CommandsSent(o.log) + (if Ident(h, o.card, r).sent.Some? then 1 else 0)
  {
    LoggedSends(o.log, Heard(o.card, r), Ident(h, o.card, r).sent);
  }

  lemma CallLeavesFewer(h: Host, c: Card, r: Reply)
    requires r.command && c.stage != Done
    ensures var o := Ident(h, c, r); !o.ok || o.card.stage == Done || CommandsLeft(h, o.card) < CommandsLeft(h, c)
  {
    CallAdvances(h, c, r);
    if Before(h, c, Ident(h, c, r).card) {
      BeforeHasMoreLeft(h, c, Ident(h, c, r).card);
    }
  }

  /** At most bound commands have been sent, and those that may follow are within the bound too. */
  predicate Within(h: Host, o: Outcome, bound: nat) {
    CommandsSent(o.log) + (if Over(o) then 0 else CommandsLeft(h, o.card)) <= bound
  }

  lemma CallStaysWithin(h: Host, o: Outcome, r: Reply, bound: nat)
    requires !Over(o) && Within(h, o, bound)
    ensures Within(h, Call(h, o, r), bound)
  {
    var result := Ident(h, o.card, r);
    CallSends(h, o, r);
    CallAdvances(h, o.card, r);
    if result.sent.Some? {
      BeforeHasMoreLeft(h, o.card, result.card);
    }
  }

  /** Identification is bounded: no run from c sends more commands than its measure says. */
  lemma {:induction false} CommandsBounded(h: Host, c: Card, replies: seq<Reply>)
    ensures Within(h, Run(h, c, replies), CommandsLeft(h, c))
  {
    if replies != [] {
      var o := Run(h, c, replies[..|replies| - 1]);
      CommandsBounded(h, c, replies[..|replies| - 1]);
      if !Over(o) {
        CallStaysWithin(h, o, replies[|replies| - 1], CommandsLeft(h, c));
      }
    }
  }

  /** A fresh identification sends at most so many commands, whatever the card answers. */
  lemma IdentificationIsBounded(h: Host, c: Card, replies: seq<Reply>)
    requires c.stage == Start
    ensures CommandsSent(Run(h, c, replies).log) <= h.pwrRetry + 4019
  {
    CommandsBounded(h, c, replies);
  }

  /** When every interrupt reports a completed command, the run is over after so many of them. */
  lemma {:induction false} RunEnds(h: Host, c: Card, replies: seq<Reply>)
    requires forall i :: 0 <= i < |replies| ==> replies[i].command
    ensures var o := Run(h, c, replies); Over(o) || |replies| + CommandsLeft(h, o.card) <= CommandsLeft(h, c)
  {
    if replies != [] {
      var o := Run(h, c, replies[..|replies| - 1]);
      var r := replies[|replies| - 1];
      RunEnds(h, c, replies[..|replies| - 1]);
      if !Over(o) {
        CallAdvances(h, o.card, r);
        CallLeavesFewer(h, o.card, r);
      }
    }
  }

  // ---------------------------------------------------------------- what success has taken

  /** The commands of section 4.2.3 and 4.3 that every card goes through on its way to the transfer state. */
  const MILESTONES := [ALL_SEND_CID, SET_RELATIVE_ADDR, SEND_CSD, SEL_DES_CARD, SET_BLOCKLEN]

  /** How many milestones were met, in order, since the last start, and the command not yet answered. */
  datatype Progress = Progress(met: nat, pending: Option<nat>)

  function Track1(p: Progress, ev: Event): Progress {
    match ev
    case Begun => Progress(0, None)
    case Sent(command) => p.(pending := Some(command.index))
    case Answered(r) =>
      if !r.error && p.met < |MILESTONES| && p.pending == Some(MILESTONES[p.met]) then Progress(p.met + 1, None)
      else p.(pending := None)
  }

  function Track(log: seq<Event>): Progress {
    if log == [] then Progress(0, None) else Track1(Track(log[..|log| - 1]), log[|log| - 1])
  }

  lemma TrackAppend(log: seq<Event>, ev: Event)
    ensures Track(log + [ev]) == Track1(Track(log), ev)
  {
    assert (log + [ev])[..|log|] == log;
  }

  /** Milestone i was sent at at[i] and answered without an error right after, and nothing restarted since. */
  predicate MetAt(log: seq<Event>, at: seq<nat>) {
    && |at| <= |MILESTONES|
    && (forall i :: 0 <= i < |at| ==> at[i] + 1 < |log|)
    && (forall i :: 0 <= i < |at| ==> log[at[i]].Sends(MILESTONES[i]) && log[at[i] + 1].Affirms())
    && (forall i, j :: 0 <= i < j < |at| ==> at[i] < at[j])
    && (forall i, k :: 0 <= i < |at| && at[i] <= k < |log| ==> log[k] != Begun)
  }

  lemma MetAtLonger(log: seq<Event>, ev: Event, at: seq<nat>)
    requires MetAt(log, at) && ev != Begun
    ensures MetAt(log + [ev], at)
  {
  }

  lemma MetAtNext(log: seq<Event>, ev: Event, at: seq<nat>)
    requires MetAt(log, at) && |at| < |MILESTONES| && log != [] && log[|log| - 1].Sends(MILESTONES[|at|])
    requires ev.Affirms()
    ensures MetAt(log + [ev], at + [|log| - 1])
  {
    MetAtLonger(log, ev, at);
    assert forall i :: 0 <= i < |at| ==> log[at[i] + 1].Affirms();
  }

  lemma {:induction false} MilestonesWereMet(log: seq<Event>) returns (at: seq<nat>)
    ensures |at| == Track(log).met && MetAt(log, at)
    ensures Track(log).pending.Some? ==> log != [] && log[|log| - 1].Sends(Track(log).pending.value)
  {
    if log == [] {
      at := [];
    } else {
      var before, ev := log[..|log| - 1], log[|log| - 1];
      at := MilestonesWereMet(before);
      assert log == before + [ev];
      if ev == Begun {
        at := [];
      } else if Track(log).met > Track(before).met {
        MetAtNext(before, ev, at);
        at := at + [|before| - 1];
      } else {
        MetAtLonger(before, ev, at);
      }
    }
  }

  lemma MetAtShorter(log: seq<Event>, at: seq<nat>)
    requires MetAt(log, at) && at != [] && log != [] && at[|at| - 1] + 2 == |log|
    ensures MetAt(log[..|log| - 1], at[..|at| - 1])
  {
  }

  /** And nothing was missed: no other choice of positions shows more milestones. */
  lemma {:induction false} MetAtMost(log: seq<Event>, at: seq<nat>)
    requires MetAt(log, at)
    ensures |at| <= Track(log).met
  {
    if at != [] {
      assert at[|at| - 1] + 1 < |log|;
      var before, ev, i := log[..|log| - 1], log[|log| - 1], |at| - 1;
      if at[i] + 2 == |log| {
        MetAtShorter(log, at);
        MetAtMost(before, at[..i]);
        AnswerCounts(before, ev, i);
      } else {
        assert MetAt(before, at);
        MetAtMost(before, at);
      }
    }
  }

  /** A milestone that was sent last is counted when it is answered, if it is the next one. */
  lemma AnswerCounts(before: seq<Event>, ev: Event, i: nat)
    requires i < |MILESTONES| && before != [] && before[|before| - 1].Sends(MILESTONES[i]) && i <= Track(before).met
    requires ev.Affirms()
    ensures i + 1 <= Track1(Track(before), ev).met
  {
  }

  /** The stages that await the answer to a milestone */
  predicate Critical(stage: Stage) {
    stage in {AllSendCid, SetAddress, SendCsd, SelDesCard, Final}
  }

  /** How many of the milestones are sent on the way to a stage */
  function SentBy(stage: Stage): nat {
    match stage
    case AllSendCid => 1
    case SetAddress => 2
    case SendCid => 2
    case SendCsd => 3
    case Final => 5
    case Done => 5
    case Start | GoIdle | CardVersion | SdPowerup | MmcPowerup => 0
    case _ => 4
  }

  /** The next answer may be that of the next milestone. */
  predicate Awaits(p: Progress) {
    p.met < |MILESTONES| && p.pending == Some(MILESTONES[p.met])
  }

  /** All milestones sent so far are met, but for one that a critical stage awaits. */
  predicate OnTrack(stage: Stage, p: Progress) {
    || stage == Start
    || (if Critical(stage) then p.met == SentBy(stage) - 1 && Awaits(p) else p.met == SentBy(stage) && !Awaits(p))
  }

  /** A milestone has been passed over, and is not going to be sent again before the next start. */
  predicate Behind(stage: Stage, p: Progress) {
    p.met < SentBy(stage) && !Awaits(p)
  }

  /** A call that fails and leaves a critical stage: the milestone of that stage was answered with an error, or
      refused by the host, or not even sent. */
  predicate Lapse(o: Result) {
    !o.ok && Critical(o.card.stage)
  }

  function TrackCall(c: Card, o: Result, r: Reply, p: Progress): Progress {
    var answered := Track1(p, Heard(c, r));
    if o.sent.Some? then Track1(answered, Sent(o.sent.value)) else answered
  }

  /** What every call keeps, failing or not; one that fails at the very end leads nowhere. */
  predicate KeepsTrack(c: Card, o: Result, r: Reply, p: Progress) {
    if Lapse(o) then Behind(o.card.stage, TrackCall(c, o, r, p))
    else o.ok || o.card.stage != Done ==> OnTrack(o.card.stage, TrackCall(c, o, r, p))
  }

  lemma PowerupKeepsTrack(h: Host, c: Card, r: Reply, p: Progress)
    requires c.stage in {Start, GoIdle, CardVersion, MmcPowerup} && OnTrack(c.stage, p)
    ensures KeepsTrack(c, Ident(h, c, r), r, p)
  {
  }

  lemma SdOpCondKeepsTrack(before: Card, c: Card, r: Reply, p: Progress)
    requires before.stage == c.stage == SdPowerup && OnTrack(SdPowerup, p)
    ensures KeepsTrack(before, SdOpCondDone(c, r), r, p)
  {
  }

  /** The other outcomes of the power-up of an SD card */
  predicate SdPowersOn(o: Result) {
    && o.card.stage in {SdPowerup, MmcPowerup} && o.ok == o.sent.Some?
    && (o.sent.Some? ==> o.sent.value.index !in MILESTONES)
  }

  lemma SdPowersOnKeepsTrack(c: Card, o: Result, r: Reply, p: Progress)
    requires c.stage == SdPowerup && OnTrack(SdPowerup, p) && SdPowersOn(o)
    ensures KeepsTrack(c, o, r, p)
  {
  }

  lemma SdPowerupIs(c: Card, r: Reply)
    requires c.stage == SdPowerup
    ensures var o := IdentSdPowerup(c, r);
            var c1 := if c.istage % 3 == 0 then c.(istage := c.istage + 1) else c;
            SdPowersOn(o) || o == SdOpCondDone(if r.highCapacity then c1.(hc := true) else c1, r)
  {
  }

  lemma SdPowerupKeepsTrack(h: Host, c: Card, r: Reply, p: Progress)
    requires c.stage == SdPowerup && OnTrack(c.stage, p)
    ensures KeepsTrack(c, IdentSdPowerup(c, r), r, p)
  {
    SdPowerupIs(c, r);
    if SdPowersOn(IdentSdPowerup(c, r)) {
      SdPowersOnKeepsTrack(c, IdentSdPowerup(c, r), r, p);
    } else {
      var c1 := if c.istage % 3 == 0 then c.(istage := c.istage + 1) else c;
      SdOpCondKeepsTrack(c, if r.highCapacity then c1.(hc := true) else c1, r, p);
    }
  }

  lemma AddressingKeepsTrack(h: Host, c: Card, r: Reply, p: Progress)
    requires c.stage in {AllSendCid, SetAddress, SendCid} && OnTrack(c.stage, p)
    ensures KeepsTrack(c, Ident(h, c, r), r, p)
  {
  }

  lemma SelectingKeepsTrack(h: Host, c: Card, r: Reply, p: Progress)
    requires c.stage in {SendCsd, SelDesCard, Final, Done} && OnTrack(c.stage, p)
    ensures KeepsTrack(c, Ident(h, c, r), r, p)
  {
  }

  /** The stages between the selection of the card and its block length */
  predicate InBetween(stage: Stage) {
    stage in {CheckSts, ExtCsd, ModeHs, BusWidth, SendScr, ParseScr, CheckMode, SwitchMode, SetBwApp, SetBw}
  }

  /** What a call in one of them can come to: another one, or the block length, sent or not. */
  predicate StaysBetween(o: Result) {
    && (o.card.stage == Final || InBetween(o.card.stage)) && o.ok == o.sent.Some?
    && (o.sent.Some? ==>
          if o.card.stage == Final then o.sent.value.index == SET_BLOCKLEN else o.sent.value.index !in MILESTONES)
  }

  lemma ClockStaysBetween(h: Host, c: Card, r: Reply)
    ensures StaysBetween(Clock(h, c, r))
  {
  }

  lemma StatusStaysBetween(h: Host, c: Card, r: Reply)
    requires c.stage == CheckSts
    ensures StaysBetween(IdentStatusDone(h, c, r))
  {
    ClockStaysBetween(h, c, r);
  }

  lemma MmcStaysBetween(h: Host, c: Card, r: Reply)
    requires c.stage in {ExtCsd, ModeHs, BusWidth}
    ensures StaysBetween(Ident(h, c, r))
  {
    ClockStaysBetween(h, c, r);
    ClockStaysBetween(h, c.(hs := true), r);
  }

  lemma ScrStaysBetween(h: Host, c: Card, r: Reply)
    requires c.stage in {SendScr, ParseScr}
    ensures StaysBetween(Ident(h, c, r))
  {
    ClockStaysBetween(h, c, r);
    ClockStaysBetween(h, SetBlksz(h, c, 64), r);
  }

  lemma WidthStaysBetween(h: Host, c: Card, r: Reply)
    requires c.stage in {SetBwApp, SetBw}
    ensures StaysBetween(Ident(h, c, r))
  {
    ClockStaysBetween(h, c, r);
  }

  lemma ModeStaysBetween(h: Host, c: Card, r: Reply)
    requires c.stage in {CheckMode, SwitchMode}
    ensures StaysBetween(Ident(h, c, r))
  {
    ClockStaysBetween(h, c, r);
    ClockStaysBetween(h, c.(hs := true), r);
  }

  lemma CallStaysBetween(h: Host, c: Card, r: Reply)
    requires InBetween(c.stage)
    ensures StaysBetween(Ident(h, c, r))
  {
    if c.stage == CheckSts {
      StatusStaysBetween(h, c, r);
    } else if c.stage in {ExtCsd, ModeHs, BusWidth} {
      MmcStaysBetween(h, c, r);
    } else if c.stage in {CheckMode, SwitchMode} {
      ModeStaysBetween(h, c, r);
    } else if c.stage in {SendScr, ParseScr} {
      ScrStaysBetween(h, c, r);
    } else {
      WidthStaysBetween(h, c, r);
    }
  }

  lemma BetweenKeepsTrack(c: Card, o: Result, r: Reply, p: Progress)
    requires InBetween(c.stage) && OnTrack(c.stage, p) && StaysBetween(o)
    ensures KeepsTrack(c, o, r, p)
  {
    assert Track1(p, Answered(r)) == Progress(4, None);
  }

  lemma CallKeepsTrack(h: Host, c: Card, r: Reply, p: Progress)
    requires OnTrack(c.stage, p)
    ensures KeepsTrack(c, Ident(h, c, r), r, p)
  {
    if c.stage in {Start, GoIdle, CardVersion, MmcPowerup} {
      PowerupKeepsTrack(h, c, r, p);
    } else if c.stage == SdPowerup {
      SdPowerupKeepsTrack(h, c, r, p);
    } else if c.stage in {AllSendCid, SetAddress, SendCid} {
      AddressingKeepsTrack(h, c, r, p);
    } else if c.stage in {SendCsd, SelDesCard, Final, Done} {
      SelectingKeepsTrack(h, c, r, p);
    } else {
      CallStaysBetween(h, c, r);
      BetweenKeepsTrack(c, Ident(h, c, r), r, p);
    }
  }

  // ---------------------------------------------------------------- and what cannot be made good

  /** A milestone that was passed over stays so, whatever the calls come to; and then the end is no success. */
  predicate StaysBehind(c: Card, o: Result, r: Reply, p: Progress) {
    if o.card.stage == Done then TrackCall(c, o, r, p).met < |MILESTONES|
    else Behind(o.card.stage, TrackCall(c, o, r, p))
  }

  lemma AddressingStaysBehind(h: Host, c: Card, r: Reply, p: Progress)
    requires c.stage in {AllSendCid, SetAddress, SendCid} && Behind(c.stage, p)
    ensures StaysBehind(c, Ident(h, c, r), r, p)
  {
  }

  lemma SelectingStaysBehind(h: Host, c: Card, r: Reply, p: Progress)
    requires c.stage in {SendCsd, SelDesCard, Final, Done} && Behind(c.stage, p)
    ensures StaysBehind(c, Ident(h, c, r), r, p)
  {
  }

  lemma BetweenStaysBehind(c: Card, o: Result, r: Reply, p: Progress)
    requires InBetween(c.stage) && Behind(c.stage, p) && StaysBetween(o)
    ensures StaysBehind(c, o, r, p)
  {
    assert Track1(p, Answered(r)) == p.(pending := None);
  }

  lemma CallStaysBehind(h: Host, c: Card, r: Reply, p: Progress)
    requires Behind(c.stage, p)
    ensures StaysBehind(c, Ident(h, c, r), r, p)
  {
    if c.stage in {AllSendCid, SetAddress, SendCid} {
      AddressingStaysBehind(h, c, r, p);
    } else if c.stage in {SendCsd, SelDesCard, Final, Done} {
      SelectingStaysBehind(h, c, r, p);
    } else {
      CallStaysBetween(h, c, r);
      BetweenStaysBehind(c, Ident(h, c, r), r, p);
    }
  }

  lemma {:induction false} RunKeepsTrack(h: Host, c: Card, replies: seq<Reply>)
    requires c.stage == Start
    ensures var o := Run(h, c, replies); o.ok ==> OnTrack(o.card.stage, Track(o.log))
  {
    if replies != [] {
      var o := Run(h, c, replies[..|replies| - 1]);
      var r := replies[|replies| - 1];
      RunKeepsTrack(h, c, replies[..|replies| - 1]);
      if !Over(o) {
        CallKeepsTrack(h, o.card, r, Track(o.log));
        TrackOfCall(h, o, r);
      }
    }
  }

  lemma TrackOfLogged(log: seq<Event>, heard: Event, sent: Option<Command>)
    ensures Track(Logged(log, heard, sent))
            == if sent.Some? then Track1(Track1(Track(log), heard), Sent(sent.value))
               else Track1(Track(log), heard)
  {
    TrackAppend(log, heard);
    if sent.Some? {
      TrackAppend(log + [heard], Sent(sent.value));
    }
  }

  lemma TrackOfCall(h: Host, o: Outcome, r: Reply)
    requires !Over(o)
    ensures Track(Call(h, o, r).log) == TrackCall(o.card, Ident(h, o.card, r), r, Track(o.log))
  {
    TrackOfLogged(o.log, Heard(o.card, r), Ident(h, o.card, r).sent);
  }

  // ---------------------------------------------------------------- the block size

  predicate BlkszFits(h: Host, from: Card, c: Card) {
    && (h.maxBlksz >= 512 && c.stage in {Final, Done} ==> c.blksz == 512)
    && (h.maxBlksz < 512 && from.blksz != 512 ==> c.blksz != 512)
  }

  lemma ClockBlkszFits(h: Host, from: Card, c: Card, r: Reply)
    requires h.maxBlksz < 512 && from.blksz != 512 ==> c.blksz != 512
    ensures BlkszFits(h, from, Clock(h, c, r).card)
  {
  }

  lemma SdPowerupKeepsBlksz(c: Card, r: Reply)
    requires c.stage == SdPowerup
    ensures var c' := IdentSdPowerup(c, r).card; c'.blksz == c.blksz && c'.stage in {SdPowerup, MmcPowerup, AllSendCid}
  {
  }

  lemma SdPowerupBlkszFits(h: Host, from: Card, c: Card, r: Reply)
    requires BlkszFits(h, from, c) && c.stage == SdPowerup
    ensures BlkszFits(h, from, IdentSdPowerup(c, r).card)
  {
    SdPowerupKeepsBlksz(c, r);
  }

  lemma EarlyBlkszFits(h: Host, from: Card, c: Card, r: Reply)
    requires BlkszFits(h, from, c) && c.stage in {Start, GoIdle, CardVersion, MmcPowerup}
    ensures BlkszFits(h, from, Ident(h, c, r).card)
  {
    var c' := Ident(h, c, r).card;
    assert c'.blksz == c.blksz && c'.stage !in {Final, Done};
  }

  lemma SameBlkszFits(h: Host, from: Card, c: Card, r: Reply)
    requires BlkszFits(h, from, c)
    requires c.stage in {AllSendCid, SetAddress, SendCid, SendCsd, SelDesCard, SetBwApp, SendScr, Final, Done}
    ensures BlkszFits(h, from, Ident(h, c, r).card)
  {
    assert Ident(h, c, r).card.blksz == c.blksz;
  }

  lemma ExtCsdBlkszFits(h: Host, from: Card, c: Card, r: Reply)
    requires BlkszFits(h, from, c) && c.stage == ExtCsd
    ensures BlkszFits(h, from, IdentExtCsd(h, c, r).card)
  {
    ClockBlkszFits(h, from, c, r);
  }

  lemma ModeHsBlkszFits(h: Host, from: Card, c: Card, r: Reply)
    requires BlkszFits(h, from, c) && c.stage == ModeHs
    ensures BlkszFits(h, from, IdentModeHs(h, c, r).card)
  {
    ClockBlkszFits(h, from, c.(hs := true), r);
  }

  lemma BusWidthBlkszFits(h: Host, from: Card, c: Card, r: Reply)
    requires BlkszFits(h, from, c) && c.stage == BusWidth
    ensures BlkszFits(h, from, IdentBusWidth(h, c, r).card)
  {
  }

  lemma StatusBlkszFits(h: Host, from: Card, c: Card, r: Reply)
    requires BlkszFits(h, from, c) && c.stage == CheckSts
    ensures BlkszFits(h, from, IdentStatusDone(h, c, r).card)
  {
    ClockBlkszFits(h, from, c, r);
  }

  lemma SetBwBlkszFits(h: Host, from: Card, c: Card, r: Reply)
    requires BlkszFits(h, from, c) && c.stage == SetBw
    ensures BlkszFits(h, from, IdentSetBw(h, c, r).card)
  {
    ClockBlkszFits(h, from, c, r);
  }

  lemma ScrBlkszFits(h: Host, from: Card, c: Card, r: Reply)
    requires BlkszFits(h, from, c) && c.stage == ParseScr
    ensures BlkszFits(h, from, IdentParseScr(h, c, r).card)
  {
    ClockBlkszFits(h, from, c, r);
    ClockBlkszFits(h, from, SetBlksz(h, c, 64), r);
  }

  lemma ModeBlkszFits(h: Host, from: Card, c: Card, r: Reply)
    requires BlkszFits(h, from, c) && c.stage in {CheckMode, SwitchMode}
    ensures BlkszFits(h, from, Ident(h, c, r).card)
  {
    ClockBlkszFits(h, from, c, r);
    ClockBlkszFits(h, from, c.(hs := true), r);
  }

  lemma CallBlkszFits(h: Host, from: Card, c: Card, r: Reply)
    requires BlkszFits(h, from, c)
    ensures BlkszFits(h, from, Ident(h, c, r).card)
  {
    match c.stage
    case Start | GoIdle | CardVersion | MmcPowerup => EarlyBlkszFits(h, from, c, r);
    case SdPowerup => SdPowerupBlkszFits(h, from, c, r);
    case CheckSts => StatusBlkszFits(h, from, c, r);
    case ExtCsd => ExtCsdBlkszFits(h, from, c, r);
    case ModeHs => ModeHsBlkszFits(h, from, c, r);
    case BusWidth => BusWidthBlkszFits(h, from, c, r);
    case ParseScr => ScrBlkszFits(h, from, c, r);
    case SetBw => SetBwBlkszFits(h, from, c, r);
    case CheckMode | SwitchMode => ModeBlkszFits(h, from, c, r);
    case _ => SameBlkszFits(h, from, c, r);
  }

  lemma {:induction false} RunBlkszFits(h: Host, c: Card, replies: seq<Reply>)
    requires c.stage == Start
    ensures BlkszFits(h, c, Run(h, c, replies).card)
  {
    if replies != [] {
      var o := Run(h, c, replies[..|replies| - 1]);
      RunBlkszFits(h, c, replies[..|replies| - 1]);
      if !Over(o) {
        CallBlkszFits(h, c, o.card, replies[|replies| - 1]);
      }
    }
  }

  /** An identification that succeeds has earned it: since the last start the milestones were sent in order,
      each answered by an interrupt without error; and a host that takes blocks of 512 bytes has that size. */
  lemma SuccessIsEarned(h: Host, c: Card, replies: seq<Reply>) returns (at: seq<nat>)
    requires c.stage == Start
    requires Run(h, c, replies).ok && Run(h, c, replies).card.stage == Done
    ensures |at| == |MILESTONES| && MetAt(Run(h, c, replies).log, at)
    ensures h.maxBlksz >= 512 ==> Run(h, c, replies).card.blksz == 512
    ensures h.maxBlksz < 512 && c.blksz != 512 ==> Run(h, c, replies).card.blksz != 512
  {
    RunKeepsTrack(h, c, replies);
    RunBlkszFits(h, c, replies);
    at := MilestonesWereMet(Run(h, c, replies).log);
  }
}
