/**
 Cards that answer every command: for each host, the commands that an SD card and a multimedia card are sent, in
 order, and what the driver has made of them in the end.  (SD Physical Layer Simplified Specification, section 4.2.)
 */
module KnownCards {
  import opened Wrappers
  import opened CardIdent

  /** What the card and the host answer to the call at each stage */
  type Answers = Stage -> Reply

  /** The call sends this command and leaves this card. */
  predicate Sends(h: Host, r: Answers, c: Card, index: nat, next: Card) {
    var o := Ident(h, c, r(c.stage));
    o.ok && o.card == next && o.sent.Some? && o.sent.value.index == index
  }

  /** Calls from c on send exactly these commands, one each, and the one after the last ends the identification. */
  predicate Plays(h: Host, r: Answers, c: Card, commands: seq<nat>, end: Card)
    decreases |commands|
  {
    var o := Ident(h, c, r(c.stage));
    if commands == [] then o == Result(end, None, true) && end.stage == Done
    else Sends(h, r, c, commands[0], o.card) && Plays(h, r, o.card, commands[1..], end)
  }

  /** In the lemmas below P says from which cards which commands are sent. */
  ghost predicate Closed(h: Host, r: Answers, P: (Card, seq<nat>) -> bool) {
    forall c, index, next, rest {:trigger Sends(h, r, c, index, next), P(next, rest)} ::
      Sends(h, r, c, index, next) && P(next, rest) ==> P(c, [index] + rest)
  }

  lemma Next(h: Host, r: Answers, P: (Card, seq<nat>) -> bool, c: Card, index: nat, next: Card, rest: seq<nat>)
    requires Closed(h, r, P) && Sends(h, r, c, index, next) && P(next, rest)
    ensures P(c, [index] + rest)
  {
  }

  lemma PlaysOn(h: Host, r: Answers, c: Card, index: nat, next: Card, rest: seq<nat>, end: Card)
    requires Sends(h, r, c, index, next) && Plays(h, r, next, rest, end)
    ensures Plays(h, r, c, [index] + rest, end)
  {
    assert ([index] + rest)[1..] == rest;
  }

  lemma PlaysIsClosed(h: Host, r: Answers, end: Card)
    ensures Closed(h, r, (c, commands) => Plays(h, r, c, commands, end))
  {
    forall c, index, next, rest | Sends(h, r, c, index, next) && Plays(h, r, next, rest, end)
      ensures Plays(h, r, c, [index] + rest, end)
    {
      PlaysOn(h, r, c, index, next, rest, end);
    }
  }

  /** Nothing goes wrong in the call. */
  predicate Fine(r: Reply) {
    && !r.error && !r.timedOut && r.command && r.echoed && r.poweredUp && r.detected && r.powered
    && r.accepted && r.pioReady && r.pioDone && r.cardReady && r.cardTypeKnown
  }

  // ---------------------------------------------------------------- the end, for either kind

  /** Waiting for the answer to the block length */
  function Closing(h: Host, c: Card): Card { SetBlksz(h, c, 512).(stage := Final) }

  lemma ClockCloses(h: Host, r: Answers, P: (Card, seq<nat>) -> bool, before: Card, c: Card)
    requires Closed(h, r, P) && P(Closing(h, c), [])
    requires Fine(r(before.stage)) && Ident(h, before, r(before.stage)) == Clock(h, c, r(before.stage))
    ensures P(before, [SET_BLOCKLEN])
  {
    Next(h, r, P, before, SET_BLOCKLEN, Closing(h, c), []);
    assert [SET_BLOCKLEN] + [] == [SET_BLOCKLEN];
  }

  // ---------------------------------------------------------------- SD cards, from the end back

  /** An SD card of version 2, that is powered up at once */
  predicate IsSd(r: Answers) {
    forall stage {:trigger r(stage)} :: Fine(r(stage))
  }

  /** The high-speed switch is made if the card can and the host may. */
  predicate Speeds(h: Host, r: Answers) { r(CheckMode).hsCapable && h.hs }

  function ModeCommands(h: Host, r: Answers): seq<nat> {
    if Speeds(h, r) then [SWITCH, SET_BLOCKLEN] else [SET_BLOCKLEN]
  }

  function Faster(h: Host, r: Answers, c: Card): Card {
    if Speeds(h, r) && r(SwitchMode).hsSwitched then c.(hs := true) else c
  }

  lemma FromCheckMode(h: Host, r: Answers, P: (Card, seq<nat>) -> bool, c: Card)
    requires Closed(h, r, P) && IsSd(r) && c.stage == CheckMode && P(Closing(h, Faster(h, r, c)), [])
    ensures P(c, ModeCommands(h, r))
  {
    if Speeds(h, r) {
      var c1 := c.(stage := SwitchMode);
      ClockCloses(h, r, P, c1, Faster(h, r, c1));
      Next(h, r, P, c, SWITCH, c1, [SET_BLOCKLEN]);
      assert [SWITCH] + [SET_BLOCKLEN] == [SWITCH, SET_BLOCKLEN];
    } else {
      ClockCloses(h, r, P, c, c);
    }
  }

  /** The high-speed modes are asked for if the SCR knows of them and the host takes their 64 bytes. */
  predicate AsksModes(h: Host, r: Answers) { r(ParseScr).scrSpec && 64 <= h.maxBlksz }

  function ParseCommands(h: Host, r: Answers): seq<nat> {
    if AsksModes(h, r) then [SWITCH] + ModeCommands(h, r) else [SET_BLOCKLEN]
  }

  function ScrEnd(h: Host, r: Answers, c: Card): Card {
    if AsksModes(h, r) then Faster(h, r, SetBlksz(h, c, 64)) else c
  }

  lemma FromParseScr(h: Host, r: Answers, P: (Card, seq<nat>) -> bool, c: Card)
    requires Closed(h, r, P) && IsSd(r) && c.stage == ParseScr && P(Closing(h, ScrEnd(h, r, c)), [])
    ensures P(c, ParseCommands(h, r))
  {
    if AsksModes(h, r) {
      var c1 := SetBlksz(h, c, 64).(stage := CheckMode);
      FromCheckMode(h, r, P, c1);
      Next(h, r, P, c, SWITCH, c1, ModeCommands(h, r));
    } else {
      ClockCloses(h, r, P, c, c);
    }
  }

  function ScrCommands(h: Host, r: Answers): seq<nat> { [SEND_SCR] + ParseCommands(h, r) }

  lemma FromSendScr(h: Host, r: Answers, P: (Card, seq<nat>) -> bool, c: Card)
    requires Closed(h, r, P) && IsSd(r) && c.stage == SendScr && P(Closing(h, ScrEnd(h, r, c)), [])
    ensures P(c, ScrCommands(h, r))
  {
    FromParseScr(h, r, P, c.(stage := ParseScr));
    Next(h, r, P, c, SEND_SCR, c.(stage := ParseScr), ParseCommands(h, r));
  }

  /** The SCR is read, unless the bus was made wide and the host is not for it or cannot. */
  predicate ReadsScr(h: Host) {
    !h.sdWidth4 || (!h.noHs && h.hasPio && 8 <= h.maxBlksz)
  }

  function AfterWidth(h: Host, r: Answers): seq<nat> {
    if ReadsScr(h) then [APP_CMD] + ScrCommands(h, r) else [SET_BLOCKLEN]
  }

  /** The bus is made four bits wide if the host is for it. */
  function WidthCommands(h: Host, r: Answers): seq<nat> {
    (if h.sdWidth4 then [APP_CMD, SWITCH] else []) + AfterWidth(h, r)
  }

  function WidthEnd(h: Host, r: Answers, c: Card): Card {
    if ReadsScr(h) then ScrEnd(h, r, SetBlksz(h, c, 8)) else c
  }

  lemma FromSetBw(h: Host, r: Answers, P: (Card, seq<nat>) -> bool, c: Card)
    requires Closed(h, r, P) && IsSd(r) && c.stage == SetBw && h.sdWidth4 && P(Closing(h, WidthEnd(h, r, c)), [])
    ensures P(c, AfterWidth(h, r))
  {
    if ReadsScr(h) {
      var c1 := SetBlksz(h, c, 8).(stage := SendScr);
      FromSendScr(h, r, P, c1);
      Next(h, r, P, c, APP_CMD, c1, ScrCommands(h, r));
    } else {
      ClockCloses(h, r, P, c, c);
    }
  }

  lemma FromSetBwApp(h: Host, r: Answers, P: (Card, seq<nat>) -> bool, c: Card)
    requires Closed(h, r, P) && IsSd(r) && c.stage == SetBwApp && P(c.(stage := SetBw), AfterWidth(h, r))
    ensures P(c, [SWITCH] + AfterWidth(h, r))
  {
    Next(h, r, P, c, SWITCH, c.(stage := SetBw), AfterWidth(h, r));
  }

  lemma FromStatusWide(h: Host, r: Answers, P: (Card, seq<nat>) -> bool, c: Card)
    requires Closed(h, r, P) && IsSd(r) && c.stage == CheckSts && c.version != Mmc1 && h.sdWidth4
    requires P(c.(stage := SetBwApp), [SWITCH] + AfterWidth(h, r))
    ensures P(c, WidthCommands(h, r))
  {
    Next(h, r, P, c, APP_CMD, c.(stage := SetBwApp), [SWITCH] + AfterWidth(h, r));
    assert [APP_CMD] + ([SWITCH] + AfterWidth(h, r)) == [APP_CMD, SWITCH] + AfterWidth(h, r);
  }

  lemma FromStatusNarrow(h: Host, r: Answers, P: (Card, seq<nat>) -> bool, c: Card)
    requires Closed(h, r, P) && IsSd(r) && c.stage == CheckSts && c.version != Mmc1 && !h.sdWidth4
    requires P(Closing(h, ScrEnd(h, r, SetBlksz(h, c, 8))), [])
    ensures P(c, WidthCommands(h, r))
  {
    var c1 := SetBlksz(h, c, 8).(stage := SendScr);
    FromSendScr(h, r, P, c1);
    Next(h, r, P, c, APP_CMD, c1, ScrCommands(h, r));
    assert [] + AfterWidth(h, r) == [APP_CMD] + ScrCommands(h, r);
  }

  lemma FromCheckSts(h: Host, r: Answers, P: (Card, seq<nat>) -> bool, c: Card)
    requires Closed(h, r, P) && IsSd(r) && c.stage == CheckSts && c.version != Mmc1
    requires P(Closing(h, WidthEnd(h, r, c)), [])
    ensures P(c, WidthCommands(h, r))
  {
    if h.sdWidth4 {
      FromSetBw(h, r, P, c.(stage := SetBw));
      FromSetBwApp(h, r, P, c.(stage := SetBwApp));
      FromStatusWide(h, r, P, c);
    } else {
      FromStatusNarrow(h, r, P, c);
    }
  }

  // ---------------------------------------------------------------- the addressing, for either kind

  const ADDRESSING := [SET_RELATIVE_ADDR, SEND_CID, SEND_CSD, SEL_DES_CARD, SEND_STATUS]

  /** A card that has answered CMD2 and the commands up to its selection */
  function Chosen(c: Card, r: Answers): Card {
    c.(stage := CheckSts, rca := if c.version == Mmc1 then 2 else r(SetAddress).upperHalf, v4 := r(SendCsd).v4)
  }

  predicate AddressesWell(r: Answers) {
    Fine(r(AllSendCid)) && Fine(r(SetAddress)) && Fine(r(SendCid)) && Fine(r(SendCsd)) && Fine(r(SelDesCard))
  }

  lemma FromSendCid(h: Host, r: Answers, P: (Card, seq<nat>) -> bool, c: Card, rest: seq<nat>)
    requires Closed(h, r, P) && c.stage == SendCid && AddressesWell(r)
    requires P(c.(stage := CheckSts, v4 := r(SendCsd).v4), rest)
    ensures P(c, [SEND_CSD] + ([SEL_DES_CARD] + ([SEND_STATUS] + rest)))
  {
    var c1 := c.(stage := SendCsd);
    var c2 := c1.(stage := SelDesCard, v4 := r(SendCsd).v4);
    Next(h, r, P, c2, SEND_STATUS, c2.(stage := CheckSts), rest);
    Next(h, r, P, c1, SEL_DES_CARD, c2, [SEND_STATUS] + rest);
    Next(h, r, P, c, SEND_CSD, c1, [SEL_DES_CARD] + ([SEND_STATUS] + rest));
  }

  lemma FromAllSendCid(h: Host, r: Answers, P: (Card, seq<nat>) -> bool, c: Card, rest: seq<nat>)
    requires Closed(h, r, P) && c.stage == AllSendCid && AddressesWell(r) && P(Chosen(c, r), rest)
    ensures P(c, ADDRESSING + rest)
  {
    var c1 := c.(stage := SetAddress, rca := if c.version == Mmc1 then 2 else 0);
    var c2 := Chosen(c, r).(stage := SendCid, v4 := c.v4);
    var later := [SEND_CSD] + ([SEL_DES_CARD] + ([SEND_STATUS] + rest));
    FromSendCid(h, r, P, c2, rest);
    Next(h, r, P, c1, SEND_CID, c2, later);
    Next(h, r, P, c, SET_RELATIVE_ADDR, c1, [SEND_CID] + later);
    assert ADDRESSING + rest == [SET_RELATIVE_ADDR] + ([SEND_CID] + later);
  }

  // ---------------------------------------------------------------- the start, for either kind

  /** CMD0 n + 1 times */
  function Idles(n: nat): seq<nat> {
    if n == 0 then [GO_IDLE_STATE] else [GO_IDLE_STATE] + Idles(n - 1)
  }

  /** The first try forgets what is known of a card. */
  function Forgotten(c: Card): Card {
    if c.count == 0 then c.(hc := false, hs := false) else c
  }

  lemma {:induction false} FromStart(h: Host, r: Answers, P: (Card, seq<nat>) -> bool, c: Card, rest: seq<nat>)
    requires Closed(h, r, P) && c.stage == Start && c.count <= h.pwrRetry && Fine(r(Start))
    requires P(Forgotten(c).(stage := GoIdle, count := 0), rest)
    ensures P(c, Idles(h.pwrRetry - c.count) + rest)
    decreases h.pwrRetry - c.count
  {
    if c.count == h.pwrRetry {
      Next(h, r, P, c, GO_IDLE_STATE, Forgotten(c).(stage := GoIdle, count := 0), rest);
    } else {
      var c1 := Forgotten(c).(count := c.count + 1);
      var later := Idles(h.pwrRetry - c1.count);
      FromStart(h, r, P, c1, rest);
      Next(h, r, P, c, GO_IDLE_STATE, c1, later + rest);
      assert [GO_IDLE_STATE] + later + rest == [GO_IDLE_STATE] + (later + rest);
    }
  }

  /** A card that has been powered up, and sent CMD2 */
  function PoweredUp(c: Card, version: Version, highCapacity: bool): Card {
    c.(stage := AllSendCid, istage := 0, count := 0, version := version, hc := highCapacity, hs := false)
  }

  const SD_POWERUP := [IF_COND, APP_CMD, SD_OP_COND, ALL_SEND_CID]

  lemma FromGoIdleSd(h: Host, r: Answers, P: (Card, seq<nat>) -> bool, c: Card, rest: seq<nat>)
    requires Closed(h, r, P) && IsSd(r) && c.stage == GoIdle && c.count == 0 && !c.hc && !c.hs
    requires P(PoweredUp(c, Sd2, r(SdPowerup).highCapacity), rest)
    ensures P(c, SD_POWERUP + rest)
  {
    var c1 := c.(stage := CardVersion, istage := 0);
    var c2 := c1.(stage := SdPowerup, istage := 1, version := Sd2);
    var c3 := c2.(istage := 2);
    Next(h, r, P, c3, ALL_SEND_CID, PoweredUp(c, Sd2, r(SdPowerup).highCapacity), rest);
    Next(h, r, P, c2, SD_OP_COND, c3, [ALL_SEND_CID] + rest);
    Next(h, r, P, c1, APP_CMD, c2, [SD_OP_COND] + ([ALL_SEND_CID] + rest));
    Next(h, r, P, c, IF_COND, c1, [APP_CMD] + ([SD_OP_COND] + ([ALL_SEND_CID] + rest)));
    assert SD_POWERUP + rest == [IF_COND] + ([APP_CMD] + ([SD_OP_COND] + ([ALL_SEND_CID] + rest)));
  }

  lemma SdIsPoweredUp(h: Host, r: Answers, P: (Card, seq<nat>) -> bool, c: Card, rest: seq<nat>)
    requires Closed(h, r, P) && IsSd(r) && c.stage == Start && c.count == 0
    requires P(PoweredUp(c, Sd2, r(SdPowerup).highCapacity), rest)
    ensures P(c, Idles(h.pwrRetry) + (SD_POWERUP + rest))
  {
    FromGoIdleSd(h, r, P, Forgotten(c).(stage := GoIdle, count := 0), rest);
    FromStart(h, r, P, c, SD_POWERUP + rest);
  }

  /** All that an SD card is sent */
  function SdCommands(h: Host, r: Answers): seq<nat> {
    Idles(h.pwrRetry) + (SD_POWERUP + (ADDRESSING + WidthCommands(h, r)))
  }

  function SdEnd(h: Host, r: Answers, c: Card): Card {
    Closing(h, WidthEnd(h, r, Chosen(PoweredUp(c, Sd2, r(SdPowerup).highCapacity), r))).(stage := Done)
  }

  lemma SdIsSent(h: Host, r: Answers, P: (Card, seq<nat>) -> bool, c: Card, poweredUp: Card)
    requires c.stage == Start && c.count == 0 && IsSd(r) && Closed(h, r, P)
    requires poweredUp == PoweredUp(c, Sd2, r(SdPowerup).highCapacity)
    requires P(Chosen(poweredUp, r), WidthCommands(h, r))
    ensures P(c, SdCommands(h, r))
  {
    FromAllSendCid(h, r, P, poweredUp, WidthCommands(h, r));
    SdIsPoweredUp(h, r, P, c, ADDRESSING + WidthCommands(h, r));
  }

  lemma SdEndIs(h: Host, r: Answers, c: Card)
    ensures var end := SdEnd(h, r, c);
            && end.version == Sd2 && end.rca == r(SetAddress).upperHalf && end.hc == r(SdPowerup).highCapacity
            && (end.hs <==> ReadsScr(h) && AsksModes(h, r) && Speeds(h, r) && r(SwitchMode).hsSwitched)
  {
  }

  /** An SD card of version 2 that answers well, on any host: the commands that it is sent are these, and in the end
      the driver has its address and capacity, and the high-speed flag exactly if the card switched. */
  lemma SdCardIsSent(h: Host, r: Answers, c: Card) returns (end: Card)
    requires c.stage == Start && c.count == 0 && IsSd(r)
    ensures Plays(h, r, c, SdCommands(h, r), end)
    ensures end.version == Sd2 && end.rca == r(SetAddress).upperHalf && end.hc == r(SdPowerup).highCapacity
    ensures end.hs <==> ReadsScr(h) && AsksModes(h, r) && Speeds(h, r) && r(SwitchMode).hsSwitched
  {
    end := SdEnd(h, r, c);
    var P := (c, commands) => Plays(h, r, c, commands, end);
    PlaysIsClosed(h, r, end);
    Ends(h, r, end);
    var poweredUp := PoweredUp(c, Sd2, r(SdPowerup).highCapacity);
    FromCheckSts(h, r, P, Chosen(poweredUp, r));
    SdIsSent(h, r, P, c, poweredUp);
    SdEndIs(h, r, c);
  }

  lemma Ends(h: Host, r: Answers, end: Card)
    requires end.stage == Done && Fine(r(Final))
    ensures Plays(h, r, end.(stage := Final), [], end)
  {
  }

  // ---------------------------------------------------------------- multimedia cards

  predicate ModesWell(r: Answers) {
    Fine(r(CheckSts)) && Fine(r(ExtCsd)) && Fine(r(ModeHs)) && Fine(r(BusWidth)) && Fine(r(Final))
  }

  /** A multimedia card that is powered up at once: it does not answer the commands that only SD cards know. */
  predicate StartsAsMmc(r: Answers) {
    && r(CardVersion).timedOut && r(CardVersion).accepted && r(SdPowerup).timedOut && r(SdPowerup).accepted
    && Fine(r(GoIdle)) && Fine(r(MmcPowerup))
  }

  predicate IsMmc(r: Answers) {
    Fine(r(Start)) && StartsAsMmc(r) && AddressesWell(r) && ModesWell(r)
  }

  function BusWidthCommands(h: Host): seq<nat> {
    if h.wide then [SWITCH, SET_BLOCKLEN] else [SET_BLOCKLEN]
  }

  lemma FromBusWidth(h: Host, r: Answers, P: (Card, seq<nat>) -> bool, c: Card)
    requires Closed(h, r, P) && Fine(r(BusWidth)) && c.stage == BusWidth && P(Closing(h, c), [])
    ensures P(c, [SET_BLOCKLEN])
  {
    ClockCloses(h, r, P, c, c);
  }

  lemma FromWidthSwitch(h: Host, r: Answers, P: (Card, seq<nat>) -> bool, before: Card, c: Card)
    requires Closed(h, r, P) && Fine(r(before.stage)) && P(c.(stage := BusWidth), [SET_BLOCKLEN])
    requires Ident(h, before, r(before.stage)) == ConfigBusWidth(c, r(before.stage))
    ensures P(before, [SWITCH, SET_BLOCKLEN])
  {
    Next(h, r, P, before, SWITCH, c.(stage := BusWidth), [SET_BLOCKLEN]);
    assert [SWITCH] + [SET_BLOCKLEN] == [SWITCH, SET_BLOCKLEN];
  }

  /** Where the speed has been dealt with */
  lemma FromWidth(h: Host, r: Answers, P: (Card, seq<nat>) -> bool, before: Card, c: Card)
    requires Closed(h, r, P) && ModesWell(r) && Fine(r(before.stage)) && P(Closing(h, c), [])
    requires var q := r(before.stage); Ident(h, before, q) == if h.wide then ConfigBusWidth(c, q) else Clock(h, c, q)
    ensures P(before, BusWidthCommands(h))
  {
    if h.wide {
      FromBusWidth(h, r, P, c.(stage := BusWidth));
      FromWidthSwitch(h, r, P, before, c);
    } else {
      ClockCloses(h, r, P, before, c);
    }
  }

  function SpeedCommands(h: Host): seq<nat> {
    (if h.hs then [SWITCH] else []) + BusWidthCommands(h)
  }

  function Sped(h: Host, c: Card): Card { if h.hs then c.(hs := true) else c }

  lemma FromExtCsd(h: Host, r: Answers, P: (Card, seq<nat>) -> bool, c: Card)
    requires Closed(h, r, P) && ModesWell(r) && c.stage == ExtCsd && c.v4 && P(Closing(h, Sped(h, c)), [])
    ensures P(c, SpeedCommands(h))
  {
    if h.hs {
      var c1 := c.(stage := ModeHs);
      FromWidth(h, r, P, c1, c1.(hs := true));
      Next(h, r, P, c, SWITCH, c1, BusWidthCommands(h));
    } else {
      FromWidth(h, r, P, c, c);
      assert [] + BusWidthCommands(h) == BusWidthCommands(h);
    }
  }

  /** The extended CSD is read if the card has one; then the speed and the width are set as far as the host goes. */
  function ModeOfMmc(h: Host, r: Answers): seq<nat> {
    if r(SendCsd).v4 then [IF_COND] + SpeedCommands(h) else [SET_BLOCKLEN]
  }

  function MmcModeEnd(h: Host, c: Card): Card { if c.v4 then Sped(h, SetBlksz(h, c, 512)) else c }

  lemma FromCheckStsMmc(h: Host, r: Answers, P: (Card, seq<nat>) -> bool, c: Card)
    requires Closed(h, r, P) && ModesWell(r) && c.stage == CheckSts && c.version == Mmc1 && c.v4 == r(SendCsd).v4
    requires P(Closing(h, MmcModeEnd(h, c)), [])
    ensures P(c, ModeOfMmc(h, r))
  {
    if c.v4 {
      var c1 := SetBlksz(h, c, 512).(stage := ExtCsd);
      FromExtCsd(h, r, P, c1);
      Next(h, r, P, c, IF_COND, c1, SpeedCommands(h));
    } else {
      ClockCloses(h, r, P, c, c);
    }
  }

  const MMC_POWERUP := [IF_COND, APP_CMD, GO_IDLE_STATE, SEND_OP_COND, ALL_SEND_CID]

  lemma FromMmcPowerup(h: Host, r: Answers, P: (Card, seq<nat>) -> bool, c: Card, rest: seq<nat>)
    requires Closed(h, r, P) && StartsAsMmc(r) && h.pwrDelay <= MAX_MMC_STAGE
    requires c.stage == MmcPowerup && c.istage == 0 && c.count == 0 && !c.hc && !c.hs
    requires P(PoweredUp(c, Mmc1, r(MmcPowerup).highCapacity), rest)
    ensures P(c, [SEND_OP_COND] + ([ALL_SEND_CID] + rest))
  {
    var c1 := c.(istage := 1);
    assert h.pwrDelay * c1.istage == h.pwrDelay;
    Next(h, r, P, c1, ALL_SEND_CID, PoweredUp(c, Mmc1, r(MmcPowerup).highCapacity), rest);
    Next(h, r, P, c, SEND_OP_COND, c1, [ALL_SEND_CID] + rest);
  }

  lemma FromGoIdleMmc(h: Host, r: Answers, P: (Card, seq<nat>) -> bool, c: Card, rest: seq<nat>)
    requires Closed(h, r, P) && StartsAsMmc(r) && h.pwrDelay <= MAX_MMC_STAGE
    requires c.stage == GoIdle && c.count == 0 && !c.hc && !c.hs
    requires P(PoweredUp(c, Mmc1, r(MmcPowerup).highCapacity), rest)
    ensures P(c, MMC_POWERUP + rest)
  {
    var c1 := c.(stage := CardVersion, istage := 0);
    var c2 := c1.(stage := SdPowerup, istage := 1, version := Sd1);
    var c3 := c2.(stage := MmcPowerup, istage := 0);
    var later := [SEND_OP_COND] + ([ALL_SEND_CID] + rest);
    FromMmcPowerup(h, r, P, c3, rest);
    Next(h, r, P, c2, GO_IDLE_STATE, c3, later);
    Next(h, r, P, c1, APP_CMD, c2, [GO_IDLE_STATE] + later);
    Next(h, r, P, c, IF_COND, c1, [APP_CMD] + ([GO_IDLE_STATE] + later));
    assert MMC_POWERUP + rest == [IF_COND] + ([APP_CMD] + ([GO_IDLE_STATE] + later));
  }

  lemma MmcIsPoweredUp(h: Host, r: Answers, P: (Card, seq<nat>) -> bool, c: Card, rest: seq<nat>)
    requires Closed(h, r, P) && StartsAsMmc(r) && Fine(r(Start)) && h.pwrDelay <= MAX_MMC_STAGE
    requires c.stage == Start && c.count == 0
    requires P(PoweredUp(c, Mmc1, r(MmcPowerup).highCapacity), rest)
    ensures P(c, Idles(h.pwrRetry) + (MMC_POWERUP + rest))
  {
    FromGoIdleMmc(h, r, P, Forgotten(c).(stage := GoIdle, count := 0), rest);
    FromStart(h, r, P, c, MMC_POWERUP + rest);
  }

  /** All that a multimedia card is sent */
  function MmcCommands(h: Host, r: Answers): seq<nat> {
    Idles(h.pwrRetry) + (MMC_POWERUP + (ADDRESSING + ModeOfMmc(h, r)))
  }

  function MmcEnd(h: Host, r: Answers, c: Card): Card {
    Closing(h, MmcModeEnd(h, Chosen(PoweredUp(c, Mmc1, r(MmcPowerup).highCapacity), r))).(stage := Done)
  }

  lemma MmcEndIs(h: Host, r: Answers, c: Card)
    ensures var end := MmcEnd(h, r, c);
            && end.version == Mmc1 && end.rca == 2 && end.hc == r(MmcPowerup).highCapacity
            && (end.hs <==> r(SendCsd).v4 && h.hs)
  {
  }

  lemma MmcIsSent(h: Host, r: Answers, P: (Card, seq<nat>) -> bool, c: Card, poweredUp: Card)
    requires c.stage == Start && c.count == 0 && IsMmc(r) && h.pwrDelay <= MAX_MMC_STAGE && Closed(h, r, P)
    requires poweredUp == PoweredUp(c, Mmc1, r(MmcPowerup).highCapacity)
    requires P(Chosen(poweredUp, r), ModeOfMmc(h, r))
    ensures P(c, MmcCommands(h, r))
  {
    FromAllSendCid(h, r, P, poweredUp, ModeOfMmc(h, r));
    MmcIsPoweredUp(h, r, P, c, ADDRESSING + ModeOfMmc(h, r));
  }

  /** A multimedia card that answers well, on any host that gives it the time */
  lemma MmcCardIsSent(h: Host, r: Answers, c: Card) returns (end: Card)
    requires c.stage == Start && c.count == 0 && IsMmc(r) && h.pwrDelay <= MAX_MMC_STAGE
    ensures Plays(h, r, c, MmcCommands(h, r), end)
    ensures end.version == Mmc1 && end.rca == 2 && end.hc == r(MmcPowerup).highCapacity
    ensures end.hs <==> r(SendCsd).v4 && h.hs
  {
    end := MmcEnd(h, r, c);
    var P := (c, commands) => Plays(h, r, c, commands, end);
    PlaysIsClosed(h, r, end);
    Ends(h, r, end);
    var poweredUp := PoweredUp(c, Mmc1, r(MmcPowerup).highCapacity);
    FromCheckStsMmc(h, r, P, Chosen(poweredUp, r));
    MmcIsSent(h, r, P, c, poweredUp);
    MmcEndIs(h, r, c);
  }
}
