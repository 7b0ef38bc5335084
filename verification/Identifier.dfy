/**
 Identification in the driver's own form: the handlers of mmcsd.c, updating the fields of the card in
 place.  Each does what its function in CardIdent says.
 */
module Identifier {
  import opened Wrappers
  import opened CardIdent
  import CP = CardProtocol

  class SimCard {
    const h: Host
    var stage: Stage
    var istage: nat
    var count: nat
    var version: Version
    var rca: nat
    var hc: bool
    var hs: bool
    var v4: bool
    var blksz: nat

    ghost function View(): Card
      reads this
    {
      Card(stage, istage, count, version, rca, hc, hs, v4, blksz)
    }

    constructor (h: Host)
      ensures this.h == h && stage == Start && count == 0 && blksz == 0
    {
      this.h := h;
      stage, istage, count, version, rca, hc, hs, v4, blksz := Start, 0, 0, Sd1, 0, false, false, false, 0;
    }

    /** mmc_sendcmd; whether the host accepted the command is r.accepted. */
    method MmcSendcmd(index: nat, arg: nat, r: Reply) returns (sent: Option<Command>, ok: bool)
      ensures Result(View(), sent, ok) == Send(View(), index, arg, r)
    {
      ok := r.accepted;
      sent := if ok then Some(Command(index, arg)) else None;
    }

    /** The set_blksz callout */
    method MmcSetBlksz(n: nat) returns (ok: bool)
      modifies this`blksz
      ensures View() == SetBlksz(h, old(View()), n) && ok == (n <= h.maxBlksz)
    {
      ok := n <= h.maxBlksz;
      if ok { blksz := n; }
    }

    method Starting(r: Reply) returns (sent: Option<Command>, ok: bool)
      modifies this
      ensures Result(View(), sent, ok) == IdentStart(h, old(View()), r)
    {
      sent, ok := None, false;
      if count == 0 { hc, hs := false, false; }
      if !r.detected { return; }
      if !r.powered { return; }
      count := count + 1;
      if count > h.pwrRetry {
        stage := GoIdle;
        count := 0;
      }
      sent, ok := MmcSendcmd(GO_IDLE_STATE, 0, r);
    }

    method GoingIdle(r: Reply) returns (sent: Option<Command>, ok: bool)
      modifies this
      ensures Result(View(), sent, ok) == IdentGoIdle(old(View()), r)
    {
      sent, ok := None, !r.error;
      if !r.error && r.command {
        stage, istage := CardVersion, 0;
        sent, ok := MmcSendcmd(IF_COND, 0, r);
      }
    }

    method FindingVersion(r: Reply) returns (sent: Option<Command>, ok: bool)
      modifies this
      ensures Result(View(), sent, ok) == IdentCardVersion(old(View()), r)
    {
      sent, ok := None, false;
      if r.timedOut {
        version := Sd1;
      } else if !r.error && r.echoed {
        version := Sd2;
      } else {
        return;
      }
      stage, istage := SdPowerup, 0;
      sent, ok := PoweringSd(r);
    }

    method PoweringSd(r: Reply) returns (sent: Option<Command>, ok: bool)
      modifies this
      ensures Result(View(), sent, ok) == IdentSdPowerup(old(View()), r)
    {
      sent, ok := None, false;
      if istage > MAX_SD_STAGE { return; }
      if istage % 3 == 0 {
        istage := istage + 1;
        if istage == 1 {
          sent, ok := MmcSendcmd(APP_CMD, 0, r);
          return;
        }
      }
      if istage == 1 && version == Sd1 && r.timedOut {
        stage, istage := MmcPowerup, 0;
        sent, ok := MmcSendcmd(GO_IDLE_STATE, 0, r);
      } else if !r.error {
        if istage % 3 == 1 {
          istage := istage + 1;
          sent, ok := MmcSendcmd(SD_OP_COND, 0, r);
        } else {
          if r.highCapacity { hc := true; }
          sent, ok := SdAnswered(r);
        }
      }
    }

    method SdAnswered(r: Reply) returns (sent: Option<Command>, ok: bool)
      modifies this
      ensures Result(View(), sent, ok) == SdOpCondDone(old(View()), r)
    {
      if r.poweredUp {
        stage, istage := AllSendCid, 0;
        sent, ok := MmcSendcmd(ALL_SEND_CID, 0, r);
      } else {
        istage := istage + 1;
        sent, ok := MmcSendcmd(APP_CMD, 0, r);
      }
    }

    method PoweringMmc(r: Reply) returns (sent: Option<Command>, ok: bool)
      modifies this
      ensures Result(View(), sent, ok) == IdentMmcPowerup(h, old(View()), r)
    {
      sent, ok := None, false;
      if h.pwrDelay * istage > MAX_MMC_STAGE || istage > MAX_MMC_STAGE { return; }
      istage := istage + 1;
      if istage > 1 {
        if r.error { return; }
        if r.highCapacity { hc := true; }
        if r.poweredUp {
          stage, istage, version := AllSendCid, 0, Mmc1;
          sent, ok := MmcSendcmd(ALL_SEND_CID, 0, r);
          return;
        }
      }
      sent, ok := MmcSendcmd(SEND_OP_COND, 0, r);
    }

    method AllCidsSent(r: Reply) returns (sent: Option<Command>, ok: bool)
      modifies this
      ensures Result(View(), sent, ok) == IdentAllSendCid(old(View()), r)
    {
      sent, ok := None, false;
      if r.error { return; }
      stage := SetAddress;
      rca := if version == Mmc1 then 2 else 0;
      sent, ok := MmcSendcmd(SET_RELATIVE_ADDR, rca, r);
    }

    method AddressSet(r: Reply) returns (sent: Option<Command>, ok: bool)
      modifies this
      ensures Result(View(), sent, ok) == IdentSetAddress(old(View()), r)
    {
      sent, ok := None, false;
      if r.error { return; }
      if version != Mmc1 { rca := r.upperHalf; }
      stage := SendCid;
      sent, ok := MmcSendcmd(SEND_CID, rca, r);
    }

    /** The handlers that only check for an error and send the next command. */
    method Next(next: Stage, index: nat, arg: nat, r: Reply) returns (sent: Option<Command>, ok: bool)
      modifies this
      ensures Result(View(), sent, ok)
              == if r.error then Failure(old(View())) else Send(old(View()).(stage := next), index, arg, r)
    {
      sent, ok := None, false;
      if r.error { return; }
      stage := next;
      sent, ok := MmcSendcmd(index, arg, r);
    }

    method CsdSent(r: Reply) returns (sent: Option<Command>, ok: bool)
      modifies this
      ensures Result(View(), sent, ok) == IdentSendCsd(old(View()), r)
    {
      sent, ok := None, false;
      if r.error { return; }
      v4 := r.v4;
      stage := SelDesCard;
      sent, ok := MmcSendcmd(SEL_DES_CARD, rca, r);
    }

    method SetClock(r: Reply) returns (sent: Option<Command>, ok: bool)
      modifies this
      ensures Result(View(), sent, ok) == Clock(h, old(View()), r)
    {
      var _ := MmcSetBlksz(512);
      stage := Final;
      sent, ok := MmcSendcmd(SET_BLOCKLEN, 0, r);
    }

    method SetBusWidth(r: Reply) returns (sent: Option<Command>, ok: bool)
      modifies this
      ensures Result(View(), sent, ok) == ConfigBusWidth(old(View()), r)
    {
      sent, ok := None, false;
      stage := BusWidth;
      if !r.cardReady { return; }
      sent, ok := MmcSendcmd(SWITCH, 0, r);
    }

    method StatusDone(r: Reply) returns (sent: Option<Command>, ok: bool)
      modifies this
      ensures Result(View(), sent, ok) == IdentStatusDone(h, old(View()), r)
    {
      sent, ok := None, false;
      if r.error { return; }
      if version == Mmc1 {
        if !v4 {
          sent, ok := SetClock(r);
          return;
        }
        var _ := MmcSetBlksz(512);
        if !r.pioReady { return; }
        stage := ExtCsd;
        sent, ok := MmcSendcmd(IF_COND, 0, r);
      } else if h.sdWidth4 {
        stage := SetBwApp;
        sent, ok := MmcSendcmd(APP_CMD, rca, r);
      } else {
        var _ := MmcSetBlksz(8);
        stage := SendScr;
        sent, ok := MmcSendcmd(APP_CMD, rca, r);
      }
    }

    method ExtCsdRead(r: Reply) returns (sent: Option<Command>, ok: bool)
      modifies this
      ensures Result(View(), sent, ok) == IdentExtCsd(h, old(View()), r)
    {
      sent, ok := None, false;
      if r.error || !r.pioDone || !r.cardTypeKnown { return; }
      if h.hs {
        stage := ModeHs;
        sent, ok := MmcSendcmd(SWITCH, 0, r);
      } else if v4 && h.wide {
        sent, ok := SetBusWidth(r);
      } else {
        sent, ok := SetClock(r);
      }
    }

    method ModeSwitched(r: Reply) returns (sent: Option<Command>, ok: bool)
      modifies this
      ensures Result(View(), sent, ok) == IdentModeHs(h, old(View()), r)
    {
      sent, ok := None, false;
      if r.error { return; }
      hs := true;
      if v4 && h.wide { sent, ok := SetBusWidth(r); } else { sent, ok := SetClock(r); }
    }

    method BusWidthSwitched(r: Reply) returns (sent: Option<Command>, ok: bool)
      modifies this
      ensures Result(View(), sent, ok) == IdentBusWidth(h, old(View()), r)
    {
      sent, ok := None, false;
      if r.error { return; }
      var _ := MmcSetBlksz(512);
      stage := Final;
      if !r.cardReady { return; }
      sent, ok := MmcSendcmd(SET_BLOCKLEN, 0, r);
    }

    method WidthSet(r: Reply) returns (sent: Option<Command>, ok: bool)
      modifies this
      ensures Result(View(), sent, ok) == IdentSetBw(h, old(View()), r)
    {
      sent, ok := None, false;
      if r.error { return; }
      var skip := h.noHs || !h.hasPio;
      if !skip {
        var taken := MmcSetBlksz(8);
        skip := !taken;
      }
      if skip {
        sent, ok := SetClock(r);
      } else {
        stage := SendScr;
        sent, ok := MmcSendcmd(APP_CMD, rca, r);
      }
    }

    method ScrAsked(r: Reply) returns (sent: Option<Command>, ok: bool)
      modifies this
      ensures Result(View(), sent, ok) == IdentSendScr(old(View()), r)
    {
      sent, ok := None, false;
      if r.error || !r.pioReady { return; }
      stage := ParseScr;
      sent, ok := MmcSendcmd(SEND_SCR, 0, r);
    }

    method ScrRead(r: Reply) returns (sent: Option<Command>, ok: bool)
      modifies this
      ensures Result(View(), sent, ok) == IdentParseScr(h, old(View()), r)
    {
      sent, ok := None, false;
      if r.error || !r.pioDone { return; }
      var probe := r.scrSpec;
      if probe { probe := MmcSetBlksz(64); }
      if !probe || !r.pioReady {
        sent, ok := SetClock(r);
      } else {
        stage := CheckMode;
        sent, ok := MmcSendcmd(SWITCH, 0, r);
      }
    }

    method ModeChecked(r: Reply) returns (sent: Option<Command>, ok: bool)
      modifies this
      ensures Result(View(), sent, ok) == IdentCheckMode(h, old(View()), r)
    {
      sent, ok := None, false;
      if r.error {
        sent, ok := SetClock(r);
      } else if r.pioDone {
        if !r.hsCapable || !h.hs {
          sent, ok := SetClock(r);
        } else if r.pioReady {
          stage := SwitchMode;
          sent, ok := MmcSendcmd(SWITCH, 0, r);
        }
      }
    }

    method SpeedSwitched(r: Reply) returns (sent: Option<Command>, ok: bool)
      modifies this
      ensures Result(View(), sent, ok) == IdentSwitchMode(h, old(View()), r)
    {
      sent, ok := None, false;
      if r.error || !r.pioDone { return; }
      if r.hsSwitched { hs := true; }
      sent, ok := SetClock(r);
    }

    /** mmc_card_ident */
    method MmcCardIdent(r: Reply) returns (sent: Option<Command>, ok: bool)
      modifies this
      ensures Result(View(), sent, ok) == Ident(h, old(View()), r)
    {
      match stage
      case Start => sent, ok := Starting(r);
      case GoIdle => sent, ok := GoingIdle(r);
      case CardVersion => sent, ok := FindingVersion(r);
      case SdPowerup => sent, ok := PoweringSd(r);
      case MmcPowerup => sent, ok := PoweringMmc(r);
      case AllSendCid => sent, ok := AllCidsSent(r);
      case SetAddress => sent, ok := AddressSet(r);
      case SendCid => sent, ok := Next(SendCsd, SEND_CSD, rca, r);
      case SendCsd => sent, ok := CsdSent(r);
      case SelDesCard => sent, ok := Next(CheckSts, SEND_STATUS, rca, r);
      case SendScr => sent, ok := ScrAsked(r);
      case ParseScr => sent, ok := ScrRead(r);
      case CheckMode => sent, ok := ModeChecked(r);
      case SwitchMode => sent, ok := SpeedSwitched(r);
      case CheckSts => sent, ok := StatusDone(r);
      case SetBwApp => sent, ok := Next(SetBw, SWITCH, 0, r);
      case SetBw => sent, ok := WidthSet(r);
      case ExtCsd => sent, ok := ExtCsdRead(r);
      case ModeHs => sent, ok := ModeSwitched(r);
      case BusWidth => sent, ok := BusWidthSwitched(r);
      case Final =>
        stage := Done;
        sent, ok := None, !r.error;
      case Done => sent, ok := None, false;
    }

    /** One call after another, as the interrupts come in: a run of CardIdent.  From the start on it sends
        boundedly many commands, all such as the card takes; and if it succeeds the milestones were met, and the
        driver has the card's address and kind. */
    method Identify(replies: seq<Reply>) returns (ok: bool, ghost log: seq<Event>)
      modifies this
      ensures Outcome(View(), ok, log) == Run(h, old(View()), replies)
      ensures old(stage) == Start ==> CommandsSent(log) <= h.pwrRetry + 4019
      ensures old(stage) == Start && ok && stage == Done ==> exists at :: |at| == |MILESTONES| && MetAt(log, at)
      ensures old(stage) == Start && ok && stage == Done && h.maxBlksz >= 512 ==> blksz == 512
      ensures old(stage) == Start ==> CP.AllTaken(log)
      ensures old(stage) == Start && ok && stage == Done ==>
                CP.Watch(log).address == Some(rca) && (CP.Watch(log).mmc <==> version == Mmc1)
    {
      ok, log := true, [];
      for i := 0 to |replies|
        invariant Outcome(View(), ok, log) == Run(h, old(View()), replies[..i])
      {
        assert replies[..i + 1][..i] == replies[..i];
        if ok && stage != Done {
          ghost var ev := if stage == Start then Begun else Answered(replies[i]);
          var sent;
          sent, ok := MmcCardIdent(replies[i]);
          log := log + [ev] + if sent.Some? then [Sent(sent.value)] else [];
        }
      }
      assert replies[..|replies|] == replies;
      if old(stage) == Start {
        IdentificationIsBounded(h, old(View()), replies);
        CP.CommandsAreTaken(h, old(View()), replies);
        if ok && stage == Done {
          ghost var at := SuccessIsEarned(h, old(View()), replies);
        }
      }
    }
  }
}
