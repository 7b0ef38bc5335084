/**
 A run in which a data command goes out while the card is still in the open-ended transfer of the request
 before it: the DMA of that request fails, the request is posted, and nobody has stopped the transfer.
 */
module LeftOpen {
  import opened Wrappers
  import opened Blocks
  import opened MmcTypes
  import opened BusRules
  import opened RequestMonitor
  import opened RequestEngine
  import opened RequestHandshake
  import opened RequestErrors

  const HOST := Host(false, true, true, true, false, true, false, false, 512)

  /** Two blocks of one buffer, as the first or the second request */
  function Read(id: nat): Ccb { Ccb(id, Func.Read, false, false, 0, 1024, [], InProg, Good) }

  /** Everything works, two blocks at a time; but the DMA of a data interrupt may not be done. */
  function Working(intr: Intr, ident: IdentOutcome, dmaDone: bool): Hw {
    Hw(intr, true, [], true, true, 2, dmaDone, true, true, true, true, [], true, ident)
  }

  const IDENTIFIED := Working(Intr(false, false, true, false, false), IdentDone, true)
  const DMA_FAILED := Working(Intr(false, false, false, true, false), IdentBusy, false)

  const LATER: nat -> Hw := _ => DMA_FAILED

  const READY := Start.(inserted := true, ready := true)

  function Reading(id: nat, queue: seq<Ccb>): Ext {
    READY.(state := InData, stop := StopPend, offset := 1024, nbytes := 1024, blkno := 2,
           nexus := Some(Read(id)), queue := queue, submitted := 2)
  }

  function Attempt(id: nat): seq<Event> { [Begin(id, false, 0, 1024, Flat)] + [Data(false, 0, 0, 2, true)] }

  lemma Started(id: nat, queue: seq<Ccb>, e: Ext)
    requires e.state == Idle && e.ready && e.nexus == Some(Read(id))
    ensures IoCmds(HOST, e, DMA_FAILED)
            == Out(e.(state := InData, stop := StopPend, dirIn := true, offset := 1024, nbytes := 1024, blkno := 2,
                      curSg := 0), Attempt(id))
  {
    assert BlocksIn(512, 1024) == 2 && Bytes(512, 2) == 1024;
    var e1 := e.(offset := 0, curSg := 0, dirIn := true, blkno := 0);
    assert Rewound(e, DMA_FAILED) == e1;
    assert DmaRw(HOST, e1.(nbytes := 1024), DMA_FAILED)
      == Out(e1.(stop := StopPend, offset := 1024, nbytes := 1024, blkno := 2), [Data(false, 0, 0, 2, true)]);
    assert Settle(e1, InProg, Good) == e1;
    assert Initiate(HOST, e1, DMA_FAILED)
      == Out(e1.(state := InData, stop := StopPend, offset := 1024, nbytes := 1024, blkno := 2),
             [Data(false, 0, 0, 2, true)]);
  }

  /** The next request of the queue is started. */
  lemma Next(id: nat, queue: seq<Ccb>, e: Ext, k: nat)
    requires e.nexus.None? && e.queue == [Read(id)] + queue && e.state == Idle && e.ready
    requires e.(nexus := Some(Read(id)), queue := queue, state := InData, stop := StopPend, dirIn := true,
                offset := 1024, nbytes := 1024, blkno := 2, curSg := 0) == Reading(id, queue)
    ensures StartCcb(HOST, e, LATER, k) == Out(Reading(id, queue), Attempt(id))
  {
    var e1 := e.(nexus := Some(Read(id)), queue := queue);
    assert e.queue[0] == Read(id) && e.queue[1..] == queue;
    Started(id, queue, e1);
    assert TakeNext(HOST, e, LATER(k)) == Out(Reading(id, queue), Attempt(id));
    assert StartCcb(HOST, Reading(id, queue), LATER, k + 1) == Quiet(Reading(id, queue));
    assert Attempt(id) + [] == Attempt(id);
  }

  lemma GetReady() returns (steps: seq<Step>)
    ensures Reached(HOST, steps, READY.(queue := [Read(0)] + [Read(1)], submitted := 2), [])
  {
    var e1 := Start.(inserted := true, state := Ident);
    ReachNext(HOST, [], CardInserted(true), Start, [], Quiet(e1));
    assert HandleInterrupt(HOST, e1, IDENTIFIED) == Quiet(READY);
    steps := [] + [CardInserted(true)];
    ReachNext(HOST, steps, InterruptPulse(IDENTIFIED, LATER), e1, [] + [], Quiet(READY));
    steps := steps + [InterruptPulse(IDENTIFIED, LATER)];
    var e2 := READY.(queue := [Read(0)], submitted := 1);
    assert [] + [Read(0)] == [Read(0)];
    ReachNext(HOST, steps, Submit(Read(0)), READY, [] + [] + [], Quiet(e2));
    steps := steps + [Submit(Read(0))];
    ReachNext(HOST, steps, Submit(Read(1)), e2, [] + [] + [] + [],
              Quiet(e2.(queue := [Read(0)] + [Read(1)], submitted := 2)));
    steps := steps + [Submit(Read(1))];
  }

  lemma BothStarted() returns (steps: seq<Step>)
    ensures Reached(HOST, steps, Reading(1, []), Attempt(0) + ([Post(0, true, CmdTimeout)] + Attempt(1)))
  {
    steps := GetReady();
    var e := READY.(queue := [Read(0)] + [Read(1)], submitted := 2);
    Next(0, [Read(1)], e, 0);
    ReachNext(HOST, steps, EnqueuePulse(LATER), e, [], Out(Reading(0, [Read(1)]), Attempt(0)));
    assert [] + Attempt(0) == Attempt(0);
    steps := steps + [EnqueuePulse(LATER)];
    OtherStarts();
    ReachNext(HOST, steps, InterruptPulse(DMA_FAILED, LATER), Reading(0, [Read(1)]), Attempt(0),
              Out(Reading(1, []), [Post(0, true, CmdTimeout)] + Attempt(1)));
    steps := steps + [InterruptPulse(DMA_FAILED, LATER)];
  }

  /** The interrupt itself posts the request, and leaves the transfer as it is. */
  lemma DmaFails(queue: seq<Ccb>)
    ensures DataPhaseOk(HOST, Reading(0, queue))
    ensures ProcessInterrupt(HOST, Reading(0, queue), DMA_FAILED)
            == Out(Reading(0, queue).(nexus := None, state := Idle), [Post(0, true, CmdTimeout)])
  {
    var e := Reading(0, queue);
    assert DataIrq(HOST, e, DMA_FAILED) == Quiet(Fail(e));
    assert HandleInterrupt(HOST, e, DMA_FAILED) == Quiet(Fail(e));
    assert [] + [Post(0, true, CmdTimeout)] == [Post(0, true, CmdTimeout)];
  }

  /** Then the other request is started. */
  lemma OtherStarts()
    ensures DataPhaseOk(HOST, Reading(0, [Read(1)]))
    ensures Take(HOST, Reading(0, [Read(1)]), InterruptPulse(DMA_FAILED, LATER))
            == Out(Reading(1, []), [Post(0, true, CmdTimeout)] + Attempt(1))
  {
    DmaFails([Read(1)]);
    assert [Read(1)] + [] == [Read(1)];
    Next(1, [], Reading(0, [Read(1)]).(nexus := None, state := Idle), 0);
  }

  lemma ThatLog(log: seq<Event>)
    requires log == Attempt(0) + ([Post(0, true, CmdTimeout)] + Attempt(1))
    ensures |log| == 5 && log[1] == log[4] == Data(false, 0, 0, 2, true) && NoDataIn(log, 2, 4)
    ensures !StoppedBetween(log, 1, 4)
  {
    assert log[2] == Post(0, true, CmdTimeout) && log[3].Begin?;
  }

  /** Two open-ended commands in a row, and no CMD12 in between */
  lemma TransferLeftOpen() returns (steps: seq<Step>)
    ensures var log := LogOf(HOST, steps);
            && |log| == 5 && log[1] == log[4] == Data(false, 0, 0, 2, true) && NoDataIn(log, 2, 4)
            && !StoppedBetween(log, 1, 4)
  {
    steps := BothStarted();
    ThatLog(LogOf(HOST, steps));
  }
}
