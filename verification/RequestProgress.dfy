/**
 Progress: with a card that answers without faults, a request that has reached its data phase is posted
 after boundedly many interrupts, however the host controller cuts it into pieces.  It is posted as a
 success, unless it carries the mark of an error and meets an open-ended command: then it fails.
 */
module RequestProgress {
  import opened Wrappers
  import opened Arith
  import opened Blocks
  import opened MmcTypes
  import opened PioWalk
  import opened BusRules
  import opened RequestEngine
  import opened RequestInvariant
  import opened RequestRuns

  /** What the host controller lets through in one interrupt: how many blocks setup_dma accepts at most, and
      what the FIFO grants to each call of pio_done. */
  datatype Feed = Feed(blocks: nat, grants: seq<nat>)
  {
    /** At least one block, at least one byte */
    predicate Some() { blocks > 0 && grants != [] && grants[0] > 0 }
  }

  ghost predicate Feeds(feeds: nat -> Feed) {
    forall k :: feeds(k).Some()
  }

  /** The interrupt that a working card raises next: its stop command completes, or its data is done. */
  function Answer(e: Ext, feed: Feed): Hw {
    var stopping := e.stop == StopIssued;
    Hw(Intr(false, false, stopping, !stopping, false), true, [], true, true, feed.blocks, true, true, true, true, true,
       feed.grants, true, IdentBusy)
  }

  predicate InFlight(e: Ext) {
    e.state == InData && e.nexus.Some? && e.nexus.value.ReadWrite() && e.nexus.value.status == InProg
  }

  /** Marked with an error, and the stop of an open-ended command is still to come. */
  predicate Doomed(e: Ext) {
    e.nexus.Some? && e.nexus.value.scsi == Check && (e.stop == StopPend || e.stop == StopIssued)
  }

  predicate OpenIn(events: seq<Event>) {
    exists k :: 0 <= k < |events| && events[k].Data? && events[k].openEnded
  }

  lemma OpenInEither(a: seq<Event>, b: seq<Event>)
    ensures OpenIn(a + b) <==> OpenIn(a) || OpenIn(b)
  {
    assert forall k :: 0 <= k < |b| ==> (a + b)[|a| + k] == b[k];
    assert forall k :: 0 <= k < |a| ==> (a + b)[k] == a[k];
  }

  function StopRank(e: Ext): nat {
    match e.stop
    case StopPend => 2
    case StopIssued => 1
    case _ => 0
  }

  /** The request is settled, as a failure if it was doomed. */
  predicate Finished(e: Ext, o: Out) {
    && Settled(o.ext) && o.ext.nexus.value.status == (if Doomed(e) then CmdTimeout else Cmp)
    && !OpenIn(o.events)
  }

  /** The same request is under way, and doomed if it was, or if an open-ended command has doomed it. */
  predicate Onward(e: Ext, o: Out) {
    && InFlight(o.ext) && o.ext.nexus == e.nexus
    && (Doomed(o.ext) <==> Doomed(e) || (o.ext.nexus.value.scsi == Check && OpenIn(o.events)))
  }

  lemma AfterDataQuiet(h: Host, e: Ext, before: Ext, feed: Feed)
    ensures AfterData(h, e, Answer(before, feed)) == e
  {
  }

  // ---------------------------------------------------------------- DMA

  /** k blocks are still to be commanded. */
  predicate BlocksLeft(h: Host, e: Ext, k: nat) {
    InFlight(e) && 0 <= e.offset && e.nbytes == e.offset + Bytes(h.blk, k)
  }

  /** The next command, of as many blocks as the feed allows, or the end of the request. */
  lemma DmaRwProgress(h: Host, e: Ext, k: nat, hw: Hw) returns (k': nat)
    requires h.blk > 0 && BlocksLeft(h, e, k) && hw.rwOk && hw.chunkBlocks > 0
    requires e.stop != StopPend && e.stop != StopIssued
    ensures var o := DmaRw(h, e, hw);
            if k == 0 then Finished(e, o) else k' < k && BlocksLeft(h, o.ext, k') && Onward(e, o)
  {
    k' := 0;
    BlocksInBytes(h.blk, k);
    if k > 0 {
      var c := Min(hw.chunkBlocks, k);
      k' := k - c;
      BytesAdd(h.blk, c, k');
      NextChunk(h, e, k, c);
      assert DmaRw(h, e, hw) == DmaXfer(h, e, Bytes(h.blk, c), true);
    }
  }

  lemma NextChunk(h: Host, e: Ext, k: nat, c: nat)
    requires h.blk > 0 && BlocksLeft(h, e, k) && 0 < c <= k && e.stop != StopPend && e.stop != StopIssued
    ensures Onward(e, DmaXfer(h, e, Bytes(h.blk, c), true))
  {
    var o := DmaXfer(h, e, Bytes(h.blk, c), true);
    assert o.events == [DataCommand(h, e, e.offset, Bytes(h.blk, c))];
    assert OpenIn(o.events) <==> o.events[0].openEnded;
  }

  /** The request ends, its next command is sent, or the stop handshake moves on. */
  predicate DmaProgress(h: Host, e: Ext, k: nat, o: Out, k': nat) {
    || Finished(e, o)
    || (Onward(e, o) && BlocksLeft(h, o.ext, k') && (k' < k || (k' == k && StopRank(o.ext) < StopRank(e))))
  }

  lemma StoppingStep(h: Host, e: Ext, k: nat, hw: Hw) returns (k': nat)
    requires h.blk > 0 && !h.pio && BlocksLeft(h, e, k) && e.stop == StopIssued
    requires !hw.intr.error && hw.intr.command && hw.rwOk && hw.chunkBlocks > 0
    ensures DataPhaseOk(h, e) && DmaProgress(h, e, k, StopIrq(h, e, hw), k')
  {
    var e1 := e.(stopsRetry := 0, stop := StopNone);
    k' := k;
    if Doomed(e) {
      assert StopIrq(h, e, hw) == After(StopDone, Quiet(Fail(e1)));
    } else {
      k' := DmaRwProgress(h, e1, k, hw);
      AfterStopDone(e, e1, DmaRw(h, e1, hw));
      assert StopIrq(h, e, hw) == After(StopDone, DmaRw(h, e1, hw));
    }
  }

  lemma TransferringStep(h: Host, e: Ext, k: nat, hw: Hw) returns (k': nat)
    requires h.blk > 0 && !h.pio && BlocksLeft(h, e, k) && e.stop != StopIssued
    requires !hw.intr.error && hw.intr.data && hw.dmaDone && hw.rwOk && hw.stopOk && hw.chunkBlocks > 0
    ensures DataPhaseOk(h, e) && DmaProgress(h, e, k, TransferIrq(h, e, hw), k')
  {
    var e1 := e.(stopsRetry := 0);
    k' := k;
    if e.stop == StopPend {
      assert TransferIrq(h, e, hw) == SendStop(e1, true);
    } else {
      k' := DmaRwProgress(h, e1, k, hw);
      assert TransferIrq(h, e, hw) == DmaRw(h, e1, hw);
    }
  }

  lemma DmaStep(h: Host, e: Ext, k: nat, feed: Feed) returns (k': nat)
    requires h.blk > 0 && !h.pio && BlocksLeft(h, e, k) && feed.Some()
    ensures DataPhaseOk(h, e) && DmaProgress(h, e, k, HandleInterrupt(h, e, Answer(e, feed)), k')
  {
    if e.stop == StopIssued {
      k' := StoppingStep(h, e, k, Answer(e, feed));
    } else {
      k' := TransferringStep(h, e, k, Answer(e, feed));
    }
    HandledQuietly(h, e, feed);
  }

  /** A working card raises only interrupts of the data phase, and the checks after it find nothing. */
  lemma HandledQuietly(h: Host, e: Ext, feed: Feed)
    requires h.blk > 0 && InFlight(e) && DataPhaseOk(h, e)
    ensures HandleInterrupt(h, e, Answer(e, feed)) == DataIrq(h, e, Answer(e, feed))
  {
    AfterDataQuiet(h, DataIrq(h, e, Answer(e, feed)).ext, e, feed);
  }

  lemma AfterStopDone(e: Ext, e1: Ext, o: Out)
    requires e1.nexus == e.nexus && !Doomed(e) && !Doomed(e1)
    ensures Finished(e1, o) ==> Finished(e, After(StopDone, o))
    ensures Onward(e1, o) ==> Onward(e, After(StopDone, o))
  {
    var events := After(StopDone, o).events;
    assert forall k :: 0 <= k < |o.events| ==> events[k + 1] == o.events[k];
  }

  // ---------------------------------------------------------------- programmed I/O

  predicate CursorGood(h: Host, e: Ext) {
    && InFlight(e) && CursorOk(e.nexus.value.Counts(), PioCursor(e))
    && (e.stop == StopIssued ==> Doomed(e) || e.offset == DONE)
    && (e.offset == DONE && e.stop != StopIssued ==> !e.dirIn)
  }

  /** Bytes still to be moved and elements still to be finished */
  function WalkRank(counts: seq<nat>, c: Cursor): int
    requires CursorOk(counts, c)
  {
    Sum(counts) - Position(counts, c) + |counts| - c.sg
  }

  /** Then the end of a write, then the stop handshake. */
  function PioRank(e: Ext): int
    requires e.nexus.Some? && CursorOk(e.nexus.value.Counts(), PioCursor(e))
  {
    if e.stop == StopIssued then 0
    else if e.offset == DONE then 1
    else 2 + WalkRank(e.nexus.value.Counts(), PioCursor(e))
  }

  lemma {:induction false} WalkGoesOn(counts: seq<nat>, c: Cursor, grants: seq<nat>)
    requires c.offset != DONE && CursorOk(counts, c)
    ensures var to := Walk(counts, c, grants);
            && CursorOk(counts, to) && c.sg <= to.sg <= |counts|
            && Position(counts, c) <= Position(counts, to) <= Sum(counts)
            && (grants != [] && grants[0] > 0 ==> WalkRank(counts, to) < WalkRank(counts, c))
    decreases |grants|
  {
    var n := if grants == [] then 0 else Min(grants[0], counts[c.sg] - c.offset);
    var next := Advance(counts, c, n);
    WalkMovesForward(counts, c, grants);
    AdvanceMovesPosition(counts, c, n);
    if n > 0 && next.offset != DONE {
      WalkGoesOn(counts, next, grants[1..]);
    }
  }

  predicate PioProgress(h: Host, e: Ext, o: Out)
    requires e.nexus.Some? && CursorOk(e.nexus.value.Counts(), PioCursor(e))
  {
    Finished(e, o) || (Onward(e, o) && CursorGood(h, o.ext) && 0 <= PioRank(o.ext) < PioRank(e))
  }

  lemma PioStopProgress(h: Host, e: Ext, hw: Hw)
    requires InFlight(e) && e.offset == DONE && e.stop != StopIssued && hw.stopOk
    ensures var o := PioStop(e, e.dirIn, hw);
            Finished(e, o) || (Onward(e, o) && CursorGood(h, o.ext) && PioRank(o.ext) == 0)
  {
    if e.stop == StopPend {
      assert PioStop(e, e.dirIn, hw) == Out(e.(stop := StopIssued), [StopSent]);
    } else {
      assert PioStop(e, e.dirIn, hw) == Quiet(Complete(e));
    }
  }

  lemma PioWalkProgress(h: Host, e: Ext, hw: Hw)
    requires CursorGood(h, e) && e.stop != StopIssued && e.offset != DONE && hw.stopOk
    requires hw.grants != [] && hw.grants[0] > 0
    ensures PioProgress(h, e, PioRw(e, hw))
  {
    PioRwIs(e, hw);
    var counts := e.nexus.value.Counts();
    WalkGoesOn(counts, PioCursor(e), hw.grants);
    var to := Walk(counts, PioCursor(e), hw.grants);
    var e1 := Walked(e, to);
    if to.offset == DONE && e.dirIn {
      PioStopProgress(h, e1, hw);
      AfterMoved(e, e1, WalkEvent(e, to), PioStop(e1, true, hw));
      assert PioRw(e, hw) == After(WalkEvent(e, to), PioStop(e1, true, hw));
    } else {
      AfterMoved(e, e1, WalkEvent(e, to), Quiet(e1));
      assert PioRw(e, hw) == After(WalkEvent(e, to), Quiet(e1));
      assert PioCursor(e1) == to;
    }
  }

  lemma AfterMoved(e: Ext, e1: Ext, ev: Event, o: Out)
    requires e1.nexus == e.nexus && e1.stop == e.stop && !ev.Data?
    ensures Finished(e1, o) ==> Finished(e, After(ev, o))
    ensures Onward(e1, o) ==> Onward(e, After(ev, o))
  {
    var events := After(ev, o).events;
    assert forall k :: 0 <= k < |o.events| ==> events[k + 1] == o.events[k];
  }

  lemma PioStopDone(h: Host, e: Ext, hw: Hw)
    requires h.blk > 0 && h.pio && CursorGood(h, e) && e.stop == StopIssued && !hw.intr.error && hw.intr.command
    ensures DataPhaseOk(h, e) && Finished(e, StopIrq(h, e, hw))
  {
    var e1 := e.(stopsRetry := 0, stop := StopNone);
    assert StopIrq(h, e, hw) == After(StopDone, Quiet(if Doomed(e) then Fail(e1) else Complete(e1)));
  }

  lemma PioDataStep(h: Host, e: Ext, hw: Hw)
    requires h.blk > 0 && h.pio && CursorGood(h, e) && e.stop != StopIssued
    requires !hw.intr.error && hw.intr.data && hw.stopOk && hw.grants != [] && hw.grants[0] > 0
    ensures DataPhaseOk(h, e) && PioProgress(h, e, TransferIrq(h, e, hw))
  {
    var e0 := e.(stopsRetry := 0);
    assert TransferIrq(h, e, hw) == PioRw(e0, hw) && PioCursor(e0) == PioCursor(e);
    if e.offset == DONE {
      PioStopProgress(h, e0, hw);
      assert PioRw(e0, hw) == PioStop(e0, false, hw);
    } else {
      PioWalkProgress(h, e0, hw);
    }
  }

  lemma PioStep(h: Host, e: Ext, feed: Feed)
    requires h.blk > 0 && h.pio && CursorGood(h, e) && feed.Some()
    ensures DataPhaseOk(h, e) && PioProgress(h, e, HandleInterrupt(h, e, Answer(e, feed)))
  {
    if e.stop == StopIssued {
      PioStopDone(h, e, Answer(e, feed));
    } else {
      PioDataStep(h, e, Answer(e, feed));
    }
    HandledQuietly(h, e, feed);
  }

  // ---------------------------------------------------------------- to the end

  /** next again and again, n times at most, as long as the request is in flight; k counts on. */
  function Repeat(next: (Ext, nat) -> Out, e: Ext, k: nat, n: nat): Out
    decreases n
  {
    if n == 0 || !InFlight(e) then Quiet(e)
    else
      var o := next(e, k);
      var rest := Repeat(next, o.ext, k + 1, n - 1);
      Out(rest.ext, o.events + rest.events)
  }

  /** The k-th interrupt, as the card raises it when all goes well, with the k-th feed */
  function Interrupt(h: Host, feeds: nat -> Feed): (Ext, nat) -> Out
    requires h.blk > 0
  {
    (e: Ext, k: nat) => if DataPhaseOk(h, e) then ProcessInterrupt(h, e, Answer(e, feeds(k))) else Quiet(e)
  }

  function Serve(h: Host, e: Ext, feeds: nat -> Feed, k: nat, n: nat): Out
    requires h.blk > 0
  {
    Repeat(Interrupt(h, feeds), e, k, n)
  }

  /** The request is posted, last of all: as a failure exactly if it is doomed, or marked and an open-ended
      command is sent for it; otherwise as a success. */
  ghost predicate Ends(e: Ext, o: Out)
    requires e.nexus.Some?
  {
    var ccb := e.nexus.value;
    && o.ext.nexus.None? && o.events != [] && (forall k :: 0 <= k < |o.events| - 1 ==> !o.events[k].Post?)
    && o.events[|o.events| - 1]
       == Post(ccb.id, true, if Doomed(e) || (ccb.scsi == Check && OpenIn(o.events)) then CmdTimeout else Cmp)
  }

  /** One interrupt ends the request, or leads on to where it ends. */
  lemma ServedOnce(h: Host, e: Ext, feeds: nat -> Feed, k: nat, n: nat)
    requires h.blk > 0 && InFlight(e) && DataPhaseOk(h, e)
    ensures var o := HandleInterrupt(h, e, Answer(e, feeds(k)));
            && (Finished(e, o) ==> Ends(e, Serve(h, e, feeds, k, n + 1)))
            && (Onward(e, o) && Ends(o.ext, Serve(h, o.ext, feeds, k + 1, n)) ==> Ends(e, Serve(h, e, feeds, k, n + 1)))
  {
    var o := HandleInterrupt(h, e, Answer(e, feeds(k)));
    if Finished(e, o) {
      var after := o.ext.(nexus := None, state := Idle);
      assert Interrupt(h, feeds)(e, k) == Out(after, o.events + [PostEvent(o.ext)]);
      assert Serve(h, after, feeds, k + 1, n) == Quiet(after);
      EndsNow(e, o);
    } else if Onward(e, o) && Ends(o.ext, Serve(h, o.ext, feeds, k + 1, n)) {
      assert Interrupt(h, feeds)(e, k) == o;
      EndsLater(e, o, Serve(h, o.ext, feeds, k + 1, n));
    }
  }

  lemma EndsNow(e: Ext, o: Out)
    requires InFlight(e) && Finished(e, o) && Kept(e, o.ext) && NoPosts(o.events)
    ensures Ends(e, Out(o.ext.(nexus := None, state := Idle), o.events + [PostEvent(o.ext)] + []))
  {
    var events := o.events + [PostEvent(o.ext)] + [];
    assert forall k :: 0 <= k < |o.events| ==> events[k] == o.events[k];
  }

  lemma EndsLater(e: Ext, o: Out, rest: Out)
    requires InFlight(e) && Onward(e, o) && Ends(o.ext, rest) && NoPosts(o.events)
    ensures Ends(e, Out(rest.ext, o.events + rest.events))
  {
    OpenInEither(o.events, rest.events);
    assert forall k :: 0 <= k < |o.events| ==> (o.events + rest.events)[k] == o.events[k];
  }

  /** A DMA request with k blocks left ends within three interrupts a block and the last stop. */
  lemma {:induction false} DmaRequestEnds(h: Host, e: Ext, k: nat, feeds: nat -> Feed, at: nat) returns (n: nat)
    requires h.blk > 0 && !h.pio && BlocksLeft(h, e, k) && Feeds(feeds)
    ensures n <= 3 * k + StopRank(e) + 1 && Ends(e, Serve(h, e, feeds, at, n))
    decreases k, StopRank(e)
  {
    var k' := DmaStep(h, e, k, feeds(at));
    var o := HandleInterrupt(h, e, Answer(e, feeds(at)));
    n := 0;
    if !Finished(e, o) {
      n := DmaRequestEnds(h, o.ext, k', feeds, at + 1);
    }
    ServedOnce(h, e, feeds, at, n);
    n := n + 1;
  }

  /** A programmed-I/O request ends within one interrupt for each byte and each element, and three more. */
  lemma {:induction false} PioRequestEnds(h: Host, e: Ext, feeds: nat -> Feed, at: nat) returns (n: nat)
    requires h.blk > 0 && h.pio && CursorGood(h, e) && Feeds(feeds)
    ensures n <= PioRank(e) + 1 && Ends(e, Serve(h, e, feeds, at, n))
    decreases PioRank(e)
  {
    var o := PioServed(h, e, feeds, at);
    n := 0;
    if !Finished(e, o) {
      n := PioRequestEnds(h, o.ext, feeds, at + 1);
    }
    ServedOnce(h, e, feeds, at, n);
    n := n + 1;
  }

  lemma PioServed(h: Host, e: Ext, feeds: nat -> Feed, at: nat) returns (o: Out)
    requires h.blk > 0 && h.pio && CursorGood(h, e) && Feeds(feeds)
    ensures DataPhaseOk(h, e) && o == HandleInterrupt(h, e, Answer(e, feeds(at)))
    ensures Finished(e, o) || (Onward(e, o) && CursorGood(h, o.ext) && 0 <= PioRank(o.ext) < PioRank(e))
  {
    PioStep(h, e, feeds(at));
    o := HandleInterrupt(h, e, Answer(e, feeds(at)));
  }

  // ---------------------------------------------------------------- from a run

  /** Every request that a run has brought into its data phase ends when all goes well, whatever is fed. */
  lemma RequestEnds(h: Host, steps: seq<Step>, feeds: nat -> Feed) returns (n: nat)
    requires h.blk > 0 && InFlight(Run(h, steps).ext) && Feeds(feeds)
    requires var ccb := Run(h, steps).ext.nexus.value;
             h.pio || ccb.scatter || WholeBlocks(h, ccb.dxferLen) == ccb.dxferLen
    ensures Ends(Run(h, steps).ext, Serve(h, Run(h, steps).ext, feeds, 0, n))
  {
    var e := Run(h, steps).ext;
    var m := Watch(h.AsBus(), Run(h, steps).events);
    if h.pio {
      CursorIsGood(h, e, m);
      n := PioRequestEnds(h, e, feeds, 0);
    } else {
      var k := WholeRemainder(h, e, m);
      n := DmaRequestEnds(h, e, k, feeds, 0);
    }
  }

  lemma CursorIsGood(h: Host, e: Ext, m: Monitor)
    requires h.blk > 0 && h.pio && UnderWay(h, e, m) && AtRest(h, e, m)
    ensures CursorGood(h, e)
  {
  }

  lemma WholeRemainder(h: Host, e: Ext, m: Monitor) returns (k: nat)
    requires h.blk > 0 && !h.pio && InFlight(e) && UnderWay(h, e, m)
    requires e.nexus.value.scatter || WholeBlocks(h, e.nexus.value.dxferLen) == e.nexus.value.dxferLen
    ensures BlocksLeft(h, e, k)
  {
    if e.nexus.value.scatter {
      k := 0;
    } else {
      var left := e.nbytes - e.offset;
      BlocksBeyond(h.blk, m.covered, left);
      k := BlocksIn(h.blk, left);
      BytesAdd(h.blk, m.covered, k);
    }
  }
}
