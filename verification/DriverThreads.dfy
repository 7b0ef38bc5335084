/**
 What the pulses of the MMC/SD driver guarantee in every interleaving: no request waits for a pulse that
 will not come, and each is posted exactly once.
 */
module DriverThreads {
  import opened Wrappers
  import opened MmcTypes
  import opened DriverSystem

  // ---------------------------------------------------------------- what every step keeps

  function Ids(posted: seq<(nat, CamStatus)>): (ids: seq<nat>) {
    seq(|posted|, i requires 0 <= i < |posted| => posted[i].0)
  }

  function NexusIds(s: System): seq<nat> {
    if s.nexus.Some? then [s.nexus.value] else []
  }

  predicate Distinct(ids: seq<nat>) {
    forall i, j :: 0 <= i < j < |ids| ==> ids[i] != ids[j]
  }

  /** Every CCB submitted so far is posted, or the nexus, or still queued: once each and in order. */
  predicate AllAccounted(s: System) {
    Ids(s.posted) + NexusIds(s) + s.queue == s.submitted
  }

  predicate NoneLostAtReceive(s: System) {
    s.pc == Receive && s.nexus == None && s.queue != [] ==> s.enqueuePulses > 0 || s.sending != {}
  }

  predicate PcFits(s: System) {
    && (s.pc.Dequeue? ==> s.nexus == None)
    && (s.pc.Dispatch? || s.pc.PostCheck? || (s.pc.Waiting? && s.pc.who.Dispatcher?) ==> s.nexus.Some?)
    && (s.pc in {Receive, TimerArm, TailCheck} && s.nexus.Some? ==> s.status == InProg)
    && (s.pc.LoopHead? && s.nexus.Some? ==> s.status == InProg)
  }

  predicate Inv(s: System) {
    && Distinct(s.submitted)
    && AllAccounted(s)
    && (forall i :: 0 <= i < |s.posted| ==> s.posted[i].1 != InProg)
    && PcFits(s)
    && NoneLostAtReceive(s)
  }

  lemma PostKeepsAccount(s: System)
    requires s.nexus.Some? && AllAccounted(s)
    ensures AllAccounted(Post(s))
  {
    assert Ids(Post(s).posted) == Ids(s.posted) + [s.nexus.value];
  }

  lemma PostingKeepsInv(s: System, s': System)
    requires Inv(s) && (FinishesInterrupt(s, s') || ChecksPost(s, s') || exists gone :: HandlesTimer(s, s', gone))
    ensures Inv(s')
  {
    if s.nexus.Some? {
      PostKeepsAccount(s);
      PostKeepsAccount(s.(status := CmpErr));
    }
  }

  lemma DequeueKeepsInv(s: System, s': System)
    requires Inv(s) && Dequeues(s, s')
    ensures Inv(s')
  {
    if s.queue != [] {
      assert s.queue == [s.queue[0]] + s.queue[1..];
      assert Ids(s.posted) + [] + s.queue == Ids(s.posted) + [s.queue[0]] + s.queue[1..];
    }
  }

  lemma DriverKeepsInv(s: System, s': System)
    requires Inv(s) && DriverSteps(s, s')
    ensures Inv(s')
  {
    match s.pc
    case Tail => PostingKeepsInv(s, s');
    case PostCheck(_) => PostingKeepsInv(s, s');
    case TimerArm => PostingKeepsInv(s, s');
    case Dequeue(_) => DequeueKeepsInv(s, s');
    case _ =>
  }

  lemma ProducerKeepsInv(s: System, s': System)
    requires Inv(s) && ProducerSteps(s, s')
    ensures Inv(s')
  {
    if p, ccb :| ProducerEnqueues(s, s', p, ccb) {
      assert Ids(s.posted) + NexusIds(s) + (s.queue + [ccb]) == s.submitted + [ccb];
      assert p in s'.sending;
    }
  }

  lemma {:induction false} RunKeepsInv(states: seq<System>, n: nat)
    requires Run(states) && n < |states|
    ensures Inv(states[n])
  {
    if n > 0 {
      RunKeepsInv(states, n - 1);
      assert Next(states[n - 1], states[n - 1 + 1]);
      if DriverSteps(states[n - 1], states[n]) {
        DriverKeepsInv(states[n - 1], states[n]);
      } else {
        ProducerKeepsInv(states[n - 1], states[n]);
      }
    }
  }

  // ---------------------------------------------------------------- the theorems

  /** No lost wakeup, although nested waits throw enqueue pulses away. */
  lemma NoLostWakeup(states: seq<System>, n: nat)
    requires Run(states) && n < |states|
    requires states[n].pc == Receive
    ensures || states[n].nexus.Some?
            || states[n].queue == []
            || states[n].enqueuePulses > 0
            || states[n].sending != {}
  {
    RunKeepsInv(states, n);
  }

  /** Exactly-once completion, in submission order, never with the status that means "in progress". */
  lemma CompletedExactlyOnce(states: seq<System>, n: nat)
    requires Run(states) && n < |states|
    ensures Ids(states[n].posted) <= states[n].submitted
    ensures Distinct(Ids(states[n].posted))
    ensures forall i :: 0 <= i < |states[n].posted| ==> states[n].posted[i].1 != InProg
    ensures states[n].nexus.Some? ==> states[n].nexus.value !in Ids(states[n].posted)
    ensures Ids(states[n].posted) + NexusIds(states[n]) + states[n].queue == states[n].submitted
  {
    RunKeepsInv(states, n);
    var s := states[n];
    var ids := Ids(s.posted);
    assert forall i :: 0 <= i < |ids| ==> ids[i] == s.submitted[i];
    if s.nexus.Some? {
      assert s.submitted[|ids|] == s.nexus.value;
    }
  }

  /** When the driver sleeps with nothing on its way, every submitted CCB has been posted. */
  lemma QuiescentMeansAllPosted(states: seq<System>, n: nat)
    requires Run(states) && n < |states|
    requires states[n].pc == Receive && states[n].nexus == None
    requires states[n].enqueuePulses == 0 && states[n].sending == {}
    ensures Ids(states[n].posted) == states[n].submitted
  {
    NoLostWakeup(states, n);
    CompletedExactlyOnce(states, n);
  }

  /** The hard case does occur: a run in which the pulse of a queued CCB is thrown away. */
  ghost predicate Reachable(s: System, steps: nat) {
    exists states :: Run(states) && |states| == steps + 1 && states[steps] == s
  }

  lemma ReachNext(s: System, s': System, steps: nat)
    requires Reachable(s, steps) && Next(s, s')
    ensures Reachable(s', steps + 1)
  {
    var states :| Run(states) && |states| == steps + 1 && states[steps] == s;
    var longer := states + [s'];
    assert Run(longer);
  }

  /** The hard case does occur: the only pulse of a queued CCB can be thrown away. */
  lemma PulseOfQueuedCcbCanBeDiscarded() returns (s: System)
    ensures Reachable(s, 9)
    ensures s.queue != [] && s.enqueuePulses == 0 && s.sending == {} && s.pc.Waiting?
  {
    s := System(Receive, None, InProg, [], [], [], 0, 0, {});
    assert Run([s]);
    assert [s][0] == s;
    s := DiscardPrelude(s);
    s := DiscardEnding(s);
  }

  lemma DiscardPrelude(s0: System) returns (s: System)
    requires Init(s0) && Reachable(s0, 0)
    ensures Reachable(s, 5)
    ensures s == s0.(pc := Dispatch(ToTailCheck), nexus := Some(7), submitted := [7])
  {
    s := s0.(queue := [7], submitted := [7], sending := {0});
    assert ProducerEnqueues(s0, s, 0, 7);
    ReachNext(s0, s, 0);
    var s2 := s.(sending := {}, enqueuePulses := 1);
    assert ProducerSendsPulse(s, s2, 0);
    ReachNext(s, s2, 1);
    var s3 := s2.(pc := LoopHead(ToTailCheck), enqueuePulses := 0);
    assert ReceivesPulse(s2, s3);
    ReachNext(s2, s3, 2);
    var s4 := s3.(pc := Dequeue(ToTailCheck));
    assert StartsLoop(s3, s4);
    ReachNext(s3, s4, 3);
    s := s4.(pc := Dispatch(ToTailCheck), nexus := Some(7), queue := []);
    assert Dequeues(s4, s);
    ReachNext(s4, s, 4);
  }

  lemma DiscardEnding(s5: System) returns (s: System)
    requires Reachable(s5, 5)
    requires s5 == System(Dispatch(ToTailCheck), Some(7), InProg, [], [7], [], 0, 0, {})
    ensures Reachable(s, 9)
    ensures s == s5.(pc := Waiting(Dispatcher(ToTailCheck)), queue := [8], submitted := [7, 8])
  {
    var s6 := s5.(pc := Waiting(Dispatcher(ToTailCheck)));
    assert Dispatches(s5, s6, Cmp);
    ReachNext(s5, s6, 5);
    var s7 := s6.(queue := [8], submitted := [7, 8], sending := {0});
    assert ProducerEnqueues(s6, s7, 0, 8);
    ReachNext(s6, s7, 6);
    var s8 := s7.(sending := {}, enqueuePulses := 1);
    assert ProducerSendsPulse(s7, s8, 0);
    ReachNext(s7, s8, 7);
    s := s8.(enqueuePulses := 0);
    assert WaitsNested(s8, s);
    ReachNext(s8, s, 8);
  }
}
