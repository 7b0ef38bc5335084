/**
 The driver of the MMC/SD driver cannot get stuck: from every moment of every run there is a way on, without a
 further request, on which all that was submitted is posted.
 */
module DriverDrains {
  import opened Wrappers
  import opened MmcTypes
  import opened DriverSystem
  import opened DriverThreads

  predicate Drained(s: System) {
    s.pc == Receive && s.nexus == None && s.queue == []
  }

  /** The step taken on that way: waits end, requests end with success, and missing pulses come. */
  ghost function Onward(s: System): System
    requires Inv(s) && !Drained(s)
  {
    match s.pc
    case Receive =>
      if s.nexus.Some? then
        if s.otherPulses > 0 then s.(pc := Handling, otherPulses := s.otherPulses - 1)
        else s.(otherPulses := 1)
      else if s.enqueuePulses > 0 then s.(pc := LoopHead(ToTailCheck), enqueuePulses := s.enqueuePulses - 1)
      else var p :| p in s.sending; s.(sending := s.sending - {p}, enqueuePulses := 1)
    case Waiting(who) =>
      if s.otherPulses == 0 then s.(otherPulses := 1)
      else s.(otherPulses := s.otherPulses - 1, pc := if who.Handler? then Handling else Dispatch(who.ret))
    case Handling => s.(pc := Tail, status := if s.nexus.Some? then Cmp else s.status)
    case Tail => Goto(if s.nexus.Some? && s.status != InProg then Post(s) else s, TailCheck)
    case TimerArm => Goto(s, TailCheck)
    case TailCheck => Goto(s, if s.nexus == None then LoopHead(ToReceive) else Receive)
    case LoopHead(ret) => Goto(s, if s.nexus.Some? then ReturnPc(ret) else Dequeue(ret))
    case Dequeue(ret) =>
      if s.queue == [] then Goto(s, ReturnPc(ret))
      else s.(pc := Dispatch(ret), nexus := Some(s.queue[0]), status := InProg, queue := s.queue[1..])
    case Dispatch(ret) => s.(pc := PostCheck(ret), status := Cmp)
    case PostCheck(ret) => if s.status != InProg then Goto(Post(s), LoopHead(ret)) else Goto(s, ReturnPc(ret))
  }

  function Unposted(s: System): nat { |NexusIds(s)| + |s.queue| }

  /** How far the driver is from posting something, or from being drained */
  function Rank(s: System): nat {
    match s.pc
    case Receive =>
      if s.nexus.Some? then (if s.otherPulses > 0 then 8 else 9)
      else if s.queue == [] then 0 else if s.enqueuePulses > 0 then 20 else 21
    case Waiting(who) =>
      (if who.Dispatcher? then 4 else if s.nexus.Some? then 8 else 31) + (if s.otherPulses > 0 then 0 else 1)
    case Handling => if s.nexus.Some? then 7 else 30
    case Tail => if s.nexus.Some? && s.status != InProg then 6 else 24
    case TimerArm => 24
    case TailCheck => if s.nexus.Some? then 10 else 23
    case LoopHead(ret) =>
      if s.nexus.Some? then 11
      else if ret == ToReceive then 22
      else if s.queue == [] then 27 else 19
    case Dequeue(ret) => if s.queue == [] && ret == ToTailCheck then 26 else 18
    case Dispatch(_) => 3
    case PostCheck(_) => if s.status != InProg then 2 else 12
  }

  /** Nothing new is submitted. */
  ghost predicate StepsOn(s: System, s': System) { Next(s, s') && s'.submitted == s.submitted }

  lemma OnwardIsStep(s: System)
    requires Inv(s) && !Drained(s)
    ensures StepsOn(s, Onward(s))
  {
    var s' := Onward(s);
    match s.pc
    case Receive =>
      if s.nexus.Some? {
        assert s.otherPulses > 0 ==> ReceivesPulse(s, s');
        assert s.otherPulses == 0 ==> OtherPulseArrives(s, s');
      } else if s.enqueuePulses > 0 {
        assert ReceivesPulse(s, s');
      } else {
        var p :| p in s.sending && s' == s.(sending := s.sending - {p}, enqueuePulses := 1);
        assert ProducerSendsPulse(s, s', p);
      }
    case Waiting(_) =>
      assert s.otherPulses > 0 ==> WaitsNested(s, s');
      assert s.otherPulses == 0 ==> OtherPulseArrives(s, s');
    case Handling => assert Handles(s, s', Cmp);
    case Tail => assert FinishesInterrupt(s, s');
    case TimerArm => assert HandlesTimer(s, s', false);
    case TailCheck => assert ChecksTail(s, s');
    case LoopHead(_) => assert StartsLoop(s, s');
    case Dequeue(_) => assert Dequeues(s, s');
    case Dispatch(_) => assert Dispatches(s, s', Cmp);
    case PostCheck(_) => assert ChecksPost(s, s');
  }

  lemma OnwardComesNearer(s: System)
    requires Inv(s) && !Drained(s)
    ensures var s' := Onward(s); Unposted(s') < Unposted(s) || (Unposted(s') == Unposted(s) && Rank(s') < Rank(s))
  {
  }

  /** A way from one state to another on which nothing new is submitted */
  ghost predicate Way(states: seq<System>, s: System, t: System) {
    && |states| > 0 && states[0] == s && states[|states| - 1] == t
    && forall i :: 0 <= i < |states| - 1 ==> StepsOn(states[i], states[i + 1])
  }

  lemma {:induction false} CanDrain(s: System) returns (way: seq<System>, t: System)
    requires Inv(s)
    ensures Way(way, s, t) && Drained(t) && Inv(t) && t.submitted == s.submitted
    decreases Unposted(s), Rank(s)
  {
    if Drained(s) {
      way, t := [s], s;
    } else {
      OnwardIsStep(s);
      OnwardComesNearer(s);
      if DriverSteps(s, Onward(s)) { DriverKeepsInv(s, Onward(s)); } else { ProducerKeepsInv(s, Onward(s)); }
      way, t := CanDrain(Onward(s));
      way := [s] + way;
    }
  }

  /** From every moment of every run the driver can post all that has been submitted; and whatever it does in the
      meantime, it still can. */
  lemma AllCanBePosted(states: seq<System>, n: nat) returns (way: seq<System>, t: System)
    requires Run(states) && n < |states|
    ensures Way(way, states[n], t) && Ids(t.posted) == states[n].submitted
  {
    RunKeepsInv(states, n);
    way, t := CanDrain(states[n]);
    assert Ids(t.posted) + NexusIds(t) + t.queue == Ids(t.posted);
  }
}
