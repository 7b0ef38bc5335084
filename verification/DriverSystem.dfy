/**
 The pulse-driven driver thread of the MMC/SD driver against any number of producer threads.

 The model is a small-step transition system: one step is one receive, one dequeue, one post or one
 enqueue, so every interleaving of the driver with the producers is a run.  What the handlers
 compute is left open here (any status, any number of nested waits); RequestEngine fixes that part.
 */
module DriverSystem {
  import opened Wrappers
  import opened MmcTypes

  datatype Pulse = Enqueue | Interrupt | Timer

  /** Where mmc_start_ccb returns to: the tail check of the receive loop, or the loop head. */
  datatype Return = ToTailCheck | ToReceive

  /** Who is waiting inside mmc_wait_command. */
  datatype Waiter = Handler | Dispatcher(ret: Return)

  datatype Pc =
    | Receive                  // blocked in MsgReceivev of mmc_pulse_handler
    | Handling                 // mmc_process_interrupt is running
    | TimerArm
    | Tail                     // end of mmc_process_interrupt
    | TailCheck                // "if nexus == NULL" below the switch
    | LoopHead(ret: Return)    // first statement of the loop in mmc_start_ccb
    | Dequeue(ret: Return)
    | Dispatch(ret: Return)    // the request is being started
    | PostCheck(ret: Return)   // "if status != CAM_REQ_INPROG"
    | Waiting(who: Waiter)     // blocked in MsgReceivev of mmc_wait_command

  type Producer = nat

  datatype System = System(
    pc: Pc,
    nexus: Option<nat>,
    status: CamStatus,               // cam_status of the nexus
    queue: seq<nat>,
    submitted: seq<nat>,             // every CCB ever enqueued, in order
    posted: seq<(nat, CamStatus)>,   // every CCB posted, in order
    enqueuePulses: nat,
    otherPulses: nat,
    sending: set<Producer>)          // producers between simq_ccb_enqueue and MsgSendPulse

  predicate Init(s: System) {
    s == System(Receive, None, InProg, [], [], [], 0, 0, {})
  }

  // ---------------------------------------------------------------- the producers (mmc_sim_action)

  ghost predicate ProducerEnqueues(s: System, s': System, p: Producer, ccb: nat) {
    && p !in s.sending
    && ccb !in s.submitted
    && s' == s.(queue := s.queue + [ccb], submitted := s.submitted + [ccb], sending := s.sending + {p})
  }

  ghost predicate ProducerSendsPulse(s: System, s': System, p: Producer) {
    && p in s.sending
    && s' == s.(sending := s.sending - {p}, enqueuePulses := s.enqueuePulses + 1)
  }

  // ---------------------------------------------------------------- the hardware and the timer

  ghost predicate OtherPulseArrives(s: System, s': System) {
    s' == s.(otherPulses := s.otherPulses + 1)
  }

  // ---------------------------------------------------------------- the driver thread

  function Goto(s: System, pc: Pc): System { s.(pc := pc) }

  ghost predicate ReceivesPulse(s: System, s': System) {
    && s.pc == Receive
    && (|| (s.enqueuePulses > 0 && s' == s.(pc := LoopHead(ToTailCheck), enqueuePulses := s.enqueuePulses - 1))
        || (s.otherPulses > 0 && s' == s.(pc := Handling, otherPulses := s.otherPulses - 1))
        || (s.otherPulses > 0 && s' == s.(pc := TimerArm, otherPulses := s.otherPulses - 1)))
  }

  /** mmc_process_interrupt: it may wait for a nested command, or settle the status of the nexus. */
  ghost predicate Handles(s: System, s': System, result: CamStatus) {
    && s.pc == Handling
    && (|| s' == Goto(s, Waiting(Handler))
        || s' == s.(pc := Tail, status := if s.nexus.Some? then result else s.status))
  }

  function Post(s: System): System
    requires s.nexus.Some?
  {
    s.(posted := s.posted + [(s.nexus.value, s.status)], nexus := None)
  }

  ghost predicate FinishesInterrupt(s: System, s': System) {
    && s.pc == Tail
    && s' == Goto(if s.nexus.Some? && s.status != InProg then Post(s) else s, TailCheck)
  }

  ghost predicate HandlesTimer(s: System, s': System, mediaGone: bool) {
    && s.pc == TimerArm
    && s' == Goto(if s.nexus.Some? && mediaGone then Post(s.(status := CmpErr)) else s, TailCheck)
  }

  ghost predicate ChecksTail(s: System, s': System) {
    && s.pc == TailCheck
    && s' == Goto(s, if s.nexus == None then LoopHead(ToReceive) else Receive)
  }

  function ReturnPc(ret: Return): Pc {
    if ret.ToTailCheck? then TailCheck else Receive
  }

  ghost predicate StartsLoop(s: System, s': System) {
    && s.pc.LoopHead?
    && s' == Goto(s, if s.nexus.Some? then ReturnPc(s.pc.ret) else Dequeue(s.pc.ret))
  }

  ghost predicate Dequeues(s: System, s': System) {
    && s.pc.Dequeue?
    && s' == if s.queue == [] then Goto(s, ReturnPc(s.pc.ret))
             else s.(pc := Dispatch(s.pc.ret), nexus := Some(s.queue[0]), status := InProg, queue := s.queue[1..])
  }

  ghost predicate Dispatches(s: System, s': System, result: CamStatus) {
    && s.pc.Dispatch?
    && (|| s' == Goto(s, Waiting(Dispatcher(s.pc.ret)))
        || s' == s.(pc := PostCheck(s.pc.ret), status := result))
  }

  ghost predicate ChecksPost(s: System, s': System) {
    && s.pc.PostCheck?
    && s.nexus.Some?
    && s' == if s.status != InProg then Goto(Post(s), LoopHead(s.pc.ret)) else Goto(s, ReturnPc(s.pc.ret))
  }

  /** mmc_wait_command: an enqueue pulse is thrown away.  Any pulse may end the wait, an enqueue pulse by the
      time-out test that follows it. */
  ghost predicate WaitsNested(s: System, s': System) {
    && s.pc.Waiting?
    && var back := if s.pc.who.Handler? then Handling else Dispatch(s.pc.who.ret);
       (|| (s.enqueuePulses > 0 && s' == s.(enqueuePulses := s.enqueuePulses - 1))
        || (s.enqueuePulses > 0 && s' == s.(enqueuePulses := s.enqueuePulses - 1, pc := back))
        || (s.otherPulses > 0 && s' == s.(otherPulses := s.otherPulses - 1))
        || (s.otherPulses > 0 && s' == s.(otherPulses := s.otherPulses - 1, pc := back)))
  }

  ghost predicate DriverSteps(s: System, s': System) {
    || ReceivesPulse(s, s')
    || (exists r :: Handles(s, s', r))
    || FinishesInterrupt(s, s')
    || (exists gone :: HandlesTimer(s, s', gone))
    || ChecksTail(s, s')
    || StartsLoop(s, s')
    || Dequeues(s, s')
    || (exists r :: Dispatches(s, s', r))
    || ChecksPost(s, s')
    || WaitsNested(s, s')
  }

  ghost predicate ProducerSteps(s: System, s': System) {
    || (exists p, ccb :: ProducerEnqueues(s, s', p, ccb))
    || (exists p :: ProducerSendsPulse(s, s', p))
    || OtherPulseArrives(s, s')
  }

  ghost predicate Next(s: System, s': System) {
    DriverSteps(s, s') || ProducerSteps(s, s')
  }

  ghost predicate Run(states: seq<System>) {
    && |states| > 0
    && Init(states[0])
    && forall i :: 0 <= i < |states| - 1 ==> Next(states[i], states[i + 1])
  }
}
