/** What the bus is in the middle of, whichever attempt it serves. */
module BusView {
  import opened BusRules

  function BusPhase1(p: Phase, ev: Event): Phase {
    match ev
    case Data(_, _, _, _, openEnded) => if openEnded then Open else Busy
    case StopSent => Stopping
    case StopDone => Stopped
    case _ => p
  }

  /** The last transfer in the log, and what has become of it. */
  function BusPhase(log: seq<Event>): Phase {
    if log == [] then NoData else BusPhase1(BusPhase(log[..|log| - 1]), log[|log| - 1])
  }

  predicate Unstopped(p: Phase) { p.Open? || p.Stopping? }

  /** The log[..n] as the monitor and as the bus see it */
  datatype View = View(m: Monitor, bus: Phase)

  function Seen(bus: Bus, log: seq<Event>, n: nat): View
    requires bus.blk > 0 && n <= |log|
  {
    View(Watch(bus, log[..n]), BusPhase(log[..n]))
  }
}
