/**
 What a host may do on the bus for a read or write, independent of how the driver is written: an
 automaton that watches the log of one driver.  Its rules are about one attempt at a request.
 (SD Physical Layer Simplified Specification, sections 4.3.3 and 4.3.4: an open-ended multi-block
 transfer is closed by CMD12.)
 */
module BusRules {
  import opened Wrappers
  import opened Blocks
  import opened MmcTypes

  /** How a request is transferred: by programmed I/O, by DMA into one buffer, or by scatter DMA. */
  datatype Mode = Pio | Flat | Scatter

  /** What a host controller can do: its block size, whether it sends CMD12 by itself, and its modes. */
  datatype Bus = Bus(blk: nat, autoStop: bool, modes: set<Mode>)

  /** Data: so many blocks, between the request's memory at byte offset mem and card block blkno on.  write
      says that they go to the card. */
  datatype Event =
    | Begin(id: nat, write: bool, lba: nat, length: nat, mode: Mode)          // a read or write is (re)started
    | Data(write: bool, blkno: nat, mem: nat, blocks: nat, openEnded: bool)   // a data command was accepted
    | Moved(at: nat, bytes: nat)                                              // programmed I/O moved bytes
    | DataError
    | StopSent                                                                // CMD12 was accepted
    | StopDone                                                                // CMD12 completed
    | Post(id: nat, readWrite: bool, status: CamStatus)

  /** The transfer of one attempt: none yet, bounded, open-ended, being stopped, or stopped. */
  datatype Phase = NoData | Busy | Open | Stopping | Stopped
  {
    predicate Closed() { !Open? && !Stopping? }
  }

  /** The verdict so far; the request under way, if any, and whether it ever met a data error (failed); and
      what the current attempt at it has done: covered counts blocks, everOpen tells of open-ended commands. */
  datatype Monitor = Monitor(ok: bool, phase: Phase, error: bool, failed: bool, everOpen: bool,
                             id: Option<nat>, write: bool, lba: nat, length: nat, mode: Mode,
                             covered: nat, moved: nat)

  const Fresh := Monitor(true, NoData, false, false, false, None, false, 0, 0, Flat, 0, 0)

  /** A request under way may be restarted, but not replaced. */
  predicate BeginAllowed(m: Monitor, ev: Event)
    requires ev.Begin?
  {
    m.id.Some? ==>
      m.id == Some(ev.id) && m.write == ev.write && m.lba == ev.lba && m.length == ev.length && m.mode == ev.mode
  }

  /** The next blocks, in the direction of the request and a mode that the controller has; but for one buffer,
      all blocks at once. */
  predicate DataAllowed(bus: Bus, m: Monitor, ev: Event)
    requires ev.Data? && bus.blk > 0
  {
    && m.id.Some? && m.mode in bus.modes && m.phase.Closed() && !m.error
    && ev.write == m.write
    && ev.mem == Bytes(bus.blk, m.covered)
    && ev.blkno == m.lba + m.covered
    && m.covered + ev.blocks <= BlocksIn(bus.blk, m.length)
    && (if m.mode == Flat then ev.blocks > 0 else ev.blocks == BlocksIn(bus.blk, m.length))
    && ev.openEnded == (ev.blocks != 1 && !bus.autoStop)
  }

  /** Success may be reported once every block of the request has a closed data command; what is left over
      after the last whole block may be missing in scatter DMA only.  No success once a data error was met,
      unless the request was restarted since and had no open-ended command. */
  predicate SuccessAllowed(bus: Bus, m: Monitor, id: nat)
    requires bus.blk > 0
  {
    && m.phase.Closed() && !m.error && m.id == Some(id)
    && m.covered == BlocksIn(bus.blk, m.length)
    && (m.mode != Scatter ==> Bytes(bus.blk, m.covered) == m.length)
    && (m.mode == Pio ==> m.moved == m.length)
    && (m.failed ==> !m.everOpen)
  }

  function Watch1(bus: Bus, m: Monitor, ev: Event): Monitor
    requires bus.blk > 0
  {
    match ev
    case Begin(id, write, lba, length, mode) =>
      Monitor(m.ok && BeginAllowed(m, ev), NoData, false, m.id.Some? && m.failed, false,
              Some(id), write, lba, length, mode, 0, 0)
    case Data(write, blkno, mem, blocks, openEnded) =>
      m.(ok := m.ok && DataAllowed(bus, m, ev), covered := m.covered + blocks,
         phase := if openEnded then Open else Busy, everOpen := m.everOpen || openEnded)
    case Moved(at, bytes) => m.(ok := m.ok && m.id.Some? && at == m.moved, moved := m.moved + bytes)
    case DataError =>
      m.(ok := m.ok && m.id.Some? && (m.phase.Busy? || m.phase.Open?) && m.covered > 0, error := true, failed := true)
    case StopSent =>
      m.(ok := m.ok && m.id.Some? && (m.phase.Busy? || m.phase.Open? || m.phase.Stopping?) && m.covered > 0,
         phase := Stopping)
    case StopDone => m.(ok := m.ok && m.id.Some? && m.phase.Stopping?, phase := Stopped)
    case Post(id, readWrite, status) =>
      Fresh.(ok := m.ok && status != InProg && (readWrite && status == Cmp ==> SuccessAllowed(bus, m, id)))
  }

  function Watch(bus: Bus, log: seq<Event>): Monitor
    requires bus.blk > 0
  {
    if log == [] then Fresh else Watch1(bus, Watch(bus, log[..|log| - 1]), log[|log| - 1])
  }
}
