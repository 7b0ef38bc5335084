/**
 What it means for a log that the automaton of BusRules accepts it.  RequestHandshake and RequestErrors
 are about what one attempt leaves for the next.
 */
module RequestMonitor {
  import opened Wrappers
  import opened Blocks
  import opened MmcTypes
  import opened BusRules

  lemma WatchAppend(bus: Bus, log: seq<Event>, ev: Event)
    requires bus.blk > 0
    ensures Watch(bus, log + [ev]) == Watch1(bus, Watch(bus, log), ev)
  {
    assert (log + [ev])[..|log|] == log;
  }

  /** Watching on from m. */
  function WatchFrom(bus: Bus, m: Monitor, events: seq<Event>): Monitor
    requires bus.blk > 0
    decreases |events|
  {
    if events == [] then m else WatchFrom(bus, Watch1(bus, m, events[0]), events[1..])
  }

  lemma WatchCons(bus: Bus, m: Monitor, ev: Event, events: seq<Event>)
    requires bus.blk > 0
    ensures WatchFrom(bus, m, [ev] + events) == WatchFrom(bus, Watch1(bus, m, ev), events)
  {
    assert ([ev] + events)[1..] == events;
  }

  lemma {:induction false} WatchConcat(bus: Bus, m: Monitor, a: seq<Event>, b: seq<Event>)
    requires bus.blk > 0
    ensures WatchFrom(bus, m, a + b) == WatchFrom(bus, WatchFrom(bus, m, a), b)
    decreases |a|
  {
    if a == [] {
      assert a + b == b;
    } else {
      assert (a + b)[1..] == a[1..] + b;
      WatchConcat(bus, Watch1(bus, m, a[0]), a[1..], b);
    }
  }

  lemma {:induction false} WatchLonger(bus: Bus, log: seq<Event>, events: seq<Event>)
    requires bus.blk > 0
    ensures Watch(bus, log + events) == WatchFrom(bus, Watch(bus, log), events)
    decreases |events|
  {
    if events == [] {
      assert log + events == log;
    } else {
      WatchAppend(bus, log, events[0]);
      WatchLonger(bus, log + [events[0]], events[1..]);
      assert log + [events[0]] + events[1..] == log + events;
    }
  }

  // ---------------------------------------------------------------- what an accepted log looks like

  lemma {:induction false} PrefixOk(bus: Bus, log: seq<Event>, n: nat)
    requires bus.blk > 0 && n <= |log| && Watch(bus, log).ok
    ensures Watch(bus, log[..n]).ok
  {
    if n < |log| {
      PrefixOk(bus, log[..|log| - 1], n);
      assert log[..|log| - 1][..n] == log[..n];
    } else {
      assert log[..n] == log;
    }
  }

  lemma PrefixStep(bus: Bus, log: seq<Event>, j: nat)
    requires bus.blk > 0 && j < |log|
    ensures Watch(bus, log[..j + 1]) == Watch1(bus, Watch(bus, log[..j]), log[j])
  {
    assert log[..j + 1] == log[..j] + [log[j]];
    WatchAppend(bus, log[..j], log[j]);
  }

  /** No request was (re)started in log[i..j]. */
  predicate SameAttempt(log: seq<Event>, i: nat, j: nat)
    requires i <= j <= |log|
  {
    forall k :: i <= k < j ==> !log[k].Begin?
  }

  /** CMD12 was sent and, later, completed, both strictly between i and j. */
  ghost predicate StoppedBetween(log: seq<Event>, i: nat, j: nat)
    requires i < j <= |log|
  {
    exists k, l :: i < k < l < j && log[k] == StopSent && log[l] == StopDone
  }

  ghost predicate StopSentBetween(log: seq<Event>, i: nat, j: nat)
    requires i < j <= |log|
  {
    exists k :: i < k < j && log[k] == StopSent
  }

  predicate Success(ev: Event) {
    ev.Post? && ev.readWrite && ev.status == Cmp
  }

  /** How a transfer can come to be closed or stopping within an attempt that goes on. */
  lemma PhaseStep(bus: Bus, m: Monitor, ev: Event)
    requires bus.blk > 0 && !ev.Begin? && Watch1(bus, m, ev).ok && Watch1(bus, m, ev).id.Some?
    ensures var m' := Watch1(bus, m, ev);
            && m.ok && m.id.Some?
            && (m'.phase.Closed() ==> m.phase.Closed() || (m.phase.Stopping? && ev == StopDone))
            && (m'.phase.Stopping? ==> m.phase.Stopping? || ev == StopSent)
  {
  }

  lemma {:induction false} PhaseAfterOpen(bus: Bus, log: seq<Event>, i: nat, j: nat)
    requires bus.blk > 0 && i < j <= |log| && Watch(bus, log[..j]).ok && Watch(bus, log[..j]).id.Some?
    requires log[i].Data? && log[i].openEnded && SameAttempt(log, i, j)
    ensures Watch(bus, log[..j]).phase.Closed() ==> StoppedBetween(log, i, j)
    ensures Watch(bus, log[..j]).phase.Stopping? ==> StopSentBetween(log, i, j)
  {
    PrefixStep(bus, log, j - 1);
    var m := Watch(bus, log[..j - 1]);
    if j > i + 1 {
      PhaseStep(bus, m, log[j - 1]);
      PhaseAfterOpen(bus, log, i, j - 1);
      if m.phase.Stopping? && log[j - 1] == StopDone {
        var k :| i < k < j - 1 && log[k] == StopSent;
        assert i < k < j - 1 < j && log[k] == StopSent && log[j - 1] == StopDone;
      }
    }
  }

  /** An open-ended transfer is stopped before the next data command of the attempt, and before success. */
  lemma OpenTransferIsStopped(bus: Bus, log: seq<Event>, i: nat, j: nat)
    requires bus.blk > 0 && Watch(bus, log).ok
    requires i < j < |log| && SameAttempt(log, i, j)
    requires log[i].Data? && log[i].openEnded && (log[j].Data? || Success(log[j]))
    ensures StoppedBetween(log, i, j)
  {
    AcceptedStep(bus, log, j);
    NeedsClosed(bus, Watch(bus, log[..j]), log[j]);
    PhaseAfterOpen(bus, log, i, j);
  }

  lemma AcceptedStep(bus: Bus, log: seq<Event>, j: nat)
    requires bus.blk > 0 && Watch(bus, log).ok && j < |log|
    ensures var m := Watch(bus, log[..j]); m.ok && Watch1(bus, m, log[j]).ok
  {
    PrefixStep(bus, log, j);
    PrefixOk(bus, log, j + 1);
    PrefixOk(bus, log, j);
  }

  lemma NeedsClosed(bus: Bus, m: Monitor, ev: Event)
    requires bus.blk > 0 && Watch1(bus, m, ev).ok && (ev.Data? || Success(ev))
    ensures m.id.Some? && m.phase.Closed()
  {
  }

  /** What is posted is settled. */
  lemma PostsAreSettled(bus: Bus, log: seq<Event>, j: nat)
    requires bus.blk > 0 && Watch(bus, log).ok && j < |log| && log[j].Post?
    ensures log[j].status != InProg
  {
    PrefixOk(bus, log, j + 1);
    PrefixStep(bus, log, j);
  }

  // ---------------------------------------------------------------- data errors

  /** A data error marks the attempt until it ends, */
  lemma {:induction false} ErrorRemembered(bus: Bus, log: seq<Event>, i: nat, j: nat)
    requires bus.blk > 0 && i < j <= |log| && log[i] == DataError && SameAttempt(log, i, j)
    ensures Watch(bus, log[..j]).id.Some? ==> Watch(bus, log[..j]).error
  {
    PrefixStep(bus, log, j - 1);
    if j > i + 1 {
      ErrorRemembered(bus, log, i, j - 1);
    }
  }

  predicate Marked(m: Monitor) { m.failed && m.id.Some? }

  /** and the request until it is posted. */
  lemma {:induction false} FailureRemembered(bus: Bus, log: seq<Event>, i: nat, j: nat)
    requires bus.blk > 0 && Watch(bus, log).ok && i < j <= |log| && log[i] == DataError
    requires forall k :: i < k < j ==> !log[k].Post?
    ensures Marked(Watch(bus, log[..j]))
  {
    PrefixOk(bus, log, j);
    PrefixStep(bus, log, j - 1);
    if j > i + 1 {
      FailureRemembered(bus, log, i, j - 1);
    }
  }

  /** An attempt that met a data error is not reported as a success. */
  lemma ErrorIsSticky(bus: Bus, log: seq<Event>, i: nat, j: nat)
    requires bus.blk > 0 && Watch(bus, log).ok
    requires i < j < |log| && log[i] == DataError && SameAttempt(log, i, j)
    ensures !Success(log[j])
  {
    ErrorRemembered(bus, log, i, j);
    PrefixStep(bus, log, j);
    PrefixOk(bus, log, j + 1);
  }

  lemma {:induction false} OpenedRemembered(bus: Bus, log: seq<Event>, i: nat, j: nat)
    requires bus.blk > 0 && i < j <= |log| && log[i].Data? && log[i].openEnded && SameAttempt(log, i, j)
    ensures Watch(bus, log[..j]).id.Some? && Watch(bus, log).ok ==> Watch(bus, log[..j]).everOpen
  {
    PrefixStep(bus, log, j - 1);
    if Watch(bus, log).ok { PrefixOk(bus, log, j); }
    if j > i + 1 {
      OpenedRemembered(bus, log, i, j - 1);
    }
  }

  /** A request that met a data error is reported as a success only after a restart, and only if no command
      since then was open-ended. */
  lemma FailedSucceedsClosed(bus: Bus, log: seq<Event>, i: nat, j: nat, k: nat)
    requires bus.blk > 0 && Watch(bus, log).ok && i < j < |log| && log[i] == DataError && Success(log[j])
    requires forall l :: i < l < j ==> !log[l].Post?
    requires k < j && log[k].Begin? && SameAttempt(log, k + 1, j)
    ensures i < k
    ensures forall l :: k < l < j && log[l].Data? ==> !log[l].openEnded
  {
    if k < i {
      ErrorIsSticky(bus, log, i, j);
    }
    FailureRemembered(bus, log, i, j);
    PrefixStep(bus, log, j);
    PrefixOk(bus, log, j + 1);
    forall l | k < l < j && log[l].Data? ensures !log[l].openEnded {
      if log[l].openEnded {
        OpenedRemembered(bus, log, l, j);
      }
    }
  }

  // ---------------------------------------------------------------- coverage

  /** The data commands of a piece of the log, in order. */
  function Commands(log: seq<Event>): seq<Event> {
    if log == [] then []
    else Commands(log[..|log| - 1]) + (if log[|log| - 1].Data? then [log[|log| - 1]] else [])
  }

  /** The commands cover the first n blocks of the request's memory and the card blocks from lba on, in
      order, each in that direction and starting where the one before it ended. */
  predicate Tiles(blk: nat, cmds: seq<Event>, write: bool, lba: nat, n: nat)
  {
    if cmds == [] then n == 0
    else
      var last := cmds[|cmds| - 1];
      && last.Data? && last.write == write && last.blocks <= n
      && last.mem == Bytes(blk, n - last.blocks)
      && last.blkno == lba + (n - last.blocks)
      && Tiles(blk, cmds[..|cmds| - 1], write, lba, n - last.blocks)
  }

  lemma CommandsStep(log: seq<Event>, i: nat, j: nat)
    requires i < j <= |log|
    ensures Commands(log[i..j]) == Commands(log[i..j - 1]) + (if log[j - 1].Data? then [log[j - 1]] else [])
  {
    assert log[i..j][..j - i - 1] == log[i..j - 1];
  }

  lemma TilesAppend(blk: nat, cmds: seq<Event>, ev: Event, write: bool, lba: nat, n: nat)
    requires Tiles(blk, cmds, write, lba, n)
    requires ev.Data? && ev.write == write && ev.mem == Bytes(blk, n) && ev.blkno == lba + n
    ensures Tiles(blk, cmds + [ev], write, lba, n + ev.blocks)
  {
    assert (cmds + [ev])[..|cmds|] == cmds;
  }

  /** The monitor is in the attempt that start began, with these commands so far, or the request is over. */
  ghost predicate AttemptTiled(bus: Bus, m: Monitor, start: Event, cmds: seq<Event>)
    requires bus.blk > 0 && start.Begin?
  {
    m.id.Some? ==>
      && m.id == Some(start.id) && m.write == start.write
      && m.lba == start.lba && m.length == start.length && m.mode == start.mode
      && Tiles(bus.blk, cmds, m.write, m.lba, m.covered)
  }

  lemma TileStep(bus: Bus, m: Monitor, start: Event, cmds: seq<Event>, ev: Event)
    requires bus.blk > 0 && start.Begin? && AttemptTiled(bus, m, start, cmds)
    requires !ev.Begin? && Watch1(bus, m, ev).ok
    ensures AttemptTiled(bus, Watch1(bus, m, ev), start, cmds + (if ev.Data? then [ev] else []))
  {
    if ev.Data? {
      TilesAppend(bus.blk, cmds, ev, m.write, m.lba, m.covered);
    } else {
      assert cmds + [] == cmds;
    }
  }

  lemma AttemptStarts(bus: Bus, m: Monitor, start: Event)
    requires bus.blk > 0 && start.Begin?
    ensures AttemptTiled(bus, Watch1(bus, m, start), start, Commands([]))
  {
  }

  lemma {:induction false} CommandsTile(bus: Bus, log: seq<Event>, i: nat, j: nat)
    requires bus.blk > 0 && Watch(bus, log).ok
    requires i < j <= |log| && log[i].Begin? && SameAttempt(log, i + 1, j)
    ensures AttemptTiled(bus, Watch(bus, log[..j]), log[i], Commands(log[i + 1..j]))
  {
    if j > i + 1 {
      CommandsTile(bus, log, i, j - 1);
      TileOn(bus, log, i, j);
    } else {
      PrefixStep(bus, log, i);
      AttemptStarts(bus, Watch(bus, log[..i]), log[i]);
      assert log[i + 1..j] == [];
    }
  }

  lemma TileOn(bus: Bus, log: seq<Event>, i: nat, j: nat)
    requires bus.blk > 0 && Watch(bus, log).ok
    requires i + 1 < j <= |log| && log[i].Begin? && !log[j - 1].Begin?
    requires AttemptTiled(bus, Watch(bus, log[..j - 1]), log[i], Commands(log[i + 1..j - 1]))
    ensures AttemptTiled(bus, Watch(bus, log[..j]), log[i], Commands(log[i + 1..j]))
  {
    NextAccepted(bus, log, j - 1);
    CommandsStep(log, i + 1, j);
    TileStep(bus, Watch(bus, log[..j - 1]), log[i], Commands(log[i + 1..j - 1]), log[j - 1]);
  }

  lemma NextAccepted(bus: Bus, log: seq<Event>, j: nat)
    requires bus.blk > 0 && Watch(bus, log).ok && j < |log|
    ensures Watch(bus, log[..j + 1]) == Watch1(bus, Watch(bus, log[..j]), log[j]) && Watch(bus, log[..j + 1]).ok
  {
    PrefixStep(bus, log, j);
    PrefixOk(bus, log, j + 1);
  }

  lemma IdStep(bus: Bus, m: Monitor, ev: Event)
    requires bus.blk > 0 && !ev.Begin? && Watch1(bus, m, ev).id.Some?
    ensures m.id == Watch1(bus, m, ev).id && !ev.Post?
  {
  }

  /** The attempt that a monitor is in the middle of. */
  lemma {:induction false} AttemptHasStart(bus: Bus, log: seq<Event>, j: nat) returns (i: nat)
    requires bus.blk > 0 && j <= |log| && Watch(bus, log[..j]).id.Some?
    ensures i < j && log[i].Begin? && SameAttempt(log, i + 1, j)
    ensures forall k :: i < k < j ==> !log[k].Post?
  {
    if j > 0 {
      PrefixStep(bus, log, j - 1);
      if log[j - 1].Begin? {
        i := j - 1;
      } else {
        IdStep(bus, Watch(bus, log[..j - 1]), log[j - 1]);
        i := AttemptHasStart(bus, log, j - 1);
      }
    }
  }

  /** A success report follows an attempt at that very request, whose commands tile all its blocks; outside
      scatter DMA these are all its bytes. */
  lemma SuccessMeansTiled(bus: Bus, log: seq<Event>, j: nat) returns (i: nat)
    requires bus.blk > 0 && Watch(bus, log).ok && j < |log| && Success(log[j])
    ensures i < j && log[i].Begin? && log[i].id == log[j].id && SameAttempt(log, i + 1, j)
    ensures forall k :: i < k < j ==> !log[k].Post?
    ensures Tiles(bus.blk, Commands(log[i + 1..j]), log[i].write, log[i].lba, BlocksIn(bus.blk, log[i].length))
    ensures log[i].mode != Scatter ==> Bytes(bus.blk, BlocksIn(bus.blk, log[i].length)) == log[i].length
  {
    PrefixStep(bus, log, j);
    PrefixOk(bus, log, j + 1);
    i := AttemptHasStart(bus, log, j);
    CommandsTile(bus, log, i, j);
  }
}
