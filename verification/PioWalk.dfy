/**
 The programmed-I/O walk over the scatter list of a request: mmc_pio_rw keeps a cursor (cur_sg,
 offset) between interrupts and moves whatever the host FIFO grants.  The cursor is shown to denote
 a position in the flattened list, and the bytes moved to be exactly the flat prefix up to it.
 */
module PioWalk {
  import opened Arith

  type byte = bv8

  /** cur_sg and offset; offset is -1 once the walk has run off the end of the list. */
  datatype Cursor = Cursor(sg: nat, offset: int)

  const DONE := -1

  function Sum(counts: seq<nat>): nat {
    if counts == [] then 0 else counts[0] + Sum(counts[1..])
  }

  predicate CursorOk(counts: seq<nat>, c: Cursor) {
    if c.offset == DONE then c.sg == |counts|
    else c.sg < |counts| && 0 <= c.offset <= counts[c.sg]
  }

  /** The position in the flattened list that a cursor denotes. */
  function Position(counts: seq<nat>, c: Cursor): nat
    requires CursorOk(counts, c)
  {
    if c.offset == DONE then Sum(counts) else Sum(counts[..c.sg]) + c.offset
  }

  /** The cursor after moving n bytes at c. */
  function Advance(counts: seq<nat>, c: Cursor, n: nat): Cursor
    requires c.offset != DONE && CursorOk(counts, c) && c.offset + n <= counts[c.sg]
  {
    if c.offset + n == counts[c.sg] then Cursor(c.sg + 1, if c.sg + 1 >= |counts| then DONE else 0)
    else Cursor(c.sg, c.offset + n)
  }

  /** One interrupt: pio_done is called until it moves nothing or the list is finished; the k-th call
      moves as much of the current element as grants[k] allows, and nothing once grants run out. */
  function Walk(counts: seq<nat>, c: Cursor, grants: seq<nat>): Cursor
    requires c.offset != DONE && CursorOk(counts, c)
    decreases |grants|
  {
    var n := if grants == [] then 0 else Min(grants[0], counts[c.sg] - c.offset);
    var next := Advance(counts, c, n);
    if n > 0 && next.offset != DONE then Walk(counts, next, grants[1..]) else next
  }

  lemma SumSplit(counts: seq<nat>, i: nat)
    requires i <= |counts|
    ensures Sum(counts) == Sum(counts[..i]) + Sum(counts[i..])
  {
    if i > 0 {
      SumSplit(counts[1..], i - 1);
      assert counts[..i][1..] == counts[1..][..i - 1];
    }
  }

  lemma SumUpTo(counts: seq<nat>, i: nat)
    requires i < |counts|
    ensures Sum(counts[..i + 1]) == Sum(counts[..i]) + counts[i]
  {
    SumSplit(counts[..i + 1], i);
    assert counts[..i + 1][..i] == counts[..i];
    assert counts[..i + 1][i..] == [counts[i]];
  }

  lemma AdvanceMovesPosition(counts: seq<nat>, c: Cursor, n: nat)
    requires c.offset != DONE && CursorOk(counts, c) && c.offset + n <= counts[c.sg]
    ensures CursorOk(counts, Advance(counts, c, n))
    ensures Position(counts, Advance(counts, c, n)) == Position(counts, c) + n
  {
    SumUpTo(counts, c.sg);
    if c.sg + 1 == |counts| {
      assert counts[..c.sg + 1] == counts;
    }
  }

  lemma PositionBound(counts: seq<nat>, c: Cursor)
    requires CursorOk(counts, c)
    ensures Position(counts, c) <= Sum(counts)
  {
    if c.offset != DONE {
      SumUpTo(counts, c.sg);
      SumSplit(counts, c.sg + 1);
    }
  }

  lemma {:induction false} WalkMovesForward(counts: seq<nat>, c: Cursor, grants: seq<nat>)
    requires c.offset != DONE && CursorOk(counts, c)
    ensures CursorOk(counts, Walk(counts, c, grants))
    ensures Position(counts, c) <= Position(counts, Walk(counts, c, grants)) <= Sum(counts)
    decreases |grants|
  {
    var n := if grants == [] then 0 else Min(grants[0], counts[c.sg] - c.offset);
    AdvanceMovesPosition(counts, c, n);
    var next := Advance(counts, c, n);
    if n > 0 && next.offset != DONE {
      WalkMovesForward(counts, next, grants[1..]);
    } else {
      PositionBound(counts, next);
    }
  }

  // ---------------------------------------------------------------- when the end is noticed

  /** How many empty elements the list ends in */
  function TrailingEmpty(counts: seq<nat>): (z: nat)
    ensures z <= |counts|
  {
    if counts == [] || counts[|counts| - 1] > 0 then 0 else 1 + TrailingEmpty(counts[..|counts| - 1])
  }

  /** The cursor in front of the last k elements */
  function Before(counts: seq<nat>, k: nat): Cursor
    requires k <= |counts|
  {
    Cursor(|counts| - k, if k == 0 then DONE else 0)
  }

  lemma {:induction false} TrailingEmptyIs(counts: seq<nat>, z: nat)
    requires z <= |counts| && forall k :: |counts| - z <= k < |counts| ==> counts[k] == 0
    requires z < |counts| ==> counts[|counts| - z - 1] > 0
    ensures TrailingEmpty(counts) == z
  {
    if z > 0 {
      TrailingEmptyIs(counts[..|counts| - 1], z - 1);
    }
  }

  lemma {:induction false} TrailingAreEmpty(counts: seq<nat>, k: nat)
    requires 0 < k <= TrailingEmpty(counts)
    ensures counts[|counts| - k] == 0
  {
    if k > 1 {
      TrailingAreEmpty(counts[..|counts| - 1], k - 1);
    }
  }

  lemma EmptyFrom(counts: seq<nat>, i: nat)
    requires i <= |counts| && Sum(counts[i..]) == 0
    ensures forall k :: i <= k < |counts| ==> counts[k] == 0
    decreases |counts| - i
  {
    if i < |counts| {
      assert counts[i..][1..] == counts[i + 1..];
      EmptyFrom(counts, i + 1);
    }
  }

  /** A step that moves the last bytes comes to stand in front of the empty elements at the end. */
  lemma LastByteStep(counts: seq<nat>, c: Cursor, n: nat)
    requires c.offset != DONE && CursorOk(counts, c) && 0 < n && c.offset + n <= counts[c.sg]
    requires Position(counts, c) + n == Sum(counts)
    ensures Advance(counts, c, n) == Before(counts, TrailingEmpty(counts))
  {
    SumUpTo(counts, c.sg);
    SumSplit(counts, c.sg + 1);
    EmptyFrom(counts, c.sg + 1);
    TrailingEmptyIs(counts, |counts| - c.sg - 1);
  }

  /** The interrupt that moves the last byte also passes the first empty element behind it, and no more. */
  lemma {:induction false} LastByteLeaves(counts: seq<nat>, c: Cursor, grants: seq<nat>)
    requires c.offset != DONE && CursorOk(counts, c) && CursorOk(counts, Walk(counts, c, grants))
    requires Position(counts, c) < Sum(counts)
    requires Position(counts, Walk(counts, c, grants)) == Sum(counts)
    ensures var z := TrailingEmpty(counts); Walk(counts, c, grants) == Before(counts, if z == 0 then 0 else z - 1)
    decreases |grants|
  {
    var n := if grants == [] then 0 else Min(grants[0], counts[c.sg] - c.offset);
    AdvanceMovesPosition(counts, c, n);
    var next := Advance(counts, c, n);
    if Position(counts, next) == Sum(counts) {
      LastByteStep(counts, c, n);
      if next.offset != DONE {
        TrailingAreEmpty(counts, TrailingEmpty(counts));
        assert Walk(counts, c, grants) == Advance(counts, next, 0);
      }
    } else {
      PositionBound(counts, next);
      LastByteLeaves(counts, next, grants[1..]);
    }
  }

  /** Interrupts up to the one that notices the end, each with its own grants */
  function Walks(counts: seq<nat>, c: Cursor, interrupts: seq<seq<nat>>): Cursor
    requires CursorOk(counts, c)
    decreases |interrupts|
  {
    if interrupts == [] || c.offset == DONE then c
    else
      WalkMovesForward(counts, c, interrupts[0]);
      Walks(counts, Walk(counts, c, interrupts[0]), interrupts[1..])
  }

  /** An interrupt in front of k empty elements passes one of them, whatever the FIFO grants. */
  lemma {:induction false} EmptyOneByOne(counts: seq<nat>, k: nat, interrupts: seq<seq<nat>>)
    requires k <= TrailingEmpty(counts)
    ensures CursorOk(counts, Before(counts, k))
    ensures Walks(counts, Before(counts, k), interrupts)
            == Before(counts, if k <= |interrupts| then 0 else k - |interrupts|)
    decreases |interrupts|
  {
    if k > 0 {
      TrailingAreEmpty(counts, k);
      if interrupts != [] {
        assert Walk(counts, Before(counts, k), interrupts[0]) == Before(counts, k - 1);
        EmptyOneByOne(counts, k - 1, interrupts[1..]);
      }
    }
  }

  /** The walk marks the request as finished in the very interrupt that moves its last byte, except for a
      list that ends in z empty elements where z is two or more: there it takes exactly z - 1 interrupts
      more, with nothing left to move. */
  lemma EndNoticedIff(counts: seq<nat>, c: Cursor, grants: seq<nat>, more: seq<seq<nat>>)
    requires c.offset != DONE && CursorOk(counts, c) && CursorOk(counts, Walk(counts, c, grants))
    requires Position(counts, c) < Sum(counts)
    requires Position(counts, Walk(counts, c, grants)) == Sum(counts)
    ensures Walks(counts, Walk(counts, c, grants), more).offset == DONE <==> TrailingEmpty(counts) - 1 <= |more|
  {
    LastByteLeaves(counts, c, grants);
    var z := TrailingEmpty(counts);
    EmptyOneByOne(counts, if z == 0 then 0 else z - 1, more);
  }

  /** Conversely a finished cursor never leaves a byte behind. */
  lemma DoneMeansAllMoved(counts: seq<nat>, c: Cursor, grants: seq<nat>)
    requires c.offset != DONE && CursorOk(counts, c)
    requires Walk(counts, c, grants).offset == DONE
    ensures CursorOk(counts, Walk(counts, c, grants))
    ensures Position(counts, Walk(counts, c, grants)) == Sum(counts)
  {
    WalkMovesForward(counts, c, grants);
  }

  /** The smallest list on which the interrupt that moves the last byte does not notice the end: one byte, then
      two empty elements. */
  lemma UnnoticedEnd()
    ensures Walk([1, 0, 0], Cursor(0, 0), [1, 1]) == Cursor(2, 0)
    ensures Position([1, 0, 0], Cursor(2, 0)) == Sum([1, 0, 0])
  {
    assert Walk([1, 0, 0], Cursor(1, 0), [1]) == Cursor(2, 0);
    assert [1, 0, 0][..2] == [1, 0];
    assert Sum([1, 0]) == 1 + Sum([0]);
  }

  // ---------------------------------------------------------------- the bytes

  function Flatten(memory: seq<seq<byte>>): seq<byte> {
    if memory == [] then [] else memory[0] + Flatten(memory[1..])
  }

  function Counts(memory: seq<seq<byte>>): seq<nat> {
    seq(|memory|, i requires 0 <= i < |memory| => |memory[i]|)
  }

  lemma FlattenLength(memory: seq<seq<byte>>)
    ensures |Flatten(memory)| == Sum(Counts(memory))
  {
    if memory != [] {
      assert Counts(memory)[1..] == Counts(memory[1..]);
    }
  }

  lemma {:induction false} FlattenSplit(memory: seq<seq<byte>>, i: nat)
    requires i < |memory|
    ensures Flatten(memory) == Flatten(memory[..i]) + memory[i] + Flatten(memory[i + 1..])
    decreases i
  {
    if i > 0 {
      FlattenSplit(memory[1..], i - 1);
      assert memory[1..][..i - 1] == memory[..i][1..];
      assert memory[1..][i..] == memory[i + 1..];
      Regroup(memory[0], Flatten(memory[..i][1..]), memory[i], Flatten(memory[i + 1..]));
    }
  }

  lemma Regroup(a: seq<byte>, b: seq<byte>, c: seq<byte>, d: seq<byte>)
    ensures a + (b + c + d) == (a + b) + c + d
  {
  }

  lemma FlattenPrefix(memory: seq<seq<byte>>, i: nat)
    requires i <= |memory|
    ensures |Flatten(memory[..i])| == Sum(Counts(memory)[..i])
  {
    FlattenLength(memory[..i]);
    assert Counts(memory[..i]) == Counts(memory)[..i];
  }

  /** s with the bytes from position at on replaced by b */
  function Overwrite(s: seq<byte>, at: nat, b: seq<byte>): seq<byte>
    requires at + |b| <= |s|
  {
    s[..at] + b + s[at + |b|..]
  }

  lemma OverwriteWithin(before: seq<byte>, s: seq<byte>, behind: seq<byte>, at: nat, b: seq<byte>)
    requires at + |b| <= |s|
    ensures var whole, p := before + s + behind, |before| + at;
            && Overwrite(whole, p, b) == before + Overwrite(s, at, b) + behind
            && whole[p..p + |b|] == s[at..at + |b|]
  {
  }

  /** Bytes [offset, offset+n) of element sg are bytes [p, p+n) of the flattened list. */
  lemma FlattenOverwrite(memory: seq<seq<byte>>, c: Cursor, b: seq<byte>)
    requires c.offset != DONE && CursorOk(Counts(memory), c) && c.offset + |b| <= |memory[c.sg]|
    ensures var after := memory[c.sg := Overwrite(memory[c.sg], c.offset, b)];
            var p := Position(Counts(memory), c);
            && Counts(after) == Counts(memory)
            && p + |b| <= |Flatten(memory)|
            && Flatten(after) == Overwrite(Flatten(memory), p, b)
            && Flatten(memory)[p..p + |b|] == memory[c.sg][c.offset..c.offset + |b|]
  {
    var after := memory[c.sg := Overwrite(memory[c.sg], c.offset, b)];
    FlattenSplit(memory, c.sg);
    FlattenSplit(after, c.sg);
    FlattenPrefix(memory, c.sg);
    FlattenPrefix(after, c.sg);
    assert after[..c.sg] == memory[..c.sg] && after[c.sg + 1..] == memory[c.sg + 1..];
    OverwriteWithin(Flatten(memory[..c.sg]), memory[c.sg], Flatten(memory[c.sg + 1..]), c.offset, b);
  }

  /** The first p bytes of the flattened memory have crossed the FIFO, and the rest is still flat. */
  ghost predicate Mirrored(memory: seq<seq<byte>>, wire: seq<byte>, dirIn: bool, card: nat -> byte, counts: seq<nat>,
                           p: nat, flat: seq<byte>)
  {
    && Counts(memory) == counts
    && p <= |Flatten(memory)| == |flat|
    && |wire| == p
    && wire == Flatten(memory)[..p]
    && Flatten(memory)[p..] == flat[p..]
    && (dirIn ==> forall k :: 0 <= k < p ==> wire[k] == card(k))
    && (!dirIn ==> Flatten(memory) == flat)
  }

  /** Bytes b read at c */
  lemma ReadMirrors(memory: seq<seq<byte>>, wire: seq<byte>, card: nat -> byte, c: Cursor, b: seq<byte>,
                    flat: seq<byte>)
    requires c.offset != DONE && CursorOk(Counts(memory), c) && c.offset + |b| <= |memory[c.sg]|
    requires Mirrored(memory, wire, true, card, Counts(memory), Position(Counts(memory), c), flat)
    requires forall k :: 0 <= k < |b| ==> b[k] == card(|wire| + k)
    ensures Mirrored(memory[c.sg := Overwrite(memory[c.sg], c.offset, b)], wire + b, true, card, Counts(memory),
                     Position(Counts(memory), c) + |b|, flat)
  {
    FlattenOverwrite(memory, c, b);
  }

  /** n bytes written from c on */
  lemma WriteMirrors(memory: seq<seq<byte>>, wire: seq<byte>, card: nat -> byte, c: Cursor, n: nat, flat: seq<byte>)
    requires c.offset != DONE && CursorOk(Counts(memory), c) && c.offset + n <= |memory[c.sg]|
    requires Mirrored(memory, wire, false, card, Counts(memory), Position(Counts(memory), c), flat)
    ensures Mirrored(memory, wire + memory[c.sg][c.offset..c.offset + n], false, card, Counts(memory),
                     Position(Counts(memory), c) + n, flat)
  {
    FlattenOverwrite(memory, c, memory[c.sg][c.offset..c.offset + n]);
  }

  /** One PIO request and the host FIFO: wire is every byte that has crossed the FIFO, in order. */
  class PioTransfer {
    const dirIn: bool
    const scatter: bool
    const card: nat -> byte          // what a reading card sends
    var memory: seq<seq<byte>>       // the elements of the scatter list
    var curSg: nat
    var offset: int
    var wire: seq<byte>

    ghost function View(): Cursor
      reads this
    {
      Cursor(if offset == DONE then |memory| else curSg, offset)
    }

    ghost predicate Mirrors(counts: seq<nat>, p: nat, flat: seq<byte>)
      reads this
    {
      Mirrored(memory, wire, dirIn, card, counts, p, flat)
    }

    ghost predicate Valid()
      reads this
    {
      && (scatter ==> offset == DONE ==> curSg == |memory|)
      && (!scatter ==> |memory| == 1 && curSg == 0)
      && CursorOk(Counts(memory), View())
      && Mirrors(Counts(memory), Position(Counts(memory), View()), Flatten(memory))
    }

    constructor (dirIn: bool, scatter: bool, card: nat -> byte, memory: seq<seq<byte>>)
      requires memory != [] && (!scatter ==> |memory| == 1)
      ensures Valid() && this.memory == memory && View() == Cursor(0, 0) && wire == []
      ensures this.dirIn == dirIn && this.scatter == scatter && this.card == card
    {
      this.dirIn, this.scatter, this.card, this.memory := dirIn, scatter, card, memory;
      curSg, offset, wire := 0, 0, [];
      new;
      FlattenLength(memory);
    }

    /** The pio_done callout: moves up to len bytes at an address, as many as the FIFO grants. */
    method PioDone(sg: nat, at: nat, len: nat, grant: nat) returns (n: nat)
      requires sg < |memory| && at + len == |memory[sg]|
      modifies this`memory, this`wire
      ensures n == Min(grant, len)
      ensures |wire| == |old(wire)| + n && old(wire) <= wire
      ensures dirIn ==> forall k :: |old(wire)| <= k < |wire| ==> wire[k] == card(k)
      ensures dirIn ==> memory == old(memory)[sg := Overwrite(old(memory)[sg], at, wire[|old(wire)|..])]
      ensures !dirIn ==> memory == old(memory) && wire == old(wire) + memory[sg][at..at + n]
    {
      n := Min(grant, len);
      if dirIn {
        var base := |wire|;
        var b := seq(n, k requires 0 <= k => card(base + k));
        memory := memory[sg := Overwrite(memory[sg], at, b)];
        wire := wire + b;
        assert wire[base..] == b;
      } else {
        wire := wire + memory[sg][at..at + n];
      }
    }

    /** The cursor (sgi, offset) of a walk under way. */
    ghost function At(sgi: nat): Cursor
      reads this
    {
      Cursor(if offset == DONE then |memory| else sgi, offset)
    }

    /** One pio_done call at (sgi, offset). */
    method MoveBytes(sgi: nat, grant: nat, ghost flat: seq<byte>) returns (n: nat)
      requires offset != DONE && CursorOk(Counts(memory), At(sgi))
      requires Mirrors(Counts(memory), Position(Counts(memory), At(sgi)), flat)
      modifies this`memory, this`wire
      ensures n == Min(grant, |old(memory)[sgi]| - offset)
      ensures Mirrors(old(Counts(memory)), Position(old(Counts(memory)), old(At(sgi))) + n, flat)
      ensures old(wire) <= wire
    {
      ghost var before, sent, c := memory, wire, Cursor(sgi, offset);
      n := PioDone(sgi, offset, |memory[sgi]| - offset, grant);
      if dirIn {
        ghost var b := wire[|sent|..];
        assert wire == sent + b && forall k :: 0 <= k < |b| ==> b[k] == wire[|sent| + k];
        ReadMirrors(before, sent, card, c, b, flat);
      } else {
        WriteMirrors(before, sent, card, c, n, flat);
      }
    }

    /** One pass of the loop body: pio_done and the step to the next element. */
    method MoveOnce(sgi: nat, grant: nat, ghost flat: seq<byte>) returns (n: nat, sgi': nat)
      requires offset != DONE && CursorOk(Counts(memory), At(sgi)) && (!scatter ==> |memory| == 1)
      requires Mirrors(Counts(memory), Position(Counts(memory), At(sgi)), flat)
      modifies this`memory, this`wire, this`offset
      ensures n == Min(grant, |old(memory)[sgi]| - old(offset))
      ensures At(sgi') == Advance(old(Counts(memory)), old(At(sgi)), n)
      ensures CursorOk(old(Counts(memory)), At(sgi'))
      ensures Mirrors(old(Counts(memory)), Position(old(Counts(memory)), At(sgi')), flat)
      ensures old(wire) <= wire
      ensures if scatter then offset == DONE ==> sgi' == |memory| else sgi' == sgi
    {
      ghost var counts, c := Counts(memory), At(sgi);
      sgi' := sgi;
      n := MoveBytes(sgi, grant, flat);
      AdvanceMovesPosition(counts, c, n);
      assert |memory| == |counts| && |memory[sgi]| == counts[sgi];
      offset := offset + n;
      if offset == |memory[sgi]| {
        if scatter {
          sgi' := sgi + 1;
          offset := if sgi' >= |memory| then DONE else 0;
        } else {
          offset := DONE;
        }
      }
    }

    /** The loop of mmc_pio_rw for one interrupt. */
    method WalkOn(grants: seq<nat>, ghost counts: seq<nat>, ghost flat: seq<byte>) returns (sgi: nat)
      requires offset != DONE && CursorOk(counts, At(curSg)) && counts == Counts(memory)
      requires !scatter ==> |memory| == 1 && curSg == 0
      requires Mirrors(counts, Position(counts, At(curSg)), flat)
      modifies this`memory, this`wire, this`offset
      ensures CursorOk(counts, At(sgi)) && At(sgi) == Walk(counts, old(At(curSg)), grants)
      ensures Mirrors(counts, Position(counts, At(sgi)), flat) && old(wire) <= wire
      ensures if scatter then offset == DONE ==> sgi == |memory| else sgi == 0
    {
      var calls: nat := 0;
      sgi := curSg;
      var more := true;
      ghost var target := Walk(counts, At(curSg), grants);
      while more
        invariant calls <= |grants|
        invariant if scatter then offset == DONE ==> sgi == |memory| else sgi == 0 && |memory| == 1
        invariant CursorOk(counts, At(sgi))
        invariant more ==> offset != DONE && target == Walk(counts, At(sgi), grants[calls..])
        invariant !more ==> target == At(sgi)
        invariant Mirrors(counts, Position(counts, At(sgi)), flat)
        invariant old(wire) <= wire
        decreases |grants| - calls, more
      {
        ghost var rest := grants[calls..];
        var nbytes;
        nbytes, sgi := MoveOnce(sgi, if calls < |grants| then grants[calls] else 0, flat);
        more := nbytes > 0 && offset != DONE;
        if more {
          assert rest[1..] == grants[calls + 1..];
          calls := calls + 1;
        }
      }
    }

    /** mmc_pio_rw for one interrupt, up to the stop */
    method PioRw(grants: seq<nat>)
      requires Valid() && offset != DONE
      modifies this`memory, this`wire, this`curSg, this`offset
      ensures Valid()
      ensures View() == Walk(old(Counts(memory)), old(View()), grants)
      ensures Mirrors(old(Counts(memory)), |wire|, old(Flatten(memory)))
      ensures old(wire) <= wire
    {
      ghost var counts, flat := Counts(memory), Flatten(memory);
      var sgi := WalkOn(grants, counts, flat);
      if scatter { curSg := sgi; }
      assert View() == At(sgi);
      Unchanged(counts, Position(counts, At(sgi)), flat);
    }

    /** A state mirrors itself. */
    lemma Unchanged(counts: seq<nat>, p: nat, flat: seq<byte>)
      requires Mirrors(counts, p, flat)
      ensures Mirrors(counts, p, Flatten(memory))
    {
    }
  }
}
