/**
 Modifier actions: test_actions runs a list of actions over 64-bit masks.  It is shown to compute what
 the same actions mean on sets of modifiers.
 */
module Modifiers {
  // ---------------------------------------------------------------- masks

  const WIDTH: nat := 64

  /** The bits of a _uint64, lowest first */
  type Mask = m: seq<bool> | |m| == 64 witness seq(64, (i: nat) => false)

  function Zero(): Mask { seq(WIDTH, (i: nat) => false) }

  function And(a: Mask, b: Mask): (r: Mask)
    ensures forall i :: 0 <= i < WIDTH ==> r[i] == (a[i] && b[i])
  {
    seq(WIDTH, i requires 0 <= i < WIDTH => a[i] && b[i])
  }

  function Or(a: Mask, b: Mask): (r: Mask)
    ensures forall i :: 0 <= i < WIDTH ==> r[i] == (a[i] || b[i])
  {
    seq(WIDTH, i requires 0 <= i < WIDTH => a[i] || b[i])
  }

  function Xor(a: Mask, b: Mask): (r: Mask)
    ensures forall i :: 0 <= i < WIDTH ==> r[i] == (a[i] != b[i])
  {
    seq(WIDTH, i requires 0 <= i < WIDTH => a[i] != b[i])
  }

  function Not(a: Mask): (r: Mask)
    ensures forall i :: 0 <= i < WIDTH ==> r[i] == !a[i]
  {
    seq(WIDTH, i requires 0 <= i < WIDTH => !a[i])
  }

  /** 1LL << n */
  function Shifted(n: nat): (r: Mask)
    requires n < WIDTH
    ensures forall i :: 0 <= i < WIDTH ==> r[i] == (i == n)
  {
    seq(WIDTH, i requires 0 <= i < WIDTH => i == n)
  }

  /** What is left of a mask that is stored in an int */
  function AsInt(a: Mask): (r: Mask)
    ensures forall i :: 0 <= i < WIDTH ==> r[i] == (a[i] && i < 32)
  {
    seq(WIDTH, i requires 0 <= i < WIDTH => a[i] && i < 32)
  }

  type Mod = n: nat | n < WIDTH

  /** A mask as the set of its modifiers */
  ghost function Bits(m: Mask): set<Mod> { set n: Mod | m[n] }

  lemma ZeroIff(m: Mask)
    ensures m == Zero() <==> Bits(m) == {}
  {
    if Bits(m) == {} {
      assert forall i :: 0 <= i < WIDTH ==> m[i] ==> i in Bits(m);
      assert forall i :: 0 <= i < WIDTH ==> m[i] == Zero()[i];
    }
  }

  // ---------------------------------------------------------------- actions

  datatype NewState = Up | Down | Press | Release

  /** action_t: the state before that is asked for, the change that is involved, and what to do. */
  datatype Action = Action(modBefore: Mask, modStateBefore: Mask, modAction: Mask, modStateAction: Mask, modToDo: Mod,
                           newState: NewState, bothAnd: bool)

  /** The test of the state before, on masks. */
  predicate BeforeMask(a: Action, level: Mask) {
    var wanted, current := And(a.modBefore, a.modStateBefore), And(a.modBefore, level);
    if a.modBefore == Zero() then true
    else if a.bothAnd then wanted == current
    else AsInt(Not(Or(Xor(wanted, current), Not(a.modBefore)))) != Zero()
  }

  /** All tested modifiers, or one of them, are as asked for.  In the second case the code looks at those
      below 32 only; limit says how far is meant. */
  ghost predicate Before(a: Action, level: set<Mod>, limit: nat) {
    var tested, wanted := Bits(a.modBefore), Bits(a.modStateBefore);
    || tested == {}
    || (if a.bothAnd then forall n :: n in tested ==> (n in wanted <==> n in level)
        else exists n :: n in tested && n < limit && (n in wanted <==> n in level))
  }

  lemma BeforeMaskIsBefore(a: Action, level: Mask)
    ensures BeforeMask(a, level) <==> Before(a, Bits(level), 32)
  {
    var wanted, current := And(a.modBefore, a.modStateBefore), And(a.modBefore, level);
    ZeroIff(a.modBefore);
    if a.bothAnd {
      AndAgrees(a, level);
    } else {
      OrAgrees(a, level);
    }
  }

  lemma AndAgrees(a: Action, level: Mask)
    ensures And(a.modBefore, a.modStateBefore) == And(a.modBefore, level)
            <==> forall n :: n in Bits(a.modBefore) ==> (n in Bits(a.modStateBefore) <==> n in Bits(level))
  {
    var wanted, current := And(a.modBefore, a.modStateBefore), And(a.modBefore, level);
    if forall n :: n in Bits(a.modBefore) ==> (n in Bits(a.modStateBefore) <==> n in Bits(level)) {
      forall i | 0 <= i < WIDTH ensures wanted[i] == current[i] {
        var n: Mod := i;
        assert n in Bits(a.modBefore) <==> a.modBefore[n];
      }
    }
  }

  lemma OrAgrees(a: Action, level: Mask)
    ensures AsInt(Not(Or(Xor(And(a.modBefore, a.modStateBefore), And(a.modBefore, level)), Not(a.modBefore)))) != Zero()
            <==> exists n :: n in Bits(a.modBefore) && n < 32 && (n in Bits(a.modStateBefore) <==> n in Bits(level))
  {
    var m := AsInt(Not(Or(Xor(And(a.modBefore, a.modStateBefore), And(a.modBefore, level)), Not(a.modBefore))));
    ZeroIff(m);
    assert forall n: Mod :: n in Bits(m) <==>
      n in Bits(a.modBefore) && n < 32 && (n in Bits(a.modStateBefore) <==> n in Bits(level));
  }

  /** The test that an involved modifier changed in the way asked for, on masks. */
  predicate InvolvedMask(a: Action, touched: Mask, latched: Mask) {
    a.modAction == Zero() || And(And(a.modAction, touched), Not(Xor(a.modStateAction, latched))) != Zero()
  }

  ghost predicate Involved(a: Action, touched: set<Mod>, latched: set<Mod>) {
    var involved, how := Bits(a.modAction), Bits(a.modStateAction);
    involved == {} || exists n :: n in involved && n in touched && (n in how <==> n in latched)
  }

  lemma InvolvedMaskIsInvolved(a: Action, touched: Mask, latched: Mask)
    ensures InvolvedMask(a, touched, latched) <==> Involved(a, Bits(touched), Bits(latched))
  {
    var m := And(And(a.modAction, touched), Not(Xor(a.modStateAction, latched)));
    ZeroIff(a.modAction);
    ZeroIff(m);
    assert forall n: Mod :: n in Bits(m) <==>
      n in Bits(a.modAction) && n in Bits(touched) && (n in Bits(a.modStateAction) <==> n in Bits(latched));
  }

  // ---------------------------------------------------------------- the interpreter on sets

  /** The modifiers that are on; those that a change event of this key stands for, and of them the ones
      that are pressed. */
  datatype State = State(level: set<Mod>, touched: set<Mod>, latched: set<Mod>)

  ghost function Begin(level: set<Mod>, n: Mod, pressed: bool): State {
    State(if pressed then level + {n} else level - {n}, {n}, if pressed then {n} else {})
  }

  ghost predicate Fires(a: Action, s: State, limit: nat) {
    Before(a, s.level, limit) && Involved(a, s.touched, s.latched)
  }

  /** Up and Down change the level itself; Press and Release stand in for a change of the target's key. */
  ghost function Perform(a: Action, s: State): State {
    match a.newState
    case Up => s.(touched := s.touched - {a.modToDo}, level := s.level - {a.modToDo})
    case Down => s.(touched := s.touched - {a.modToDo}, level := s.level + {a.modToDo})
    case Press => s.(touched := s.touched + {a.modToDo}, latched := s.latched + {a.modToDo})
    case Release => s.(touched := s.touched + {a.modToDo}, latched := s.latched - {a.modToDo})
  }

  ghost function Run(actions: seq<Action>, s: State, limit: nat): State {
    if actions == [] then s
    else
      var before, a := Run(actions[..|actions| - 1], s, limit), actions[|actions| - 1];
      if Fires(a, before, limit) then Perform(a, before) else before
  }

  ghost function Final(s: State): set<Mod> { s.latched + (s.level - s.touched) }

  /** The modifiers after an event of the key of modifier n, as the sets have it. */
  ghost function AfterEvent(actions: seq<Action>, level: set<Mod>, n: Mod, pressed: bool, limit: nat): set<Mod> {
    Final(Run(actions, Begin(level, n, pressed), limit))
  }

  // ---------------------------------------------------------------- the loop

  lemma BitsOfOps(a: Mask, b: Mask)
    ensures Bits(Or(a, b)) == Bits(a) + Bits(b)
    ensures Bits(And(a, b)) == Bits(a) * Bits(b)
    ensures Bits(And(a, Not(b))) == Bits(a) - Bits(b)
  {
  }

  lemma BitsOfShifted(n: Mod)
    ensures Bits(Shifted(n)) == {n}
  {
  }

  class KeyMods {
    var modState: Mask

    /** test_actions */
    method TestActions(actions: seq<Action>, modNum: Mod, pressed: bool)
      modifies this
      ensures Bits(modState) == AfterEvent(actions, Bits(old(modState)), modNum, pressed, 32)
    {
      var newState, touched, latched := modState, Shifted(modNum), Zero();
      BitsOfShifted(modNum);
      BitsOfOps(newState, Shifted(modNum));
      ZeroIff(Zero());
      if pressed {
        newState, latched := Or(newState, Shifted(modNum)), touched;
      } else {
        newState := And(newState, Not(Shifted(modNum)));
      }
      ghost var start := Begin(Bits(modState), modNum, pressed);
      for i := 0 to |actions|
        invariant modState == old(modState)
        invariant Run(actions[..i], start, 32) == State(Bits(newState), Bits(touched), Bits(latched))
      {
        assert actions[..i + 1][..i] == actions[..i];
        newState, touched, latched := TestAction(actions[i], newState, touched, latched);
      }
      assert actions[..|actions|] == actions;
      newState := Applied(newState, touched, latched);
      modState := newState;
    }

    /** One pass of the loop. */
    method TestAction(a: Action, level: Mask, touched: Mask, latched: Mask)
      returns (level': Mask, touched': Mask, latched': Mask)
      ensures var s := State(Bits(level), Bits(touched), Bits(latched));
              State(Bits(level'), Bits(touched'), Bits(latched')) == if Fires(a, s, 32) then Perform(a, s) else s
    {
      level', touched', latched' := level, touched, latched;
      BeforeMaskIsBefore(a, level);
      InvolvedMaskIsInvolved(a, touched, latched);
      if !BeforeMask(a, level) || !InvolvedMask(a, touched, latched) { return; }
      var mask := Shifted(a.modToDo);
      BitsOfShifted(a.modToDo);
      BitsOfOps(touched, mask);
      BitsOfOps(level, mask);
      BitsOfOps(latched, mask);
      match a.newState
      case Up => touched', level' := And(touched, Not(mask)), And(level, Not(mask));
      case Down => touched', level' := And(touched, Not(mask)), Or(level, mask);
      case Press => touched', latched' := Or(touched, mask), Or(latched, mask);
      case Release => touched', latched' := Or(touched, mask), And(latched, Not(mask));
    }

    /** What follows the loop: pressed modifiers are added, released ones removed. */
    method Applied(level: Mask, touched: Mask, latched: Mask) returns (r: Mask)
      ensures Bits(r) == Final(State(Bits(level), Bits(touched), Bits(latched)))
    {
      r := Or(level, latched);
      r := And(r, Or(Not(touched), latched));
      assert forall n: Mod :: n in Bits(r) <==>
        (n in Bits(level) || n in Bits(latched)) && (n !in Bits(touched) || n in Bits(latched));
    }
  }

  // ---------------------------------------------------------------- what the actions can change

  /** Action k fires in the run, and its target is m. */
  ghost predicate Targets(actions: seq<Action>, s: State, limit: nat, m: Mod) {
    exists k :: 0 <= k < |actions| && actions[k].modToDo == m && Fires(actions[k], Run(actions[..k], s, limit), limit)
  }

  lemma {:induction false} RunLeavesAlone(actions: seq<Action>, s: State, limit: nat, m: Mod)
    requires !Targets(actions, s, limit, m)
    ensures var r := Run(actions, s, limit);
            && (m in r.level <==> m in s.level)
            && (m in r.touched <==> m in s.touched)
            && (m in r.latched <==> m in s.latched)
    decreases |actions|
  {
    if actions != [] {
      var n := |actions| - 1;
      forall k | 0 <= k < n
        ensures !(actions[..n][k].modToDo == m && Fires(actions[..n][k], Run(actions[..n][..k], s, limit), limit))
      {
        assert actions[..n][..k] == actions[..k];
        assert actions[k].modToDo == m ==> !Fires(actions[k], Run(actions[..k], s, limit), limit);
      }
      RunLeavesAlone(actions[..n], s, limit, m);
      assert actions[n].modToDo == m ==> !Fires(actions[n], Run(actions[..n], s, limit), limit);
    }
  }

  /** A modifier that is neither the key's own nor the target of an action that fires stays as it is. */
  lemma OthersUnchanged(actions: seq<Action>, level: set<Mod>, n: Mod, pressed: bool, limit: nat, m: Mod)
    requires m != n && !Targets(actions, Begin(level, n, pressed), limit, m)
    ensures m in AfterEvent(actions, level, n, pressed, limit) <==> m in level
  {
    RunLeavesAlone(actions, Begin(level, n, pressed), limit, m);
  }

  /** Action k fires in the run and releases m. */
  ghost predicate Releases(actions: seq<Action>, s: State, limit: nat, m: Mod) {
    exists k :: 0 <= k < |actions| && actions[k].modToDo == m && actions[k].newState == Release
                && Fires(actions[k], Run(actions[..k], s, limit), limit)
  }

  lemma {:induction false} StaysLatched(actions: seq<Action>, s: State, limit: nat, m: Mod)
    requires m in s.latched && !Releases(actions, s, limit, m)
    ensures m in Run(actions, s, limit).latched
    decreases |actions|
  {
    if actions != [] {
      var n := |actions| - 1;
      forall k | 0 <= k < n
        ensures !(actions[..n][k].modToDo == m && actions[..n][k].newState == Release
                  && Fires(actions[..n][k], Run(actions[..n][..k], s, limit), limit))
      {
        assert actions[..n][..k] == actions[..k];
        assert actions[k].modToDo == m && actions[k].newState == Release
               ==> !Fires(actions[k], Run(actions[..k], s, limit), limit);
      }
      StaysLatched(actions[..n], s, limit, m);
      assert actions[n].modToDo == m && actions[n].newState == Release
             ==> !Fires(actions[n], Run(actions[..n], s, limit), limit);
    }
  }

  /** A key that is pressed stays on unless an action releases it: Up actions on it are undone at the end. */
  lemma PressedWins(actions: seq<Action>, level: set<Mod>, n: Mod, limit: nat)
    requires !Releases(actions, Begin(level, n, true), limit, n)
    ensures n in AfterEvent(actions, level, n, true, limit)
  {
    StaysLatched(actions, Begin(level, n, true), limit, n);
  }

  /** The key's own modifier, if no action that fires has it as its target, is on exactly if it was pressed. */
  lemma OwnKeyFollows(actions: seq<Action>, level: set<Mod>, n: Mod, pressed: bool, limit: nat)
    requires !Targets(actions, Begin(level, n, pressed), limit, n)
    ensures n in AfterEvent(actions, level, n, pressed, limit) <==> pressed
  {
    RunLeavesAlone(actions, Begin(level, n, pressed), limit, n);
  }

  /** Action k fires in the run and has m as its target, and no later one that fires has. */
  ghost predicate LastOn(actions: seq<Action>, s: State, limit: nat, m: Mod, k: nat) {
    && k < |actions| && actions[k].modToDo == m && Fires(actions[k], Run(actions[..k], s, limit), limit)
    && !Targets(actions[k + 1..], Run(actions[..k + 1], s, limit), limit, m)
  }

  lemma {:induction false} RunConcat(a: seq<Action>, b: seq<Action>, s: State, limit: nat)
    ensures Run(a + b, s, limit) == Run(b, Run(a, s, limit), limit)
    decreases |b|
  {
    if b == [] {
      assert a + b == a;
    } else {
      assert (a + b)[..|a + b| - 1] == a + b[..|b| - 1];
      RunConcat(a, b[..|b| - 1], s, limit);
    }
  }

  /** The last action that fires on a modifier decides it: Down and Press leave it on, Release off; Up leaves
      it off unless its key, or an action that stood in for it, had pressed it before. */
  lemma LastActionDecides(actions: seq<Action>, level: set<Mod>, n: Mod, pressed: bool, limit: nat, m: Mod, k: nat)
    requires LastOn(actions, Begin(level, n, pressed), limit, m, k)
    ensures var on := m in AfterEvent(actions, level, n, pressed, limit);
            match actions[k].newState
            case Down => on
            case Press => on
            case Release => !on
            case Up => on <==> m in Run(actions[..k], Begin(level, n, pressed), limit).latched
  {
    var s := Begin(level, n, pressed);
    var before := Run(actions[..k], s, limit);
    assert actions[..k + 1][..k] == actions[..k] && actions[..k + 1][k] == actions[k];
    assert Run(actions[..k + 1], s, limit) == Perform(actions[k], before);
    assert actions[..k + 1] + actions[k + 1..] == actions;
    RunConcat(actions[..k + 1], actions[k + 1..], s, limit);
    RunLeavesAlone(actions[k + 1..], Perform(actions[k], before), limit, m);
  }

  // ---------------------------------------------------------------- the int in the "or" test

  /** The test that the code makes is the one meant, whatever modifiers are on, exactly if no modifier from
      32 on is tested. */
  lemma OrTestExactIff(a: Action)
    requires !a.bothAnd && Bits(a.modBefore) != {}
    ensures (forall level: set<Mod> :: Before(a, level, 32) == Before(a, level, WIDTH))
            <==> forall n :: n in Bits(a.modBefore) ==> n < 32
  {
    if j: Mod :| j in Bits(a.modBefore) && j >= 32 {
      var level := set n: Mod | (n == j) == (n in Bits(a.modStateBefore));
      assert Before(a, level, WIDTH) && !Before(a, level, 32);
    }
  }

  ghost predicate Narrow(actions: seq<Action>) {
    forall a :: a in actions && !a.bothAnd ==> forall n :: n in Bits(a.modBefore) ==> n < 32
  }

  /** With such actions the code computes what the sets mean in full. */
  lemma {:induction false} NarrowRunsAgree(actions: seq<Action>, s: State)
    requires Narrow(actions)
    ensures Run(actions, s, 32) == Run(actions, s, WIDTH)
    decreases |actions|
  {
    if actions != [] {
      NarrowRunsAgree(actions[..|actions| - 1], s);
      var a, before := actions[|actions| - 1], Run(actions[..|actions| - 1], s, 32);
      assert a in actions;
      assert Before(a, before.level, 32) == Before(a, before.level, WIDTH);
    }
  }
}
