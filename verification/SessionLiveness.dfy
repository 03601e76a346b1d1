/** Runs without end, and that a pump with an Eof pending ends in each of them in which it keeps moving. */
module SessionLiveness {
  import opened Common
  import opened SessionModel
  import opened SessionShape
  import opened SessionChannel

  predicate StepsAt(states: nat -> State, actions: nat -> Action, i: nat) {
    Enabled(states(i), actions(i)) && states(i + 1) == Do(states(i), actions(i))
  }

  /** A run of all threads: at each moment one of them steps, or none does. */
  ghost predicate Runs(states: nat -> State, actions: nat -> Action) {
    forall i: nat :: StepsOrPausesAt(states, actions, i)
  }

  predicate StepsOrPausesAt(states: nat -> State, actions: nat -> Action, i: nat) {
    StepsAt(states, actions, i) || states(i + 1) == states(i)
  }

  /** What each moment hands on to the next one holds throughout. */
  lemma {:induction false} Throughout(states: nat -> State, holds: State -> bool, i: nat)
    requires holds(states(0)) && forall j: nat | holds(states(j)) :: holds(states(j + 1))
    ensures holds(states(i))
  {
    if i > 0 {
      Throughout(states, holds, i - 1);
      assert holds(states(i - 1 + 1));
    }
  }

  predicate PumpMovesAt(states: nat -> State, actions: nat -> Action, i: nat) {
    StepsAt(states, actions, i) && MovesPump(states(i), actions(i))
  }

  /** The scheduler never forgets the pump, and callbacks on its thread return. */
  ghost predicate PumpKeepsMoving(states: nat -> State, actions: nat -> Action) {
    forall i: nat :: states(i).pump.Finished? || exists j: nat :: j >= i && PumpMovesAt(states, actions, j)
  }

  lemma PumpAt(states: nat -> State, actions: nat -> Action, i: nat)
    requires Runs(states, actions) && EofPending(states(i)) && Shapes(states(i))
    ensures EofPending(states(i + 1)) && Shapes(states(i + 1))
    ensures if PumpMovesAt(states, actions, i) then Closer(states(i + 1), states(i))
            else states(i + 1).pump == states(i).pump && Budget(states(i + 1)) <= Budget(states(i))
  {
    assert StepsOrPausesAt(states, actions, i);
    if StepsAt(states, actions, i) {
      PumpReachesTheEnd(states(i), actions(i));
    }
  }

  /** The moment after the pump's next move, which comes at step j at the latest. */
  lemma {:induction false} NextPumpMove(states: nat -> State, actions: nat -> Action, i: nat, j: nat, s: State)
    returns (m: nat)
    requires Runs(states, actions) && EofPending(states(i)) && Shapes(states(i))
    requires states(i).pump == s.pump && Budget(states(i)) <= Budget(s)
    requires i <= j && PumpMovesAt(states, actions, j)
    ensures m > i && EofPending(states(m)) && Shapes(states(m)) && Closer(states(m), s)
    decreases j - i
  {
    PumpAt(states, actions, i);
    if PumpMovesAt(states, actions, i) {
      m := i + 1;
    } else {
      m := NextPumpMove(states, actions, i + 1, j, s);
    }
  }

  lemma PumpIsDue(states: nat -> State, actions: nat -> Action, i: nat) returns (j: nat)
    requires PumpKeepsMoving(states, actions) && !states(i).pump.Finished?
    ensures j >= i && PumpMovesAt(states, actions, j)
  {
    j :| j >= i && PumpMovesAt(states, actions, j);
  }

  lemma AfterPumpMove(states: nat -> State, actions: nat -> Action, i: nat) returns (m: nat)
    requires Runs(states, actions) && PumpKeepsMoving(states, actions)
    requires EofPending(states(i)) && Shapes(states(i)) && !states(i).pump.Finished?
    ensures m > i && EofPending(states(m)) && Shapes(states(m)) && Closer(states(m), states(i))
  {
    var j := PumpIsDue(states, actions, i);
    m := NextPumpMove(states, actions, i, j, states(i));
  }

  /** From a state with an Eof pending, the pump ends. */
  lemma {:induction false} PumpEnds(states: nat -> State, actions: nat -> Action, i: nat) returns (k: nat)
    requires Runs(states, actions) && PumpKeepsMoving(states, actions)
    requires EofPending(states(i)) && Shapes(states(i))
    ensures k >= i && states(k).pump.Finished?
    decreases Budget(states(i)), Stage(states(i).pump), Remaining(states(i).pump)
  {
    if states(i).pump.Finished? {
      k := i;
    } else {
      var m := AfterPumpMove(states, actions, i);
      k := PumpEnds(states, actions, m);
    }
  }
}
