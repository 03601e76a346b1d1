/**
  The exit notice as a whole: in every run without end and without Drop in which the child
  is signalled, the watcher keeps polling and the winner gets on with its callback,
  on_exit is called once, or not at all if the winner found its slot empty.
 */
module SessionNotice {
  import opened Common
  import opened SessionModel
  import opened SessionShape
  import opened SessionExit
  import opened SessionLiveness

  /** A move of the pump or the watcher itself, not of a call nested on its thread. */
  predicate Moves(s: State, a: Action, t: Tid) {
    && Nested(s, t) == []
    && ((a.PumpSteps? && t == PumpThread) || (a.WatcherSteps? && t == WatcherThread) || (CallStep(a) && a.t == t))
  }

  predicate MovesAt(states: nat -> State, actions: nat -> Action, i: nat, t: Tid) {
    StepsAt(states, actions, i) && Moves(states(i), actions(i), t)
  }

  /** The thread is not inside host code: it polls, or it is about to call on_exit. */
  predicate Due(s: State, t: Tid) {
    || (t == WatcherThread && !s.watcher.Finished? && !s.watcher.Calling?)
    || Announcing(Base(s, t)) == 1
  }

  /** The scheduler forgets neither the watcher nor the winner. */
  ghost predicate DueThreadsMove(states: nat -> State, actions: nat -> Action) {
    forall i: nat, t | Due(states(i), t) :: exists j: nat :: j >= i && MovesAt(states, actions, j, t)
  }

  ghost predicate NoDestroy(actions: nat -> Action) {
    forall i: nat :: !actions(i).BeginDrop?
  }

  // ---------- what holds throughout ----------

  ghost predicate Calm(s: State) {
    ClaimsOk(s) && Shapes(s) && s.teardown.NotBegun?
  }

  lemma CalmStep(s: State, a: Action)
    requires Calm(s) && Enabled(s, a) && !a.BeginDrop?
    ensures Calm(Do(s, a))
  {
    ClaimsStep(s, a);
    ShapesStep(s, a);
    TeardownKept(s, a);
  }

  lemma {:induction false} CalmAlways(states: nat -> State, actions: nat -> Action, i: nat)
    requires Runs(states, actions) && NoDestroy(actions) && Calm(states(0))
    ensures Calm(states(i))
  {
    if i > 0 {
      CalmAlways(states, actions, i - 1);
      assert StepsOrPausesAt(states, actions, i - 1);
      if StepsAt(states, actions, i - 1) {
        CalmStep(states(i - 1), actions(i - 1));
      }
    }
  }

  lemma BaseKept(s: State, a: Action, t: Tid)
    requires Enabled(s, a) && !Moves(s, a, t)
    ensures Base(Do(s, a), t) == Base(s, t)
  {
    if CallStep(a) {
      CallStepShape(s, a);
    } else if a.PumpSteps? {
      assert Do(s, a).watcher == s.watcher;
    } else {
      CodesKept(s, a);
    }
  }

  // ---------- somebody wins ----------

  /** Moves of the watcher until it swaps, once the child has been signalled. */
  function ToSwap(code: Code): nat {
    match code
    case SwapAlive(_) => 1
    case StoreCode(_) => 2
    case QueryChild => 3
    case Poll => 4
    case Nap(count) => 5 + if count < NAPS then NAPS - count else 0
    case _ => 0
  }

  lemma WatcherCloser(s: State, a: Action)
    requires Calm(s) && Enabled(s, a) && s.life.alive && s.life.child.Some? && Moves(s, a, WatcherThread)
    ensures !Do(s, a).life.alive || ToSwap(Do(s, a).watcher) < ToSwap(s.watcher)
  {}

  lemma ChildStays(s: State, a: Action)
    requires Enabled(s, a) && s.life.child.Some?
    ensures Do(s, a).life.child == s.life.child
  {
    if CallStep(a) {
      CallStepShape(s, a);
    }
  }

  lemma WatcherAt(states: nat -> State, actions: nat -> Action, i: nat)
    requires Runs(states, actions) && NoDestroy(actions) && Calm(states(i))
    requires states(i).life.alive && states(i).life.child.Some?
    ensures Calm(states(i + 1)) && states(i + 1).life.child.Some?
    ensures if MovesAt(states, actions, i, WatcherThread)
            then states(i + 1).life.alive ==> ToSwap(states(i + 1).watcher) < ToSwap(states(i).watcher)
            else states(i + 1).watcher == states(i).watcher
  {
    var s, a := states(i), actions(i);
    assert StepsOrPausesAt(states, actions, i);
    if StepsAt(states, actions, i) {
      CalmStep(s, a);
      ChildStays(s, a);
      if Moves(s, a, WatcherThread) {
        WatcherCloser(s, a);
      } else {
        BaseKept(s, a, WatcherThread);
      }
    }
  }

  /** While nobody has won, the watcher is in its loop. */
  lemma WatcherIsDue(states: nat -> State, actions: nat -> Action, i: nat) returns (j: nat)
    requires DueThreadsMove(states, actions) && Calm(states(i)) && states(i).life.alive
    ensures j >= i && MovesAt(states, actions, j, WatcherThread)
  {
    assert Due(states(i), WatcherThread);
    j :| j >= i && MovesAt(states, actions, j, WatcherThread);
  }

  /** The watcher's move after this moment, if nobody has won by then. */
  lemma WatcherNext(states: nat -> State, actions: nat -> Action, i: nat, j: nat) returns (next: nat)
    requires Runs(states, actions) && NoDestroy(actions) && DueThreadsMove(states, actions)
    requires Calm(states(i)) && states(i).life.child.Some? && states(i).life.alive
    requires i <= j && MovesAt(states, actions, j, WatcherThread)
    ensures Calm(states(i + 1)) && states(i + 1).life.child.Some?
    ensures states(i + 1).life.alive ==>
      && i < next && MovesAt(states, actions, next, WatcherThread)
      && (ToSwap(states(i + 1).watcher) < ToSwap(states(i).watcher)
          || (ToSwap(states(i + 1).watcher) == ToSwap(states(i).watcher) && next == j))
  {
    WatcherAt(states, actions, i);
    next := j;
    if MovesAt(states, actions, i, WatcherThread) && states(i + 1).life.alive {
      next := WatcherIsDue(states, actions, i + 1);
    }
  }

  lemma {:induction false} ClaimIsTaken(states: nat -> State, actions: nat -> Action, i: nat, j: nat) returns (k: nat)
    requires Runs(states, actions) && NoDestroy(actions) && DueThreadsMove(states, actions)
    requires Calm(states(i)) && states(i).life.child.Some?
    requires states(i).life.alive ==> i <= j && MovesAt(states, actions, j, WatcherThread)
    ensures k >= i && !states(k).life.alive
    decreases ToSwap(states(i).watcher), j - i
  {
    if !states(i).life.alive {
      k := i;
    } else if !states(i + 1).life.alive {
      k := i + 1;
    } else {
      var next := WatcherNext(states, actions, i, j);
      k := ClaimIsTaken(states, actions, i + 1, next);
    }
  }

  /** The step at which it is taken. */
  lemma {:induction false} TakenAt(states: nat -> State, k: nat) returns (i: nat)
    requires states(0).life.alive && !states(k).life.alive
    ensures i < k && states(i).life.alive && !states(i + 1).life.alive
  {
    if states(k - 1).life.alive {
      i := k - 1;
    } else {
      i := TakenAt(states, k - 1);
    }
  }

  /** Thread t has the only claim and has not called yet. */
  predicate HoldsNotice(s: State, t: Tid) {
    && !s.life.alive && s.life.notified == []
    && (t == PumpThread || t == WatcherThread)
    && Announcing(Base(s, t)) == 1
    && Announcing(s.pump) + Announcing(s.watcher) == 1
  }

  lemma SomeoneTakesIt(s: State, a: Action) returns (t: Tid)
    requires Calm(s) && Enabled(s, a) && !a.BeginDrop? && s.life.alive && !Do(s, a).life.alive
    ensures HoldsNotice(Do(s, a), t) && Base(Do(s, a), t).Fetch?
  {
    CalmStep(s, a);
    if CallStep(a) {
      CallStepShape(s, a);
      assert false;
    }
    t := if a.PumpSteps? then PumpThread else WatcherThread;
  }

  // ---------- and calls on_exit ----------

  /** The winner clones on_exit out of the table. */
  predicate NoticeLookupAt(states: nat -> State, actions: nat -> Action, i: nat) {
    && actions(i).Lookup? && Nested(states(i), actions(i).t) == []
    && Base(states(i), actions(i).t).Fetch? && Base(states(i), actions(i).t).cb.OnExit?
  }

  lemma OthersLeaveNotice(s: State, a: Action, t: Tid)
    requires Calm(s) && Enabled(s, a) && !a.BeginDrop? && HoldsNotice(s, t) && !Moves(s, a, t)
    ensures HoldsNotice(Do(s, a), t) && Base(Do(s, a), t) == Base(s, t)
  {
    BaseKept(s, a, t);
    CalmStep(s, a);
    NoCallElsewhere(s, a, t);
  }

  lemma NoCallElsewhere(s: State, a: Action, t: Tid)
    requires Calm(s) && Enabled(s, a) && HoldsNotice(s, t) && !Moves(s, a, t)
    ensures Do(s, a).life.notified == s.life.notified && !Do(s, a).life.alive
    ensures Announcing(Do(s, a).pump) + Announcing(Do(s, a).watcher) == 1
  {
    if CallStep(a) {
      CallStepShape(s, a);
      assert Nested(s, a.t) != [] ==> NestedCode(Top(s, a.t));
    } else if !a.PumpSteps? && !a.WatcherSteps? {
      CodesKept(s, a);
    }
  }

  /** The winner's next two moves. */
  lemma WinnerLooksUp(s: State, a: Action, t: Tid)
    requires Calm(s) && Enabled(s, a) && HoldsNotice(s, t) && Moves(s, a, t) && Base(s, t).Fetch?
    ensures a == Lookup(t)
    ensures HoldsNotice(Do(s, a), t)
    ensures Base(Do(s, a), t).Ready? && Base(Do(s, a), t).live == s.callbacks.onExit.Some?
  {
    assert a == Lookup(t);
    CallStepShape(s, a);
  }

  lemma WinnerCalls(s: State, a: Action, t: Tid)
    requires Calm(s) && Enabled(s, a) && HoldsNotice(s, t) && Moves(s, a, t) && Base(s, t).Ready?
    ensures Settled(Do(s, a)) && |Do(s, a).life.notified| == if Base(s, t).live then 1 else 0
  {
    assert a == (if Base(s, t).live then CallBegins(t) else SkipCall(t));
    CallStepShape(s, a);
  }

  /** Nobody can call on_exit any more. */
  predicate Settled(s: State) {
    !s.life.alive && Announcing(s.pump) == 0 && Announcing(s.watcher) == 0
  }

  lemma SettledStep(s: State, a: Action)
    requires Calm(s) && Settled(s) && Enabled(s, a)
    ensures Settled(Do(s, a)) && Do(s, a).life.notified == s.life.notified
  {
    if CallStep(a) {
      CallStepShape(s, a);
      assert Nested(s, a.t) != [] ==> NestedCode(Top(s, a.t));
    } else if !a.PumpSteps? && !a.WatcherSteps? {
      CodesKept(s, a);
    }
  }

  lemma {:induction false} StaysSettled(states: nat -> State, actions: nat -> Action, k: nat, i: nat)
    requires Runs(states, actions) && NoDestroy(actions) && Calm(states(0)) && Settled(states(k)) && i >= k
    ensures Settled(states(i)) && states(i).life.notified == states(k).life.notified
  {
    if i > k {
      StaysSettled(states, actions, k, i - 1);
      CalmAlways(states, actions, i - 1);
      SettledAt(states, actions, i - 1);
    }
  }

  lemma SettledAt(states: nat -> State, actions: nat -> Action, i: nat)
    requires Runs(states, actions) && Calm(states(i)) && Settled(states(i))
    ensures Settled(states(i + 1)) && states(i + 1).life.notified == states(i).life.notified
  {
    assert StepsOrPausesAt(states, actions, i);
    if StepsAt(states, actions, i) {
      SettledStep(states(i), actions(i));
    }
  }

  /** The next move of the thread that holds the notice. */
  lemma {:induction false} NextMove(states: nat -> State, actions: nat -> Action, i: nat, j: nat, t: Tid)
    returns (k: nat)
    requires Runs(states, actions) && NoDestroy(actions) && Calm(states(i)) && HoldsNotice(states(i), t)
    requires i <= j && MovesAt(states, actions, j, t)
    ensures k >= i && MovesAt(states, actions, k, t) && Calm(states(k))
    ensures HoldsNotice(states(k), t) && Base(states(k), t) == Base(states(i), t)
    decreases j - i
  {
    if MovesAt(states, actions, i, t) {
      k := i;
    } else if !StepsAt(states, actions, i) {
      assert StepsOrPausesAt(states, actions, i);
      k := NextMove(states, actions, i + 1, j, t);
    } else {
      OthersLeaveNotice(states(i), actions(i), t);
      CalmStep(states(i), actions(i));
      k := NextMove(states, actions, i + 1, j, t);
    }
  }

  lemma MovesInTime(states: nat -> State, actions: nat -> Action, i: nat, t: Tid) returns (k: nat)
    requires Runs(states, actions) && NoDestroy(actions) && DueThreadsMove(states, actions)
    requires Calm(states(i)) && HoldsNotice(states(i), t)
    ensures k >= i && StepsAt(states, actions, k) && MovesAt(states, actions, k, t) && Calm(states(k))
    ensures HoldsNotice(states(k), t) && Base(states(k), t) == Base(states(i), t)
  {
    assert Due(states(i), t);
    var j: nat :| j >= i && MovesAt(states, actions, j, t);
    k := NextMove(states, actions, i, j, t);
  }

  /** From the swap on: the lookup at step l, and the call, if there is one, before step k. */
  lemma NoticeIsGiven(states: nat -> State, actions: nat -> Action, i: nat, t: Tid) returns (l: nat, k: nat)
    requires Runs(states, actions) && NoDestroy(actions) && DueThreadsMove(states, actions)
    requires Calm(states(i)) && HoldsNotice(states(i), t) && Base(states(i), t).Fetch?
    ensures NoticeLookupAt(states, actions, l) && Settled(states(k))
    ensures |states(k).life.notified| == if states(l).callbacks.onExit.Some? then 1 else 0
  {
    l := MovesInTime(states, actions, i, t);
    WinnerLooksUp(states(l), actions(l), t);
    CalmStep(states(l), actions(l));
    var c := MovesInTime(states, actions, l + 1, t);
    WinnerCalls(states(c), actions(c), t);
    k := c + 1;
  }

  /** From step k on, on_exit has been called as often as the lookup at step l found it: once or not at all. */
  ghost predicate AnnouncedAsFound(states: nat -> State, l: nat, k: nat) {
    forall i: nat | i >= k :: |states(i).life.notified| == if states(l).callbacks.onExit.Some? then 1 else 0
  }

  /**
    In every infinite run of a session that is never destroyed and whose child is
    signalled at some point: the winner of the swap looks on_exit up, and from some
    step on on_exit has been called exactly once if the slot was filled at that
    lookup, and not at all otherwise.
   */
  lemma ExitIsAnnounced(callbacks: Callbacks, states: nat -> State, actions: nat -> Action, signalled: nat)
    requires Runs(states, actions) && states(0) == Init(callbacks) && NoDestroy(actions)
    requires DueThreadsMove(states, actions) && states(signalled).life.child.Some?
    ensures exists l: nat, k: nat :: NoticeLookupAt(states, actions, l) && AnnouncedAsFound(states, l, k)
  {
    var i := ClaimGoes(states, actions, signalled);
    CalmAlways(states, actions, i);
    CalmAlways(states, actions, i + 1);
    assert StepsOrPausesAt(states, actions, i);
    var t := SomeoneTakesIt(states(i), actions(i));
    var l, k := NoticeIsGiven(states, actions, i + 1, t);
    forall n: nat | n >= k
      ensures |states(n).life.notified| == if states(l).callbacks.onExit.Some? then 1 else 0
    {
      StaysSettled(states, actions, k, n);
    }
    assert AnnouncedAsFound(states, l, k);
  }

  lemma ClaimGoes(states: nat -> State, actions: nat -> Action, signalled: nat) returns (i: nat)
    requires Runs(states, actions) && NoDestroy(actions) && Calm(states(0)) && states(0).life.alive
    requires DueThreadsMove(states, actions) && states(signalled).life.child.Some?
    ensures states(i).life.alive && !states(i + 1).life.alive
  {
    CalmAlways(states, actions, signalled);
    var j: nat := signalled;
    if states(signalled).life.alive {
      j := WatcherIsDue(states, actions, signalled);
    }
    var k := ClaimIsTaken(states, actions, signalled, j);
    i := TakenAt(states, k);
  }
}
