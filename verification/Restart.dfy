/**
  Starting the same session again. All starts share the one `alive` flag, and
  the threads of an earlier start may still be running.
 */
module Restart {
  import opened Common

  /** How far a pump or a watcher has got towards announcing the exit of its child. */
  datatype Announcer = Working | SawAlive | Claiming(code: int) | Over

  /** The threads and the child of one start. */
  datatype Generation = Generation(pump: Announcer, watcher: Announcer, child: Option<int>)

  datatype Win = Win(generation: nat, code: int)

  /** `checked` counts calls of start that have passed the "already running" test. */
  datatype State = State(alive: bool, checked: nat, generations: seq<Generation>, wins: seq<Win>)

  const INIT := State(false, 0, [], [])

  datatype Action =
    | StartChecks
    | StartLaunches
    | ChildExits(g: nat, code: int)
    | PumpSeesEof(g: nat)
    | WatcherChecks(g: nat)
    | WatcherQueries(g: nat)
    | PumpSwaps(g: nat)
    | WatcherSwaps(g: nat)
    | DropLowers

  predicate Enabled(s: State, a: Action) {
    match a
    case StartChecks => !s.alive
    case StartLaunches => s.checked > 0
    case ChildExits(g, _) => g < |s.generations| && s.generations[g].child.None?
    case PumpSeesEof(g) => g < |s.generations| && s.generations[g].pump.Working?
    case WatcherChecks(g) => g < |s.generations| && s.generations[g].watcher.Working?
    case WatcherQueries(g) => g < |s.generations| && s.generations[g].watcher.SawAlive?
    case PumpSwaps(g) => g < |s.generations| && s.generations[g].pump.Claiming?
    case WatcherSwaps(g) => g < |s.generations| && s.generations[g].watcher.Claiming?
    case DropLowers => true
  }

  function Swap(s: State, g: nat, code: int): State {
    if s.alive then s.(alive := false, wins := s.wins + [Win(g, code)]) else s
  }

  function WithPump(s: State, g: nat, pump: Announcer): State
    requires g < |s.generations|
  {
    s.(generations := s.generations[g := s.generations[g].(pump := pump)])
  }

  function WithWatcher(s: State, g: nat, watcher: Announcer): State
    requires g < |s.generations|
  {
    s.(generations := s.generations[g := s.generations[g].(watcher := watcher)])
  }

  function Do(s: State, a: Action): State
    requires Enabled(s, a)
  {
    match a
    case StartChecks => s.(checked := s.checked + 1)
    case StartLaunches =>
      s.(checked := s.checked - 1, alive := true,
         generations := s.generations + [Generation(Working, Working, None)])
    case ChildExits(g, code) =>
      s.(generations := s.generations[g := s.generations[g].(child := Some(code))])
    case PumpSeesEof(g) =>
      WithPump(s, g, Claiming(match s.generations[g].child case Some(code) => code case None => 0))
    case WatcherChecks(g) => WithWatcher(s, g, if s.alive then SawAlive else Over)
    case WatcherQueries(g) =>
      WithWatcher(s, g, match s.generations[g].child case Some(code) => Claiming(code) case None => Working)
    case PumpSwaps(g) => WithPump(Swap(s, g, s.generations[g].pump.code), g, Over)
    case WatcherSwaps(g) => WithWatcher(Swap(s, g, s.generations[g].watcher.code), g, Over)
    case DropLowers => s.(alive := false)
  }

  predicate Possible(s: State, actions: seq<Action>)
    decreases |actions|
  {
    actions == [] || (Enabled(s, actions[0]) && Possible(Do(s, actions[0]), actions[1..]))
  }

  function After(s: State, actions: seq<Action>): State
    requires Possible(s, actions)
    decreases |actions|
  {
    if actions == [] then s else After(Do(s, actions[0]), actions[1..])
  }

  predicate Counted(s: State) {
    |s.wins| + (if s.alive then 1 else 0) <= |s.generations|
  }

  lemma {:induction false} CountedAlways(s: State, actions: seq<Action>)
    requires Counted(s) && Possible(s, actions)
    ensures Counted(After(s, actions))
    decreases |actions|
  {
    if actions != [] {
      CountedAlways(Do(s, actions[0]), actions[1..]);
    }
  }

  /** However often the session is started, on_exit is claimed at most once per start. */
  lemma ClaimsNeverExceedStarts(actions: seq<Action>)
    requires Possible(INIT, actions)
    ensures |After(INIT, actions).wins| <= |After(INIT, actions).generations|
  {
    CountedAlways(INIT, actions);
  }

  /** No start is credited with more than one win. */
  predicate Attributed(s: State) {
    forall i, j | 0 <= i < j < |s.wins| :: s.wins[i].generation != s.wins[j].generation
  }

  lemma {:induction false} Append(s: State, actions: seq<Action>, more: seq<Action>)
    requires Possible(s, actions) && Possible(After(s, actions), more)
    ensures Possible(s, actions + more) && After(s, actions + more) == After(After(s, actions), more)
    decreases |actions|
  {
    if actions == [] {
      assert actions + more == more;
    } else {
      assert (actions + more)[1..] == actions[1..] + more;
      Append(Do(s, actions[0]), actions[1..], more);
    }
  }

  lemma One(init: State, run: seq<Action>, s: State, a: Action) returns (run': seq<Action>, s': State)
    requires Possible(init, run) && After(init, run) == s && Enabled(s, a)
    ensures run' == run + [a] && Possible(init, run') && After(init, run') == s' == Do(s, a)
  {
    assert [a][1..] == [];
    assert Possible(Do(s, a), []) && After(Do(s, a), []) == Do(s, a);
    assert Possible(s, [a]) && After(s, [a]) == Do(s, a);
    Append(init, run, [a]);
    run', s' := run + [a], Do(s, a);
  }

  // ---------- who can still claim ----------

  /** A thread of this start can still reach the swap. */
  predicate Lingers(g: Generation) {
    !g.pump.Over? || !g.watcher.Over?
  }

  predicate HasWon(wins: seq<Win>, g: nat) {
    exists i | 0 <= i < |wins| :: wins[i].generation == g
  }

  /** A start that has been announced already still has a thread that can claim. */
  predicate WinnerLingers(s: State) {
    exists g | 0 <= g < |s.generations| :: HasWon(s.wins, g) && Lingers(s.generations[g])
  }

  ghost predicate WinsKnown(s: State) {
    forall i | 0 <= i < |s.wins| :: s.wins[i].generation < |s.generations|
  }

  predicate NoLaunch(actions: seq<Action>) {
    forall i | 0 <= i < |actions| :: !actions[i].StartLaunches?
  }

  /** Attributed, and if a claim is still open, no announced start can make it. */
  ghost predicate Safe(s: State) {
    WinsKnown(s) && Attributed(s) && (s.alive ==> !WinnerLingers(s))
  }

  lemma WinKeepsAttributed(s: State, g: nat, code: int)
    requires WinsKnown(s) && Attributed(s) && g < |s.generations| && !HasWon(s.wins, g)
    ensures forall i, j | 0 <= i < j < |s.wins| + 1 ::
              (s.wins + [Win(g, code)])[i].generation != (s.wins + [Win(g, code)])[j].generation
  {
    var wins := s.wins + [Win(g, code)];
    forall i, j | 0 <= i < j < |wins|
      ensures wins[i].generation != wins[j].generation
    {
      assert wins[i] == s.wins[i] && s.wins[i].generation != g;
      if j < |s.wins| {
        assert wins[j] == s.wins[j];
      }
    }
  }

  lemma SwapSafe(s: State, g: nat, code: int)
    requires Safe(s) && g < |s.generations| && Lingers(s.generations[g])
    ensures Swap(s, g, code).generations == s.generations && !Swap(s, g, code).alive
    ensures WinsKnown(Swap(s, g, code)) && Attributed(Swap(s, g, code))
  {
    if s.alive {
      assert !HasWon(s.wins, g);
      WinKeepsAttributed(s, g, code);
    }
  }

  /** A thread that does not start afresh does not begin to linger. */
  lemma LingersNoMore(s: State, s': State)
    requires !WinnerLingers(s) && s'.wins == s.wins && |s'.generations| == |s.generations|
    requires forall g | 0 <= g < |s.generations| :: Lingers(s'.generations[g]) ==> Lingers(s.generations[g])
    ensures !WinnerLingers(s')
  {}

  lemma SafeStep(s: State, a: Action)
    requires Safe(s) && Enabled(s, a) && !a.StartLaunches?
    ensures Safe(Do(s, a))
  {
    if a.PumpSwaps? {
      SwapSafe(s, a.g, s.generations[a.g].pump.code);
    } else if a.WatcherSwaps? {
      SwapSafe(s, a.g, s.generations[a.g].watcher.code);
    } else if s.alive {
      LingersNoMore(s, Do(s, a));
    }
  }

  lemma {:induction false} SafeAlways(s: State, actions: seq<Action>)
    requires Safe(s) && Possible(s, actions) && NoLaunch(actions)
    ensures Safe(After(s, actions))
    decreases |actions|
  {
    if actions != [] {
      SafeStep(s, actions[0]);
      SafeAlways(Do(s, actions[0]), actions[1..]);
    }
  }

  // ---------- any lingering start can take the claim ----------

  /** The one claim that was open in s has gone to start g. */
  predicate WonBy(s: State, s': State, g: nat) {
    |s'.wins| == |s.wins| + 1 && s'.wins[..|s.wins|] == s.wins && s'.wins[|s.wins|].generation == g
  }

  lemma PumpWins(s: State, g: nat) returns (run: seq<Action>)
    requires g < |s.generations| && s.alive
    requires s.generations[g].pump.Working? || s.generations[g].pump.Claiming?
    ensures Possible(s, run) && NoLaunch(run) && WonBy(s, After(s, run), g)
  {
    var s';
    run, s' := [], s;
    if s.generations[g].pump.Working? {
      run, s' := One(s, run, s', PumpSeesEof(g));
    }
    run, s' := One(s, run, s', PumpSwaps(g));
  }

  lemma WatcherClaims(s: State, run: seq<Action>, s1: State, g: nat) returns (run': seq<Action>)
    requires Possible(s, run) && NoLaunch(run) && After(s, run) == s1
    requires g < |s1.generations| && s1.alive && s1.wins == s.wins && s1.generations[g].watcher.Claiming?
    ensures Possible(s, run') && NoLaunch(run') && WonBy(s, After(s, run'), g)
  {
    var s2;
    run', s2 := One(s, run, s1, WatcherSwaps(g));
  }

  lemma WatcherAsks(s: State, run: seq<Action>, s1: State, g: nat) returns (run': seq<Action>)
    requires Possible(s, run) && NoLaunch(run) && After(s, run) == s1
    requires g < |s1.generations| && s1.alive && s1.wins == s.wins && s1.generations[g].watcher.SawAlive?
    ensures Possible(s, run') && NoLaunch(run') && WonBy(s, After(s, run'), g)
  {
    var s2;
    run', s2 := run, s1;
    if s1.generations[g].child.None? {
      run', s2 := One(s, run', s2, ChildExits(g, 0));
    }
    run', s2 := One(s, run', s2, WatcherQueries(g));
    run' := WatcherClaims(s, run', s2, g);
  }

  lemma WatcherWins(s: State, g: nat) returns (run: seq<Action>)
    requires g < |s.generations| && s.alive && !s.generations[g].watcher.Over?
    ensures Possible(s, run) && NoLaunch(run) && WonBy(s, After(s, run), g)
  {
    match s.generations[g].watcher
    case Claiming(_) => run := WatcherClaims(s, [], s, g);
    case SawAlive => run := WatcherAsks(s, [], s, g);
    case Working =>
      var s';
      run, s' := One(s, [], s, WatcherChecks(g));
      run := WatcherAsks(s, run, s', g);
  }

  lemma LingeringWins(s: State, g: nat) returns (run: seq<Action>)
    requires Sane(s) && g < |s.generations| && s.alive && Lingers(s.generations[g])
    ensures Possible(s, run) && NoLaunch(run) && WonBy(s, After(s, run), g)
  {
    if !s.generations[g].watcher.Over? {
      run := WatcherWins(s, g);
    } else {
      run := PumpWins(s, g);
    }
  }

  /** Start g is announced a second time. */
  lemma SecondWin(s: State, s': State, g: nat)
    requires HasWon(s.wins, g) && WonBy(s, s', g)
    ensures !Attributed(s')
  {
    var i :| 0 <= i < |s.wins| && s.wins[i].generation == g;
    assert s'.wins[i] == s'.wins[..|s.wins|][i] == s.wins[i];
    assert s'.wins[i].generation == s'.wins[|s.wins|].generation;
  }

  /** The pump only knows three of the four stages. */
  ghost predicate PumpStages(s: State) {
    forall g | 0 <= g < |s.generations| :: !s.generations[g].pump.SawAlive?
  }

  ghost predicate Sane(s: State) {
    PumpStages(s) && WinsKnown(s)
  }

  lemma {:induction false} SaneAlways(s: State, actions: seq<Action>)
    requires Sane(s) && Possible(s, actions)
    ensures Sane(After(s, actions))
    decreases |actions|
  {
    if actions != [] {
      SaneAlways(Do(s, actions[0]), actions[1..]);
    }
  }

  /** No start is announced twice before the session is started again. */
  ghost predicate StaysAttributed(s: State) {
    forall more | Possible(s, more) && NoLaunch(more) :: Attributed(After(s, more))
  }

  /**
    In every reachable state in which no start has been announced twice: until the
    session is started again none will be, if and only if the claim is taken or no
    start that has been announced still has a thread that can claim.
   */
  lemma StaysAttributedIff(actions: seq<Action>)
    requires Possible(INIT, actions) && Attributed(After(INIT, actions))
    ensures var s := After(INIT, actions);
      StaysAttributed(s) <==> !s.alive || !WinnerLingers(s)
  {
    SaneAlways(INIT, actions);
    var s := After(INIT, actions);
    if !s.alive || !WinnerLingers(s) {
      forall more | Possible(s, more) && NoLaunch(more)
        ensures Attributed(After(s, more))
      {
        SafeAlways(s, more);
      }
    } else {
      var g :| 0 <= g < |s.generations| && HasWon(s.wins, g) && Lingers(s.generations[g]);
      var run := LingeringWins(s, g);
      SecondWin(s, After(s, run), g);
    }
  }

  /** What a caller can see before starting the session again: will anyone be announced twice? */
  lemma RelaunchSafeIff(actions: seq<Action>)
    requires Possible(INIT, actions) && Attributed(After(INIT, actions)) && Enabled(After(INIT, actions), StartLaunches)
    ensures var s := After(INIT, actions);
      StaysAttributed(Do(s, StartLaunches)) <==> !WinnerLingers(s)
  {
    var s := After(INIT, actions);
    SaneAlways(INIT, actions);
    var run, s' := One(INIT, actions, s, StartLaunches);
    assert s'.wins == s.wins && forall g | 0 <= g < |s.generations| :: s'.generations[g] == s.generations[g];
    assert !HasWon(s.wins, |s.generations|);
    StaysAttributedIff(run);
  }

  // ---------- whose claim the new one is ----------

  /** Every win until the session is started again is start g's. */
  ghost predicate ClaimBelongsTo(s: State, g: nat) {
    forall more | Possible(s, more) && NoLaunch(more) :: WinsAreFrom(After(s, more), |s.wins|, g)
  }

  predicate WinsAreFrom(s: State, n: nat, g: nat) {
    forall i | n <= i < |s.wins| :: s.wins[i].generation == g
  }

  /** Some start, announced or not, still has a thread that can claim. */
  predicate AnyLingers(s: State) {
    exists g | 0 <= g < |s.generations| :: Lingers(s.generations[g])
  }

  /** Start g is the last one, and alone with its claim. */
  ghost predicate Alone(s: State, g: nat) {
    |s.generations| == g + 1 && forall h | 0 <= h < g :: !Lingers(s.generations[h])
  }

  lemma {:induction false} AloneAlways(s: State, n: nat, g: nat, actions: seq<Action>)
    requires Alone(s, g) && WinsAreFrom(s, n, g) && Possible(s, actions) && NoLaunch(actions)
    ensures WinsAreFrom(After(s, actions), n, g)
    decreases |actions|
  {
    if actions != [] {
      AloneStep(s, n, g, actions[0]);
      AloneAlways(Do(s, actions[0]), n, g, actions[1..]);
    }
  }

  lemma AloneStep(s: State, n: nat, g: nat, a: Action)
    requires Alone(s, g) && WinsAreFrom(s, n, g) && Enabled(s, a) && !a.StartLaunches?
    ensures Alone(Do(s, a), g) && WinsAreFrom(Do(s, a), n, g)
  {
    if a.PumpSwaps? || a.WatcherSwaps? {
      assert Lingers(s.generations[a.g]);
    }
  }

  /**
    In every reachable state in which the session is about to be started again: the
    claim of the new start is the new start's own if and only if no older start,
    announced or not, still has a thread that can reach the swap.
   */
  lemma RelaunchOwnClaimIff(actions: seq<Action>)
    requires Possible(INIT, actions) && Enabled(After(INIT, actions), StartLaunches)
    ensures var s := After(INIT, actions);
      ClaimBelongsTo(Do(s, StartLaunches), |s.generations|) <==> !AnyLingers(s)
  {
    SaneAlways(INIT, actions);
    var s := After(INIT, actions);
    var s', g := Do(s, StartLaunches), |s.generations|;
    assert forall h | 0 <= h < g :: s'.generations[h] == s.generations[h];
    if AnyLingers(s) {
      var h :| 0 <= h < g && Lingers(s.generations[h]);
      LaunchKeepsSane(s);
      var run := LingeringWins(s', h);
      assert !WinsAreFrom(After(s', run), |s'.wins|, g);
    } else {
      forall more | Possible(s', more) && NoLaunch(more)
        ensures WinsAreFrom(After(s', more), |s'.wins|, g)
      {
        AloneAlways(s', |s'.wins|, g, more);
      }
    }
  }

  lemma LaunchKeepsSane(s: State)
    requires Sane(s) && Enabled(s, StartLaunches)
    ensures Sane(Do(s, StartLaunches))
  {}

  /** Once the claim is taken, nobody is announced until the next start. */
  lemma {:induction false} NoClaimNoWin(s: State, actions: seq<Action>)
    requires !s.alive && Possible(s, actions) && NoLaunch(actions)
    ensures After(s, actions).wins == s.wins
    decreases |actions|
  {
    if actions != [] {
      NoClaimNoWin(Do(s, actions[0]), actions[1..]);
    }
  }

  // ---------- whole runs ----------

  /** No launch finds a thread that can still claim for a start already announced. */
  ghost predicate CleanLaunches(s: State, actions: seq<Action>)
    requires Possible(s, actions)
    decreases |actions|
  {
    actions == [] || (
      && (actions[0].StartLaunches? ==> !WinnerLingers(s))
      && CleanLaunches(Do(s, actions[0]), actions[1..]))
  }

  lemma LaunchSafe(s: State)
    requires Safe(s) && Enabled(s, StartLaunches) && !WinnerLingers(s)
    ensures Safe(Do(s, StartLaunches))
  {
    var s' := Do(s, StartLaunches);
    assert s'.wins == s.wins && forall g | 0 <= g < |s.generations| :: s'.generations[g] == s.generations[g];
    assert !HasWon(s.wins, |s.generations|);
  }

  lemma {:induction false} SafeThroughout(s: State, actions: seq<Action>)
    requires Safe(s) && Possible(s, actions) && CleanLaunches(s, actions)
    ensures Safe(After(s, actions))
    decreases |actions|
  {
    if actions != [] {
      if actions[0].StartLaunches? {
        LaunchSafe(s);
      } else {
        SafeStep(s, actions[0]);
      }
      SafeThroughout(Do(s, actions[0]), actions[1..]);
    }
  }

  /** If every launch is such a one, no start is ever announced twice. */
  lemma CleanRestartsAttribute(actions: seq<Action>)
    requires Possible(INIT, actions) && CleanLaunches(INIT, actions)
    ensures Attributed(After(INIT, actions))
  {
    SafeThroughout(INIT, actions);
  }

  /** No launch finds a start that still has a thread that can claim, and the session is not torn down. */
  ghost predicate SeparateStarts(s: State, actions: seq<Action>)
    requires Possible(s, actions)
    decreases |actions|
  {
    actions == [] || (
      && !actions[0].DropLowers?
      && (actions[0].StartLaunches? ==> !AnyLingers(s))
      && SeparateStarts(Do(s, actions[0]), actions[1..]))
  }

  /** The starts were announced one after the other, and the last one has its claim or has used it. */
  ghost predicate InTurn(s: State) {
    && (forall i | 0 <= i < |s.wins| :: s.wins[i].generation == i)
    && |s.wins| + (if s.alive then 1 else 0) == |s.generations|
    && (forall h | 0 <= h < |s.generations| - 1 :: !Lingers(s.generations[h]))
    && (s.alive ==> !s.generations[|s.generations| - 1].pump.Over?)
  }

  lemma OpenClaimLingers(s: State)
    requires InTurn(s)
    ensures s.alive ==> AnyLingers(s)
  {
    if s.alive {
      assert Lingers(s.generations[|s.generations| - 1]);
    }
  }

  lemma InTurnStep(s: State, a: Action)
    requires InTurn(s) && Enabled(s, a) && !a.DropLowers? && (a.StartLaunches? ==> !AnyLingers(s))
    ensures InTurn(Do(s, a))
  {
    if a.StartLaunches? {
      OpenClaimLingers(s);
    } else if a.PumpSwaps? || a.WatcherSwaps? {
      assert Lingers(s.generations[a.g]);
    }
  }

  lemma {:induction false} InTurnAlways(s: State, actions: seq<Action>)
    requires InTurn(s) && Possible(s, actions) && SeparateStarts(s, actions)
    ensures InTurn(After(s, actions))
    decreases |actions|
  {
    if actions != [] {
      InTurnStep(s, actions[0]);
      InTurnAlways(Do(s, actions[0]), actions[1..]);
    }
  }

  /**
    If every launch finds all threads of the earlier starts past their swap, the
    i-th win is the i-th start's, and every start but possibly the last, which then
    still holds its claim, has won exactly once.
   */
  lemma EveryStartAnnouncedOnce(actions: seq<Action>)
    requires Possible(INIT, actions) && SeparateStarts(INIT, actions)
    ensures var s := After(INIT, actions);
      && (forall i | 0 <= i < |s.wins| :: s.wins[i].generation == i)
      && |s.wins| + (if s.alive then 1 else 0) == |s.generations|
  {
    InTurnAlways(INIT, actions);
  }

  // ---------- a run in which it goes wrong ----------

  lemma FirstStartEnds() returns (run: seq<Action>, s: State)
    ensures Possible(INIT, run) && After(INIT, run) == s
    ensures s == State(false, 0, [Generation(Over, SawAlive, Some(3))], [Win(0, 3)])
  {
    run, s := [], INIT;
    run, s := One(INIT, run, s, StartChecks);
    run, s := One(INIT, run, s, StartLaunches);
    run, s := One(INIT, run, s, ChildExits(0, 3));
    run, s := One(INIT, run, s, WatcherChecks(0));
    run, s := One(INIT, run, s, PumpSeesEof(0));
    run, s := One(INIT, run, s, PumpSwaps(0));
  }

  /**
    The count is all there is: a watcher left over from the first start can use up
    the claim of the second one, announcing the first child again while the second
    is still running.
   */
  lemma AttributionFails()
    ensures exists run ::
      && Possible(INIT, run)
      && After(INIT, run).wins == [Win(0, 3), Win(0, 3)]
      && |After(INIT, run).generations| == 2
      && After(INIT, run).generations[1].child.None?
      && !After(INIT, run).alive
  {
    var run, s := FirstStartEnds();
    run, s := One(INIT, run, s, StartChecks);
    run, s := One(INIT, run, s, StartLaunches);
    run, s := One(INIT, run, s, WatcherQueries(0));
    run, s := One(INIT, run, s, WatcherSwaps(0));
  }

  lemma TwoStartsPassTheCheck() returns (run: seq<Action>, s: State)
    ensures Possible(INIT, run) && After(INIT, run) == s
    ensures s == State(true, 0, [Generation(Working, Working, None), Generation(Working, Working, None)], [])
  {
    run, s := [], INIT;
    run, s := One(INIT, run, s, StartChecks);
    run, s := One(INIT, run, s, StartChecks);
    run, s := One(INIT, run, s, StartLaunches);
    run, s := One(INIT, run, s, StartLaunches);
  }

  /**
    Two calls of start pass the test before either stores `alive`. Nobody is ever
    announced twice, but the first start takes the one claim there is, and the exit
    of the second goes unannounced however the run goes on.
   */
  lemma UnannouncedStart()
    ensures exists run ::
      && Possible(INIT, run)
      && var s := After(INIT, run);
         && s.wins == [Win(0, 3)]
         && |s.generations| == 2 && s.generations[1] == Generation(Working, Working, None)
         && forall more | Possible(s, more) && NoLaunch(more) :: After(s, more).wins == [Win(0, 3)]
  {
    var run, s := TwoStartsPassTheCheck();
    run, s := One(INIT, run, s, ChildExits(0, 3));
    run, s := One(INIT, run, s, PumpSeesEof(0));
    run, s := One(INIT, run, s, PumpSwaps(0));
    forall more | Possible(s, more) && NoLaunch(more)
      ensures After(s, more).wins == [Win(0, 3)]
    {
      NoClaimNoWin(s, more);
    }
  }
}
