/** Drop for Session, run by a host thread or from inside a callback. */
module SessionTeardown {
  import opened Common
  import opened SessionModel
  import opened SessionShape
  import opened SessionExit

  /** A callback fetched while the table still held it. */
  predicate LiveReady(code: Code) {
    code.Ready? && code.live
  }

  ghost predicate BasesInCallback(s: State) {
    && (Nested(s, PumpThread) != [] ==> s.pump.Calling?)
    && (Nested(s, WatcherThread) != [] ==> s.watcher.Calling?)
  }

  ghost predicate OthersAway(s: State, who: Tid) {
    forall u | u in s.calls && u != who :: s.calls[u] == []
  }

  predicate TableCleared(at: DropStep) {
    !at.LowerAlive? && !at.ClearCallbacks?
  }

  predicate PumpJoined(at: DropStep) {
    at.JoinWatcher? || at.JoinReader?
  }

  predicate WatcherJoined(at: DropStep) {
    at.JoinReader?
  }

  predicate Resumed(code: Code) {
    code.Calling? || code.Return?
  }

  ghost predicate TeardownOk(s: State) {
    match s.teardown
    case NotBegun => true
    case Running(who, at) =>
      && OthersAway(s, who)
      && Nested(s, who) != [] && Top(s, who) == InDrop
      && (TableCleared(at) ==> s.callbacks == NO_CALLBACKS)
      && (PumpJoined(at) && who != PumpThread ==> s.pump.Finished?)
      && (WatcherJoined(at) && who != WatcherThread ==> s.watcher.Finished?)
    case Returned(who) =>
      && OthersAway(s, who)
      && (forall i | 0 <= i < |Nested(s, who)| :: Resumed(Nested(s, who)[i]))
      && s.callbacks == NO_CALLBACKS
      && (who != PumpThread ==> s.pump.Finished?)
      && (who != WatcherThread ==> s.watcher.Finished?)
      && !LiveReady(s.pump) && !LiveReady(s.watcher)
  }

  lemma BasesKept(s: State, s': State)
    requires BasesInCallback(s)
    requires forall t :: Nested(s', t) != [] ==> Nested(s, t) != []
    requires Nested(s, PumpThread) != [] ==> s'.pump == s.pump
    requires Nested(s, WatcherThread) != [] ==> s'.watcher == s.watcher
    ensures BasesInCallback(s')
  {}

  lemma BasesStep(s: State, a: Action)
    requires BasesInCallback(s) && Shapes(s) && Enabled(s, a)
    ensures BasesInCallback(Do(s, a))
  {
    if a.HostRender? || a.BeginDrop? {
      BasesPush(s, a.t, if a.HostRender? then Fetch(OnRender, Return) else InDrop);
    } else if StackStep(a) {
      BasesCallStep(s, a);
    } else if a.PumpSteps? {
      BasesPumpStep(s, a.emitted);
    } else if a.WatcherSteps? {
      BasesWatcherStep(s);
    } else {
      CodesKept(s, a);
      CallsKept(s, a);
    }
  }

  /** Apart from these steps, nested calls only end. */
  lemma CallsKept(s: State, a: Action)
    requires Enabled(s, a) && !StackStep(a) && !a.HostRender? && !a.BeginDrop?
    ensures forall t :: Nested(Do(s, a), t) != [] ==> Nested(s, t) != []
    ensures !a.DropSteps? ==> Do(s, a).calls == s.calls
  {}

  lemma BasesPumpStep(s: State, emitted: seq<TermEvent>)
    requires BasesInCallback(s) && PumpEnabled(s)
    ensures BasesInCallback(PumpDo(s, emitted))
  {
    var s' := PumpDo(s, emitted);
    assert s'.calls == s.calls && s'.watcher == s.watcher;
  }

  lemma BasesWatcherStep(s: State)
    requires BasesInCallback(s) && WatcherEnabled(s)
    ensures BasesInCallback(WatcherDo(s))
  {
    var s' := WatcherDo(s);
    assert s'.calls == s.calls && s'.pump == s.pump;
  }

  lemma BasesPush(s: State, t: Tid, code: Code)
    requires BasesInCallback(s) && Shapes(s) && InHostCode(s, t)
    ensures BasesInCallback(Push(s, t, code))
  {}

  lemma BasesCallStep(s: State, a: Action)
    requires BasesInCallback(s) && Enabled(s, a) && StackStep(a)
    ensures BasesInCallback(Do(s, a))
  {
    BasesKept(s, Do(s, a));
  }

  predicate StackStep(a: Action) {
    CallStep(a) || a.ApiReturns?
  }

  lemma CallStepOnBase(s: State, a: Action)
    requires TeardownOk(s) && Shapes(s) && Enabled(s, a) && StackStep(a) && Nested(s, a.t) == []
    ensures TeardownOk(Do(s, a))
  {
    CallStepShape(s, a);
    CallOnBaseKeepsStacks(s, a);
    CalledIsSettled(s, a);
    SameControl(s, Do(s, a));
  }

  lemma CalledIsSettled(s: State, a: Action)
    requires Shapes(s) && Enabled(s, a) && CallStep(a) && Nested(s, a.t) == []
    ensures Settled(Top(s, a.t), Called(s, a), s.callbacks)
  {}

  lemma CallOnBaseKeepsStacks(s: State, a: Action)
    requires Enabled(s, a) && CallStep(a) && Nested(s, a.t) == []
    ensures Do(s, a).calls == s.calls
  {}

  lemma CallStepNested(s: State, a: Action)
    requires TeardownOk(s) && StacksOk(s) && Enabled(s, a) && StackStep(a) && Nested(s, a.t) != []
    ensures TeardownOk(Do(s, a))
  {
    var s' := Do(s, a);
    assert NestedCode(Top(s, a.t));
    assert s'.teardown == s.teardown && s'.callbacks == s.callbacks && s'.pump == s.pump && s'.watcher == s.watcher;
    if s.teardown.Returned? {
      var was, now := Nested(s, s.teardown.who), Nested(s', s.teardown.who);
      assert Resumed(was[|was| - 1]);
      assert now == was[..|was| - 1] || now == was[..|was| - 1] + [Return];
    }
  }

  /** The last step of Drop leaves the thread that ran it inside callbacks only. */
  lemma TeardownReturn(s: State)
    requires TeardownOk(s) && Shapes(s) && BasesInCallback(s) && DropEnabled(s) && s.teardown.at.JoinReader?
    ensures TeardownOk(DropDo(s))
  {
    assert StackCode(s.calls[s.teardown.who]);
  }

  lemma TeardownDropStep(s: State)
    requires TeardownOk(s) && Shapes(s) && BasesInCallback(s) && DropEnabled(s)
    ensures TeardownOk(DropDo(s))
  {
    if s.teardown.at.JoinReader? {
      TeardownReturn(s);
    } else {
      DropMovesOn(s);
    }
  }

  /** The steps of Drop before the last one, and what each has done when it is over. */
  lemma DropMovesOn(s: State)
    requires DropEnabled(s) && !s.teardown.at.JoinReader?
    ensures var s' := DropDo(s);
      && s'.calls == s.calls && s'.pump == s.pump && s'.watcher == s.watcher
      && s'.teardown.Running? && s'.teardown.who == s.teardown.who
      && (TableCleared(s'.teardown.at) ==>
            s'.callbacks == NO_CALLBACKS || (TableCleared(s.teardown.at) && s'.callbacks == s.callbacks))
      && (PumpJoined(s'.teardown.at) ==> PumpJoined(s.teardown.at) || s.teardown.who == PumpThread || s.pump.Finished?)
      && (WatcherJoined(s'.teardown.at) ==> s.teardown.who == WatcherThread || s.watcher.Finished?)
  {}

  lemma TeardownStep(s: State, a: Action)
    requires TeardownOk(s) && Shapes(s) && BasesInCallback(s) && Enabled(s, a)
    ensures TeardownOk(Do(s, a))
  {
    if StackStep(a) {
      if Nested(s, a.t) == [] { CallStepOnBase(s, a); } else { CallStepNested(s, a); }
    } else if a.DropSteps? {
      TeardownDropStep(s);
    } else if a.PumpSteps? {
      TeardownPumpStep(s, a.emitted);
    } else if a.WatcherSteps? {
      TeardownWatcherStep(s);
    } else if a.BeginDrop? {
      TeardownBegins(s, a.t);
    } else if s.teardown.NotBegun? {
      TeardownKept(s, a);
    } else {
      CodesKept(s, a);
      CallsKept(s, a);
      TeardownKept(s, a);
      assert Do(s, a).callbacks == s.callbacks;
      SameControl(s, Do(s, a));
    }
  }

  lemma TeardownBegins(s: State, t: Tid)
    requires Enabled(s, BeginDrop(t))
    ensures TeardownOk(Do(s, BeginDrop(t)))
  {}

  lemma SameControl(s: State, s': State)
    requires TeardownOk(s)
    requires s'.teardown == s.teardown && s'.calls == s.calls && s'.callbacks == s.callbacks
    requires Settled(s.pump, s'.pump, s.callbacks) && Settled(s.watcher, s'.watcher, s.callbacks)
    ensures TeardownOk(s')
  {
    assert forall t :: Nested(s', t) == Nested(s, t);
  }

  /** A thread that has ended stays ended, and with an empty table it fetches nothing. */
  predicate Settled(code: Code, code': Code, callbacks: Callbacks) {
    (code.Finished? ==> code'.Finished?) && (callbacks == NO_CALLBACKS && !LiveReady(code) ==> !LiveReady(code'))
  }

  lemma TeardownWatcherStep(s: State)
    requires TeardownOk(s) && WatcherEnabled(s)
    ensures TeardownOk(WatcherDo(s))
  {
    var s' := WatcherDo(s);
    assert s'.teardown == s.teardown && s'.calls == s.calls && s'.callbacks == s.callbacks;
  }

  lemma TeardownPumpStep(s: State, emitted: seq<TermEvent>)
    requires TeardownOk(s) && PumpEnabled(s)
    ensures TeardownOk(PumpDo(s, emitted))
  {
    var s' := PumpDo(s, emitted);
    assert s'.teardown == s.teardown && s'.calls == s.calls && s'.callbacks == s.callbacks;
  }

  ghost predicate DropOk(s: State) {
    TeardownOk(s) && Shapes(s) && BasesInCallback(s)
  }

  lemma {:induction false} DropInvariant(s: State, actions: seq<Action>)
    requires DropOk(s) && Possible(s, actions)
    ensures DropOk(After(s, actions))
    decreases |actions|
  {
    if actions != [] {
      TeardownStep(s, actions[0]);
      ShapesStep(s, actions[0]);
      BasesStep(s, actions[0]);
      DropInvariant(Do(s, actions[0]), actions[1..]);
    }
  }

  // ---------- the callback table ----------

  /** The table given by the last `set_callbacks`. */
  function LastTable(initial: Callbacks, actions: seq<Action>): Callbacks
    decreases |actions|
  {
    if actions == [] then initial
    else
      var last := actions[|actions| - 1];
      if last.HostSetCallbacks? then last.table else LastTable(initial, actions[..|actions| - 1])
  }

  /** The clipboard callback as of the last `set_clipboard_callback`. */
  function LastClipboard(initial: Callbacks, actions: seq<Action>): Option<nat>
    decreases |actions|
  {
    if actions == [] then initial.onClipboard
    else
      var last := actions[|actions| - 1];
      if last.HostSetClipboard? then last.clipboard else LastClipboard(initial, actions[..|actions| - 1])
  }

  /** Drop has emptied the table. */
  predicate Emptied(s: State) {
    s.teardown.Returned? || (s.teardown.Running? && TableCleared(s.teardown.at))
  }

  lemma TableStep(s: State, a: Action)
    requires Enabled(s, a)
    ensures Emptied(s) ==> Emptied(Do(s, a)) && Do(s, a).callbacks == s.callbacks
    ensures !Emptied(s) && Emptied(Do(s, a)) ==> Do(s, a).callbacks == NO_CALLBACKS
    ensures !Emptied(Do(s, a)) && !a.HostSetCallbacks? && !a.HostSetClipboard? ==> Do(s, a).callbacks == s.callbacks
  {
    if !a.DropSteps? && !a.BeginDrop? {
      TeardownKept(s, a);
    }
  }

  lemma TableNext(s: State, a: Action, main: Callbacks, clipboard: Option<nat>)
    requires Enabled(s, a) && s.callbacks == (if Emptied(s) then NO_CALLBACKS else main.(onClipboard := clipboard))
    ensures var s' := Do(s, a);
      s'.callbacks == if Emptied(s') then NO_CALLBACKS else
        (if a.HostSetCallbacks? then a.table else main)
          .(onClipboard := if a.HostSetClipboard? then a.clipboard else clipboard)
  {
    TableStep(s, a);
  }

  lemma {:induction false} AfterSnoc(s: State, actions: seq<Action>)
    requires actions != [] && Possible(s, actions)
    ensures var n := |actions| - 1;
      && Possible(s, actions[..n]) && Enabled(After(s, actions[..n]), actions[n])
      && After(s, actions) == Do(After(s, actions[..n]), actions[n])
    decreases |actions|
  {
    var n := |actions| - 1;
    if n == 0 {
      assert actions[..0] == [] && actions[1..] == [];
    } else {
      AfterSnoc(Do(s, actions[0]), actions[1..]);
      assert actions[1..][..n - 1] == actions[..n][1..];
    }
  }

  /**
    The two setters do not disturb each other: over any run the table holds the
    main callbacks of the last `set_callbacks` and the clipboard callback of the
    last `set_clipboard_callback`, until Drop empties it for good.
   */
  lemma {:induction false} TableIsLastSet(callbacks: Callbacks, actions: seq<Action>)
    requires Possible(Init(callbacks), actions)
    ensures var s := After(Init(callbacks), actions);
      s.callbacks == if Emptied(s) then NO_CALLBACKS else
        LastTable(callbacks, actions).(onClipboard := LastClipboard(callbacks, actions))
    decreases |actions|
  {
    if actions != [] {
      var n := |actions| - 1;
      AfterSnoc(Init(callbacks), actions);
      TableIsLastSet(callbacks, actions[..n]);
      TableNext(After(Init(callbacks), actions[..n]), actions[n], LastTable(callbacks, actions[..n]),
                LastClipboard(callbacks, actions[..n]));
    }
  }

  /**
    Once Drop has returned, no host callback begins any more, on any thread, and no
    thread but the one that ran Drop is inside a callback. If a host thread ran
    Drop, pump and watcher are gone.
   */
  lemma SilentAfterDrop(callbacks: Callbacks, actions: seq<Action>)
    requires Possible(Init(callbacks), actions)
    requires After(Init(callbacks), actions).teardown.Returned?
    ensures var s := After(Init(callbacks), actions);
      && (forall t :: !Enabled(s, CallBegins(t)))
      && (forall t | t != s.teardown.who :: !Top(s, t).Calling?)
      && (s.teardown.who.HostThread? ==> s.pump.Finished? && s.watcher.Finished?)
  {
    DropInvariant(Init(callbacks), actions);
    var s := After(Init(callbacks), actions);
    var who := s.teardown.who;
    forall t
      ensures !Enabled(s, CallBegins(t))
      ensures t != who ==> !Top(s, t).Calling?
    {
      assert Nested(s, t) != [] ==> t == who && Resumed(Top(s, t));
    }
  }
}
