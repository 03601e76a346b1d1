/** Who announces the child's exit, how often, and with which code. */
module SessionExit {
  import opened Common
  import opened SessionModel
  import opened SessionShape
  import opened SessionChannel

  /** Drop has not lowered `alive` yet. */
  predicate AliveUntouched(s: State) {
    s.teardown.NotBegun? || (s.teardown.Running? && s.teardown.at.LowerAlive?)
  }

  /** The thread has won the swap and is about to call on_exit. */
  function Announcing(code: Code): nat {
    if (code.Fetch? || code.Ready?) && code.cb.OnExit? then 1 else 0
  }

  ghost predicate ClaimsOk(s: State) {
    && |s.life.winners| + (if s.life.alive then 1 else 0) <= 1
    && (AliveUntouched(s) ==> |s.life.winners| + (if s.life.alive then 1 else 0) == 1)
    && (s.watcher.Finished? || s.watcher.Fetch? || s.watcher.Ready? || s.watcher.Calling? ==> !s.life.alive)
    && |s.life.notified| + Announcing(s.pump) + Announcing(s.watcher) <= |s.life.winners|
  }

  lemma ClaimsPump(s: State, emitted: seq<TermEvent>)
    requires ClaimsOk(s) && PumpEnabled(s)
    ensures ClaimsOk(PumpDo(s, emitted))
  {}

  lemma ClaimsCallStep(s: State, a: Action)
    requires ClaimsOk(s) && Shapes(s) && Enabled(s, a) && CallStep(a)
    ensures ClaimsOk(Do(s, a))
  {
    CallStepShape(s, a);
    assert Nested(s, a.t) != [] ==> NestedCode(Top(s, a.t));
  }

  lemma ClaimsStep(s: State, a: Action)
    requires ClaimsOk(s) && Shapes(s) && Enabled(s, a)
    ensures ClaimsOk(Do(s, a))
  {
    if a.PumpSteps? {
      ClaimsPump(s, a.emitted);
    } else if CallStep(a) {
      ClaimsCallStep(s, a);
    } else if a.ChildExits? || a.ReaderSends? || a.DropSteps? || a.WatcherSteps? {
      CodesKept(s, a);
    } else {
      CodesKept(s, a);
      LifeKept(s, a);
      assert a.BeginDrop? || Do(s, a).teardown == s.teardown;
    }
  }

  // ---------- the code ----------

  /** The exit code a thread is carrying towards on_exit. */
  function Carried(code: Code): Option<int> {
    match code
    case StoreCode(exit) => Some(exit)
    case SwapAlive(exit) => Some(exit)
    case Fetch(cb, _) => if cb.OnExit? then Some(cb.code) else None
    case Ready(cb, _, _) => if cb.OnExit? then Some(cb.code) else None
    case Calling(cb, _) => if cb.OnExit? then Some(cb.code) else None
    case _ => None
  }

  /** The thread has stored its code already. */
  predicate HasStored(code: Code) {
    Carried(code).Some? && !code.StoreCode?
  }

  /** The thread has on_exit in hand. */
  predicate Winning(code: Code) {
    (code.Fetch? || code.Ready? || code.Calling?) && code.cb.OnExit?
  }

  /** The pump has asked for the exit code, and will not ask again. */
  predicate PastRead(code: Code) {
    code.StoreCode? || code.SwapAlive? || code.Finished? || (Winning(code) && code.next.Finished?)
  }

  /** What a thread takes for the exit code: the child's, unless it is a pump that asked too early. */
  predicate CodeOf(life: Life, t: Tid, code: int) {
    if t == PumpThread && life.blindRead then code == 0 else life.child == Some(code)
  }

  ghost predicate CodesExact(s: State) {
    && (s.life.blindRead ==> PastRead(s.pump))
    && (Carried(s.pump).Some? ==> CodeOf(s.life, PumpThread, Carried(s.pump).value) && PastRead(s.pump))
    && (Carried(s.watcher).Some? ==> CodeOf(s.life, WatcherThread, Carried(s.watcher).value))
    && (Winning(s.pump) ==> s.life.winners == [PumpThread])
    && (Winning(s.watcher) ==> s.life.winners == [WatcherThread])
    && NotifiedExactly(s.life)
  }

  ghost predicate NotifiedExactly(life: Life) {
    forall code | code in life.notified :: life.winners != [] && CodeOf(life, life.winners[0], code)
  }

  /** Unless the pump asked too early, `exit_code` holds the child's code from the first store on. */
  ghost predicate StoredTruly(s: State) {
    !s.life.blindRead && (HasStored(s.pump) || HasStored(s.watcher) || s.life.winners != []) ==>
      s.life.child == Some(s.life.exitCode)
  }

  /** The pump only asks too early if an Eof was there too early. */
  ghost predicate BlindIsEarly(s: State) {
    && (!s.life.earlyEof && HasEof(s.io.enqueued) ==> s.life.child.Some?)
    && (s.life.blindRead ==> s.life.earlyEof)
  }

  ghost predicate CodesOk(s: State) {
    CodesExact(s) && StoredTruly(s) && BlindIsEarly(s)
  }

  lemma LeavingMeansEof(s: State)
    requires ChannelOk(s) && Leaving(s.pump) && !s.pump.Finished?
    ensures HasEof(s.io.enqueued)
  {
    var n := |s.io.taken| - 1;
    assert s.io.taken[n].Eof? && s.io.enqueued[n] == s.io.taken[n];
  }

  lemma EofAppended(io: Io, ev: IoEvent)
    ensures HasEof(Enqueue(io, ev).enqueued) <==> HasEof(io.enqueued) || ev.Eof?
  {
    var more := Enqueue(io, ev).enqueued;
    if HasEof(io.enqueued) {
      var i :| 0 <= i < |io.enqueued| && io.enqueued[i].Eof?;
      assert more[i].Eof?;
    }
    assert more[|io.enqueued|] == ev;
  }

  lemma CodesPump(s: State, emitted: seq<TermEvent>)
    requires ClaimsOk(s) && CodesOk(s) && ChannelOk(s) && PumpCode(s.pump) && PumpEnabled(s)
    ensures CodesOk(PumpDo(s, emitted))
  {
    var s' := PumpDo(s, emitted);
    if s.pump.ReadCode? {
      LeavingMeansEof(s);
    } else if s.pump.StoreCode? || s.pump.SwapAlive? {
      assert s'.io == s.io;
    } else {
      assert s'.life == s.life && s'.io.enqueued == s.io.enqueued && !PastRead(s.pump);
      assert !Winning(s'.pump) && Carried(s'.pump).None?;
    }
  }

  lemma CodesWatcher(s: State)
    requires ClaimsOk(s) && CodesOk(s) && WatcherCode(s.watcher) && WatcherEnabled(s)
    ensures CodesOk(WatcherDo(s))
  {}

  /** A call of on_exit is the winner's, with the code that it carries. */
  lemma CodesCallStep(s: State, a: Action)
    requires ClaimsOk(s) && CodesOk(s) && Shapes(s) && Enabled(s, a) && CallStep(a)
    ensures CodesOk(Do(s, a))
  {
    CallStepShape(s, a);
    assert Nested(s, a.t) != [] ==> NestedCode(Top(s, a.t));
    if Nested(s, a.t) == [] {
      if a.t == PumpThread {
        CodesCallOnPump(s, a);
      } else {
        CodesCallOnWatcher(s, a);
      }
    }
  }

  lemma CodesCallOnPump(s: State, a: Action)
    requires CodesOk(s) && PumpCode(s.pump) && Enabled(s, a) && CallStep(a)
    requires a.t == PumpThread && Nested(s, a.t) == []
    ensures CodesOk(Do(s, a))
  {
    CallStepShape(s, a);
    if a.CallBegins? && s.pump.cb.OnExit? {
      NotifiedByWinner(s, Do(s, a), s.pump.cb.code, PumpThread);
    } else {
      assert Do(s, a).life == s.life;
    }
  }

  lemma NotifiedByWinner(s: State, s': State, code: int, t: Tid)
    requires CodesExact(s) && s.life.winners == [t] && CodeOf(s.life, t, code)
    requires s'.life == s.life.(notified := s.life.notified + [code])
    ensures NotifiedExactly(s'.life)
  {}

  lemma CodesCallOnWatcher(s: State, a: Action)
    requires CodesOk(s) && WatcherCode(s.watcher) && Enabled(s, a) && CallStep(a)
    requires a.t == WatcherThread && Nested(s, a.t) == []
    ensures CodesOk(Do(s, a))
  {
    CallStepShape(s, a);
    if a.CallBegins? && s.watcher.cb.OnExit? {
      NotifiedByWinner(s, Do(s, a), s.watcher.cb.code, WatcherThread);
    } else {
      assert Do(s, a).life == s.life;
    }
  }

  /** Exit codes are a matter of these parts of the state only. */
  lemma CodesSame(s: State, s': State)
    requires CodesExact(s) && StoredTruly(s) && s'.pump == s.pump && s'.watcher == s.watcher
    requires s'.life == s.life.(alive := s'.life.alive, earlyEof := s'.life.earlyEof)
    ensures CodesExact(s') && StoredTruly(s')
  {
    assert s'.life.notified == s.life.notified && s'.life.winners == s.life.winners;
  }

  lemma CodesChildExits(s: State, code: int)
    requires CodesOk(s) && Enabled(s, ChildExits(code))
    ensures CodesOk(Do(s, ChildExits(code)))
  {
    var s' := Do(s, ChildExits(code));
    assert s'.life.notified == s.life.notified && s'.life.winners == s.life.winners;
  }

  lemma CodesReaderSends(s: State)
    requires CodesOk(s) && Enabled(s, ReaderSends)
    ensures CodesOk(Do(s, ReaderSends))
  {
    CodesSame(s, Do(s, ReaderSends));
    EofAppended(s.io, s.io.reader.ev);
  }

  lemma CodesDrop(s: State)
    requires CodesOk(s) && DropEnabled(s)
    ensures CodesOk(DropDo(s))
  {
    CodesSame(s, DropDo(s));
    EofAppended(s.io, Eof);
  }

  lemma CodesOkStep(s: State, a: Action)
    requires ClaimsOk(s) && CodesOk(s) && Shapes(s) && ChannelOk(s) && Enabled(s, a)
    ensures CodesOk(Do(s, a))
  {
    if a.PumpSteps? {
      CodesPump(s, a.emitted);
    } else if a.WatcherSteps? {
      CodesWatcher(s);
    } else if CallStep(a) {
      CodesCallStep(s, a);
    } else if a.ChildExits? {
      CodesChildExits(s, a.code);
    } else if a.ReaderSends? {
      CodesReaderSends(s);
    } else if a.DropSteps? {
      CodesDrop(s);
    } else {
      CodesKept(s, a);
      LifeKept(s, a);
      assert Do(s, a).io.enqueued == s.io.enqueued;
    }
  }

  // ---------- all runs ----------

  ghost predicate ExitOk(s: State) {
    ClaimsOk(s) && CodesOk(s) && Shapes(s) && ChannelOk(s)
  }

  lemma {:induction false} ExitInvariant(s: State, actions: seq<Action>)
    requires ExitOk(s) && Possible(s, actions)
    ensures ExitOk(After(s, actions))
    decreases |actions|
  {
    if actions != [] {
      ClaimsStep(s, actions[0]);
      CodesOkStep(s, actions[0]);
      ShapesStep(s, actions[0]);
      ChannelStep(s, actions[0]);
      ExitInvariant(Do(s, actions[0]), actions[1..]);
    }
  }

  lemma WhatWasAnnounced(s: State, i: nat)
    requires ExitOk(s) && i < |s.life.notified|
    ensures |s.life.winners| == 1 && CodeOf(s.life, s.life.winners[0], s.life.notified[i])
    ensures !s.life.blindRead ==> s.life.child == Some(s.life.exitCode) == Some(s.life.notified[i])
  {
    assert s.life.notified[i] in s.life.notified;
  }

  /**
    At most one thread ever wins the swap, and on_exit is called at most once per
    win. Without Drop, once the watcher has stopped somebody has won. Unless the
    pump asked for the code before the child was signalled, which takes an Eof
    before that, the code handed to on_exit is the child's, and `exit_code` already
    holds it.
   */
  lemma ExitAnnouncedOnceTruthfully(callbacks: Callbacks, actions: seq<Action>)
    requires Possible(Init(callbacks), actions)
    ensures var s := After(Init(callbacks), actions);
      && |s.life.notified| <= |s.life.winners| <= 1
      && (s.watcher.Finished? && s.teardown.NotBegun? ==> |s.life.winners| == 1)
      && (!s.life.earlyEof ==> !s.life.blindRead)
      && (!s.life.blindRead ==>
            && (s.life.winners != [] ==> s.life.child == Some(s.life.exitCode))
            && (forall i | 0 <= i < |s.life.notified| ::
                  s.life.child == Some(s.life.notified[i]) && s.life.exitCode == s.life.notified[i]))
  {
    ExitInvariant(Init(callbacks), actions);
    var s := After(Init(callbacks), actions);
    forall i | 0 <= i < |s.life.notified| && !s.life.blindRead
      ensures s.life.child == Some(s.life.notified[i]) && s.life.exitCode == s.life.notified[i]
    {
      WhatWasAnnounced(s, i);
    }
  }

  /**
    The exact condition: the announced code is the child's code k if and only if k
    is 0 or the announcer is not a pump that asked before the child was signalled.
   */
  lemma AnnouncedCodeIff(callbacks: Callbacks, actions: seq<Action>, i: nat, k: int)
    requires Possible(Init(callbacks), actions)
    requires var life := After(Init(callbacks), actions).life;
      i < |life.notified| && life.child == Some(k)
    ensures var life := After(Init(callbacks), actions).life;
      && |life.winners| == 1
      && (life.notified[i] == k <==> k == 0 || !(life.winners[0] == PumpThread && life.blindRead))
  {
    ExitInvariant(Init(callbacks), actions);
    WhatWasAnnounced(After(Init(callbacks), actions), i);
  }

  // ---------- when the pipe ends before the process ----------

  /** A run extended by one action. */
  lemma {:induction false} Extend(s: State, actions: seq<Action>, a: Action)
    requires Possible(s, actions) && Enabled(After(s, actions), a)
    ensures Possible(s, actions + [a]) && After(s, actions + [a]) == Do(After(s, actions), a)
    decreases |actions|
  {
    if actions == [] {
      assert [a][1..] == [];
      assert actions + [a] == [a];
    } else {
      assert (actions + [a])[1..] == actions[1..] + [a];
      Extend(Do(s, actions[0]), actions[1..], a);
    }
  }

  lemma More(init: State, run: seq<Action>, s: State, a: Action) returns (run': seq<Action>, s': State)
    requires Possible(init, run) && After(init, run) == s && Enabled(s, a)
    ensures Possible(init, run') && After(init, run') == s' == Do(s, a)
  {
    Extend(init, run, a);
    run', s' := run + [a], Do(s, a);
  }

  const EXIT_ONLY := NO_CALLBACKS.(onExit := Some(0))

  lemma EarlyEofArrives(init: State) returns (run: seq<Action>, s: State)
    requires init == Init(EXIT_ONLY)
    ensures Possible(init, run) && After(init, run) == s
    ensures s.pump == LastSnapshot && s.callbacks == EXIT_ONLY && s.calls == map[]
    ensures s.life == Life(true, None, 0, true, false, [], [])
  {
    run, s := [], init;
    run, s := More(init, run, s, PipeEnds);
    run, s := More(init, run, s, ReaderSends);
    run, s := More(init, run, s, PumpSteps([]));
  }

  lemma EarlyEofStoresZero(init: State) returns (run: seq<Action>, s: State)
    requires init == Init(EXIT_ONLY)
    ensures Possible(init, run) && After(init, run) == s
    ensures s.pump == StoreCode(0) && s.callbacks == EXIT_ONLY && s.calls == map[]
    ensures s.life == Life(true, None, 0, true, true, [], [])
  {
    run, s := EarlyEofReads(init);
    run, s := More(init, run, s, PumpSteps([]));
  }

  lemma EarlyEofReads(init: State) returns (run: seq<Action>, s: State)
    requires init == Init(EXIT_ONLY)
    ensures Possible(init, run) && After(init, run) == s
    ensures s.pump == ReadCode && s.callbacks == EXIT_ONLY && s.calls == map[]
    ensures s.life == Life(true, None, 0, true, false, [], [])
  {
    run, s := EarlyEofArrives(init);
    run, s := More(init, run, s, PumpSteps([]));
    run, s := More(init, run, s, Lookup(PumpThread));
    run, s := More(init, run, s, SkipCall(PumpThread));
  }

  lemma EarlyEofWins(init: State) returns (run: seq<Action>, s: State)
    requires init == Init(EXIT_ONLY)
    ensures Possible(init, run) && After(init, run) == s
    ensures s.pump == Fetch(OnExit(0), Finished) && s.callbacks == EXIT_ONLY && s.calls == map[]
    ensures s.life == Life(false, None, 0, true, true, [PumpThread], [])
  {
    run, s := EarlyEofStoresZero(init);
    run, s := More(init, run, s, PumpSteps([]));
    run, s := More(init, run, s, PumpSteps([]));
  }

  /**
    Such a run exists: the pipe reports its end before the process is signalled, the
    pump asks at once, and the host is told 0 although the child then exits with 7.
   */
  lemma EarlyEofAnnouncesZero()
    ensures exists actions ::
      && Possible(Init(EXIT_ONLY), actions)
      && After(Init(EXIT_ONLY), actions).life.notified == [0]
      && After(Init(EXIT_ONLY), actions).life.child == Some(7)
  {
    var init := Init(EXIT_ONLY);
    var run, s := EarlyEofWins(init);
    run, s := More(init, run, s, Lookup(PumpThread));
    run, s := More(init, run, s, CallBegins(PumpThread));
    run, s := More(init, run, s, ChildExits(7));
  }
}
