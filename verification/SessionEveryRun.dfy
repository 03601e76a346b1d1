/**
  When Drop returns in every run, however the threads are scheduled and whatever
  comes through the pipe. SessionReturn and SessionConsole ask for one run that
  returns; here a single run that does not is enough to fail.
 */
module SessionEveryRun {
  import opened Common
  import opened SessionModel
  import opened SessionShape
  import opened SessionChannel
  import opened SessionExit
  import opened SessionTeardown
  import opened SessionLiveness
  import opened SessionHang
  import opened SessionReturn
  import opened SessionConsole
  import opened SessionShutdown

  ghost predicate Returns(states: nat -> State) {
    exists k: nat :: states(k).teardown.Returned?
  }

  /** Drop returns in every run that goes on while it can. */
  ghost predicate AlwaysReturns(s: State) {
    forall states: nat -> State, actions: nat -> Action | RunsFrom(s, states, actions) :: Returns(states)
  }

  /** Places of the channel that are taken, and the one that Drop's own Eof will take. */
  function Used(s: State, at: DropStep): nat {
    |s.io.chan| + if SyntheticAhead(at) then 1 else 0
  }

  /** The reader is done, or has its Eof in hand and the pump, or else the channel, a place for it. */
  predicate MustReturn(s: State, who: Tid, at: DropStep) {
    || s.io.reader.ReaderDone?
    || (s.io.reader == Sending(Eof) && (TakesNoMore(s, who) ==> Used(s, at) < CHANNEL_CAPACITY))
  }

  ghost predicate SureToReturn(s: State) {
    Sound(s) && s.teardown.Running? && MustReturn(s, s.teardown.who, s.teardown.at)
  }

  // ---------- if ----------

  lemma SurePump(s: State, emitted: seq<TermEvent>)
    requires SureToReturn(s) && PumpEnabled(s)
    ensures MustReturn(PumpDo(s, emitted), s.teardown.who, s.teardown.at)
  {
    if IsReceive(s, PumpSteps(emitted)) {
      if HasEof(s.io.chan) && SyntheticAhead(s.teardown.at) {
        PendingMeansDone(s);
      }
      assert s.io.chan[0].Eof? ==> HasEof(s.io.chan);
    } else {
      PumpKeepsChannel(s, emitted);
      NoRecvWithoutMessage(s);
    }
  }

  lemma NoRecvWithoutMessage(s: State)
    requires PumpEnabled(s) && s.teardown.Running?
    ensures s.pump.Recv? ==> s.io.chan != []
  {}

  lemma SureDrop(s: State)
    requires SureToReturn(s) && DropEnabled(s)
    ensures var s' := DropDo(s);
      s'.teardown.Returned? || (s'.teardown.Running? && MustReturn(s', s'.teardown.who, s'.teardown.at))
  {}

  lemma SureStep(s: State, a: Action)
    requires SureToReturn(s) && Enabled(s, a)
    ensures Do(s, a).teardown.Returned? || SureToReturn(Do(s, a))
  {
    SoundStep(s, a);
    if a.DropSteps? {
      SureDrop(s);
    } else {
      TeardownKept(s, a);
      if a.PumpSteps? {
        SurePump(s, a.emitted);
      } else {
        LeavingKept(s, a);
        if !a.ReaderSends? && !Reads(a) {
          IoKept(s, a);
        }
      }
    }
  }

  lemma SureAt(states: nat -> State, actions: nat -> Action, i: nat, s: State)
    requires RunsOn(states, actions) && states(i) == s && SureToReturn(s)
    ensures states(i + 1).teardown.Returned? || SureToReturn(states(i + 1))
  {
    assert GoesOnAt(states, actions, i);
    if StepsAt(states, actions, i) {
      SureStep(s, actions(i));
    }
  }

  lemma SureAlways(states: nat -> State, actions: nat -> Action, i: nat)
    requires RunsOn(states, actions) && SureToReturn(states(0)) && !Returns(states)
    ensures SureToReturn(states(i))
  {
    forall j: nat | SureToReturn(states(j))
      ensures SureToReturn(states(j + 1))
    {
      assert !states(j + 1).teardown.Returned?;
      SureAt(states, actions, j, states(j));
    }
    Throughout(states, (s: State) => SureToReturn(s), i);
  }

  /** While Drop is returning, something still goes on by itself. */
  lemma NotAtRest(s: State)
    requires SureToReturn(s)
    ensures !AtRest(s)
  {
    PlaceMeansRoom(s);
    var a := SomethingHelps(s);
    HelpIsForced(s, a);
  }

  lemma PlaceMeansRoom(s: State)
    requires SureToReturn(s)
    ensures RoomForReader(s, s.teardown.who) && EofInHand(s.io.reader)
  {
    AheadOfAll(s.io.chan);
  }

  lemma HelpIsForced(s: State, a: Action)
    requires Helps(s, a) && s.teardown.Running? && EofInHand(s.io.reader)
    ensures Forced(a)
  {
    if a.ChildExits? {
      ExitDoesNotHelp(s, a.code);
    }
  }

  lemma ExitDoesNotHelp(s: State, code: int)
    requires Enabled(s, ChildExits(code)) && s.teardown.Running?
    ensures !Helps(s, ChildExits(code))
  {
    assert Do(s, ChildExits(code)) == s.(life := Do(s, ChildExits(code)).life);
  }

  lemma SureWinds(s: State)
    requires SureToReturn(s) && !s.teardown.at.LowerAlive?
    ensures Winding(s)
  {
    if s.io.reader.ReaderDone? {
      DoneMeansPending(s);
    }
  }

  lemma DoneMeansPending(s: State)
    requires ChannelOk(s) && ReaderEndedWithEof(s) && s.io.reader.ReaderDone?
    ensures EofPending(s)
  {
    var i :| 0 <= i < |s.io.enqueued| && s.io.enqueued[i].Eof?;
    if i < |s.io.taken| {
      assert s.io.taken[i].Eof?;
    } else {
      assert s.io.chan[i - |s.io.taken|].Eof?;
    }
  }

  lemma SureReturns(s: State)
    requires SureToReturn(s) && !s.teardown.at.LowerAlive?
    ensures AlwaysReturns(s)
  {
    SureWinds(s);
    forall states: nat -> State, actions: nat -> Action | RunsFrom(s, states, actions)
      ensures Returns(states)
    {
      var k := ComesToRest(states, actions, 0);
      if !Returns(states) {
        SureAlways(states, actions, k);
        NotAtRest(states(k));
      }
    }
  }

  // ---------- only if ----------

  lemma DoomedAt(states: nat -> State, actions: nat -> Action, i: nat, s: State)
    requires RunsOn(states, actions) && Forced(actions(i)) && states(i) == s && Doomed(s)
    ensures Doomed(states(i + 1))
  {
    assert GoesOnAt(states, actions, i);
    if StepsAt(states, actions, i) {
      DoomedStep(s, actions(i));
    }
  }

  lemma DoomedAlways(states: nat -> State, actions: nat -> Action, i: nat)
    requires RunsOn(states, actions) && Doomed(states(0)) && forall j: nat :: Forced(actions(j))
    ensures Doomed(states(i))
  {
    forall j: nat | Doomed(states(j))
      ensures Doomed(states(j + 1))
    {
      DoomedAt(states, actions, j, states(j));
    }
    Throughout(states, (s: State) => Doomed(s), i);
  }

  lemma DoomedFails(s: State)
    requires Doomed(s)
    ensures !AlwaysReturns(s)
  {
    var states, actions := RunExists(s);
    forall i: nat
      ensures !states(i).teardown.Returned?
    {
      DoomedAlways(states, actions, i);
    }
    assert RunsFrom(s, states, actions) && !Returns(states);
  }

  /** One step, and then a run that fails. */
  lemma FailsBefore(s: State, a: Action)
    requires s.teardown.Running? && Enabled(s, a) && !AlwaysReturns(Do(s, a))
    ensures !AlwaysReturns(s)
  {
    var later: nat -> State, next: nat -> Action :| RunsFrom(Do(s, a), later, next) && !Returns(later);
    var states: nat -> State := (i: nat) => if i == 0 then s else later(i - 1);
    var actions: nat -> Action := (i: nat) => if i == 0 then a else next(i - 1);
    ShiftedRun(s, a, later, next, states, actions);
    assert forall k: nat | k > 0 :: states(k) == later(k - 1);
    assert !Returns(states);
  }

  lemma ShiftedRun(s: State, a: Action, later: nat -> State, next: nat -> Action,
                   states: nat -> State, actions: nat -> Action)
    requires Enabled(s, a) && RunsFrom(Do(s, a), later, next)
    requires states(0) == s && actions(0) == a
    requires forall i: nat :: states(i + 1) == later(i) && actions(i + 1) == next(i)
    ensures RunsFrom(s, states, actions)
  {
    forall i: nat
      ensures GoesOnAt(states, actions, i)
    {
      if i > 0 {
        var j: nat := i - 1;
        assert states(j + 1) == later(j) && states(j + 2) == later(j + 1) && actions(j + 1) == next(j);
        assert GoesOnAt(later, next, j);
      }
    }
  }

  /** More output of the child; and a full channel refuses the synthetic Eof. */
  function MoreOutput(s: State): Action {
    if |s.io.chan| >= CHANNEL_CAPACITY then DropSteps
    else if s.io.reader.Reading? then ReaderReads(Bytes([0]))
    else ReaderSends
  }

  lemma EofStaysOut(s: State)
    requires Sound(s) && s.teardown.Running? && SyntheticAhead(s.teardown.at)
    requires !EofPending(s) && !EofInHand(s.io.reader)
    ensures var a := MoreOutput(s);
      && Enabled(s, a)
      && var s' := Do(s, a);
         && s'.teardown.Running? && s'.teardown.who == s.teardown.who
         && !EofPending(s') && !EofInHand(s'.io.reader) && WorldLeft(s') <= WorldLeft(s)
         && (WorldLeft(s') < WorldLeft(s) || DropLeft(s'.teardown) < DropLeft(s.teardown))
  {
    CodesKept(s, MoreOutput(s));
    if s.io.reader.Sending? {
      NoEofAppended(s.io.chan, s.io.reader.ev);
    }
  }

  /** The child fills the channel, so the synthetic Eof is lost and nothing wakes the pump. */
  lemma {:induction false} OutputKeepsEofOut(s: State)
    requires Sound(s) && s.teardown.Running? && !EofPending(s) && !EofInHand(s.io.reader)
    ensures !AlwaysReturns(s)
    decreases WorldLeft(s), DropLeft(s.teardown)
  {
    if !SyntheticAhead(s.teardown.at) {
      DoomedFails(s);
    } else {
      var a := MoreOutput(s);
      EofStaysOut(s);
      SoundStep(s, a);
      OutputKeepsEofOut(Do(s, a));
      FailsBefore(s, a);
    }
  }

  /** The pump takes its Eof, and the child fills the channel behind it. */
  function OutputBehind(s: State): Action {
    if !Leaving(s.pump) then PumpAction(s)
    else if s.io.reader.Reading? then ReaderReads(Bytes([0]))
    else ReaderSends
  }

  lemma OutputComesBehind(s: State)
    requires Sound(s) && s.teardown.Running? && s.teardown.who != PumpThread && RoomForReader(s, s.teardown.who)
    requires EofPending(s) && !EofInHand(s.io.reader)
    ensures var a := OutputBehind(s);
      && Enabled(s, a)
      && var s' := Do(s, a);
         && s'.teardown == s.teardown && EofPending(s') && !EofInHand(s'.io.reader)
         && (Closer(s', s) || (s'.pump == s.pump && Budget(s') == Budget(s) && WorldLeft(s') < WorldLeft(s)))
  {
    var a := OutputBehind(s);
    if !Leaving(s.pump) {
      NotNested(s, PumpThread);
      PumpActs(s);
      PumpCanMove(s);
      PumpLeavesReader(s, a);
    } else {
      CodesKept(s, a);
    }
    PumpReachesTheEnd(s, a);
    TeardownKept(s, a);
  }

  lemma PumpLeavesReader(s: State, a: Action)
    requires Enabled(s, a) && (a.PumpSteps? || CallStep(a))
    ensures Do(s, a).io.reader == s.io.reader
  {
    if CallStep(a) {
      CallStepShape(s, a);
    }
  }

  lemma {:induction false} OutputBlocksReader(s: State)
    requires Sound(s) && s.teardown.Running? && s.teardown.who != PumpThread
    requires EofPending(s) && !EofInHand(s.io.reader)
    ensures !AlwaysReturns(s)
    decreases Budget(s), Stage(s.pump), Remaining(s.pump), WorldLeft(s)
  {
    if !RoomForReader(s, s.teardown.who) {
      DoomedFails(s);
    } else {
      var a := OutputBehind(s);
      OutputComesBehind(s);
      SoundStep(s, a);
      OutputBlocksReader(Do(s, a));
      FailsBefore(s, a);
    }
  }

  lemma OwnEofStep(s: State)
    requires TeardownOk(s) && s.teardown.Running? && SyntheticAhead(s.teardown.at)
    requires TakesNoMore(s, s.teardown.who) && Used(s, s.teardown.at) >= CHANNEL_CAPACITY
    ensures DropEnabled(s)
    ensures var s' := DropDo(s);
      && s'.teardown.Running? && s'.teardown.who == s.teardown.who && s'.io.reader == s.io.reader
      && TakesNoMore(s', s'.teardown.who) && Used(s', s'.teardown.at) >= CHANNEL_CAPACITY
      && DropLeft(s'.teardown) < DropLeft(s.teardown)
  {
    DropIsReady(s);
  }

  /** The synthetic Eof takes the place that the reader's needed. */
  lemma {:induction false} OwnEofBlocksReader(s: State)
    requires Sound(s) && s.teardown.Running? && s.io.reader == Sending(Eof)
    requires TakesNoMore(s, s.teardown.who) && Used(s, s.teardown.at) >= CHANNEL_CAPACITY
    ensures !AlwaysReturns(s)
    decreases DropLeft(s.teardown)
  {
    if !SyntheticAhead(s.teardown.at) {
      DoomedFails(s);
    } else {
      OwnEofStep(s);
      SoundStep(s, DropSteps);
      OwnEofBlocksReader(Do(s, DropSteps));
      FailsBefore(s, DropSteps);
    }
  }

  lemma OtherwiseFails(s: State)
    requires Sound(s) && s.teardown.Running? && !MustReturn(s, s.teardown.who, s.teardown.at)
    ensures !AlwaysReturns(s)
  {
    if s.io.reader == Sending(Eof) {
      OwnEofBlocksReader(s);
    } else if !EofPending(s) {
      OutputKeepsEofOut(s);
    } else if s.teardown.who == PumpThread {
      DoomedFails(s);
    } else {
      OutputBlocksReader(s);
    }
  }

  /**
    In every reachable state in which Drop is past its first step, on any thread:
    it returns in every run that goes on while it can, if and only if the reader is
    done, or has met the end of the pipe and its Eof has a place: in a channel that
    the pump still empties, or else beside the synthetic Eof.
   */
  lemma DropAlwaysReturnsIff(callbacks: Callbacks, actions: seq<Action>)
    requires Possible(Init(callbacks), actions)
    requires var s := After(Init(callbacks), actions); s.teardown.Running? && !s.teardown.at.LowerAlive?
    ensures var s := After(Init(callbacks), actions);
      AlwaysReturns(s) <==> MustReturn(s, s.teardown.who, s.teardown.at)
  {
    var s := After(Init(callbacks), actions);
    SoundInvariant(Init(callbacks), actions);
    if MustReturn(s, s.teardown.who, s.teardown.at) {
      SureReturns(s);
    } else {
      OtherwiseFails(s);
    }
  }

  /** Destroy called on thread t, up to and including Drop's first step. */
  function Destroying(s: State, t: Tid): State
    requires Enabled(s, BeginDrop(t))
  {
    var begun := Do(s, BeginDrop(t));
    begun.(life := begun.life.(alive := false), teardown := Running(t, ClearCallbacks))
  }

  lemma DestroyingIsReached(init: State, actions: seq<Action>, s: State, t: Tid) returns (run: seq<Action>)
    requires Possible(init, actions) && After(init, actions) == s && Enabled(s, BeginDrop(t))
    ensures Possible(init, run) && After(init, run) == Destroying(s, t)
    ensures Destroying(s, t).io == s.io && Destroying(s, t).pump == s.pump
  {
    var s';
    BeginningChangesNothing(s, t);
    run, s' := More(init, actions, s, BeginDrop(t));
    run, s' := More(init, run, s', DropSteps);
  }

  /** The same, read off the state in which the host is about to call destroy on thread t. */
  lemma DestroyAlwaysReturnsIff(callbacks: Callbacks, actions: seq<Action>, t: Tid)
    requires Possible(Init(callbacks), actions) && Enabled(After(Init(callbacks), actions), BeginDrop(t))
    ensures var s := After(Init(callbacks), actions);
      AlwaysReturns(Destroying(s, t)) <==>
        || s.io.reader.ReaderDone?
        || (s.io.reader == Sending(Eof) && (t == PumpThread ==> |s.io.chan| + 1 < CHANNEL_CAPACITY))
  {
    var s := After(Init(callbacks), actions);
    SoundInvariant(Init(callbacks), actions);
    if Leaving(s.pump) {
      PendingMeansDone(s);
    }
    var run := DestroyingIsReached(Init(callbacks), actions, s, t);
    DropAlwaysReturnsIff(callbacks, run);
  }
}
