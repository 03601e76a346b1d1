/**
  Shutdown without any assumption about the scheduler. Once Drop has lowered `alive`
  and an Eof is on its way to the pump, every step of every thread brings the
  session closer to rest, so no run goes on for ever; what all of them come to is
  the subject here.
 */
module SessionShutdown {
  import opened Common
  import opened SessionModel
  import opened SessionShape
  import opened SessionChannel
  import opened SessionExit
  import opened SessionTeardown
  import opened SessionLiveness
  import opened SessionHang
  import opened SessionReturn
  import opened SessionConsole

  // ---------- every step counts ----------

  ghost predicate Begun(s: State) {
    Sound(s) && !s.teardown.NotBegun? && !s.life.alive
  }

  /** An Eof is on its way to the pump, if only in the reader's hand. */
  ghost predicate Winding(s: State) {
    Begun(s) && (EofPending(s) || s.io.reader == Sending(Eof))
  }

  /** Messages the pump may still take. */
  function ToTake(s: State): nat {
    if Leaving(s.pump) then 0 else Ahead(s.io.chan) + 1
  }

  function Places(s: State): nat {
    if |s.io.chan| < CHANNEL_CAPACITY then CHANNEL_CAPACITY - |s.io.chan| else 0
  }

  /** The steps left to the world outside. */
  function WorldLeft(s: State): nat {
    (if s.life.child.None? then 1 else 0) + Places(s) * 2 + (if s.io.reader.Reading? then 1 else 0)
  }

  function Depth(s: State): nat {
    if s.teardown.NotBegun? then 0 else |Nested(s, s.teardown.who)|
  }

  function TopRank(s: State): nat {
    if s.teardown.NotBegun? then 0 else CallRank(Top(s, s.teardown.who))
  }

  /** Lexicographic: the pump's messages, stage and round, the reader, Drop, writer, watcher, and calls around Drop. */
  predicate Lower(s': State, s: State) {
    var g, g' := Stage(s.pump), Stage(s'.pump);
    var m, m' := Remaining(s.pump), Remaining(s'.pump);
    var d, d' := DropLeft(s.teardown), DropLeft(s'.teardown);
    if ToTake(s') != ToTake(s) then ToTake(s') < ToTake(s)
    else if g' != g then g' < g
    else if m' != m then m' < m
    else if WorldLeft(s') != WorldLeft(s) then WorldLeft(s') < WorldLeft(s)
    else if d' != d then d' < d
    else if WriterLeft(s'.out) != WriterLeft(s.out) then WriterLeft(s'.out) < WriterLeft(s.out)
    else if WatcherLeft(s'.watcher) != WatcherLeft(s.watcher) then WatcherLeft(s'.watcher) < WatcherLeft(s.watcher)
    else if Depth(s') != Depth(s) then Depth(s') < Depth(s)
    else TopRank(s') < TopRank(s)
  }

  /** Nothing of the pump's changes. */
  predicate PumpSame(s': State, s: State) {
    s'.pump == s.pump && ToTake(s') == ToTake(s)
  }

  lemma PumpStepLower(s: State, emitted: seq<TermEvent>)
    requires Winding(s) && PumpEnabled(s)
    ensures Lower(PumpDo(s, emitted), s)
  {
    if !IsReceive(s, PumpSteps(emitted)) {
      SomethingToTake(s);
      PumpKeepsChannel(s, emitted);
      PumpRoundHelps(s, emitted);
    }
  }

  lemma SomethingToTake(s: State)
    requires Winding(s) && PumpEnabled(s)
    ensures s.pump.Recv? ==> s.io.chan != []
  {}

  lemma CallLower(s: State, a: Action)
    requires Winding(s) && Enabled(s, a) && CallStep(a)
    ensures Lower(Do(s, a), s)
  {
    CallStepShape(s, a);
    if Nested(s, a.t) == [] {
      CallOnBaseKeepsStacks(s, a);
      BaseCallLower(s, a);
    } else {
      NestedCallLower(s, a);
    }
  }

  lemma BaseCallLower(s: State, a: Action)
    requires Shapes(s) && Enabled(s, a) && CallStep(a) && Nested(s, a.t) == []
    ensures var s' := Do(s, a);
      if a.t == PumpThread
      then Stage(s'.pump) == Stage(s.pump) && Remaining(s'.pump) < Remaining(s.pump)
      else s'.pump == s.pump && WatcherLeft(s'.watcher) < WatcherLeft(s.watcher)
    ensures Leaving(Do(s, a).pump) == Leaving(s.pump)
  {
    CallIsCloser(s, a);
    CallStepShape(s, a);
  }

  /** Only the calls around a Drop that has returned are still nested. */
  lemma NestedCallLower(s: State, a: Action)
    requires Winding(s) && Enabled(s, a) && CallStep(a) && Nested(s, a.t) != []
    ensures var s' := Do(s, a);
      && s'.teardown == s.teardown && a.t == s.teardown.who && s'.pump == s.pump && s'.watcher == s.watcher
      && Depth(s') == Depth(s) && TopRank(s') < TopRank(s)
  {
    CallStepShape(s, a);
    CalledRank(s, a);
  }

  lemma CalledRank(s: State, a: Action)
    requires StacksOk(s) && Enabled(s, a) && CallStep(a) && Nested(s, a.t) != []
    ensures Nested(Do(s, a), a.t) == Nested(s, a.t)[..|Nested(s, a.t)| - 1] + [Called(s, a)]
    ensures CallRank(Called(s, a)) < CallRank(Top(s, a.t))
  {
    assert NestedCode(Top(s, a.t));
  }

  lemma ApiReturnLower(s: State, t: Tid)
    requires Winding(s) && Enabled(s, ApiReturns(t))
    ensures Lower(Do(s, ApiReturns(t)), s)
  {
    assert t == s.teardown.who;
    assert Nested(Do(s, ApiReturns(t)), t) == Nested(s, t)[..|Nested(s, t)| - 1];
  }

  lemma ReaderLower(s: State, a: Action)
    requires Winding(s) && Enabled(s, a) && (a.ReaderSends? || Reads(a))
    ensures Lower(Do(s, a), s)
  {
    CodesKept(s, a);
    if a.ReaderSends? {
      AppendedToTake(s, s.io.reader.ev);
    }
  }

  /** Behind an Eof, or as the only one, a message does not prolong the pump's work. */
  lemma AppendedToTake(s: State, ev: IoEvent)
    requires EofPending(s) || ev.Eof?
    ensures Leaving(s.pump) || Ahead(s.io.chan + [ev]) == Ahead(s.io.chan)
  {
    AheadOfAll(s.io.chan);
    if HasEof(s.io.chan) {
      AheadProperties(s.io.chan, ev);
    } else if ev.Eof? {
      AheadOfAppended(s.io.chan);
    }
  }

  lemma DropLower(s: State)
    requires Winding(s) && DropEnabled(s)
    ensures Lower(DropDo(s), s)
  {
    AppendedToTake(s, Eof);
    DropStepsDown(s);
  }

  lemma DropStepsDown(s: State)
    requires DropEnabled(s)
    ensures var s' := DropDo(s);
      && DropLeft(s'.teardown) < DropLeft(s.teardown) && s'.pump == s.pump && WorldLeft(s') <= WorldLeft(s)
      && (s'.io.chan == s.io.chan || s'.io.chan == s.io.chan + [Eof])
  {}

  lemma WatcherLower(s: State)
    requires Winding(s) && WatcherEnabled(s)
    ensures Lower(WatcherDo(s), s)
  {
    WatcherStepHelps(s);
    assert WatcherDo(s).out == s.out && WatcherDo(s).calls == s.calls && WatcherDo(s).life.child == s.life.child;
  }

  lemma EveryStepCounts(s: State, a: Action)
    requires Winding(s) && Enabled(s, a)
    ensures Winding(Do(s, a)) && Lower(Do(s, a), s)
  {
    WindingStep(s, a);
    if a.PumpSteps? {
      PumpStepLower(s, a.emitted);
    } else if CallStep(a) {
      CallLower(s, a);
    } else if a.ApiReturns? {
      ApiReturnLower(s, a.t);
    } else if a.ReaderSends? || Reads(a) {
      ReaderLower(s, a);
    } else if a.DropSteps? {
      DropLower(s);
    } else if a.WatcherSteps? {
      WatcherLower(s);
    } else {
      RestLower(s, a);
    }
  }

  lemma RestLower(s: State, a: Action)
    requires Winding(s) && Enabled(s, a) && (a.ChildExits? || a.WriterReceives? || a.WriterWrites?)
    ensures Lower(Do(s, a), s)
  {
    if !a.ChildExits? {
      WriterIsCloser(s, a);
    }
  }

  lemma WindingStep(s: State, a: Action)
    requires Winding(s) && Enabled(s, a)
    ensures Winding(Do(s, a))
  {
    BegunStep(s, a);
    if EofPending(s) {
      BudgetStep(s, a);
    } else {
      EofStaysOnItsWay(s, a);
    }
  }

  lemma BegunStep(s: State, a: Action)
    requires Begun(s) && Enabled(s, a)
    ensures Begun(Do(s, a))
  {
    SoundStep(s, a);
    AliveStaysLow(s, a);
    if !a.DropSteps? {
      TeardownKept(s, a);
    }
  }

  lemma EofStaysOnItsWay(s: State, a: Action)
    requires s.io.reader == Sending(Eof) && Enabled(s, a)
    ensures EofPending(Do(s, a)) || Do(s, a).io.reader == Sending(Eof)
  {
    if a.ReaderSends? {
      assert Do(s, a).io.chan[|s.io.chan|].Eof?;
    } else if a.PumpSteps? || a.DropSteps? {
      assert Do(s, a).io.reader == s.io.reader;
    } else {
      IoKept(s, a);
    }
  }

  // ---------- runs that go on while they can ----------

  /** What goes on by itself: all but the child's exit, its output, a pipe that ends early, and the host's own calls. */
  predicate Forced(a: Action) {
    || a.PumpSteps? || a.WatcherSteps? || CallStep(a) || a.ApiReturns? || a.ReaderSends? || a == ReaderReads(Eof)
    || a.WriterReceives? || a.WriterWrites? || a.DropSteps?
  }

  ghost predicate AtRest(s: State) {
    forall a | Forced(a) :: !Enabled(s, a)
  }

  ghost predicate RestsAt(states: nat -> State, i: nat) {
    AtRest(states(i)) && states(i + 1) == states(i)
  }

  /** A run that pauses only when nothing goes on by itself. No fairness: who steps next is anybody's choice. */
  ghost predicate RunsOn(states: nat -> State, actions: nat -> Action) {
    forall i: nat :: GoesOnAt(states, actions, i)
  }

  ghost predicate GoesOnAt(states: nat -> State, actions: nat -> Action, i: nat) {
    StepsAt(states, actions, i) || RestsAt(states, i)
  }

  ghost predicate RunsFrom(s: State, states: nat -> State, actions: nat -> Action) {
    states(0) == s && RunsOn(states, actions)
  }

  /** From step k on the run is at rest for good. */
  ghost predicate RestsFrom(states: nat -> State, k: nat) {
    AtRest(states(k)) && forall i: nat | i >= k :: states(i) == states(k)
  }

  lemma {:induction false} StaysPut(states: nat -> State, actions: nat -> Action, k: nat, i: nat)
    requires RunsOn(states, actions) && i >= k && forall j: nat | j >= k :: !StepsAt(states, actions, j)
    ensures states(i) == states(k)
  {
    if i > k {
      StaysPut(states, actions, k, i - 1);
      assert GoesOnAt(states, actions, i - 1);
    }
  }

  lemma NoMoreSteps(states: nat -> State, actions: nat -> Action, k: nat)
    requires RunsOn(states, actions) && forall j: nat | j >= k :: !StepsAt(states, actions, j)
    ensures RestsFrom(states, k)
  {
    assert GoesOnAt(states, actions, k);
    forall i: nat | i >= k
      ensures states(i) == states(k)
    {
      StaysPut(states, actions, k, i);
    }
  }

  ghost predicate Lowered(s': State, s: State) {
    Winding(s') && Lower(s', s)
  }

  lemma StepCountsAt(states: nat -> State, actions: nat -> Action, i: nat, s: State)
    requires StepsAt(states, actions, i) && states(i) == s && Winding(s)
    ensures Lowered(states(i + 1), s)
  {
    EveryStepCounts(s, actions(i));
  }

  lemma {:induction false} NextStep(states: nat -> State, actions: nat -> Action, i: nat, j: nat) returns (m: nat)
    requires RunsOn(states, actions) && i <= j && StepsAt(states, actions, j)
    ensures i <= m && StepsAt(states, actions, m) && states(m) == states(i)
    decreases j - i
  {
    if StepsAt(states, actions, i) {
      m := i;
    } else {
      assert GoesOnAt(states, actions, i);
      m := NextStep(states, actions, i + 1, j);
    }
  }

  lemma AfterNextStep(states: nat -> State, actions: nat -> Action, i: nat, j: nat) returns (m: nat)
    requires RunsOn(states, actions) && Winding(states(i)) && i <= j && StepsAt(states, actions, j)
    ensures m > i && Lowered(states(m), states(i))
  {
    m := NextStep(states, actions, i, j);
    StepCountsAt(states, actions, m, states(i));
    m := m + 1;
  }

  lemma {:induction false} ComesToRest(states: nat -> State, actions: nat -> Action, i: nat) returns (k: nat)
    requires RunsOn(states, actions) && Winding(states(i))
    ensures k >= i && RestsFrom(states, k) && Winding(states(k))
    decreases ToTake(states(i)), Stage(states(i).pump), Remaining(states(i).pump), WorldLeft(states(i)),
              DropLeft(states(i).teardown), WriterLeft(states(i).out), WatcherLeft(states(i).watcher),
              Depth(states(i)), TopRank(states(i))
  {
    if j: nat :| j >= i && StepsAt(states, actions, j) {
      var m := AfterNextStep(states, actions, i, j);
      k := ComesToRest(states, actions, m);
    } else {
      NoMoreSteps(states, actions, i);
      k := i;
    }
  }

  // ---------- there are such runs ----------

  ghost function Choice(s: State): (a: Action)
    ensures Forced(a) && (AtRest(s) || Enabled(s, a))
  {
    if AtRest(s) then DropSteps
    else
      var a :| Forced(a) && Enabled(s, a);
      a
  }

  ghost function Scheduled(s: State, i: nat): State {
    if i == 0 then s
    else
      var before := Scheduled(s, i - 1);
      if AtRest(before) then before else Do(before, Choice(before))
  }

  /** From every state there is one, made of such steps alone. */
  lemma RunExists(s: State) returns (states: nat -> State, actions: nat -> Action)
    ensures RunsFrom(s, states, actions)
    ensures forall i: nat :: Forced(actions(i))
  {
    states := (i: nat) => Scheduled(s, i);
    actions := (i: nat) => Choice(Scheduled(s, i));
    forall i: nat
      ensures GoesOnAt(states, actions, i)
    {
      assert states(i + 1) == if AtRest(states(i)) then states(i) else Do(states(i), Choice(states(i)));
    }
  }

  // ---------- what they come to ----------

  /** The pump's next step, if nothing is nested on its thread and it has something to take. */
  lemma PumpActs(s: State)
    requires PumpCode(s.pump) && Nested(s, PumpThread) == [] && !s.pump.Finished? && (s.pump.Recv? ==> s.io.chan != [])
    ensures Enabled(s, PumpAction(s)) && Forced(PumpAction(s))
  {}

  lemma WatcherActs(s: State)
    requires WatcherCode(s.watcher) && Nested(s, WatcherThread) == [] && !s.watcher.Finished?
    ensures Enabled(s, WatcherAction(s)) && Forced(WatcherAction(s))
  {}

  lemma PumpRests(s: State)
    requires Winding(s) && AtRest(s) && s.teardown.who != PumpThread
    ensures s.pump.Finished? && Nested(s, PumpThread) == []
  {
    if s.teardown.Running? && !s.pump.Finished? {
      NotNested(s, PumpThread);
      assert !Enabled(s, ReaderSends);
      PumpActs(s);
    }
  }

  lemma WriterRests(s: State)
    requires Winding(s) && AtRest(s) && s.teardown.Running? && s.teardown.at.JoinWriter?
    ensures s.out.writer.WriterDone?
  {
    assert !Enabled(s, WriterReceives) && !Enabled(s, WriterWrites);
  }

  lemma WatcherRests(s: State)
    requires Winding(s) && AtRest(s) && s.teardown.Running? && s.teardown.who != WatcherThread
    ensures s.watcher.Finished?
  {
    NotNested(s, WatcherThread);
    if !s.watcher.Finished? {
      WatcherActs(s);
    }
  }

  /** Drop has returned, or it waits for a reader that has not read to the end or finds the channel full. */
  lemma DropRests(s: State)
    requires Winding(s) && AtRest(s) && s.teardown.who != PumpThread
    ensures s.teardown.Returned? || (s.teardown.at.JoinReader? && !s.io.reader.ReaderDone?)
    ensures s.teardown.Running? && s.teardown.who.HostThread? ==>
              s.io.reader.Sending? && |s.io.chan| == CHANNEL_CAPACITY
  {
    PumpRests(s);
    if s.teardown.Running? {
      if s.teardown.who != WatcherThread { WatcherRests(s); }
      if s.teardown.at.JoinWriter? { WriterRests(s); }
      assert !Enabled(s, DropSteps) && !Enabled(s, ReaderSends) && !Enabled(s, ReaderReads(Eof));
    }
  }

  lemma WindingAt(states: nat -> State, actions: nat -> Action, i: nat, s: State)
    requires RunsOn(states, actions) && states(i) == s && Winding(s)
    ensures Winding(states(i + 1)) && states(i + 1).teardown.who == s.teardown.who
  {
    assert GoesOnAt(states, actions, i);
    if StepsAt(states, actions, i) {
      WindingStep(s, actions(i));
      SameOwner(s, actions(i));
    }
  }

  lemma WindingAlways(states: nat -> State, actions: nat -> Action, i: nat)
    requires RunsOn(states, actions) && Winding(states(0))
    ensures Winding(states(i)) && states(i).teardown.who == states(0).teardown.who
  {
    var who := states(0).teardown.who;
    forall j: nat | Winding(states(j)) && states(j).teardown.who == who
      ensures Winding(states(j + 1)) && states(j + 1).teardown.who == who
    {
      WindingAt(states, actions, j, states(j));
    }
    Throughout(states, (s: State) => Winding(s) && s.teardown.who == who, i);
  }

  lemma SameOwner(s: State, a: Action)
    requires !s.teardown.NotBegun? && Enabled(s, a)
    ensures !Do(s, a).teardown.NotBegun? && Do(s, a).teardown.who == s.teardown.who
  {
    if !a.DropSteps? {
      TeardownKept(s, a);
    }
  }

  /** Drop's try_send, on a thread other than the pump, finds room. */
  predicate EofGoesIn(s: State) {
    DropEnabled(s) && s.teardown.at.SyntheticEof? && s.teardown.who != PumpThread && |s.io.chan| < CHANNEL_CAPACITY
  }

  lemma EofWentIn(s: State)
    requires Sound(s) && EofGoesIn(s)
    ensures Winding(Do(s, DropSteps)) && Do(s, DropSteps).teardown.who == s.teardown.who
  {
    SoundStep(s, DropSteps);
    AliveStaysLow(s, DropSteps);
    var chan := Do(s, DropSteps).io.chan;
    assert chan[|chan| - 1].Eof?;
  }

  /** Drop has returned, or it waits for the reader; on a host thread, for one that finds the channel full. */
  predicate DownToReader(s: State) {
    || s.teardown.Returned?
    || (s.teardown.Running? && s.teardown.at.JoinReader?
        && (s.teardown.who.HostThread? ==> s.io.reader.Sending? && |s.io.chan| == CHANNEL_CAPACITY))
  }

  /** At rest for good, and the pump has ended. */
  ghost predicate PumpEndedAt(states: nat -> State, k: nat) {
    RestsFrom(states, k) && states(k).pump.Finished? && DownToReader(states(k))
  }

  /**
    After a successful try_send in a Drop on another thread, whatever the scheduler
    does and the reader keeps sending: no host code is ever nested on the pump's
    thread again, and every run comes to rest, with the pump ended and Drop returned
    or down to its wait for the reader.
   */
  lemma DropEndsThePump(callbacks: Callbacks, before: seq<Action>, states: nat -> State, actions: nat -> Action)
    requires Possible(Init(callbacks), before) && EofGoesIn(After(Init(callbacks), before))
    requires RunsFrom(Do(After(Init(callbacks), before), DropSteps), states, actions)
    ensures forall i: nat :: Nested(states(i), PumpThread) == []
    ensures exists k: nat :: PumpEndedAt(states, k)
  {
    SoundInvariant(Init(callbacks), before);
    EofWentIn(After(Init(callbacks), before));
    forall i: nat
      ensures Nested(states(i), PumpThread) == []
    {
      WindingAlways(states, actions, i);
      NothingOnPump(states(i));
    }
    var k := ComesToRest(states, actions, 0);
    WindingAlways(states, actions, k);
    PumpRests(states(k));
    DropRests(states(k));
    assert PumpEndedAt(states, k);
  }

  lemma NothingOnPump(s: State)
    requires TeardownOk(s) && !s.teardown.NotBegun? && s.teardown.who != PumpThread
    ensures Nested(s, PumpThread) == []
  {}
}
