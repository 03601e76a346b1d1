/**
  When Drop returns although nothing but itself ends the pipe. The reader sees the
  end only when the pseudo-console is closed (conpty.rs, lines 37-38), and its three
  owners are the session, the pump and the watcher (session.rs, lines 146-147 and
  290): Drop lets go of the session's share before it joins, the other two end
  with their threads.
 */
module SessionConsole {
  import opened Common
  import opened SessionModel
  import opened SessionShape
  import opened SessionChannel
  import opened SessionExit
  import opened SessionTeardown
  import opened SessionHang
  import opened SessionReturn

  ghost predicate ReturningUnaided(s: State, run: seq<Action>) {
    Returning(s, run) && PipeEnds !in run
  }

  /** Drop can return in a run in which the pipe ends only because the console is closed. */
  ghost predicate CanReturnUnaided(s: State) {
    exists run :: ReturningUnaided(s, run)
  }

  /** The reader has read the end of the pipe. */
  predicate EofInHand(reader: Reader) {
    reader.ReaderDone? || (reader.Sending? && reader.ev.Eof?)
  }

  /**
    All three owners will let go: Drop is on neither of the two threads, and an Eof
    reaches the pump or is still to be sent by Drop.
   */
  predicate WillClose(s: State, who: Tid, at: DropStep) {
    who.HostThread? && (EofPending(s) || SyntheticAhead(at))
  }

  predicate ReturnsUnaided(s: State, who: Tid, at: DropStep) {
    RoomForReader(s, who) && (EofInHand(s.io.reader) || WillClose(s, who, at))
  }

  // ---------- otherwise: never ----------

  /** There is room, but the reader has no Eof and will not be given one. */
  predicate Starved(s: State) {
    && s.teardown.Running?
    && RoomForReader(s, s.teardown.who)
    && !EofInHand(s.io.reader)
    && !WillClose(s, s.teardown.who, s.teardown.at)
  }

  /** A Drop inside a callback of the pump or the watcher keeps that thread, and its share, alive. */
  lemma SomeoneHoldsOn(s: State)
    requires DropOk(s) && Starved(s)
    ensures !ConsoleClosed(s)
  {}

  lemma NoEofIsRead(s: State, a: Action)
    requires Enabled(s, a) && a != PipeEnds && !EofInHand(s.io.reader) && !ConsoleClosed(s)
    ensures !EofInHand(Do(s, a).io.reader)
  {
    if a.PumpSteps? || a.DropSteps? {
      assert Do(s, a).io.reader == s.io.reader;
    } else if !Reads(a) && !a.ReaderSends? {
      IoKept(s, a);
    }
  }

  lemma StillRunning(s: State, a: Action)
    requires s.teardown.Running? && !s.io.reader.ReaderDone? && Enabled(s, a)
    ensures Do(s, a).teardown.Running? && Do(s, a).teardown.who == s.teardown.who
    ensures !a.DropSteps? ==> Do(s, a).teardown == s.teardown
    ensures SyntheticAhead(Do(s, a).teardown.at) ==> SyntheticAhead(s.teardown.at)
  {
    if a.DropSteps? {
      DropMovesOn(s);
    } else {
      TeardownKept(s, a);
    }
  }

  /** No Eof for the pump: none queued, none taken, none to be sent. */
  lemma NoEofComes(s: State, a: Action)
    requires !s.teardown.Returned? && (s.teardown.Running? ==> !SyntheticAhead(s.teardown.at))
    requires !EofInHand(s.io.reader) && !EofPending(s) && Enabled(s, a)
    ensures !EofPending(Do(s, a))
  {
    if a.PumpSteps? {
      NoEofTaken(s, a.emitted);
    } else {
      LeavingKept(s, a);
      if a.ReaderSends? {
        NoEofAppended(s.io.chan, s.io.reader.ev);
      } else if a.DropSteps? || Reads(a) {
        assert Do(s, a).io.chan == s.io.chan;
      } else {
        IoKept(s, a);
      }
    }
  }

  lemma NoEofAppended(events: seq<IoEvent>, ev: IoEvent)
    requires !HasEof(events) && ev.Bytes?
    ensures !HasEof(events + [ev])
  {
    forall i | 0 <= i < |events + [ev]|
      ensures !(events + [ev])[i].Eof?
    {
      assert i < |events| ==> (events + [ev])[i] == events[i];
    }
  }

  lemma NoEofTaken(s: State, emitted: seq<TermEvent>)
    requires PumpEnabled(s) && !EofPending(s) && !s.teardown.Returned?
    ensures !EofPending(PumpDo(s, emitted))
  {
    if IsReceive(s, PumpSteps(emitted)) {
      var chan := s.io.chan;
      assert chan[0].Bytes?;
      assert forall i | 0 <= i < |chan[1..]| :: chan[1..][i] == chan[i + 1];
    } else {
      PumpKeepsChannel(s, emitted);
    }
  }

  lemma StarvedStep(s: State, a: Action)
    requires DropOk(s) && Starved(s) && Enabled(s, a) && a != PipeEnds
    ensures var s' := Do(s, a);
      && s'.teardown.Running? && s'.teardown.who == s.teardown.who
      && !ReturnsUnaided(s', s'.teardown.who, s'.teardown.at)
  {
    SomeoneHoldsOn(s);
    NoEofIsRead(s, a);
    StillRunning(s, a);
    if s.teardown.who.HostThread? {
      NoEofComes(s, a);
    }
  }

  /** Without help from the pipe Drop will not return. */
  ghost predicate Doomed(s: State) {
    DropOk(s) && s.teardown.Running? && !ReturnsUnaided(s, s.teardown.who, s.teardown.at)
  }

  lemma DoomedStep(s: State, a: Action)
    requires Doomed(s) && Enabled(s, a) && a != PipeEnds
    ensures Doomed(Do(s, a))
  {
    if RoomForReader(s, s.teardown.who) {
      StarvedStep(s, a);
    } else {
      NoRoomStep(s, s.teardown.who, a);
    }
    TeardownStep(s, a);
    ShapesStep(s, a);
    BasesStep(s, a);
  }

  lemma {:induction false} DoomedForever(s: State, run: seq<Action>)
    requires Doomed(s) && Possible(s, run) && PipeEnds !in run
    ensures After(s, run).teardown.Running?
    decreases |run|
  {
    if run != [] {
      DoomedStep(s, run[0]);
      DoomedForever(Do(s, run[0]), run[1..]);
    }
  }

  // ---------- a schedule that returns ----------

  ghost predicate HelpsUnaided(s: State, a: Action) {
    && Helps(s, a) && a != PipeEnds
    && (Do(s, a).teardown.Running? ==> ReturnsUnaided(Do(s, a), Do(s, a).teardown.who, Do(s, a).teardown.at))
  }

  lemma EofInHandHelps(s: State) returns (a: Action)
    requires Sound(s) && s.teardown.Running? && RoomForReader(s, s.teardown.who) && EofInHand(s.io.reader)
    ensures HelpsUnaided(s, a)
  {
    a := SomethingHelps(s);
    EofStaysInHand(s, a);
  }

  lemma EofStaysInHand(s: State, a: Action)
    requires Enabled(s, a) && EofInHand(s.io.reader)
    ensures a != PipeEnds && EofInHand(Do(s, a).io.reader)
  {
    if a.PumpSteps? || a.DropSteps? {
      assert Do(s, a).io.reader == s.io.reader;
    } else if !a.ReaderSends? && !Reads(a) {
      IoKept(s, a);
    }
  }

  /** While an Eof is on its way to the pump and Drop does not move, the console will still be closed. */
  lemma StillCloses(s: State, a: Action)
    requires s.teardown.Running? && Enabled(s, a) && !a.DropSteps? && EofPending(s) && s.teardown.who.HostThread?
    ensures WillClose(Do(s, a), s.teardown.who, s.teardown.at) && Do(s, a).teardown == s.teardown
  {
    BudgetStep(s, a);
    TeardownKept(s, a);
  }

  lemma {:induction false} AheadOfAppended(events: seq<IoEvent>)
    requires !HasEof(events)
    ensures HasEof(events + [Eof]) && Ahead(events + [Eof]) == |events|
  {
    assert (events + [Eof])[|events|].Eof?;
    if events != [] {
      assert events[0].Bytes?;
      assert forall i | 0 <= i < |events[1..]| :: events[1..][i] == events[i + 1];
      AheadOfAppended(events[1..]);
      assert (events + [Eof])[1..] == events[1..] + [Eof];
    }
  }

  /** Drop's steps up to the synthetic Eof. */
  lemma DropGoesAhead(s: State)
    requires DropEnabled(s) && SyntheticAhead(s.teardown.at) && ReturnsUnaided(s, s.teardown.who, s.teardown.at)
    requires !EofInHand(s.io.reader) && !EofPending(s)
    requires s.teardown.at.SyntheticEof? ==> |s.io.chan| < CHANNEL_CAPACITY
    ensures HelpsUnaided(s, DropSteps)
  {
    AheadOfAll(s.io.chan);
    if s.teardown.at.SyntheticEof? {
      AheadOfAppended(s.io.chan);
    }
  }

  /** Before the synthetic Eof. */
  lemma AheadHelps(s: State) returns (a: Action)
    requires Sound(s) && s.teardown.Running? && SyntheticAhead(s.teardown.at) && !EofInHand(s.io.reader)
    requires ReturnsUnaided(s, s.teardown.who, s.teardown.at)
    ensures HelpsUnaided(s, a)
  {
    if EofPending(s) {
      PendingMeansDone(s);
    }
    if |s.io.chan| == CHANNEL_CAPACITY && s.teardown.at.SyntheticEof? {
      PumpMakesRoom(s);
      a := PumpAction(s);
    } else {
      DropIsReady(s);
      DropGoesAhead(s);
      a := DropSteps;
    }
  }

  lemma DropIsReady(s: State)
    requires TeardownOk(s) && s.teardown.Running? && SyntheticAhead(s.teardown.at)
    ensures DropEnabled(s)
  {}

  lemma PumpMakesRoom(s: State)
    requires Sound(s) && s.teardown.Running? && s.teardown.who.HostThread? && SyntheticAhead(s.teardown.at)
    requires !EofPending(s) && s.io.chan != []
    ensures HelpsUnaided(s, PumpAction(s))
  {
    var a := PumpAction(s);
    AheadOfAll(s.io.chan);
    PumpHelps(s);
    TeardownKept(s, a);
    if a.PumpSteps? {
      NoEofTaken(s, a.emitted);
    } else {
      LeavingKept(s, a);
    }
  }

  /** After it. */
  lemma BehindHelps(s: State) returns (a: Action)
    requires Sound(s) && s.teardown.Running? && !SyntheticAhead(s.teardown.at) && !EofInHand(s.io.reader)
    requires ReturnsUnaided(s, s.teardown.who, s.teardown.at)
    ensures HelpsUnaided(s, a)
  {
    if !s.pump.Finished? {
      PumpHelps(s);
      a := PumpAction(s);
      StillCloses(s, a);
    } else if !ConsoleReleased(s.teardown) {
      a := ReleaseHelps(s);
    } else if !s.watcher.Finished? {
      WatcherHelps(s);
      a := WatcherAction(s);
      StillCloses(s, a);
    } else {
      a := ClosedHelps(s);
    }
  }

  lemma ReleaseHelps(s: State) returns (a: Action)
    requires Sound(s) && s.teardown.Running? && !SyntheticAhead(s.teardown.at) && !ConsoleReleased(s.teardown)
    requires s.pump.Finished? && ReturnsUnaided(s, s.teardown.who, s.teardown.at) && !EofInHand(s.io.reader)
    ensures HelpsUnaided(s, a)
  {
    if s.teardown.at.JoinWriter? && !s.out.writer.WriterDone? {
      a := WriterHelps(s);
      StillCloses(s, a);
    } else {
      a := DropSteps;
      NextStepHelps(s);
    }
  }

  lemma NextStepHelps(s: State)
    requires DropEnabled(s) && !SyntheticAhead(s.teardown.at) && !ConsoleReleased(s.teardown)
    requires s.pump.Finished? && ReturnsUnaided(s, s.teardown.who, s.teardown.at)
    ensures HelpsUnaided(s, DropSteps)
  {
    DropLetsGo(s);
  }

  lemma DropLetsGo(s: State)
    requires DropEnabled(s) && !SyntheticAhead(s.teardown.at) && !ConsoleReleased(s.teardown)
    ensures var s' := DropDo(s);
      && s'.io == s.io && s'.pump == s.pump && s'.teardown.Running? && s'.teardown.who == s.teardown.who
      && DropLeft(s'.teardown) < DropLeft(s.teardown) && !SyntheticAhead(s'.teardown.at)
  {}

  /** The console is closed, so the reader meets the end of the pipe. */
  lemma ClosedHelps(s: State) returns (a: Action)
    requires s.teardown.Running? && s.teardown.who.HostThread? && ConsoleClosed(s)
    requires RoomForReader(s, s.teardown.who) && !EofInHand(s.io.reader)
    ensures HelpsUnaided(s, a)
  {
    if s.io.reader.Reading? {
      a := ReaderReads(Eof);
      TeardownKept(s, a);
    } else {
      a := ReaderHelps(s);
      StillCloses(s, a);
    }
  }

  lemma {:induction false} UnaidedReturns(s: State)
    requires Sound(s) && s.teardown.Running? && ReturnsUnaided(s, s.teardown.who, s.teardown.at)
    ensures CanReturnUnaided(s)
    decreases ReaderLeft(s.io.reader), DropLeft(s.teardown), |s.io.chan|, Stage(s.pump), Remaining(s.pump),
              WatcherLeft(s.watcher), WriterLeft(s.out)
  {
    var a := UnaidedHelp(s);
    SoundStep(s, a);
    if Do(s, a).teardown.Returned? {
      assert ReturningUnaided(Do(s, a), []);
    } else {
      UnaidedReturns(Do(s, a));
    }
    PrependUnaided(s, a);
  }

  lemma UnaidedHelp(s: State) returns (a: Action)
    requires Sound(s) && s.teardown.Running? && ReturnsUnaided(s, s.teardown.who, s.teardown.at)
    ensures HelpsUnaided(s, a)
  {
    if EofInHand(s.io.reader) {
      a := EofInHandHelps(s);
    } else if SyntheticAhead(s.teardown.at) {
      a := AheadHelps(s);
    } else {
      a := BehindHelps(s);
    }
  }

  lemma PrependUnaided(s: State, a: Action)
    requires Enabled(s, a) && a != PipeEnds && CanReturnUnaided(Do(s, a))
    ensures CanReturnUnaided(s)
  {
    var run :| ReturningUnaided(Do(s, a), run);
    assert ([a] + run)[1..] == run;
    assert ReturningUnaided(s, [a] + run);
  }

  /**
    In every reachable state in which Drop is under way, on any thread and at any
    step: it can return without help if and only if there is room for the reader's
    Eof, and either the reader has that Eof already, or Drop is on a host thread and an
    Eof ends the pump.
   */
  lemma DropReturnsUnaidedIff(callbacks: Callbacks, actions: seq<Action>)
    requires Possible(Init(callbacks), actions) && After(Init(callbacks), actions).teardown.Running?
    ensures var s := After(Init(callbacks), actions);
      CanReturnUnaided(s) <==> ReturnsUnaided(s, s.teardown.who, s.teardown.at)
  {
    var s := After(Init(callbacks), actions);
    SoundInvariant(Init(callbacks), actions);
    if ReturnsUnaided(s, s.teardown.who, s.teardown.at) {
      UnaidedReturns(s);
    } else {
      forall run | Possible(s, run) && PipeEnds !in run
        ensures !Returning(s, run)
      {
        DoomedForever(s, run);
      }
    }
  }

  /** Read off the state in which the host is about to call destroy on thread t. */
  lemma DestroyReturnsUnaidedIff(callbacks: Callbacks, actions: seq<Action>, t: Tid)
    requires Possible(Init(callbacks), actions) && Enabled(After(Init(callbacks), actions), BeginDrop(t))
    ensures var s := After(Init(callbacks), actions);
      CanReturnUnaided(Do(s, BeginDrop(t))) <==>
        || s.io.reader.ReaderDone? || t.HostThread?
        || (s.io.reader == Sending(Eof) && (t == PumpThread ==> |s.io.chan| < CHANNEL_CAPACITY))
  {
    var s := After(Init(callbacks), actions);
    var run, s' := More(Init(callbacks), actions, s, BeginDrop(t));
    SoundInvariant(Init(callbacks), actions);
    BeginningChangesNothing(s, t);
    RoomBefore(s, t);
    DropReturnsUnaidedIff(callbacks, run);
  }

  /**
    Every thread but the pump's can return with the help of the pipe. Without it a
    host thread still can, the watcher's only if the reader has met the end of the pipe.
   */
  lemma DestroyOffPumpReturns(callbacks: Callbacks, actions: seq<Action>, t: Tid)
    requires Possible(Init(callbacks), actions) && Enabled(After(Init(callbacks), actions), BeginDrop(t))
    requires t != PumpThread
    ensures var s := After(Init(callbacks), actions);
      && CanReturn(Do(s, BeginDrop(t)))
      && (CanReturnUnaided(Do(s, BeginDrop(t))) <==> t.HostThread? || EofInHand(s.io.reader))
  {
    DestroyReturnsIff(callbacks, actions, t);
    DestroyReturnsUnaidedIff(callbacks, actions, t);
  }

  // ---------- two reachable states that need help ----------

  /** The host destroys the session inside on_exit, called by the watcher. */
  lemma DestroyInsideExit(init: State) returns (run: seq<Action>, s: State)
    requires init == Init(EXIT_ONLY)
    ensures Possible(init, run) && After(init, run) == s
    ensures s.teardown == Running(WatcherThread, LowerAlive) && s.pump == Recv && s.io == init.io
  {
    run, s := ExitIsNoticed(init);
    run, s := More(init, run, s, Lookup(WatcherThread));
    run, s := More(init, run, s, CallBegins(WatcherThread));
    run, s := More(init, run, s, BeginDrop(WatcherThread));
  }

  lemma ExitIsNoticed(init: State) returns (run: seq<Action>, s: State)
    requires init == Init(EXIT_ONLY)
    ensures Possible(init, run) && After(init, run) == s
    ensures s == init.(life := s.life, watcher := Fetch(OnExit(0), Finished))
  {
    run, s := ExitIsSeen(init);
    run, s := More(init, run, s, WatcherSteps);
    run, s := More(init, run, s, WatcherSteps);
  }

  lemma ExitIsSeen(init: State) returns (run: seq<Action>, s: State)
    requires init == Init(EXIT_ONLY)
    ensures Possible(init, run) && After(init, run) == s
    ensures s == init.(life := init.life.(child := Some(0)), watcher := StoreCode(0))
  {
    run, s := More(init, [], init, ChildExits(0));
    run, s := More(init, run, s, WatcherSteps);
    run, s := More(init, run, s, WatcherSteps);
  }

  /** Then the watcher cannot end, so the console stays open and the reader waits for it. */
  lemma WatcherDropNeedsHelp()
    ensures exists run ::
      && Possible(Init(EXIT_ONLY), run)
      && var s := After(Init(EXIT_ONLY), run);
         s.teardown.Running? && s.teardown.who == WatcherThread && CanReturn(s) && !CanReturnUnaided(s)
  {
    var init := Init(EXIT_ONLY);
    var run, s := DestroyInsideExit(init);
    DropReturnsIff(EXIT_ONLY, run);
    DropReturnsUnaidedIff(EXIT_ONLY, run);
  }

  /** A host thread's Drop is about to send its synthetic Eof, and finds the channel full of output. */
  lemma SyntheticEofLost(init: State) returns (run: seq<Action>, s: State)
    requires init == Init(NO_CALLBACKS)
    ensures Possible(init, run) && After(init, run) == s
    ensures s.teardown == Running(HostThread(0), StopWriter) && s.pump == Recv
    ensures s.io.reader.Reading? && !HasEof(s.io.chan)
  {
    run, s := DestroyOnHost(init);
    run, s := FillChannel(init, run, s);
    run, s := More(init, run, s, DropSteps);
    run, s := More(init, run, s, DropSteps);
  }

  /** Then no Eof reaches the pump, which waits for the end that only its own would bring. */
  lemma FullChannelNeedsHelp()
    ensures exists run ::
      && Possible(Init(NO_CALLBACKS), run)
      && var s := After(Init(NO_CALLBACKS), run);
         s.teardown.Running? && s.teardown.who == HostThread(0) && CanReturn(s) && !CanReturnUnaided(s)
  {
    var init := Init(NO_CALLBACKS);
    var run, s := SyntheticEofLost(init);
    AheadOfAll(s.io.chan);
    DropReturnsIff(NO_CALLBACKS, run);
    DropReturnsUnaidedIff(NO_CALLBACKS, run);
  }
}
