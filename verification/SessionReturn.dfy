/**
  When Drop can return if the pipe may end by itself: for every thread that may run
  it, and from every step of it, exactly when SessionHang's RoomForReader holds.
 */
module SessionReturn {
  import opened Common
  import opened SessionModel
  import opened SessionShape
  import opened SessionChannel
  import opened SessionExit
  import opened SessionTeardown
  import opened SessionHang

  // ---------- what holds besides ----------

  /** A reader that has ended has sent an Eof. */
  ghost predicate ReaderEndedWithEof(s: State) {
    s.io.reader.ReaderDone? ==> HasEof(s.io.enqueued)
  }

  /** Past its first step Drop has lowered `alive`; waiting for the writer, it has sent the sentinel. */
  ghost predicate DropPrepared(s: State) {
    && (!AliveUntouched(s) ==> !s.life.alive)
    && (s.teardown.Running? && s.teardown.at.JoinWriter? ==> s.out.writer.WriterDone? || [] in s.out.queue)
  }

  /** Drop has not yet tried to send its synthetic Eof. */
  predicate SyntheticAhead(at: DropStep) {
    at.LowerAlive? || at.ClearCallbacks? || at.Terminate? || at.SyntheticEof?
  }

  predicate NoSyntheticYet(teardown: Teardown) {
    teardown.NotBegun? || (teardown.Running? && SyntheticAhead(teardown.at))
  }

  /** Until then every Eof comes from the reader, which ends with it. */
  ghost predicate EofsFromReader(s: State) {
    NoSyntheticYet(s.teardown) && HasEof(s.io.enqueued) ==> s.io.reader.ReaderDone?
  }

  ghost predicate Sound(s: State) {
    DropOk(s) && ChannelOk(s) && ReaderEndedWithEof(s) && DropPrepared(s) && EofsFromReader(s)
  }

  lemma EofsFromReaderStep(s: State, a: Action)
    requires EofsFromReader(s) && Enabled(s, a)
    ensures EofsFromReader(Do(s, a))
  {
    if a.ReaderSends? {
      EofAppended(s.io, s.io.reader.ev);
    } else if a.PumpSteps? {
      assert Do(s, a).io.enqueued == s.io.enqueued && Do(s, a).io.reader == s.io.reader;
    } else if !a.DropSteps? {
      EofsElsewhere(s, a);
    }
  }

  lemma EofsElsewhere(s: State, a: Action)
    requires Enabled(s, a) && !a.ReaderSends? && !a.PumpSteps? && !a.DropSteps?
    ensures Do(s, a).io.enqueued == s.io.enqueued && (s.io.reader.ReaderDone? ==> Do(s, a).io.reader.ReaderDone?)
    ensures NoSyntheticYet(Do(s, a).teardown) == NoSyntheticYet(s.teardown)
  {
    if !Reads(a) {
      IoKept(s, a);
    }
    if !a.BeginDrop? {
      TeardownKept(s, a);
    }
  }

  /** So a pending Eof then means that the reader is done. */
  lemma PendingMeansDone(s: State)
    requires ChannelOk(s) && EofsFromReader(s) && NoSyntheticYet(s.teardown) && EofPending(s)
    ensures s.io.reader.ReaderDone?
  {
    if Leaving(s.pump) {
      var n := |s.io.taken| - 1;
      assert s.io.taken[n].Eof? && s.io.enqueued[n] == s.io.taken[n];
    } else {
      var i :| 0 <= i < |s.io.chan| && s.io.chan[i].Eof?;
      assert s.io.enqueued[|s.io.taken| + i].Eof?;
    }
  }

  lemma ReaderEndedStep(s: State, a: Action)
    requires ReaderEndedWithEof(s) && Enabled(s, a)
    ensures ReaderEndedWithEof(Do(s, a))
  {
    if a.ReaderSends? {
      EofAppended(s.io, s.io.reader.ev);
    } else if a.DropSteps? {
      EofAppended(s.io, Eof);
    } else if a.PumpSteps? {
      assert Do(s, a).io.enqueued == s.io.enqueued && Do(s, a).io.reader == s.io.reader;
    } else if !Reads(a) {
      IoKept(s, a);
    }
  }

  lemma AliveStaysLow(s: State, a: Action)
    requires Enabled(s, a)
    ensures Do(s, a).life.alive ==> s.life.alive
  {
    if CallStep(a) {
      CallStepShape(s, a);
    }
  }

  lemma DropPreparedStep(s: State, a: Action)
    requires DropPrepared(s) && Enabled(s, a)
    ensures DropPrepared(Do(s, a))
  {
    AliveStaysLow(s, a);
    if a.DropSteps? {
      DropPreparedByDrop(s);
    } else if a.BeginDrop? {
      assert AliveUntouched(Do(s, a));
    } else {
      TeardownKept(s, a);
      if s.out.writer.WriterDone? || [] in s.out.queue {
        QueueKept(s, a);
      }
    }
  }

  lemma DropPreparedByDrop(s: State)
    requires DropPrepared(s) && DropEnabled(s)
    ensures DropPrepared(DropDo(s))
  {
    if s.teardown.at.StopWriter? && !s.out.writer.WriterDone? {
      assert DropDo(s).out.queue[|s.out.queue|] == [];
    }
  }

  /** A sentinel in the queue stays there until the writer takes it and ends. */
  lemma QueueKept(s: State, a: Action)
    requires Enabled(s, a) && (s.out.writer.WriterDone? || [] in s.out.queue)
    ensures Do(s, a).out.writer.WriterDone? || [] in Do(s, a).out.queue
  {
    if a.WriterReceives? {
      assert s.out.queue == [s.out.queue[0]] + s.out.queue[1..];
    } else if CallStep(a) {
      CallStepShape(s, a);
    }
  }

  lemma SoundStep(s: State, a: Action)
    requires Sound(s) && Enabled(s, a)
    ensures Sound(Do(s, a))
  {
    TeardownStep(s, a);
    ShapesStep(s, a);
    BasesStep(s, a);
    ChannelStep(s, a);
    ReaderEndedStep(s, a);
    DropPreparedStep(s, a);
    EofsFromReaderStep(s, a);
  }

  lemma {:induction false} SoundInvariant(s: State, actions: seq<Action>)
    requires Sound(s) && Possible(s, actions)
    ensures Sound(After(s, actions))
    decreases |actions|
  {
    if actions != [] {
      SoundStep(s, actions[0]);
      SoundInvariant(Do(s, actions[0]), actions[1..]);
    }
  }

  lemma NotNested(s: State, t: Tid)
    requires TeardownOk(s) && s.teardown.Running? && s.teardown.who != t
    ensures Nested(s, t) == []
  {}

  // ---------- a schedule that returns ----------

  function ReaderLeft(reader: Reader): nat {
    match reader
    case ReaderDone => 0
    case Reading => 2
    case Sending(ev) => if ev.Eof? then 1 else 3
  }

  function DropLeft(teardown: Teardown): nat {
    match teardown
    case Running(_, at) => (
      match at
      case LowerAlive => 10
      case ClearCallbacks => 9
      case Terminate => 8
      case SyntheticEof => 7
      case StopWriter => 6
      case JoinWriter => 5
      case ReleasePty => 4
      case JoinPump => 3
      case JoinWatcher => 2
      case JoinReader => 1)
    case _ => 0
  }

  function WatcherLeft(code: Code): nat {
    match code
    case QueryChild => 10
    case StoreCode(_) => 9
    case SwapAlive(_) => 8
    case Nap(_) => 2
    case Poll => 1
    case _ => Remaining(code)
  }

  function WriterLeft(out: Out): nat {
    2 * |out.queue| + if out.writer.Writing? then 1 else 0
  }

  /** Lexicographic: reader, Drop, queued messages, stage and rest of the pump's round, watcher, writer. */
  predicate Nearer(s': State, s: State) {
    var r, r' := ReaderLeft(s.io.reader), ReaderLeft(s'.io.reader);
    var d, d' := DropLeft(s.teardown), DropLeft(s'.teardown);
    var c, c' := |s.io.chan|, |s'.io.chan|;
    var g, g' := Stage(s.pump), Stage(s'.pump);
    var m, m' := Remaining(s.pump), Remaining(s'.pump);
    var w, w' := WatcherLeft(s.watcher), WatcherLeft(s'.watcher);
    if r' != r then r' < r
    else if d' != d then d' < d
    else if c' != c then c' < c
    else if g' != g then g' < g
    else if m' != m then m' < m
    else if w' != w then w' < w
    else WriterLeft(s'.out) < WriterLeft(s.out)
  }

  /** One step of a schedule that ends in Drop returning. */
  ghost predicate Helps(s: State, a: Action) {
    && Enabled(s, a)
    && (Do(s, a).teardown.Returned?
        || (Do(s, a).teardown.Running? && RoomForReader(Do(s, a), Do(s, a).teardown.who) && Nearer(Do(s, a), s)))
  }

  lemma ReaderHelps(s: State) returns (a: Action)
    requires s.teardown.Running? && RoomForReader(s, s.teardown.who)
    requires !s.io.reader.ReaderDone? && (s.io.reader.Reading? || |s.io.chan| < CHANNEL_CAPACITY)
    ensures Helps(s, a) && a == if s.io.reader.Reading? then PipeEnds else ReaderSends
  {
    if s.io.reader.Reading? {
      a := PipeEnds;
    } else {
      a := ReaderSends;
      AheadOfAll(s.io.chan);
      AheadOfAll(Do(s, a).io.chan);
    }
    CodesKept(s, a);
    ChannelGrows(s, a);
  }

  lemma PumpCallHelps(s: State)
    requires PumpCode(s.pump) && Nested(s, PumpThread) == [] && s.teardown.Running? && s.teardown.who != PumpThread
    requires RoomForReader(s, s.teardown.who) && (s.pump.Fetch? || s.pump.Ready? || s.pump.Calling?)
    ensures Helps(s, PumpAction(s))
  {
    CallStepShape(s, PumpAction(s));
    CallIsCloser(s, PumpAction(s));
  }

  lemma PumpStepHelps(s: State)
    requires PumpEnabled(s) && PumpCode(s.pump) && s.teardown.Running? && s.teardown.who != PumpThread
    requires RoomForReader(s, s.teardown.who) && (s.pump.Recv? ==> s.io.chan != [])
    ensures Helps(s, PumpSteps([]))
  {
    var a := PumpSteps([]);
    TeardownKept(s, a);
    AheadOfAll(s.io.chan);
    if IsReceive(s, a) {
      PumpReceiveHelps(s);
    } else {
      PumpKeepsChannel(s, []);
      PumpRoundHelps(s, []);
    }
  }

  lemma PumpReceiveHelps(s: State)
    requires IsReceive(s, PumpSteps([])) && PumpEnabled(s) && s.teardown.Running? && s.teardown.who != PumpThread
    requires RoomForReader(s, s.teardown.who)
    ensures Helps(s, PumpSteps([]))
  {
    var chan := s.io.chan;
    AheadOfAll(chan);
    AheadOfAll(chan[1..]);
    if HasEof(chan) {
      AheadProperties(chan, Eof);
    } else {
      assert forall i | 0 <= i < |chan[1..]| :: chan[1..][i] == chan[i + 1];
    }
  }

  lemma PumpRoundHelps(s: State, emitted: seq<TermEvent>)
    requires PumpEnabled(s) && !IsReceive(s, PumpSteps(emitted)) && !s.pump.Recv?
    ensures var s' := PumpDo(s, emitted);
      Stage(s'.pump) < Stage(s.pump) || (Stage(s'.pump) == Stage(s.pump) && Remaining(s'.pump) < Remaining(s.pump))
  {}

  /** A pump that still runs can move, if there is something to receive. */
  lemma PumpHelps(s: State)
    requires Sound(s) && s.teardown.Running? && s.teardown.who != PumpThread && !s.pump.Finished?
    requires RoomForReader(s, s.teardown.who) && (s.pump.Recv? ==> s.io.chan != [])
    ensures Helps(s, PumpAction(s))
  {
    NotNested(s, PumpThread);
    if s.pump.Fetch? || s.pump.Ready? || s.pump.Calling? {
      PumpCallHelps(s);
    } else {
      PumpStepHelps(s);
    }
  }

  function WatcherAction(s: State): Action {
    match s.watcher
    case Fetch(_, _) => Lookup(WatcherThread)
    case Ready(_, live, _) => if live then CallBegins(WatcherThread) else SkipCall(WatcherThread)
    case Calling(_, _) => CallEnds(WatcherThread)
    case _ => WatcherSteps
  }

  lemma WatcherHelps(s: State)
    requires Sound(s) && s.teardown.Running? && s.teardown.who != WatcherThread && !s.watcher.Finished?
    requires RoomForReader(s, s.teardown.who) && !s.life.alive
    ensures Helps(s, WatcherAction(s))
  {
    NotNested(s, WatcherThread);
    if s.watcher.Fetch? || s.watcher.Ready? || s.watcher.Calling? {
      WatcherCallHelps(s);
    } else {
      WatcherStepHelps(s);
    }
  }

  lemma WatcherCallHelps(s: State)
    requires WatcherCode(s.watcher) && Nested(s, WatcherThread) == [] && s.teardown.Running?
    requires RoomForReader(s, s.teardown.who) && (s.watcher.Fetch? || s.watcher.Ready? || s.watcher.Calling?)
    ensures Helps(s, WatcherAction(s))
  {
    CallStepShape(s, WatcherAction(s));
  }

  lemma WatcherStepHelps(s: State)
    requires WatcherEnabled(s) && !s.life.alive
    ensures var s' := WatcherDo(s);
      && s'.io == s.io && s'.teardown == s.teardown && s'.pump == s.pump
      && WatcherLeft(s'.watcher) < WatcherLeft(s.watcher)
  {}

  lemma WriterHelps(s: State) returns (a: Action)
    requires Sound(s) && s.teardown.Running? && s.teardown.at.JoinWriter? && !s.out.writer.WriterDone?
    requires RoomForReader(s, s.teardown.who)
    ensures Helps(s, a) && (a.WriterReceives? || a.WriterWrites?)
  {
    a := if s.out.writer.Waiting? then WriterReceives else WriterWrites;
    WriterIsCloser(s, a);
    IoKept(s, a);
  }

  lemma WriterIsCloser(s: State, a: Action)
    requires Enabled(s, a) && (a.WriterReceives? || a.WriterWrites?)
    ensures WriterLeft(Do(s, a).out) < WriterLeft(s.out) && Do(s, a) == s.(out := Do(s, a).out)
  {}

  lemma DropHelps(s: State)
    requires DropEnabled(s) && s.io.reader.ReaderDone?
    ensures Helps(s, DropSteps)
  {
    CodesKept(s, DropSteps);
  }

  lemma SomethingHelps(s: State) returns (a: Action)
    requires Sound(s) && s.teardown.Running? && RoomForReader(s, s.teardown.who)
    ensures Helps(s, a)
  {
    var who, reader := s.teardown.who, s.io.reader;
    if !reader.ReaderDone? {
      if reader.Reading? || |s.io.chan| < CHANNEL_CAPACITY {
        a := ReaderHelps(s);
      } else {
        assert !TakesNoMore(s, who);
        PumpHelps(s);
        a := PumpAction(s);
      }
    } else if who != PumpThread && !s.pump.Finished? {
      if s.pump.Recv? {
        EofAwaitsPump(s);
      }
      PumpHelps(s);
      a := PumpAction(s);
    } else {
      a := OthersHelp(s);
    }
  }

  lemma EofAwaitsPump(s: State)
    requires ChannelOk(s) && ReaderEndedWithEof(s) && s.io.reader.ReaderDone? && s.pump.Recv?
    ensures s.io.chan != []
  {
    assert s.io.taken + [] == s.io.taken;
  }

  /** The reader and the pump are out of the way. */
  lemma OthersHelp(s: State) returns (a: Action)
    requires Sound(s) && s.teardown.Running? && s.io.reader.ReaderDone?
    requires s.teardown.who == PumpThread || s.pump.Finished?
    ensures Helps(s, a)
  {
    var who, at := s.teardown.who, s.teardown.at;
    if !at.LowerAlive? && who != WatcherThread && !s.watcher.Finished? {
      WatcherHelps(s);
      a := WatcherAction(s);
    } else if at.JoinWriter? && !s.out.writer.WriterDone? {
      a := WriterHelps(s);
    } else {
      DropHelps(s);
      a := DropSteps;
    }
  }

  lemma Prepend(s: State, a: Action)
    requires Enabled(s, a) && CanReturn(Do(s, a))
    ensures CanReturn(s)
  {
    var run :| Returning(Do(s, a), run);
    assert ([a] + run)[1..] == run;
    assert Returning(s, [a] + run);
  }

  lemma {:induction false} RoomReturns(s: State)
    requires Sound(s) && s.teardown.Running? && RoomForReader(s, s.teardown.who)
    ensures CanReturn(s)
    decreases ReaderLeft(s.io.reader), DropLeft(s.teardown), |s.io.chan|, Stage(s.pump), Remaining(s.pump),
              WatcherLeft(s.watcher), WriterLeft(s.out)
  {
    var a := SomethingHelps(s);
    SoundStep(s, a);
    if Do(s, a).teardown.Returned? {
      assert Returning(Do(s, a), []);
    } else {
      RoomReturns(Do(s, a));
    }
    Prepend(s, a);
  }

  /**
    In every reachable state in which Drop is under way, on any thread and at any
    step: it can still return, the pipe ending by itself if need be, if and only if
    the reader is done, or what the pump leaves in the channel and the reader has in
    hand leaves room for the reader's Eof.
   */
  lemma DropReturnsIff(callbacks: Callbacks, actions: seq<Action>)
    requires Possible(Init(callbacks), actions) && After(Init(callbacks), actions).teardown.Running?
    ensures var s := After(Init(callbacks), actions);
      CanReturn(s) <==> RoomForReader(s, s.teardown.who)
  {
    var s := After(Init(callbacks), actions);
    SoundInvariant(Init(callbacks), actions);
    if RoomForReader(s, s.teardown.who) {
      RoomReturns(s);
    } else {
      Stuck(callbacks, actions, s);
    }
  }

  /**
    Read off the state in which the host is about to call destroy on thread t: every
    thread but the pump's can return, and the pump's if there is room for what the
    reader has in hand and its Eof.
   */
  lemma DestroyReturnsIff(callbacks: Callbacks, actions: seq<Action>, t: Tid)
    requires Possible(Init(callbacks), actions) && Enabled(After(Init(callbacks), actions), BeginDrop(t))
    ensures var s := After(Init(callbacks), actions);
      CanReturn(Do(s, BeginDrop(t))) <==>
        || s.io.reader.ReaderDone? || t != PumpThread
        || |s.io.chan| + InReadersHand(s.io.reader) < CHANNEL_CAPACITY
  {
    var s := After(Init(callbacks), actions);
    var run, s' := More(Init(callbacks), actions, s, BeginDrop(t));
    SoundInvariant(Init(callbacks), actions);
    BeginningChangesNothing(s, t);
    RoomBefore(s, t);
    DropReturnsIff(callbacks, run);
  }

  lemma BeginningChangesNothing(s: State, t: Tid)
    requires Enabled(s, BeginDrop(t))
    ensures var s' := Do(s, BeginDrop(t));
      && s'.teardown == Running(t, LowerAlive) && RoomForReader(s', t) == RoomForReader(s, t)
      && s'.io == s.io && s'.pump == s.pump
  {
    CodesKept(s, BeginDrop(t));
    IoKept(s, BeginDrop(t));
  }

  lemma RoomBefore(s: State, t: Tid)
    requires ChannelOk(s) && EofsFromReader(s) && NoSyntheticYet(s.teardown)
    ensures RoomForReader(s, t) <==>
      || s.io.reader.ReaderDone? || t != PumpThread
      || |s.io.chan| + InReadersHand(s.io.reader) < CHANNEL_CAPACITY
  {
    AheadOfAll(s.io.chan);
    if EofPending(s) {
      PendingMeansDone(s);
    }
  }
}
