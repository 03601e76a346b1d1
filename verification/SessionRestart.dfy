/**
  Starting a session again (session.rs, lines 106-342) waits for the reader and the
  writer of the start before: the new ones replace the old, whose Drop joins their
  threads (io.rs, lines 90-105). The old reader sees the end of its pipe once the
  old pseudo-console has lost its three owners. The session's share goes when its
  pty is replaced, but nothing wakes the old pump: no synthetic Eof is sent here.
 */
module SessionRestart {
  import opened Common
  import opened SessionModel
  import opened SessionShape
  import opened SessionChannel
  import opened SessionExit
  import opened SessionTeardown
  import opened SessionHang
  import opened SessionReturn
  import opened SessionConsole

  /** How far `start` has got: past the "already running" test, then what it has stored or replaced last. */
  datatype Phase = Checked | AliveStored | PtyReplaced | ReaderReplaced | SentinelSent | Started

  /** The threads of the start before, while `who` is inside `start`. */
  datatype World = World(before: State, who: Tid, at: Phase)

  /** `NewExits`: a thread of the new start takes the claim. */
  datatype Event = Old(a: Action) | ConsoleCloses | NewExits | StartSteps

  /** On the stack of its thread, `start` counts as a call that has still to return. */
  function Restarting(s: State, t: Tid): World {
    World(Push(s, t, Return), t, Checked)
  }

  predicate OldConsoleClosed(w: World) {
    w.before.pump.Finished? && w.before.watcher.Finished? && !w.at.Checked? && !w.at.AliveStored?
  }

  predicate CanHappen(w: World, e: Event) {
    match e
    case Old(a) => Enabled(w.before, a) && !a.BeginDrop? && a != ApiReturns(w.who)
    case ConsoleCloses => w.before.io.reader.Reading? && OldConsoleClosed(w)
    case NewExits => !w.at.Checked?
    case StartSteps =>
      match w.at
      case PtyReplaced => w.before.io.reader.ReaderDone?
      case SentinelSent => w.before.out.writer.WriterDone?
      case Started => false
      case _ => true
  }

  /** When the console closes, the reader meets the end of its pipe. */
  function Next(w: World, e: Event): World
    requires CanHappen(w, e)
  {
    match e
    case Old(a) => w.(before := Do(w.before, a))
    case ConsoleCloses => w.(before := Do(w.before, PipeEnds))
    case NewExits => w.(before := w.before.(life := w.before.life.(alive := false)))
    case StartSteps =>
      match w.at
      case Checked => w.(at := AliveStored, before := w.before.(life := w.before.life.(alive := true)))
      case AliveStored => w.(at := PtyReplaced)
      case PtyReplaced => w.(at := ReaderReplaced)
      case ReaderReplaced => w.(at := SentinelSent, before := w.before.(out := Send(w.before.out, [])))
      case _ => w.(at := Started)
  }

  predicate CanRun(w: World, events: seq<Event>)
    decreases |events|
  {
    events == [] || (CanHappen(w, events[0]) && CanRun(Next(w, events[0]), events[1..]))
  }

  function Later(w: World, events: seq<Event>): World
    requires CanRun(w, events)
    decreases |events|
  {
    if events == [] then w else Later(Next(w, events[0]), events[1..])
  }

  ghost predicate Restarts(w: World, events: seq<Event>) {
    CanRun(w, events) && Old(PipeEnds) !in events && Later(w, events).at.Started?
  }

  /** `start` returns in a run in which the old pipe ends only because the old console is closed. */
  ghost predicate RestartReturns(w: World) {
    exists events :: Restarts(w, events)
  }

  /** The old reader has met the end of its pipe, and its Eof has gone out or will find a place. */
  predicate OldReaderEnds(s: State, t: Tid) {
    || s.io.reader.ReaderDone?
    || (s.io.reader == Sending(Eof) && (t == PumpThread ==> |s.io.chan| < CHANNEL_CAPACITY))
  }

  // ---------- what holds while start runs ----------

  ghost predicate NoDropNested(s: State) {
    forall t | t in s.calls :: InDrop !in s.calls[t]
  }

  ghost predicate WorldOk(w: World) {
    && w.before.teardown.NotBegun?
    && Shapes(w.before) && BasesInCallback(w.before) && NoDropNested(w.before)
    && Nested(w.before, w.who) != [] && Top(w.before, w.who) == Return
    && ChannelOk(w.before) && EofsFromReader(w.before)
    && (w.at.SentinelSent? ==> Stopping(w.before.out))
  }

  /** The writer has ended or will meet the sentinel. */
  predicate Stopping(out: Out) {
    out.writer.WriterDone? || [] in out.queue
  }

  lemma NoDropStep(s: State, a: Action)
    requires NoDropNested(s) && StacksOk(s) && s.teardown.NotBegun? && Enabled(s, a) && !a.BeginDrop?
    ensures NoDropNested(Do(s, a)) && Do(s, a).teardown.NotBegun?
  {
    TeardownKept(s, a);
    if CallStep(a) {
      NoDropCall(s, a);
    } else if a.HostRender? || a.ApiReturns? {
      NoDropHost(s, a);
    } else {
      CallsUntouched(s, a);
    }
  }

  lemma NoDropHost(s: State, a: Action)
    requires NoDropNested(s) && Enabled(s, a) && (a.HostRender? || a.ApiReturns?)
    ensures NoDropNested(Do(s, a))
  {
    if a.HostRender? {
      assert Nested(Do(s, a), a.t) == Nested(s, a.t) + [Fetch(OnRender, Return)];
    }
  }

  lemma CallsUntouched(s: State, a: Action)
    requires Enabled(s, a) && s.teardown.NotBegun?
    requires !CallStep(a) && !a.HostRender? && !a.ApiReturns? && !a.BeginDrop?
    ensures Do(s, a).calls == s.calls
  {}

  lemma NoDropCall(s: State, a: Action)
    requires NoDropNested(s) && StacksOk(s) && Enabled(s, a) && CallStep(a)
    ensures NoDropNested(Do(s, a))
  {
    var stack := Nested(s, a.t);
    if stack != [] {
      assert NestedCode(Top(s, a.t));
      assert Called(s, a) != InDrop;
      assert Do(s, a).calls == s.calls[a.t := stack[..|stack| - 1] + [Called(s, a)]];
    } else {
      assert Do(s, a).calls == s.calls;
    }
  }

  /** Nobody but `start` itself returns from `start`. */
  lemma StarterWaits(s: State, who: Tid, a: Action)
    requires Nested(s, who) != [] && Top(s, who) == Return && s.teardown.NotBegun?
    requires Enabled(s, a) && !a.BeginDrop? && a != ApiReturns(who)
    ensures Nested(Do(s, a), who) == Nested(s, who)
  {}

  lemma OldStep(w: World, a: Action)
    requires WorldOk(w) && Enabled(w.before, a) && !a.BeginDrop? && a != ApiReturns(w.who)
    ensures WorldOk(w.(before := Do(w.before, a)))
  {
    ShapesStep(w.before, a);
    BasesStep(w.before, a);
    NoDropStep(w.before, a);
    StarterWaits(w.before, w.who, a);
    ChannelStep(w.before, a);
    EofsFromReaderStep(w.before, a);
    if Stopping(w.before.out) {
      QueueKept(w.before, a);
    }
  }

  lemma WorldStep(w: World, e: Event)
    requires WorldOk(w) && CanHappen(w, e)
    ensures WorldOk(Next(w, e)) && Next(w, e).who == w.who
  {
    match e
    case Old(a) => OldStep(w, a);
    case ConsoleCloses => OldStep(w, PipeEnds);
    case NewExits => SameThreads(w, e);
    case StartSteps => SameThreads(w, e);
  }

  lemma SameThreads(w: World, e: Event)
    requires WorldOk(w) && CanHappen(w, e) && (e.NewExits? || e.StartSteps?)
    ensures WorldOk(Next(w, e))
  {
    assert forall t :: Nested(Next(w, e).before, t) == Nested(w.before, t);
    SentinelQueued(w.before.out);
  }

  lemma SentinelQueued(out: Out)
    ensures Stopping(Send(out, []))
  {
    assert !out.writer.WriterDone? ==> Send(out, []).queue[|out.queue|] == [];
  }

  // ---------- otherwise: never ----------

  /** `start` still has to get past the old reader. */
  predicate Waiting(w: World) {
    w.at.Checked? || w.at.AliveStored? || w.at.PtyReplaced?
  }

  /** No place for the reader's Eof, or no Eof: neither in its hand nor on the way to the pump, so the pump holds on. */
  predicate Blocked(w: World) {
    Waiting(w) && (!RoomForReader(w.before, w.who) || (!EofInHand(w.before.io.reader) && !EofPending(w.before)))
  }

  lemma RoomStaysGone(w: World, a: Action)
    requires WorldOk(w) && !RoomForReader(w.before, w.who) && Enabled(w.before, a) && !a.BeginDrop?
    ensures !RoomForReader(Do(w.before, a), w.who)
  {
    if a.PumpSteps? {
      NoRoomPump(w.before, w.who, a.emitted);
    } else if Reads(a) || a.ReaderSends? || a.DropSteps? {
      NoRoomFilling(w.before, w.who, a);
    } else {
      IoKept(w.before, a);
      LeavingKept(w.before, a);
    }
  }

  lemma OldStepBlocked(w: World, a: Action)
    requires WorldOk(w) && Blocked(w) && Enabled(w.before, a) && !a.BeginDrop?
    requires a == PipeEnds ==> !RoomForReader(w.before, w.who)
    ensures Blocked(w.(before := Do(w.before, a)))
  {
    if !RoomForReader(w.before, w.who) {
      RoomStaysGone(w, a);
    } else {
      NoEofIsRead(w.before, a);
      NoEofComes(w.before, a);
    }
  }

  lemma StillBlocked(w: World, e: Event)
    requires WorldOk(w) && Blocked(w) && CanHappen(w, e) && e != Old(PipeEnds)
    ensures Blocked(Next(w, e))
  {
    match e
    case Old(a) => OldStepBlocked(w, a);
    case ConsoleCloses => OldStepBlocked(w, PipeEnds);
    case NewExits =>
      assert Next(w, e).before.io == w.before.io && Next(w, e).before.pump == w.before.pump;
    case StartSteps =>
      assert Next(w, e).before.io == w.before.io && Next(w, e).before.pump == w.before.pump;
  }

  lemma {:induction false} WaitsForever(w: World, events: seq<Event>)
    requires WorldOk(w) && Blocked(w) && CanRun(w, events) && Old(PipeEnds) !in events
    ensures Waiting(Later(w, events))
    decreases |events|
  {
    if events != [] {
      WorldStep(w, events[0]);
      StillBlocked(w, events[0]);
      WaitsForever(Next(w, events[0]), events[1..]);
    }
  }

  // ---------- a schedule that returns ----------

  ghost predicate Leads(w0: World, events: seq<Event>, w: World) {
    CanRun(w0, events) && Later(w0, events) == w && Old(PipeEnds) !in events
  }

  lemma {:induction false} Extended(w: World, events: seq<Event>, e: Event)
    requires CanRun(w, events) && CanHappen(Later(w, events), e)
    ensures CanRun(w, events + [e]) && Later(w, events + [e]) == Next(Later(w, events), e)
    decreases |events|
  {
    if events == [] {
      assert [e][1..] == [];
      assert events + [e] == [e];
    } else {
      assert (events + [e])[1..] == events[1..] + [e];
      Extended(Next(w, events[0]), events[1..], e);
    }
  }

  lemma Then(w0: World, events: seq<Event>, w: World, e: Event) returns (events': seq<Event>, w': World)
    requires Leads(w0, events, w) && WorldOk(w) && CanHappen(w, e) && e != Old(PipeEnds)
    ensures Leads(w0, events', w') && WorldOk(w') && w' == Next(w, e)
  {
    Extended(w0, events, e);
    WorldStep(w, e);
    events', w' := events + [e], Next(w, e);
  }

  /** What the innermost call on thread t does next. */
  function NestedAction(s: State, t: Tid): Action {
    match Top(s, t)
    case Fetch(_, _) => Lookup(t)
    case Ready(_, live, _) => if live then CallBegins(t) else SkipCall(t)
    case Calling(_, _) => CallEnds(t)
    case _ => ApiReturns(t)
  }

  lemma NestedGoesOn(s: State, t: Tid)
    requires StacksOk(s) && NoDropNested(s) && Nested(s, t) != []
    ensures var a := NestedAction(s, t);
      && Enabled(s, a) && (CallStep(a) || a == ApiReturns(t))
      && var s' := Do(s, a);
         && s' == s.(calls := s'.calls)
         && (forall u | u != t :: Nested(s', u) == Nested(s, u))
         && (|Nested(s', t)| < |Nested(s, t)|
             || (|Nested(s', t)| == |Nested(s, t)| && CallRank(Top(s', t)) < CallRank(Top(s, t))))
  {
    assert NestedCode(Top(s, t)) && Top(s, t) in s.calls[t];
    NestedEffect(s, t, NestedAction(s, t));
  }

  lemma NestedEffect(s: State, t: Tid, a: Action)
    requires Enabled(s, a) && Nested(s, t) != [] && NestedCode(Top(s, t)) && a == NestedAction(s, t)
    ensures var s' := Do(s, a);
      && s' == s.(calls := s'.calls)
      && Nested(s', t) == Nested(s, t)[..|Nested(s, t)| - 1] + (if CallStep(a) then [Called(s, a)] else [])
      && (forall u | u != t :: Nested(s', u) == Nested(s, u))
  {}

  /** The calls nested on a thread all return; they deliver frames and nothing else. */
  lemma {:induction false} Unwinds(w0: World, events: seq<Event>, w: World, t: Tid)
    returns (events': seq<Event>, w': World)
    requires Leads(w0, events, w) && WorldOk(w) && t != w.who
    ensures Leads(w0, events', w') && WorldOk(w') && Nested(w'.before, t) == []
    ensures w' == w.(before := w.before.(calls := w'.before.calls))
    ensures forall u | u != t :: Nested(w'.before, u) == Nested(w.before, u)
    decreases |Nested(w.before, t)|, CallRank(Top(w.before, t))
  {
    events', w' := events, w;
    if Nested(w.before, t) != [] {
      NestedGoesOn(w.before, t);
      events', w' := Then(w0, events, w, Old(NestedAction(w.before, t)));
      events', w' := Unwinds(w0, events', w', t);
    }
  }

  predicate PumpNearer(s': State, s: State) {
    || |s'.io.chan| < |s.io.chan|
    || (|s'.io.chan| == |s.io.chan| && Stage(s'.pump) < Stage(s.pump))
    || (|s'.io.chan| == |s.io.chan| && Stage(s'.pump) == Stage(s.pump) && Remaining(s'.pump) < Remaining(s.pump))
  }

  /** The pump's own next step: it gets on, and leaves the reader and the nested calls alone. */
  lemma PumpGoesOn(s: State)
    requires PumpCode(s.pump) && Nested(s, PumpThread) == [] && !s.pump.Finished?
    requires s.pump.Recv? ==> s.io.chan != []
    ensures Enabled(s, PumpAction(s))
    ensures var s' := Do(s, PumpAction(s));
      PumpNearer(s', s) && s'.io.reader == s.io.reader && s'.calls == s.calls
  {
    if s.pump.Fetch? || s.pump.Ready? || s.pump.Calling? {
      CallIsCloser(s, PumpAction(s));
      CallOnBaseKeepsStacks(s, PumpAction(s));
    } else {
      PumpStepFrame(s);
      if !IsReceive(s, PumpSteps([])) {
        PumpRoundHelps(s, []);
      }
    }
  }

  lemma PumpStepFrame(s: State)
    requires PumpEnabled(s)
    ensures var s' := PumpDo(s, []);
      && s'.io.reader == s.io.reader && s'.calls == s.calls
      && |s'.io.chan| == |s.io.chan| - if IsReceive(s, PumpSteps([])) then 1 else 0
  {}

  /** The pump makes room in a full channel. */
  lemma {:induction false} OldPumpTakesOne(w0: World, events: seq<Event>, w: World)
    returns (events': seq<Event>, w': World)
    requires Leads(w0, events, w) && WorldOk(w) && Nested(w.before, PumpThread) == []
    requires !w.before.io.reader.ReaderDone?
    ensures Leads(w0, events', w') && WorldOk(w') && |w'.before.io.chan| < CHANNEL_CAPACITY
    ensures w'.before.io.reader == w.before.io.reader && w'.who == w.who && w'.at == w.at
    decreases |w.before.io.chan|, Stage(w.before.pump), Remaining(w.before.pump)
  {
    events', w' := events, w;
    if |w.before.io.chan| >= CHANNEL_CAPACITY {
      if EofPending(w.before) {
        PendingMeansDone(w.before);
      }
      PumpGoesOn(w.before);
      events', w' := Then(w0, events, w, Old(PumpAction(w.before)));
      events', w' := OldPumpTakesOne(w0, events', w');
    }
  }

  /** `start` goes on as far as the old reader. */
  lemma {:induction false} ReplacesPty(w0: World, events: seq<Event>, w: World)
    returns (events': seq<Event>, w': World)
    requires Leads(w0, events, w) && WorldOk(w) && Waiting(w)
    ensures Leads(w0, events', w') && WorldOk(w') && w'.at.PtyReplaced? && w'.who == w.who
    ensures w'.before.io == w.before.io
    decreases w.at.Checked?, w.at.AliveStored?
  {
    events', w' := events, w;
    if !w.at.PtyReplaced? {
      events', w' := Then(w0, events, w, StartSteps);
      events', w' := ReplacesPty(w0, events', w');
    }
  }

  /** The old reader sends its Eof, and is joined. */
  lemma ReaderEnds(w0: World, events: seq<Event>, w: World) returns (events': seq<Event>, w': World)
    requires Leads(w0, events, w) && WorldOk(w) && w.at.PtyReplaced? && OldReaderEnds(w.before, w.who)
    ensures Leads(w0, events', w') && WorldOk(w') && w'.at.ReaderReplaced?
  {
    events', w' := events, w;
    if !w.before.io.reader.ReaderDone? {
      if |w.before.io.chan| >= CHANNEL_CAPACITY {
        events', w' := Unwinds(w0, events, w, PumpThread);
        events', w' := OldPumpTakesOne(w0, events', w');
      }
      events', w' := Then(w0, events', w', Old(ReaderSends));
    }
    events', w' := Then(w0, events', w', StartSteps);
  }

  /** The old writer works off its queue up to the sentinel. */
  lemma {:induction false} WriterEnds(w0: World, events: seq<Event>, w: World) returns (events': seq<Event>, w': World)
    requires Leads(w0, events, w) && WorldOk(w) && w.at.SentinelSent?
    ensures Leads(w0, events', w') && WorldOk(w') && w'.at.SentinelSent? && w'.before.out.writer.WriterDone?
    decreases WriterLeft(w.before.out)
  {
    events', w' := events, w;
    if !w.before.out.writer.WriterDone? {
      var a := if w.before.out.writer.Waiting? then WriterReceives else WriterWrites;
      WriterIsCloser(w.before, a);
      events', w' := Then(w0, events, w, Old(a));
      events', w' := WriterEnds(w0, events', w');
    }
  }

  /** From wherever `start` has got to. */
  lemma GetsThrough(w: World)
    requires WorldOk(w) && OldReaderEnds(w.before, w.who)
    ensures RestartReturns(w)
  {
    var events, w' := [], w;
    if Waiting(w) {
      events, w' := ReplacesPty(w, events, w');
      events, w' := ReaderEnds(w, events, w');
    }
    if w'.at.ReaderReplaced? {
      events, w' := Then(w, events, w', StartSteps);
    }
    if w'.at.SentinelSent? {
      events, w' := WriterEnds(w, events, w');
      events, w' := Then(w, events, w', StartSteps);
    }
    assert Restarts(w, events);
  }

  // ---------- nothing spoils it ----------

  lemma StillEnds(w: World, a: Action)
    requires WorldOk(w) && OldReaderEnds(w.before, w.who) && Enabled(w.before, a)
    ensures OldReaderEnds(Do(w.before, a), w.who)
  {
    if a.PumpSteps? {
      PumpTakesAway(w.before, a.emitted);
    } else if !a.ReaderSends? && !Reads(a) && !a.DropSteps? {
      IoKept(w.before, a);
    }
  }

  lemma PumpTakesAway(s: State, emitted: seq<TermEvent>)
    requires PumpEnabled(s)
    ensures PumpDo(s, emitted).io.reader == s.io.reader && |PumpDo(s, emitted).io.chan| <= |s.io.chan|
  {}

  lemma {:induction false} EndsAlways(w: World, events: seq<Event>)
    requires WorldOk(w) && OldReaderEnds(w.before, w.who) && CanRun(w, events)
    ensures WorldOk(Later(w, events)) && OldReaderEnds(Later(w, events).before, w.who) && Later(w, events).who == w.who
    decreases |events|
  {
    if events != [] {
      var e := events[0];
      WorldStep(w, e);
      if e.Old? || e.ConsoleCloses? {
        StillEnds(w, if e.Old? then e.a else PipeEnds);
      } else {
        assert Next(w, e).before.io == w.before.io;
      }
      EndsAlways(Next(w, e), events[1..]);
    }
  }

  /** So the condition says that there is room, and an Eof in hand; and without it everything is blocked. */
  lemma OldReaderEndsMeans(s: State, t: Tid)
    requires ChannelOk(s) && EofsFromReader(s) && s.teardown.NotBegun?
    ensures OldReaderEnds(s, t) <==> RoomForReader(s, t) && EofInHand(s.io.reader)
    ensures !OldReaderEnds(s, t) ==> !RoomForReader(s, t) || (!EofInHand(s.io.reader) && !EofPending(s))
  {
    AheadOfAll(s.io.chan);
    if EofPending(s) {
      PendingMeansDone(s);
    }
  }

  lemma {:induction false} NoDropAlways(s: State, actions: seq<Action>)
    requires Possible(s, actions) && Shapes(s) && (s.teardown.NotBegun? ==> NoDropNested(s))
    ensures After(s, actions).teardown.NotBegun? ==> NoDropNested(After(s, actions))
    decreases |actions|
  {
    if actions != [] {
      var a := actions[0];
      ShapesStep(s, a);
      if s.teardown.NotBegun? && !a.BeginDrop? {
        NoDropStep(s, a);
      } else if !a.BeginDrop? && !a.DropSteps? {
        TeardownKept(s, a);
      }
      NoDropAlways(Do(s, a), actions[1..]);
    }
  }

  lemma StartIsPushed(s: State, t: Tid)
    requires Shapes(s) && BasesInCallback(s) && NoDropNested(s) && s.teardown.NotBegun? && InHostCode(s, t)
    requires ChannelOk(s) && EofsFromReader(s)
    ensures WorldOk(Restarting(s, t))
    ensures var s' := Restarting(s, t).before; s'.io == s.io && s'.pump == s.pump
  {
    StacksPush(s, t, Return);
    BasesPush(s, t, Return);
    assert Nested(Push(s, t, Return), t) == Nested(s, t) + [Return];
  }

  lemma RestartBegins(callbacks: Callbacks, actions: seq<Action>, t: Tid)
    requires Possible(Init(callbacks), actions)
    requires var s := After(Init(callbacks), actions); s.teardown.NotBegun? && InHostCode(s, t)
    ensures var s := After(Init(callbacks), actions);
      WorldOk(Restarting(s, t)) && ChannelOk(s) && EofsFromReader(s) && Restarting(s, t).before.io == s.io
  {
    NoDropAlways(Init(callbacks), actions);
    SoundInvariant(Init(callbacks), actions);
    StartIsPushed(After(Init(callbacks), actions), t);
  }

  /**
    In every reachable state in which the session is started again on thread t,
    `alive` being down: `start` can return without help from the pipe if and only if
    the old reader has met the end of its pipe already, and, inside a callback of
    the pump, its Eof has a place in the channel.
   */
  lemma RestartReturnsIff(callbacks: Callbacks, actions: seq<Action>, t: Tid)
    requires Possible(Init(callbacks), actions)
    requires var s := After(Init(callbacks), actions);
      s.teardown.NotBegun? && InHostCode(s, t) && !s.life.alive
    ensures var s := After(Init(callbacks), actions);
      RestartReturns(Restarting(s, t)) <==> OldReaderEnds(s, t)
  {
    var s := After(Init(callbacks), actions);
    var w := Restarting(s, t);
    RestartBegins(callbacks, actions, t);
    OldReaderEndsMeans(s, t);
    if OldReaderEnds(s, t) {
      GetsThrough(w);
    } else {
      assert Blocked(w);
      forall events | CanRun(w, events) && Old(PipeEnds) !in events
        ensures !Restarts(w, events)
      {
        WaitsForever(w, events);
      }
    }
  }

  /**
    If it can, then whatever the other threads, the child and the pipe do in the
    meantime, and however far `start` has got, it still can.
   */
  lemma RestartStaysPossible(callbacks: Callbacks, actions: seq<Action>, t: Tid, events: seq<Event>)
    requires Possible(Init(callbacks), actions)
    requires var s := After(Init(callbacks), actions);
      && s.teardown.NotBegun? && InHostCode(s, t) && !s.life.alive
      && OldReaderEnds(s, t) && CanRun(Restarting(s, t), events)
    ensures RestartReturns(Later(Restarting(After(Init(callbacks), actions), t), events))
  {
    var s := After(Init(callbacks), actions);
    RestartBegins(callbacks, actions, t);
    EndsAlways(Restarting(s, t), events);
    GetsThrough(Later(Restarting(s, t), events));
  }

  // ---------- an exit that only the watcher noticed ----------

  lemma WatcherAnnounces(init: State) returns (run: seq<Action>, s: State)
    requires init == Init(NO_CALLBACKS)
    ensures Possible(init, run) && After(init, run) == s
    ensures s.teardown.NotBegun? && s.calls == map[] && !s.life.alive && s.io == init.io && s.pump == Recv
  {
    run, s := WatcherQueriesChild(init);
    run, s := More(init, run, s, WatcherSteps);
    run, s := More(init, run, s, WatcherSteps);
  }

  lemma WatcherQueriesChild(init: State) returns (run: seq<Action>, s: State)
    requires init == Init(NO_CALLBACKS)
    ensures Possible(init, run) && After(init, run) == s
    ensures s == init.(life := init.life.(child := Some(0)), watcher := StoreCode(0))
  {
    run, s := More(init, [], init, ChildExits(0));
    run, s := More(init, run, s, WatcherSteps);
    run, s := More(init, run, s, WatcherSteps);
  }

  /**
    The watcher has announced the exit and the pipe has not ended. A host thread can
    destroy the session, but cannot start it again: the old pump holds the old
    console and waits for an Eof that only its own end would bring.
   */
  lemma RestartHangsWhereDestroyReturns()
    ensures exists run ::
      && Possible(Init(NO_CALLBACKS), run)
      && var s := After(Init(NO_CALLBACKS), run);
         && !s.life.alive && Enabled(s, BeginDrop(HostThread(0)))
         && CanReturnUnaided(Do(s, BeginDrop(HostThread(0))))
         && !RestartReturns(Restarting(s, HostThread(0)))
  {
    var run, s := WatcherAnnounces(Init(NO_CALLBACKS));
    RestartReturnsIff(NO_CALLBACKS, run, HostThread(0));
    DestroyReturnsUnaidedIff(NO_CALLBACKS, run, HostThread(0));
  }
}
