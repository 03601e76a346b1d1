/**
  When Drop can no longer return. It waits for the reader, and the reader can only
  end by sending its last messages; so what counts is the room that is left, or
  that the pump will still make, in the channel. Here the pipe may also end by
  itself; SessionConsole asks when it ends because the pseudo-console is closed.
 */
module SessionHang {
  import opened Common
  import opened SessionModel
  import opened SessionShape
  import opened SessionChannel
  import opened SessionExit
  import opened SessionTeardown

  /** The pump takes no more messages: Drop runs on its thread, or it has seen an Eof. */
  predicate TakesNoMore(s: State, who: Tid) {
    who == PumpThread || Leaving(s.pump)
  }

  /** How many of the queued messages the pump will still take: all up to the first Eof. */
  function Takable(s: State, who: Tid): nat {
    if TakesNoMore(s, who) then 0 else Ahead(s.io.chan) + if HasEof(s.io.chan) then 1 else 0
  }

  function InReadersHand(reader: Reader): nat {
    if reader.Sending? && reader.ev.Bytes? then 1 else 0
  }

  /**
    The reader is done, or the messages that the pump leaves behind and the one in
    the reader's hand leave room in the channel for the reader's Eof.
   */
  predicate RoomForReader(s: State, who: Tid) {
    || s.io.reader.ReaderDone?
    || |s.io.chan| - Takable(s, who) + InReadersHand(s.io.reader) < CHANNEL_CAPACITY
  }

  ghost predicate Returning(s: State, run: seq<Action>) {
    Possible(s, run) && After(s, run).teardown.Returned?
  }

  ghost predicate CanReturn(s: State) {
    exists run :: Returning(s, run)
  }

  // ---------- no room: never ----------

  lemma {:induction false} AheadOfAll(events: seq<IoEvent>)
    ensures Ahead(events) <= |events|
    ensures !HasEof(events) ==> Ahead(events) == |events|
    ensures HasEof(events) ==> Ahead(events) < |events|
  {
    if events != [] {
      AheadOfAll(events[1..]);
      if HasEof(events[1..]) {
        var i :| 0 <= i < |events[1..]| && events[1..][i].Eof?;
        assert events[i + 1].Eof?;
      }
      if HasEof(events) && events[0].Bytes? {
        var i :| 0 <= i < |events| && events[i].Eof?;
        assert events[1..][i - 1].Eof?;
      }
    }
  }

  /** Without room there is an Eof in the channel, or the pump has taken its last message. */
  lemma NoRoomMeansEof(s: State, who: Tid)
    requires !RoomForReader(s, who)
    ensures TakesNoMore(s, who) || HasEof(s.io.chan)
  {
    AheadOfAll(s.io.chan);
  }

  lemma NoRoomPump(s: State, who: Tid, emitted: seq<TermEvent>)
    requires !RoomForReader(s, who) && PumpEnabled(s) && who != PumpThread
    ensures !RoomForReader(PumpDo(s, emitted), who)
  {
    NoRoomMeansEof(s, who);
    AheadOfAll(s.io.chan);
    if IsReceive(s, PumpSteps(emitted)) {
      AheadProperties(s.io.chan, Eof);
    } else {
      PumpKeepsChannel(s, emitted);
    }
  }

  lemma PumpKeepsChannel(s: State, emitted: seq<TermEvent>)
    requires PumpEnabled(s) && !IsReceive(s, PumpSteps(emitted))
    ensures var s' := PumpDo(s, emitted);
      s'.io.chan == s.io.chan && s'.io.reader == s.io.reader && (Leaving(s.pump) ==> Leaving(s'.pump))
    ensures s.pump.Recv? || Leaving(PumpDo(s, emitted).pump) == Leaving(s.pump)
  {}

  /** Drop is in progress on this thread. */
  predicate DropRuns(s: State, who: Tid) {
    s.teardown.Running? && s.teardown.who == who && Nested(s, who) != [] && Top(s, who) == InDrop
  }

  lemma NoRoomFilling(s: State, who: Tid, a: Action)
    requires !RoomForReader(s, who) && Enabled(s, a) && (Reads(a) || a.ReaderSends? || a.DropSteps?)
    ensures !RoomForReader(Do(s, a), who)
  {
    NoRoomMeansEof(s, who);
    CodesKept(s, a);
    ChannelGrows(s, a);
  }

  lemma NoRoomStep(s: State, who: Tid, a: Action)
    requires DropRuns(s, who) && TeardownOk(s) && !RoomForReader(s, who) && Enabled(s, a)
    ensures Do(s, a).teardown.Running? && Do(s, a).teardown.who == who && !RoomForReader(Do(s, a), who)
  {
    if a.PumpSteps? {
      NoRoomPump(s, who, a.emitted);
      TeardownKept(s, a);
    } else if Reads(a) || a.ReaderSends? || a.DropSteps? {
      NoRoomFilling(s, who, a);
      if a.DropSteps? {
        DropMovesOn(s);
      } else {
        TeardownKept(s, a);
      }
    } else {
      IoKept(s, a);
      LeavingKept(s, a);
      TeardownKept(s, a);
    }
  }

  lemma {:induction false} NoRoomForever(s: State, who: Tid, actions: seq<Action>)
    requires s.teardown.Running? && s.teardown.who == who && DropOk(s) && !RoomForReader(s, who)
    requires Possible(s, actions)
    ensures After(s, actions).teardown.Running?
    decreases |actions|
  {
    if actions != [] {
      NoRoomStep(s, who, actions[0]);
      TeardownStep(s, actions[0]);
      ShapesStep(s, actions[0]);
      BasesStep(s, actions[0]);
      NoRoomForever(Do(s, actions[0]), who, actions[1..]);
    }
  }

  // ---------- such states are reachable ----------

  const RENDER_ONLY := NO_CALLBACKS.(onRender := Some(0))

  /** The pump delivers the first frame, and the host destroys the session inside on_render. */
  lemma DestroyInsideRender(init: State) returns (run: seq<Action>, s: State)
    requires init == Init(RENDER_ONLY)
    ensures Possible(init, run) && After(init, run) == s
    ensures s.teardown == Running(PumpThread, LowerAlive) && Nested(s, PumpThread) == [InDrop]
    ensures s.io.reader.Reading? && s.io.chan == [] && s.watcher == Poll && s.calls.Keys == {PumpThread}
    ensures s.out == Out(Waiting, [], [], [], [])
  {
    run, s := FirstFrame(init);
    run, s := More(init, run, s, Lookup(PumpThread));
    run, s := More(init, run, s, CallBegins(PumpThread));
    run, s := More(init, run, s, BeginDrop(PumpThread));
  }

  lemma FirstFrame(init: State) returns (run: seq<Action>, s: State)
    requires init == Init(RENDER_ONLY)
    ensures Possible(init, run) && After(init, run) == s
    ensures s.pump == Fetch(OnRender, Rendered(false)) && s.callbacks == RENDER_ONLY
    ensures s.io.reader.Reading? && s.io.chan == [] && s.calls == map[] && s.watcher == Poll
    ensures s.teardown.NotBegun? && s.out == Out(Waiting, [], [], [], [])
  {
    run, s := FirstBytes(init);
    run, s := More(init, run, s, PumpSteps([]));
    run, s := More(init, run, s, PumpSteps([]));
    run, s := More(init, run, s, PumpSteps([]));
    run, s := More(init, run, s, PumpSteps([]));
  }

  lemma FirstBytes(init: State) returns (run: seq<Action>, s: State)
    requires init == Init(RENDER_ONLY)
    ensures Possible(init, run) && After(init, run) == s
    ensures s.pump == TryRecv && s.callbacks == RENDER_ONLY && s.bus.queue == []
    ensures s.io.reader.Reading? && s.io.chan == [] && s.calls == map[] && s.watcher == Poll
    ensures s.teardown.NotBegun? && s.out == Out(Waiting, [], [], [], [])
  {
    run, s := [], init;
    run, s := More(init, run, s, ReaderReads(Bytes([0])));
    run, s := More(init, run, s, ReaderSends);
    run, s := More(init, run, s, PumpSteps([]));
    run, s := More(init, run, s, PumpSteps([]));
  }

  lemma FillChannel(init: State, run: seq<Action>, s: State) returns (run': seq<Action>, s': State)
    requires Possible(init, run) && After(init, run) == s
    requires s.io.reader.Reading? && |s.io.chan| <= CHANNEL_CAPACITY
    ensures Possible(init, run') && After(init, run') == s'
    ensures s'.io.reader.Reading? && |s'.io.chan| == CHANNEL_CAPACITY && (!HasEof(s.io.chan) ==> !HasEof(s'.io.chan))
    ensures s' == s.(io := s'.io)
    decreases CHANNEL_CAPACITY - |s.io.chan|
  {
    run', s' := run, s;
    if |s.io.chan| < CHANNEL_CAPACITY {
      run', s' := More(init, run', s', ReaderReads(Bytes([0])));
      run', s' := More(init, run', s', ReaderSends);
      run', s' := FillChannel(init, run', s');
    }
  }

  lemma Stuck(callbacks: Callbacks, run: seq<Action>, s: State)
    requires Possible(Init(callbacks), run) && After(Init(callbacks), run) == s
    requires s.teardown.Running? && !RoomForReader(s, s.teardown.who)
    ensures s.teardown.Running? && !CanReturn(s)
  {
    DropInvariant(Init(callbacks), run);
    forall more | Possible(s, more)
      ensures !Returning(s, more)
    {
      NoRoomForever(s, s.teardown.who, more);
    }
  }

  /** A run in which Drop, called inside on_render, never returns however the run goes on. */
  lemma DropCanHang()
    ensures exists run ::
      && Possible(Init(RENDER_ONLY), run)
      && var s := After(Init(RENDER_ONLY), run);
         s.teardown.Running? && s.teardown.who == PumpThread && !CanReturn(s)
  {
    var init := Init(RENDER_ONLY);
    var run, s := DestroyInsideRender(init);
    run, s := FillChannel(init, run, s);
    Stuck(RENDER_ONLY, run, s);
  }

  /** The host calls destroy on a thread of its own; the pump takes the synthetic Eof. */
  lemma PumpTakesSyntheticEof(init: State) returns (run: seq<Action>, s: State)
    requires init == Init(NO_CALLBACKS)
    ensures Possible(init, run) && After(init, run) == s
    ensures s.teardown == Running(HostThread(0), StopWriter) && s.pump == LastSnapshot
    ensures s.io.reader.Reading? && s.io.chan == []
  {
    run, s := SyntheticEofSent(init);
    run, s := More(init, run, s, PumpSteps([]));
  }

  lemma SyntheticEofSent(init: State) returns (run: seq<Action>, s: State)
    requires init == Init(NO_CALLBACKS)
    ensures Possible(init, run) && After(init, run) == s
    ensures s.teardown == Running(HostThread(0), StopWriter) && s.pump == Recv && Nested(s, PumpThread) == []
    ensures s.io.reader.Reading? && s.io.chan == [Eof]
  {
    run, s := DestroyOnHost(init);
    run, s := More(init, run, s, DropSteps);
    run, s := More(init, run, s, DropSteps);
  }

  lemma DestroyOnHost(init: State) returns (run: seq<Action>, s: State)
    requires init == Init(NO_CALLBACKS)
    ensures Possible(init, run) && After(init, run) == s
    ensures s.teardown == Running(HostThread(0), Terminate) && Nested(s, HostThread(0)) == [InDrop]
    ensures s.pump == Recv && Nested(s, PumpThread) == [] && s.io.reader.Reading? && s.io.chan == []
  {
    run, s := More(init, [], init, BeginDrop(HostThread(0)));
    run, s := DropIsBegun(init, run, s);
  }

  lemma DropIsBegun(init: State, run: seq<Action>, s: State) returns (run': seq<Action>, s': State)
    requires Possible(init, run) && After(init, run) == s
    requires s.teardown == Running(HostThread(0), LowerAlive) && Nested(s, HostThread(0)) == [InDrop]
    ensures Possible(init, run') && After(init, run') == s'
    ensures s' == s.(life := s.life.(alive := false), callbacks := NO_CALLBACKS,
                     teardown := Running(HostThread(0), Terminate))
  {
    run', s' := More(init, run, s, DropSteps);
    run', s' := More(init, run', s', DropSteps);
  }

  /**
    So does a run in which a host thread calls destroy: the pump ends with the
    synthetic Eof, and the reader, still busy, fills the channel behind it.
   */
  lemma HostDropCanHang()
    ensures exists run ::
      && Possible(Init(NO_CALLBACKS), run)
      && var s := After(Init(NO_CALLBACKS), run);
         s.teardown.Running? && s.teardown.who == HostThread(0) && !CanReturn(s)
  {
    var init := Init(NO_CALLBACKS);
    var run, s := PumpTakesSyntheticEof(init);
    run, s := FillChannel(init, run, s);
    Stuck(NO_CALLBACKS, run, s);
  }
}
