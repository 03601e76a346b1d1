/**
  The reader-to-pump channel over every interleaving: nothing is lost or
  reordered, and the pump that drains its channel in batches feeds the terminal
  exactly what a pump taking one message per round would feed it.
 */
module SessionChannel {
  import opened Common
  import opened SessionModel
  import opened SessionShape

  predicate NoEof(events: seq<IoEvent>) {
    forall i | 0 <= i < |events| :: events[i].Bytes?
  }

  /** The bytes carried by a list of messages. */
  function Payload(events: seq<IoEvent>): seq<Byte> {
    if events == [] then []
    else (if events[0].Bytes? then events[0].buf else []) + Payload(events[1..])
  }

  /** The reference pump: one message per round, stopping at the first Eof. */
  function OneAtATime(events: seq<IoEvent>): (seq<Byte>, bool) {
    if events == [] then ([], false)
    else match events[0]
      case Eof => ([], true)
      case Bytes(buf) => var (more, eof) := OneAtATime(events[1..]); (buf + more, eof)
  }

  lemma {:induction false} PayloadAppend(events: seq<IoEvent>, ev: IoEvent)
    ensures Payload(events + [ev]) == Payload(events) + if ev.Bytes? then ev.buf else []
  {
    if events == [] {
      assert [ev][1..] == [];
    } else {
      assert (events + [ev])[1..] == events[1..] + [ev];
      PayloadAppend(events[1..], ev);
    }
  }

  lemma {:induction false} OneAtATimeStops(events: seq<IoEvent>, rest: seq<IoEvent>)
    requires NoEof(events)
    ensures OneAtATime(events) == (Payload(events), false)
    ensures OneAtATime(events + [Eof] + rest) == (Payload(events), true)
  {
    if events == [] {
      assert (events + [Eof] + rest)[0] == Eof;
    } else {
      assert (events + [Eof] + rest)[1..] == events[1..] + [Eof] + rest;
      OneAtATimeStops(events[1..], rest);
    }
  }

  /** Bytes the pump has taken out of the channel but not yet given to the terminal. */
  function InHand(code: Code): seq<Byte> {
    match code
    case Advance(buf) => buf
    case Fetch(_, next) => InHand(next)
    case Ready(_, _, next) => InHand(next)
    case Calling(_, next) => InHand(next)
    case _ => []
  }

  /** The pump is on its way out of the loop. */
  predicate Leaving(code: Code) {
    match code
    case Drain(eof) => eof
    case Dispatch(eof, _) => eof
    case Snapshot(eof) => eof
    case Rendered(eof) => eof
    case LastSnapshot | ReadCode | StoreCode(_) | SwapAlive(_) | Finished => true
    case Fetch(_, next) => Leaving(next)
    case Ready(_, _, next) => Leaving(next)
    case Calling(_, next) => Leaving(next)
    case _ => false
  }

  predicate EndsAtFirstEof(events: seq<IoEvent>) {
    events != [] && events[|events| - 1] == Eof && NoEof(events[..|events| - 1])
  }

  ghost predicate Conserved(s: State) {
    && s.io.enqueued == s.io.taken + s.io.chan
    && |s.io.chan| <= CHANNEL_CAPACITY
    && Payload(s.io.taken) == s.io.applied + InHand(s.pump)
  }

  ghost predicate EofSeenOnce(s: State) {
    && (!Leaving(s.pump) ==> NoEof(s.io.taken))
    && (Leaving(s.pump) ==>
          || EndsAtFirstEof(s.io.taken)
          || (s.pump.Finished? && NoEof(s.io.taken) && Disconnected(s)))
    && (s.teardown.Returned? ==> s.io.reader.ReaderDone?)
  }

  lemma ConservedStep(s: State, a: Action)
    requires Conserved(s) && Enabled(s, a)
    ensures Conserved(Do(s, a))
  {
    var s' := Do(s, a);
    if a.PumpSteps? {
      PumpConserves(s, a.emitted);
    } else {
      if CallStep(a) {
        CallStepShape(s, a);
      } else {
        CodesKept(s, a);
      }
      if Reads(a) || a.ReaderSends? || a.DropSteps? {
        FillingConserves(s, a);
      } else {
        IoKept(s, a);
      }
    }
  }

  /** Steps at the other end of the channel. */
  lemma FillingConserves(s: State, a: Action)
    requires Conserved(s) && Enabled(s, a) && (Reads(a) || a.ReaderSends? || a.DropSteps?)
    ensures Conserved(Do(s, a))
  {
    CodesKept(s, a);
  }

  lemma PumpConserves(s: State, emitted: seq<TermEvent>)
    requires Conserved(s) && PumpEnabled(s)
    ensures Conserved(PumpDo(s, emitted))
  {
    var s' := PumpDo(s, emitted);
    if (s.pump.Recv? || s.pump.TryRecv?) && s.io.chan != [] {
      PayloadAppend(s.io.taken, s.io.chan[0]);
      assert s.io.taken + [s.io.chan[0]] + s.io.chan[1..] == s.io.taken + s.io.chan;
    } else if s.pump.Advance? {
      assert s'.io == s.io.(applied := s.io.applied + s.pump.buf) && s'.pump == TryRecv;
    } else {
      PumpElsewhere(s, emitted);
    }
  }

  /** Pump steps that neither receive nor advance. */
  lemma PumpElsewhere(s: State, emitted: seq<TermEvent>)
    requires PumpEnabled(s) && !s.pump.Advance? && (s.pump.Recv? || s.pump.TryRecv? ==> s.io.chan == [])
    ensures PumpDo(s, emitted).io == s.io && InHand(PumpDo(s, emitted).pump) == InHand(s.pump)
  {}

  lemma EofStep(s: State, a: Action)
    requires EofSeenOnce(s) && Enabled(s, a)
    ensures EofSeenOnce(Do(s, a))
  {
    if a.PumpSteps? {
      PumpEofStep(s, a.emitted);
    } else {
      LeavingKept(s, a);
      TakenKept(s, a);
      if Reads(a) || a.ReaderSends? || a.DropSteps? {
        FillingEofStep(s, a);
      } else {
        IoKept(s, a);
        if a.BeginDrop? {
          assert Do(s, a).teardown.Running?;
        } else {
          TeardownKept(s, a);
        }
      }
    }
  }

  /** Only the pump's own steps take messages or make it leave its loop. */
  lemma LeavingKept(s: State, a: Action)
    requires Enabled(s, a) && !a.PumpSteps?
    ensures Leaving(Do(s, a).pump) == Leaving(s.pump) && (Do(s, a).pump.Finished? ==> Leaving(s.pump))
    ensures s.pump.Finished? ==> Do(s, a).pump.Finished?
  {
    if CallStep(a) {
      CallStepShape(s, a);
    } else {
      CodesKept(s, a);
    }
  }

  lemma TakenKept(s: State, a: Action)
    requires Enabled(s, a) && !a.PumpSteps?
    ensures Do(s, a).io.taken == s.io.taken
  {}

  lemma FillingEofStep(s: State, a: Action)
    requires EofSeenOnce(s) && Enabled(s, a) && (Reads(a) || a.ReaderSends? || a.DropSteps?)
    ensures EofSeenOnce(Do(s, a))
  {
    CodesKept(s, a);
  }

  lemma PumpEofStep(s: State, emitted: seq<TermEvent>)
    requires EofSeenOnce(s) && PumpEnabled(s)
    ensures EofSeenOnce(PumpDo(s, emitted))
  {
    var s' := PumpDo(s, emitted);
    match s.pump
    case Recv | TryRecv =>
      if s.io.chan != [] {
        assert s'.io.taken == s.io.taken + [s.io.chan[0]];
        assert s'.io.taken[..|s'.io.taken| - 1] == s.io.taken;
      }
    case _ =>
      assert s'.io.taken == s.io.taken;
      assert Leaving(s'.pump) == Leaving(s.pump);
  }

  ghost predicate ChannelOk(s: State) {
    Conserved(s) && EofSeenOnce(s)
  }

  lemma ChannelStep(s: State, a: Action)
    requires ChannelOk(s) && Enabled(s, a)
    ensures ChannelOk(Do(s, a))
  {
    ConservedStep(s, a);
    EofStep(s, a);
  }

  lemma {:induction false} ChannelInvariant(s: State, actions: seq<Action>)
    requires ChannelOk(s) && Possible(s, actions)
    ensures ChannelOk(After(s, actions))
    decreases |actions|
  {
    if actions != [] {
      ChannelStep(s, actions[0]);
      ChannelInvariant(Do(s, actions[0]), actions[1..]);
    }
  }

  /**
    In every reachable state the terminal input, the buffer in the pump's hand
    and the channel add up to what was enqueued, in order; and a pump that has
    left its loop gave the terminal exactly what the reference pump gives it.
   */
  lemma NothingLostOrReordered(callbacks: Callbacks, actions: seq<Action>)
    requires Possible(Init(callbacks), actions)
    ensures var s := After(Init(callbacks), actions);
      && s.io.applied + InHand(s.pump) + Payload(s.io.chan) == Payload(s.io.enqueued)
      && |s.io.chan| <= CHANNEL_CAPACITY
      && (s.pump.Finished? ==>
            && s.io.applied == OneAtATime(s.io.enqueued).0
            && (!OneAtATime(s.io.enqueued).1 ==> s.teardown.Returned?))
  {
    var s := After(Init(callbacks), actions);
    ChannelInvariant(Init(callbacks), actions);
    PayloadConcat(s.io.taken, s.io.chan);
    if s.pump.Finished? {
      assert s.io.applied + [] == s.io.applied;
      if EndsAtFirstEof(s.io.taken) {
        StoppedAtEof(s.io.taken, s.io.chan);
      } else {
        assert s.io.enqueued == s.io.taken;
        OneAtATimeStops(s.io.taken, []);
      }
    }
  }

  /** What was taken up to the first Eof is what the reference takes, whatever is left behind. */
  lemma StoppedAtEof(taken: seq<IoEvent>, rest: seq<IoEvent>)
    requires EndsAtFirstEof(taken)
    ensures OneAtATime(taken + rest) == (Payload(taken), true)
  {
    var before := taken[..|taken| - 1];
    assert taken == before + [Eof];
    PayloadAppend(before, Eof);
    OneAtATimeStops(before, rest);
    assert Payload(before) + [] == Payload(before);
  }

  lemma {:induction false} PayloadConcat(a: seq<IoEvent>, b: seq<IoEvent>)
    ensures Payload(a + b) == Payload(a) + Payload(b)
  {
    if a == [] {
      assert a + b == b;
    } else {
      assert (a + b)[1..] == a[1..] + b;
      PayloadConcat(a[1..], b);
    }
  }

  // ---------- shutdown: how long the pump can go on ----------

  predicate HasEof(events: seq<IoEvent>) {
    exists i | 0 <= i < |events| :: events[i].Eof?
  }

  /** Messages ahead of the first Eof. */
  function Ahead(events: seq<IoEvent>): nat {
    if events == [] || events[0].Eof? then 0 else 1 + Ahead(events[1..])
  }

  lemma {:induction false} AheadProperties(events: seq<IoEvent>, ev: IoEvent)
    requires HasEof(events)
    ensures HasEof(events + [ev])
    ensures Ahead(events + [ev]) == Ahead(events) < |events|
    ensures events[0].Bytes? ==> HasEof(events[1..]) && Ahead(events[1..]) + 1 == Ahead(events)
  {
    var i :| 0 <= i < |events| && events[i].Eof?;
    assert (events + [ev])[i].Eof?;
    if events[0].Bytes? {
      assert events[1..][i - 1].Eof?;
      assert (events + [ev])[1..] == events[1..] + [ev];
      AheadProperties(events[1..], ev);
    }
  }

  /** An Eof is on its way to the pump, or has arrived. */
  predicate EofPending(s: State) {
    Leaving(s.pump) || HasEof(s.io.chan)
  }

  /** Receives the pump may still make. */
  function Budget(s: State): nat {
    if Leaving(s.pump) then 0 else Ahead(s.io.chan) + 1
  }

  predicate IsReceive(s: State, a: Action) {
    a.PumpSteps? && (s.pump.Recv? || s.pump.TryRecv?) && s.io.chan != []
  }

  function Receives(s: State, actions: seq<Action>): nat
    requires Possible(s, actions)
    decreases |actions|
  {
    if actions == [] then 0
    else (if IsReceive(s, actions[0]) then 1 else 0) + Receives(Do(s, actions[0]), actions[1..])
  }

  lemma BudgetStep(s: State, a: Action)
    requires EofPending(s) && Enabled(s, a)
    ensures EofPending(Do(s, a))
    ensures Budget(Do(s, a)) + (if IsReceive(s, a) then 1 else 0) <= Budget(s)
  {
    if a.PumpSteps? {
      PumpBudget(s, a.emitted);
    } else {
      LeavingKept(s, a);
      ChannelGrows(s, a);
    }
  }

  /** Whatever is put behind the first Eof does not delay it. */
  lemma ChannelGrows(s: State, a: Action)
    requires Enabled(s, a) && !a.PumpSteps?
    ensures HasEof(s.io.chan) ==> HasEof(Do(s, a).io.chan) && Ahead(Do(s, a).io.chan) == Ahead(s.io.chan)
  {
    if a.ReaderSends? || a.DropSteps? {
      if HasEof(s.io.chan) {
        AheadProperties(s.io.chan, if a.ReaderSends? then s.io.reader.ev else Eof);
      }
    } else if Reads(a) {
      assert Do(s, a).io.chan == s.io.chan;
    } else {
      IoKept(s, a);
    }
  }

  lemma PumpBudget(s: State, emitted: seq<TermEvent>)
    requires EofPending(s) && PumpEnabled(s)
    ensures EofPending(PumpDo(s, emitted))
    ensures Budget(PumpDo(s, emitted)) + (if IsReceive(s, PumpSteps(emitted)) then 1 else 0) <= Budget(s)
  {
    if IsReceive(s, PumpSteps(emitted)) {
      AheadProperties(s.io.chan, Eof);
    } else {
      assert Leaving(s.pump) == Leaving(PumpDo(s, emitted).pump);
    }
  }

  lemma {:induction false} ReceivesBounded(s: State, actions: seq<Action>)
    requires EofPending(s) && Possible(s, actions)
    ensures Receives(s, actions) <= Budget(s)
    decreases |actions|
  {
    if actions != [] {
      BudgetStep(s, actions[0]);
      ReceivesBounded(Do(s, actions[0]), actions[1..]);
    }
  }

  /**
    Once Drop has put its synthetic Eof into the channel, the pump takes at most
    64 more messages, whatever the reader and everybody else do from then on.
   */
  lemma SyntheticEofEndsThePump(callbacks: Callbacks, before: seq<Action>, later: seq<Action>)
    requires Possible(Init(callbacks), before)
    requires var s := After(Init(callbacks), before);
      && DropEnabled(s) && s.teardown.at.SyntheticEof? && |s.io.chan| < CHANNEL_CAPACITY
      && Possible(Do(s, DropSteps), later)
    ensures Receives(Do(After(Init(callbacks), before), DropSteps), later) <= CHANNEL_CAPACITY
  {
    var s' := Do(After(Init(callbacks), before), DropSteps);
    var chan := s'.io.chan;
    assert chan[|chan| - 1].Eof?;
    AheadProperties(chan, Eof);
    ReceivesBounded(s', later);
  }

  // ---------- shutdown: the pump is never stuck and always gets closer ----------

  /** The pump's own step, or a callback it makes, and no nested call is in the way. */
  predicate MovesPump(s: State, a: Action) {
    && Nested(s, PumpThread) == []
    && match a
       case PumpSteps(_) => true
       case Lookup(t) => t == PumpThread
       case SkipCall(t) => t == PumpThread
       case CallBegins(t) => t == PumpThread
       case CallEnds(t) => t == PumpThread
       case _ => false
  }

  function Stage(code: Code): nat {
    match code
    case Advance(_) => 3
    case TryRecv => 2
    case Drain(_) => 1
    case _ => 0
  }

  /** Steps to the end of the current round. */
  function Remaining(code: Code): nat {
    match code
    case Dispatch(eof, events) => 4 * |events| + if eof then 16 else 6
    case Snapshot(eof) => if eof then 15 else 5
    case Rendered(eof) => if eof then 11 else 1
    case LastSnapshot => 10
    case ReadCode => 6
    case StoreCode(_) => 5
    case SwapAlive(_) => 4
    case Fetch(_, next) => Remaining(next) + 3
    case Ready(_, _, next) => Remaining(next) + 2
    case Calling(_, next) => Remaining(next) + 1
    case _ => 0
  }

  /** Lexicographic: messages to receive, then stage of the round, then steps left in it. */
  predicate Closer(s': State, s: State) {
    || Budget(s') < Budget(s)
    || (Budget(s') == Budget(s) && Stage(s'.pump) < Stage(s.pump))
    || (Budget(s') == Budget(s) && Stage(s'.pump) == Stage(s.pump) && Remaining(s'.pump) < Remaining(s.pump))
  }

  lemma PumpStepIsCloser(s: State, emitted: seq<TermEvent>)
    requires EofPending(s) && PumpCode(s.pump) && PumpEnabled(s)
    ensures Closer(PumpDo(s, emitted), s)
  {
    var s' := PumpDo(s, emitted);
    PumpBudget(s, emitted);
    match s.pump
    case Recv | TryRecv => assert IsReceive(s, PumpSteps(emitted));
    case _ => assert Leaving(s'.pump) == Leaving(s.pump);
  }

  /**
    With an Eof pending, the pump can move unless host code is running on its
    thread, every one of its moves brings it closer to the end of its loop, and
    nothing the other threads do sets it back.
   */
  lemma PumpReachesTheEnd(s: State, a: Action)
    requires EofPending(s) && Shapes(s) && Enabled(s, a)
    ensures MovesPump(s, a) ==> Closer(Do(s, a), s)
    ensures !MovesPump(s, a) ==> Do(s, a).pump == s.pump && Budget(Do(s, a)) <= Budget(s)
    ensures EofPending(Do(s, a)) && Shapes(Do(s, a))
  {
    BudgetStep(s, a);
    ShapesStep(s, a);
    if a.PumpSteps? {
      PumpStepIsCloser(s, a.emitted);
    } else if CallStep(a) {
      CallIsCloser(s, a);
    } else {
      CodesKept(s, a);
    }
  }

  lemma CallIsCloser(s: State, a: Action)
    requires Enabled(s, a) && CallStep(a)
    ensures !MovesPump(s, a) ==> Do(s, a).pump == s.pump
    ensures MovesPump(s, a) && PumpCode(s.pump) ==>
              Stage(Do(s, a).pump) == Stage(s.pump) && Remaining(Do(s, a).pump) < Remaining(s.pump)
    ensures Do(s, a).io == s.io && Leaving(Do(s, a).pump) == Leaving(s.pump)
  {
    CallStepShape(s, a);
  }

  /** What the pump does next. */
  function PumpAction(s: State): Action {
    match s.pump
    case Fetch(_, _) => Lookup(PumpThread)
    case Ready(_, live, _) => if live then CallBegins(PumpThread) else SkipCall(PumpThread)
    case Calling(_, _) => CallEnds(PumpThread)
    case _ => PumpSteps([])
  }

  lemma PumpCanMove(s: State)
    requires EofPending(s) && PumpCode(s.pump) && Nested(s, PumpThread) == [] && !s.pump.Finished?
    ensures Enabled(s, PumpAction(s)) && MovesPump(s, PumpAction(s))
  {}

  lemma PumpIsNotStuck(callbacks: Callbacks, actions: seq<Action>)
    requires Possible(Init(callbacks), actions)
    requires var s := After(Init(callbacks), actions);
      EofPending(s) && Nested(s, PumpThread) == [] && !s.pump.Finished?
    ensures var s := After(Init(callbacks), actions);
      exists a :: Enabled(s, a) && MovesPump(s, a)
  {
    ShapesInvariant(Init(callbacks), actions);
    PumpCanMove(After(Init(callbacks), actions));
    assert MovesPump(After(Init(callbacks), actions), PumpAction(After(Init(callbacks), actions)));
  }
}
