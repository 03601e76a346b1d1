/**
  Terminal events and writer payloads over every interleaving: each event is
  acted on exactly once and in order, and each payload queued before the
  writer's sentinel is written exactly once and in order.
 */
module SessionDelivery {
  import opened Common
  import opened SessionModel
  import opened SessionShape

  // ---------- terminal events ----------

  /** What each kind of event is for. */
  function EffectOf(ev: TermEvent): Effect {
    match ev
    case Title(title) => Offered(OnTitle(title))
    case ResetTitle => Offered(OnTitle(""))
    case Bell => Offered(OnBell)
    case ClipboardStore(text) => Offered(OnClipboard(text))
    case PtyWrite(reply) => Replied(reply)
    case OtherEvent => Ignored
  }

  function Effects(events: seq<Queued>): seq<Effect> {
    seq(|events|, i requires 0 <= i < |events| => EffectOf(events[i].ev))
  }

  /** Effects the pump has committed itself to but not yet carried out. */
  function Owed(code: Code): seq<Effect> {
    match code
    case Dispatch(_, events) => Effects(events)
    case Fetch(cb, next) => (if FromEvent(cb) then [Offered(cb)] else []) + Owed(next)
    case Ready(_, _, next) => Owed(next)
    case Calling(_, next) => Owed(next)
    case _ => []
  }

  /** The pump is between an `advance` and the drain that follows it. */
  predicate Gathering(code: Code) {
    code.Advance? || code.TryRecv? || code.Drain?
  }

  ghost predicate EventsAccounted(s: State) {
    && Effects(s.bus.history) == s.bus.delivered + Owed(s.pump) + Effects(s.bus.queue)
    && (!Gathering(s.pump) ==> forall i | 0 <= i < |s.bus.queue| :: !s.bus.queue[i].byPump)
    && |s.bus.queue| <= |s.bus.history|
    && s.bus.history[|s.bus.history| - |s.bus.queue|..] == s.bus.queue
  }

  lemma EffectsAppend(a: seq<Queued>, b: seq<Queued>)
    ensures Effects(a + b) == Effects(a) + Effects(b)
  {}

  lemma EventsQueued(s: State, s': State, emitted: seq<TermEvent>, byPump: bool)
    requires EventsAccounted(s)
    requires s'.bus == QueueEvents(s.bus, emitted, byPump) && Owed(s'.pump) == Owed(s.pump)
    requires byPump ==> Gathering(s'.pump)
    requires Gathering(s.pump) ==> Gathering(s'.pump)
    ensures EventsAccounted(s')
  {
    var more := Tag(emitted, byPump);
    EffectsAppend(s.bus.history, more);
    EffectsAppend(s.bus.queue, more);
    var n := |s.bus.history| - |s.bus.queue|;
    assert (s.bus.history + more)[n..] == s.bus.history[n..] + more;
  }

  lemma EventsDispatch(s: State)
    requires EventsAccounted(s) && s.pump.Dispatch?
    ensures EventsAccounted(PumpDispatch(s))
  {
    var events := s.pump.events;
    if events != [] {
      var effect := EffectOf(events[0].ev);
      assert Effects(events) == [effect] + Effects(events[1..]);
      var s' := PumpDispatch(s);
      if events[0].ev.PtyWrite? || events[0].ev.OtherEvent? {
        assert s'.bus == Deliver(s.bus, effect);
        assert Owed(s'.pump) == Effects(events[1..]);
      } else {
        assert s'.bus == s.bus;
        assert Owed(s'.pump) == [effect] + Effects(events[1..]);
      }
      assert s'.bus.delivered + Owed(s'.pump) == s.bus.delivered + Owed(s.pump);
    }
  }

  lemma EventsPump(s: State, emitted: seq<TermEvent>)
    requires EventsAccounted(s) && PumpCode(s.pump) && PumpEnabled(s)
    ensures EventsAccounted(PumpDo(s, emitted))
  {
    var s' := PumpDo(s, emitted);
    match s.pump
    case Advance(_) => EventsQueued(s, s', emitted, true);
    case Dispatch(_, _) => EventsDispatch(s);
    case Drain(_) =>
      assert Effects([]) == [];
    case Recv | TryRecv | Snapshot(_) | Rendered(_) | LastSnapshot | ReadCode | StoreCode(_) | SwapAlive(_) =>
      assert s'.bus == s.bus && Owed(s'.pump) == Owed(s.pump) == [];
    case _ =>
  }

  lemma EventsLookup(s: State, t: Tid)
    requires EventsAccounted(s) && Shapes(s) && Enabled(s, Lookup(t))
    ensures EventsAccounted(Do(s, Lookup(t)))
  {
    CallStepShape(s, Lookup(t));
    LookupDelivers(s, t);
    if Nested(s, t) != [] {
      assert NestedCode(Top(s, t));
    } else if t == PumpThread && FromEvent(s.pump.cb) {
      LookupMovesOn(s.bus, s.pump.cb, s.pump.next);
    }
    EventsSettled(s, Do(s, Lookup(t)));
  }

  /** What is carried out is no longer owed. */
  lemma EventsSettled(s: State, s': State)
    requires EventsAccounted(s) && s'.bus == s.bus.(delivered := s'.bus.delivered)
    requires s'.bus.delivered + Owed(s'.pump) == s.bus.delivered + Owed(s.pump)
    requires Gathering(s.pump) ==> Gathering(s'.pump)
    ensures EventsAccounted(s')
  {}

  lemma LookupDelivers(s: State, t: Tid)
    requires Enabled(s, Lookup(t))
    ensures Do(s, Lookup(t)).bus == if FromEvent(Top(s, t).cb) then Deliver(s.bus, Offered(Top(s, t).cb)) else s.bus
  {}

  /** Looking a callback up settles what the pump owed for it. */
  lemma LookupMovesOn(bus: Bus, cb: Callback, next: Code)
    requires FromEvent(cb)
    ensures Deliver(bus, Offered(cb)).delivered + Owed(next) == bus.delivered + Owed(Fetch(cb, next))
  {}

  /** Steps that neither advance the terminal nor look a callback up. */
  predicate Quiet(a: Action) {
    !a.PumpSteps? && !a.HostTouch? && !a.HostRender? && !a.Lookup?
  }

  lemma EventsQuiet(s: State, a: Action)
    requires Enabled(s, a) && Quiet(a)
    ensures var s' := Do(s, a);
      s'.bus == s.bus && Owed(s'.pump) == Owed(s.pump) && (Gathering(s.pump) ==> Gathering(s'.pump))
  {}

  lemma EventsStep(s: State, a: Action)
    requires EventsAccounted(s) && Shapes(s) && Enabled(s, a)
    ensures EventsAccounted(Do(s, a))
  {
    match a
    case PumpSteps(emitted) => EventsPump(s, emitted);
    case HostTouch(t, emitted) => EventsQueued(s, Do(s, a), emitted, false);
    case HostRender(t, emitted) => EventsQueued(s, Do(s, a), emitted, false);
    case Lookup(t) => EventsLookup(s, t);
    case _ => EventsQuiet(s, a);
  }

  lemma {:induction false} EventsInvariant(s: State, actions: seq<Action>)
    requires EventsAccounted(s) && Shapes(s) && Possible(s, actions)
    ensures EventsAccounted(After(s, actions))
    decreases |actions|
  {
    if actions != [] {
      EventsStep(s, actions[0]);
      ShapesStep(s, actions[0]);
      EventsInvariant(Do(s, actions[0]), actions[1..]);
    }
  }

  /**
    Every event is acted on exactly once and in order: what was done, what the
    pump still owes and what is queued add up to everything ever queued. When the
    pump is back at the channel or gone, everything its own `advance` queued has
    been acted on.
   */
  lemma EventsActedOnOnce(callbacks: Callbacks, actions: seq<Action>)
    requires Possible(Init(callbacks), actions)
    ensures var bus := After(Init(callbacks), actions).bus;
      var pump := After(Init(callbacks), actions).pump;
      && Effects(bus.history) == bus.delivered + Owed(pump) + Effects(bus.queue)
      && (pump.Recv? || pump.Finished? ==>
            exists done: seq<Queued>, left: seq<Queued> ::
              && bus.history == done + left
              && bus.delivered == Effects(done)
              && forall i | 0 <= i < |left| :: !left[i].byPump)
  {
    EventsInvariant(Init(callbacks), actions);
    var s := After(Init(callbacks), actions);
    if s.pump.Recv? || s.pump.Finished? {
      var done := NothingOwed(s);
      assert s.bus.history == done + s.bus.queue;
    }
  }

  lemma NothingOwed(s: State) returns (done: seq<Queued>)
    requires EventsAccounted(s) && Owed(s.pump) == []
    ensures s.bus.history == done + s.bus.queue && s.bus.delivered == Effects(done)
  {
    done := s.bus.history[..|s.bus.history| - |s.bus.queue|];
    EffectsAppend(done, s.bus.queue);
    assert s.bus.delivered + [] == s.bus.delivered;
    SameSuffix(s.bus.delivered, Effects(done), Effects(s.bus.queue));
  }

  lemma SameSuffix<T>(a: seq<T>, b: seq<T>, c: seq<T>)
    requires a + c == b + c
    ensures a == b
  {
    assert |a| == |b|;
    assert (a + c)[..|a|] == a && (b + c)[..|b|] == b;
  }

  // ---------- the writer ----------

  /** Payloads ahead of the first empty buffer. */
  function BeforeSentinel(sent: seq<seq<Byte>>): seq<seq<Byte>> {
    if sent == [] || sent[0] == [] then [] else [sent[0]] + BeforeSentinel(sent[1..])
  }

  lemma {:induction false} BeforeSentinelStops(full: seq<seq<Byte>>, rest: seq<seq<Byte>>)
    requires forall i | 0 <= i < |full| :: full[i] != []
    ensures BeforeSentinel(full + [[]] + rest) == full
  {
    if full != [] {
      assert (full + [[]] + rest)[1..] == full[1..] + [[]] + rest;
      BeforeSentinelStops(full[1..], rest);
    }
  }

  function WriterHand(out: Out): seq<seq<Byte>> {
    if out.writer.Writing? then [out.writer.buf] else []
  }

  ghost predicate PayloadsAccounted(out: Out) {
    && out.sent == out.taken + out.queue
    && (forall i | 0 <= i < |out.written| :: out.written[i] != [])
    && (out.writer.Writing? ==> out.writer.buf != [])
    && out.taken == out.written + WriterHand(out) + if out.writer.WriterDone? then [[]] else []
  }

  /** Drop has passed the point where it drops the writer's handle. */
  predicate SentinelSent(s: State) {
    match s.teardown
    case NotBegun => false
    case Running(_, at) => at.JoinWriter? || at.ReleasePty? || at.JoinPump? || at.JoinWatcher? || at.JoinReader?
    case Returned(_) => true
  }

  /** Drop has seen the writer thread end. */
  predicate WriterJoined(s: State) {
    match s.teardown
    case NotBegun => false
    case Running(_, at) => at.ReleasePty? || at.JoinPump? || at.JoinWatcher? || at.JoinReader?
    case Returned(_) => true
  }

  /** The terminal answered some query with an empty reply. */
  ghost predicate EmptyReply(s: State) {
    Replied([]) in s.bus.delivered
  }

  ghost predicate WriterOk(s: State) {
    && PayloadsAccounted(s.out)
    && ([] in s.out.sent ==> SentinelSent(s) || EmptyReply(s))
    && (WriterJoined(s) ==> s.out.writer.WriterDone?)
  }

  lemma PayloadsReceive(out: Out)
    requires PayloadsAccounted(out) && out.writer.Waiting? && out.queue != []
    ensures PayloadsAccounted(WriterRecv(out))
  {
    assert out.taken + [out.queue[0]] + out.queue[1..] == out.taken + out.queue;
    assert out.written + [] == out.written;
  }

  lemma WriterPump(s: State, emitted: seq<TermEvent>)
    requires WriterOk(s) && PumpEnabled(s)
    ensures WriterOk(PumpDo(s, emitted))
  {
    var s' := PumpDo(s, emitted);
    match s.pump
    case Dispatch(_, events) =>
      if EmptyReply(s) {
        assert Replied([]) in s'.bus.delivered;
      }
      if events != [] && events[0].ev.PtyWrite? {
        assert s'.bus.delivered[|s.bus.delivered|] == Replied(events[0].ev.reply);
      }
    case _ => assert s'.out == s.out && s'.bus.delivered == s.bus.delivered;
  }

  lemma WriterLookup(s: State, t: Tid)
    requires WriterOk(s) && Enabled(s, Lookup(t))
    ensures WriterOk(Do(s, Lookup(t)))
  {
    if EmptyReply(s) {
      assert Replied([]) in Do(s, Lookup(t)).bus.delivered;
    }
  }

  /** Steps that leave the writer, its queue and the replies alone. */
  predicate Unwritten(a: Action) {
    !a.PumpSteps? && !a.WriterReceives? && !a.WriterWrites? && !a.Lookup? && !a.HostSend? && !a.DropSteps?
  }

  lemma WriterUnaffected(s: State, a: Action)
    requires Enabled(s, a) && Unwritten(a)
    ensures var s' := Do(s, a);
      s'.out == s.out && s'.bus.delivered == s.bus.delivered && (s'.teardown == s.teardown || a.BeginDrop?)
  {}

  lemma WriterDrop(s: State)
    requires WriterOk(s) && DropEnabled(s)
    ensures WriterOk(DropDo(s))
  {
    if s.teardown.at.StopWriter? {
      SentinelIsSent(s);
    } else {
      assert DropDo(s).out == s.out && DropDo(s).bus == s.bus;
    }
  }

  lemma SentinelIsSent(s: State)
    requires WriterOk(s) && DropEnabled(s) && s.teardown.at.StopWriter?
    ensures WriterOk(DropDo(s))
  {
    assert SentinelSent(DropDo(s));
  }

  lemma WriterStep(s: State, a: Action)
    requires WriterOk(s) && Enabled(s, a)
    ensures WriterOk(Do(s, a))
  {
    match a
    case PumpSteps(emitted) => WriterPump(s, emitted);
    case WriterReceives => PayloadsReceive(s.out);
    case WriterWrites =>
    case Lookup(t) => WriterLookup(s, t);
    case HostSend(_, _) =>
    case DropSteps => WriterDrop(s);
    case _ => WriterUnaffected(s, a);
  }

  lemma {:induction false} WriterInvariant(s: State, actions: seq<Action>)
    requires WriterOk(s) && Possible(s, actions)
    ensures WriterOk(After(s, actions))
    decreases |actions|
  {
    if actions != [] {
      WriterStep(s, actions[0]);
      WriterInvariant(Do(s, actions[0]), actions[1..]);
    }
  }

  /**
    What was written is exactly what was sent, in order, up to the first empty
    buffer once the writer has stopped; before that, what is still in hand and
    queued follows. If no terminal reply is empty, only Drop stops the writer, and
    when Drop has returned every payload sent ahead of the sentinel is written.
   */
  lemma PayloadsWrittenOnce(callbacks: Callbacks, actions: seq<Action>)
    requires Possible(Init(callbacks), actions)
    ensures var s := After(Init(callbacks), actions);
      && (!s.out.writer.WriterDone? ==> s.out.written + WriterHand(s.out) + s.out.queue == s.out.sent)
      && (s.out.writer.WriterDone? ==> s.out.written == BeforeSentinel(s.out.sent))
      && (s.out.writer.WriterDone? && !EmptyReply(s) ==> SentinelSent(s))
      && (s.teardown.Returned? ==> s.out.writer.WriterDone?)
  {
    WriterInvariant(Init(callbacks), actions);
    var out := After(Init(callbacks), actions).out;
    if out.writer.WriterDone? {
      assert out.written + [] == out.written;
      assert out.sent == out.written + [[]] + out.queue;
      assert out.sent[|out.written|] == [];
      BeforeSentinelStops(out.written, out.queue);
    }
  }
}
