/**
  What the world hands to the session, read off the actions of a run, arrives: the
  child's output at the channel, the emulator's events at their queue, the host's
  input and the emulator's replies at the writer, and requests for a frame at
  on_render.
 */
module SessionInput {
  import opened Common
  import opened SessionModel
  import opened SessionShape
  import opened SessionDelivery
  import opened SessionTeardown
  import opened SessionReturn

  // ---------- input for the child ----------

  /** What the host has sent, without empty payloads. */
  function HostPayloads(actions: seq<Action>): seq<seq<Byte>>
    decreases |actions|
  {
    if actions == [] then []
    else
      var n := |actions| - 1;
      HostPayloads(actions[..n]) +
      if actions[n].HostSend? && actions[n].payload != [] then [actions[n].payload] else []
  }

  /** The replies among the effects of terminal events. */
  function Replies(effects: seq<Effect>): seq<seq<Byte>> {
    if effects == [] then []
    else
      var n := |effects| - 1;
      Replies(effects[..n]) + if effects[n].Replied? then [effects[n].reply] else []
  }

  /** The replies, and somewhere among them Drop's sentinel once it is sent. */
  ghost predicate RepliesAndSentinel(s: State, others: seq<seq<Byte>>) {
    var replies := Replies(s.bus.delivered);
    if SentinelSent(s) then exists k | 0 <= k <= |replies| :: others == replies[..k] + [[]] + replies[k..]
    else others == replies
  }

  lemma RepliesSnoc(effects: seq<Effect>, effect: Effect)
    ensures Replies(effects + [effect]) == Replies(effects) + if effect.Replied? then [effect.reply] else []
  {
    assert (effects + [effect])[..|effects|] == effects;
  }

  /** The step hands a reply to the writer. */
  predicate Answers(s: State, a: Action) {
    a.PumpSteps? && s.pump.Dispatch? && s.pump.events != [] && s.pump.events[0].ev.PtyWrite?
  }

  predicate Stops(s: State, a: Action) {
    a.DropSteps? && s.teardown.Running? && s.teardown.at.StopWriter?
  }

  lemma HostSends(s: State, a: Action)
    requires Enabled(s, a) && a.HostSend? && !s.out.writer.WriterDone?
    ensures var s' := Do(s, a);
      s'.out.sent == s.out.sent + (if a.payload != [] then [a.payload] else []) && s'.bus == s.bus
      && s'.teardown == s.teardown
  {}

  lemma PumpAnswers(s: State, emitted: seq<TermEvent>)
    requires PumpEnabled(s) && !s.out.writer.WriterDone?
    ensures var s' := PumpDo(s, emitted);
      if Answers(s, PumpSteps(emitted))
      then s'.out.sent == s.out.sent + [s.pump.events[0].ev.reply]
           && s'.bus.delivered == s.bus.delivered + [Replied(s.pump.events[0].ev.reply)]
      else s'.out == s.out && Replies(s'.bus.delivered) == Replies(s.bus.delivered)
  {
    RepliesSnoc(s.bus.delivered, Ignored);
  }

  lemma DropStops(s: State)
    requires DropEnabled(s) && !s.out.writer.WriterDone?
    ensures var s' := DropDo(s);
      && s'.bus == s.bus && s'.out.sent == s.out.sent + (if Stops(s, DropSteps) then [[]] else [])
      && (SentinelSent(s') <==> SentinelSent(s) || Stops(s, DropSteps))
      && (Stops(s, DropSteps) ==> !SentinelSent(s))
  {}

  lemma NothingSent(s: State, a: Action)
    requires Enabled(s, a) && !a.HostSend? && !a.PumpSteps? && !a.DropSteps?
    ensures var s' := Do(s, a);
      && s'.out.sent == s.out.sent && Replies(s'.bus.delivered) == Replies(s.bus.delivered)
      && SentinelSent(s') == SentinelSent(s)
  {
    if a.Lookup? {
      LookupDelivers(s, a.t);
      RepliesSnoc(s.bus.delivered, Offered(Top(s, a.t).cb));
    }
    if a.BeginDrop? {
      assert !SentinelSent(Do(s, a));
    } else {
      TeardownKept(s, a);
    }
  }

  lemma WriterStaysDone(s: State, a: Action)
    requires Enabled(s, a) && s.out.writer.WriterDone?
    ensures Do(s, a).out == s.out
  {
    if CallStep(a) {
      CallStepShape(s, a);
    }
  }

  lemma MoreOthers(s: State, s': State, others: seq<seq<Byte>>, reply: seq<Byte>)
    requires RepliesAndSentinel(s, others) && SentinelSent(s') == SentinelSent(s)
    requires s'.bus.delivered == s.bus.delivered + [Replied(reply)]
    ensures RepliesAndSentinel(s', others + [reply])
  {
    var before, after := Replies(s.bus.delivered), Replies(s'.bus.delivered);
    RepliesSnoc(s.bus.delivered, Replied(reply));
    if SentinelSent(s) {
      var k :| 0 <= k <= |before| && others == before[..k] + [[]] + before[k..];
      assert after[..k] == before[..k] && after[k..] == before[k..] + [reply];
    }
  }

  /** One more step: what it hands to the writer comes last in `sent`. */
  lemma SentNext(s: State, a: Action, host: seq<seq<Byte>>, others: seq<seq<Byte>>) returns (others': seq<seq<Byte>>)
    requires Enabled(s, a) && !s.out.writer.WriterDone?
    requires RepliesAndSentinel(s, others) && Interleaves(s.out.sent, host, others)
    ensures RepliesAndSentinel(Do(s, a), others')
    ensures Interleaves(Do(s, a).out.sent, host + (if a.HostSend? && a.payload != [] then [a.payload] else []), others')
  {
    var sent := s.out.sent;
    others' := others;
    assert host + [] == host && sent + [] == sent;
    if a.HostSend? {
      HostSends(s, a);
      if a.payload != [] {
        InterleaveLeft(sent, host, others, a.payload);
      }
    } else if a.PumpSteps? {
      TeardownKept(s, a);
      PumpAnswers(s, a.emitted);
      if Answers(s, a) {
        others' := others + [s.pump.events[0].ev.reply];
        MoreOthers(s, Do(s, a), others, s.pump.events[0].ev.reply);
        InterleaveRight(sent, host, others, s.pump.events[0].ev.reply);
      }
    } else if a.DropSteps? {
      DropStops(s);
      if Stops(s, a) {
        others' := others + [[]];
        assert others' == others[..|others|] + [[]] + others[|others|..];
        InterleaveRight(sent, host, others, []);
      }
    } else {
      NothingSent(s, a);
    }
  }

  lemma {:induction false} SentSoFar(callbacks: Callbacks, actions: seq<Action>) returns (others: seq<seq<Byte>>)
    requires Possible(Init(callbacks), actions) && !After(Init(callbacks), actions).out.writer.WriterDone?
    ensures var s := After(Init(callbacks), actions);
      RepliesAndSentinel(s, others) && Interleaves(s.out.sent, HostPayloads(actions), others)
    decreases |actions|
  {
    if actions == [] {
      others := [];
    } else {
      var n := |actions| - 1;
      AfterSnoc(Init(callbacks), actions);
      var s := After(Init(callbacks), actions[..n]);
      if s.out.writer.WriterDone? {
        WriterStaysDone(s, actions[n]);
      }
      others := SentSoFar(callbacks, actions[..n]);
      others := SentNext(s, actions[n], HostPayloads(actions[..n]), others);
    }
  }

  /** After the first n actions the writer still runs, and what was sent by then is accounted for. */
  ghost predicate AccountedAt(callbacks: Callbacks, actions: seq<Action>, n: nat, others: seq<seq<Byte>>) {
    && n <= |actions| && Possible(Init(callbacks), actions[..n])
    && var s := After(Init(callbacks), actions[..n]);
       && !s.out.writer.WriterDone? && RepliesAndSentinel(s, others)
       && Interleaves(s.out.sent, HostPayloads(actions[..n]), others)
  }

  lemma SentKept(s: State, a: Action)
    requires Enabled(s, a) && Do(s, a).out.writer.WriterDone?
    ensures Do(s, a).out.sent == s.out.sent
  {
    if s.out.writer.WriterDone? {
      WriterStaysDone(s, a);
    } else if CallStep(a) {
      CallStepShape(s, a);
    }
  }

  /** If the writer has ended: how many actions there were before it did. */
  lemma {:induction false} WhenItEnded(callbacks: Callbacks, actions: seq<Action>) returns (n: nat)
    requires Possible(Init(callbacks), actions)
    ensures n <= |actions| && Possible(Init(callbacks), actions[..n])
    ensures var s, before := After(Init(callbacks), actions), After(Init(callbacks), actions[..n]);
      && !before.out.writer.WriterDone? && before.out.sent == s.out.sent
      && (!s.out.writer.WriterDone? ==> n == |actions|)
    decreases |actions|
  {
    n := |actions|;
    assert actions[..n] == actions;
    if After(Init(callbacks), actions).out.writer.WriterDone? {
      AfterSnoc(Init(callbacks), actions);
      SentKept(After(Init(callbacks), actions[..n - 1]), actions[n - 1]);
      var m := WhenItEnded(callbacks, actions[..n - 1]);
      assert actions[..n - 1][..m] == actions[..m];
      n := m;
    }
  }

  /**
    In every run, as long as the writer runs, what was sent to it is the host's
    non-empty payloads, as the run's actions give them, and the emulator's replies, as
    the pump carried them out, interleaved, with nothing missing; Drop adds its
    sentinel. What is sent after the writer has ended is not taken.
   */
  lemma EverythingIsSent(callbacks: Callbacks, actions: seq<Action>)
    requires Possible(Init(callbacks), actions)
    ensures var s := After(Init(callbacks), actions);
      exists n: nat, others ::
        && AccountedAt(callbacks, actions, n, others)
        && After(Init(callbacks), actions[..n]).out.sent == s.out.sent
        && (!s.out.writer.WriterDone? ==> n == |actions|)
  {
    var n := WhenItEnded(callbacks, actions);
    var others := SentSoFar(callbacks, actions[..n]);
    assert AccountedAt(callbacks, actions, n, others);
  }

  // ---------- output of the child ----------

  /** What the reader has read. */
  function Read(actions: seq<Action>): seq<IoEvent>
    decreases |actions|
  {
    if actions == [] then [] else Read(actions[..|actions| - 1]) + ReadBy(actions[|actions| - 1])
  }

  function ReadBy(a: Action): seq<IoEvent> {
    match a
    case ReaderReads(ev) => [ev]
    case PipeEnds => [Eof]
    case _ => []
  }

  function ReaderHand(reader: Reader): seq<IoEvent> {
    if reader.Sending? then [reader.ev] else []
  }

  /** Drop may have put in one Eof of its own. */
  predicate Synthetic(s: State, own: seq<IoEvent>) {
    own == [] || (own == [Eof] && !NoSyntheticYet(s.teardown))
  }

  /** What was read has been sent, but for what is in the reader's hand. */
  ghost predicate ReadsAccounted(s: State, input: seq<IoEvent>, sent: seq<IoEvent>, own: seq<IoEvent>) {
    && input == sent + ReaderHand(s.io.reader)
    && Synthetic(s, own)
    && Interleaves(s.io.enqueued, sent, own)
  }

  lemma ReadsNext(s: State, a: Action, input: seq<IoEvent>, sent: seq<IoEvent>, own: seq<IoEvent>)
    returns (sent': seq<IoEvent>, own': seq<IoEvent>)
    requires Enabled(s, a) && ReadsAccounted(s, input, sent, own)
    ensures ReadsAccounted(Do(s, a), input + ReadBy(a), sent', own')
  {
    sent', own' := sent, own;
    assert sent + [] == sent && input + [] == input;
    if a.ReaderSends? {
      sent' := sent + [s.io.reader.ev];
      InterleaveLeft(s.io.enqueued, sent, own, s.io.reader.ev);
    } else if a.DropSteps? {
      own' := DropEnqueues(s, sent, own);
    } else if a.PumpSteps? {
      assert Do(s, a).io.enqueued == s.io.enqueued && Do(s, a).io.reader == s.io.reader;
      TeardownKept(s, a);
    } else {
      EofsElsewhere(s, a);
      if !Reads(a) {
        IoKept(s, a);
      }
    }
  }

  lemma DropEnqueues(s: State, sent: seq<IoEvent>, own: seq<IoEvent>) returns (own': seq<IoEvent>)
    requires DropEnabled(s) && Synthetic(s, own) && Interleaves(s.io.enqueued, sent, own)
    ensures Synthetic(DropDo(s), own') && Interleaves(DropDo(s).io.enqueued, sent, own')
    ensures DropDo(s).io.reader == s.io.reader
  {
    own' := own;
    if s.teardown.at.SyntheticEof? && |s.io.chan| < CHANNEL_CAPACITY {
      own' := own + [Eof];
      InterleaveRight(s.io.enqueued, sent, own, Eof);
    }
  }

  lemma {:induction false} ReadsSoFar(callbacks: Callbacks, actions: seq<Action>)
    returns (sent: seq<IoEvent>, own: seq<IoEvent>)
    requires Possible(Init(callbacks), actions)
    ensures ReadsAccounted(After(Init(callbacks), actions), Read(actions), sent, own)
    decreases |actions|
  {
    if actions == [] {
      sent, own := [], [];
    } else {
      var n := |actions| - 1;
      AfterSnoc(Init(callbacks), actions);
      sent, own := ReadsSoFar(callbacks, actions[..n]);
      sent, own := ReadsNext(After(Init(callbacks), actions[..n]), actions[n], Read(actions[..n]), sent, own);
    }
  }

  /**
    In every run, what has been put into the channel is what the reader has read, as
    the run's actions give it, but for the message in its hand, and at most one
    synthetic Eof of Drop.
   */
  lemma EverythingReadArrives(callbacks: Callbacks, actions: seq<Action>)
    requires Possible(Init(callbacks), actions)
    ensures exists sent, own :: ReadsAccounted(After(Init(callbacks), actions), Read(actions), sent, own)
  {
    var sent, own := ReadsSoFar(callbacks, actions);
  }

  // ---------- events of the emulator, and the child's exit ----------

  /** What the emulator queues in a step: when the pump advances it, and when the host works on it. */
  function Emitted(s: State, a: Action): seq<Queued> {
    match a
    case PumpSteps(emitted) => if s.pump.Advance? then MarkedAll(emitted, true) else []
    case HostTouch(_, emitted) => MarkedAll(emitted, false)
    case HostRender(_, emitted) => MarkedAll(emitted, false)
    case _ => []
  }

  /** The events, each marked with who was advancing the terminal. */
  function MarkedAll(events: seq<TermEvent>, byPump: bool): seq<Queued> {
    if events == [] then [] else [Queued(events[0], byPump)] + MarkedAll(events[1..], byPump)
  }

  lemma {:induction false} TagMarks(events: seq<TermEvent>, byPump: bool)
    ensures Tag(events, byPump) == MarkedAll(events, byPump)
  {
    if events != [] {
      TagMarks(events[1..], byPump);
      assert Tag(events, byPump) == [Queued(events[0], byPump)] + Tag(events[1..], byPump);
    }
  }

  function AllEmitted(s: State, actions: seq<Action>): seq<Queued>
    requires Possible(s, actions)
    decreases |actions|
  {
    if actions == [] then [] else Emitted(s, actions[0]) + AllEmitted(Do(s, actions[0]), actions[1..])
  }

  /** The code that the child has exited with. */
  function ExitOf(actions: seq<Action>): Option<int>
    decreases |actions|
  {
    if actions == [] then None
    else
      var later := ExitOf(actions[1..]);
      if later.Some? then later else if actions[0].ChildExits? then Some(actions[0].code) else None
  }

  lemma HistoryStep(s: State, a: Action)
    requires Enabled(s, a)
    ensures Do(s, a).bus.history == s.bus.history + Emitted(s, a)
  {
    if a.PumpSteps? || a.HostTouch? || a.HostRender? {
      TagMarks(a.emitted, a.PumpSteps?);
    } else if a.Lookup? {
      LookupDelivers(s, a.t);
    } else {
      EventsQuiet(s, a);
    }
  }

  lemma ChildStep(s: State, a: Action)
    requires Enabled(s, a)
    ensures Do(s, a).life.child == if a.ChildExits? then Some(a.code) else s.life.child
  {
    if CallStep(a) {
      CallStepShape(s, a);
    }
  }

  lemma Associate<T>(a: seq<T>, b: seq<T>, c: seq<T>)
    ensures a + b + c == a + (b + c)
  {}

  /** Every event that the emulator emits gets into the history of its queue, in order. */
  lemma {:induction false} EverythingEmittedIsQueued(s: State, actions: seq<Action>)
    requires Possible(s, actions)
    ensures After(s, actions).bus.history == s.bus.history + AllEmitted(s, actions)
    decreases |actions|
  {
    if actions != [] {
      HistoryStep(s, actions[0]);
      EverythingEmittedIsQueued(Do(s, actions[0]), actions[1..]);
      Associate(s.bus.history, Emitted(s, actions[0]), AllEmitted(Do(s, actions[0]), actions[1..]));
    }
  }

  /** The child's exit code is the one that the run's actions give. */
  lemma {:induction false} ExitIsTheRuns(s: State, actions: seq<Action>)
    requires Possible(s, actions)
    ensures After(s, actions).life.child == if ExitOf(actions).Some? then ExitOf(actions) else s.life.child
    decreases |actions|
  {
    if actions != [] {
      ChildStep(s, actions[0]);
      ExitIsTheRuns(Do(s, actions[0]), actions[1..]);
    }
  }
}
