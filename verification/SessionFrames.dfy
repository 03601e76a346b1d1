/**
  Frames over every interleaving: whenever the pump is back at the channel, the last
  frame it offered shows everything the terminal has been given, and the exit path
  offers one more; and every frame the host asks for is offered. A frame is offered
  when on_render is looked up for it.
 */
module SessionFrames {
  import opened Common
  import opened SessionModel
  import opened SessionShape
  import opened SessionChannel
  import opened SessionTeardown
  import opened SessionReturn

  /** The bytes a frame of the pump shows, and whether it is the one of the exit path. */
  datatype Shown = Shown(applied: seq<Byte>, last: bool)

  function FrameOf(s: State, a: Action): seq<Shown> {
    if a == Lookup(PumpThread) && Nested(s, PumpThread) == [] && s.pump.Fetch? && s.pump.cb.OnRender?
    then [Shown(s.io.applied, s.pump.next.ReadCode?)] else []
  }

  /** The frames that the pump offers in a run. */
  function Frames(s: State, actions: seq<Action>): seq<Shown>
    requires Possible(s, actions)
    decreases |actions|
  {
    if actions == [] then [] else FrameOf(s, actions[0]) + Frames(Do(s, actions[0]), actions[1..])
  }

  /** What the host sees. */
  function OnDisplay(frames: seq<Shown>): seq<Byte> {
    if frames == [] then [] else frames[|frames| - 1].applied
  }

  /** The pump owes no frame. */
  predicate Current(code: Code) {
    match code
    case Recv | Rendered(_) | LastSnapshot | ReadCode | StoreCode(_) | SwapAlive(_) | Finished => true
    case Fetch(_, next) => next.ReadCode? || next.Finished?
    case Ready(_, _, next) => Current(next)
    case Calling(_, next) => Current(next)
    case _ => false
  }

  /** The exit path has offered its frame. */
  predicate PastLastFrame(code: Code) {
    match code
    case ReadCode | StoreCode(_) | SwapAlive(_) | Finished => true
    case Fetch(_, next) => next.Finished?
    case Ready(_, _, next) => PastLastFrame(next)
    case Calling(_, next) => PastLastFrame(next)
    case _ => false
  }

  /** What is called back and where the pump resumes belong together. */
  predicate FetchesFrame(code: Code) {
    code.Fetch? ==>
      && (code.next.Rendered? || code.next.ReadCode? <==> code.cb.OnRender?)
      && (code.next.Finished? ==> code.cb.OnExit?)
  }

  ghost predicate FramesOk(s: State, frames: seq<Shown>) {
    && FetchesFrame(s.pump)
    && (Current(s.pump) ==> OnDisplay(frames) == s.io.applied)
    && (PastLastFrame(s.pump) ==> frames != [] && frames[|frames| - 1].last)
    && (forall i | 0 <= i < |frames| :: frames[i].applied <= s.io.applied)
  }

  lemma FramesPump(s: State, emitted: seq<TermEvent>, frames: seq<Shown>)
    requires Sound(s) && FramesOk(s, frames) && PumpEnabled(s)
    ensures FramesOk(PumpDo(s, emitted), frames)
  {
    NoEarlyEnd(s);
    if s.pump.Dispatch? {
      FramesDispatch(s, frames);
    } else {
      assert s.io.applied <= PumpDo(s, emitted).io.applied;
    }
  }

  lemma FramesDispatch(s: State, frames: seq<Shown>)
    requires FramesOk(s, frames) && s.pump.Dispatch?
    ensures FramesOk(PumpDispatch(s), frames)
  {
    assert PumpDispatch(s).io == s.io;
  }

  /** The channel is not disconnected before the pump has met an Eof. */
  lemma NoEarlyEnd(s: State)
    requires Sound(s) && PumpEnabled(s)
    ensures s.pump.Recv? ==> s.io.chan != []
  {
    if s.pump.Recv? && s.io.chan == [] {
      EofAwaitsPump(s);
    }
  }

  lemma FramesCallStep(s: State, a: Action, frames: seq<Shown>)
    requires Shapes(s) && FramesOk(s, frames) && Enabled(s, a) && CallStep(a)
    ensures FramesOk(Do(s, a), frames + FrameOf(s, a))
  {
    CallStepShape(s, a);
    assert frames + [] == frames;
    if a.t == PumpThread && Nested(s, a.t) == [] {
      if FrameOf(s, a) != [] {
        FrameIsOffered(s, frames);
      } else {
        CalledOwesNoMore(s, a);
      }
    }
  }

  lemma CalledOwesNoMore(s: State, a: Action)
    requires PumpCode(s.pump) && FetchesFrame(s.pump) && Enabled(s, a) && CallStep(a) && FrameOf(s, a) == []
    requires a.t == PumpThread && Nested(s, a.t) == []
    ensures !Called(s, a).Fetch?
    ensures Current(Called(s, a)) ==> Current(s.pump)
    ensures PastLastFrame(Called(s, a)) ==> PastLastFrame(s.pump)
  {
    var next := s.pump.next;
    assert AfterCallback(next);
    if a.Lookup? {
      assert a == Lookup(PumpThread) && !s.pump.cb.OnRender?;
      assert Called(s, a).next == next && (next.Dispatch? || next.Finished?);
      assert Current(Called(s, a)) == Current(next) && PastLastFrame(Called(s, a)) == PastLastFrame(next);
    } else if a.CallBegins? {
      assert Called(s, a).next == next;
    } else {
      assert Called(s, a) == next;
    }
  }

  lemma FrameIsOffered(s: State, frames: seq<Shown>)
    requires PumpCode(s.pump) && FramesOk(s, frames) && Enabled(s, Lookup(PumpThread))
    requires FrameOf(s, Lookup(PumpThread)) != []
    ensures FramesOk(Do(s, Lookup(PumpThread)), frames + FrameOf(s, Lookup(PumpThread)))
  {
    CallStepShape(s, Lookup(PumpThread));
    var all := frames + FrameOf(s, Lookup(PumpThread));
    assert all[|all| - 1] == Shown(s.io.applied, s.pump.next.ReadCode?);
    assert forall i | 0 <= i < |frames| :: all[i] == frames[i];
  }

  lemma FramesStep(s: State, a: Action, frames: seq<Shown>)
    requires Sound(s) && FramesOk(s, frames) && Enabled(s, a)
    ensures FramesOk(Do(s, a), frames + FrameOf(s, a))
  {
    if CallStep(a) {
      FramesCallStep(s, a, frames);
    } else {
      assert frames + [] == frames;
      if a.PumpSteps? {
        FramesPump(s, a.emitted, frames);
      } else {
        CodesKept(s, a);
        AppliedKept(s, a);
      }
    }
  }

  lemma AppliedKept(s: State, a: Action)
    requires Enabled(s, a) && !a.PumpSteps?
    ensures Do(s, a).io.applied == s.io.applied
  {
    if !Reads(a) && !a.ReaderSends? && !a.DropSteps? {
      IoKept(s, a);
    }
  }

  ghost predicate FramesSound(s: State, frames: seq<Shown>) {
    Sound(s) && FramesOk(s, frames)
  }

  lemma FramesSoundStep(s: State, a: Action, frames: seq<Shown>)
    requires FramesSound(s, frames) && Enabled(s, a)
    ensures FramesSound(Do(s, a), frames + FrameOf(s, a))
  {
    FramesStep(s, a, frames);
    SoundStep(s, a);
  }

  lemma FramesCons(s: State, actions: seq<Action>, frames: seq<Shown>)
    requires Possible(s, actions) && actions != []
    ensures frames + FrameOf(s, actions[0]) + Frames(Do(s, actions[0]), actions[1..]) == frames + Frames(s, actions)
  {
    Associate(frames, FrameOf(s, actions[0]), Frames(Do(s, actions[0]), actions[1..]));
  }

  lemma Associate<T>(a: seq<T>, b: seq<T>, c: seq<T>)
    ensures a + b + c == a + (b + c)
  {}

  lemma {:induction false} FramesInvariant(s: State, actions: seq<Action>, frames: seq<Shown>)
    requires FramesSound(s, frames) && Possible(s, actions)
    ensures FramesSound(After(s, actions), frames + Frames(s, actions))
    decreases |actions|
  {
    if actions == [] {
      assert frames + [] == frames;
    } else {
      FramesSoundStep(s, actions[0], frames);
      FramesInvariant(Do(s, actions[0]), actions[1..], frames + FrameOf(s, actions[0]));
      FramesCons(s, actions, frames);
    }
  }

  /**
    In every run: whenever the pump is back at the channel, the last frame it offered
    shows exactly what the terminal has been given; a pump that has ended has offered
    the frame of the exit path, which shows everything; and no frame shows more than
    what had been given by then.
   */
  lemma LastFrameShowsAll(callbacks: Callbacks, actions: seq<Action>)
    requires Possible(Init(callbacks), actions)
    ensures var s, frames := After(Init(callbacks), actions), Frames(Init(callbacks), actions);
      && (s.pump.Recv? ==> OnDisplay(frames) == s.io.applied)
      && (s.pump.Finished? ==> frames != [] && frames[|frames| - 1] == Shown(s.io.applied, true))
      && (forall i | 0 <= i < |frames| :: frames[i].applied <= s.io.applied)
  {
    NothingShownYet(callbacks);
    AllFrames(Init(callbacks), actions);
    WhatIsShown(After(Init(callbacks), actions), Frames(Init(callbacks), actions));
  }

  lemma NothingShownYet(callbacks: Callbacks)
    ensures FramesSound(Init(callbacks), [])
  {}

  lemma AllFrames(s: State, actions: seq<Action>)
    requires FramesSound(s, []) && Possible(s, actions)
    ensures FramesSound(After(s, actions), Frames(s, actions))
  {
    FramesInvariant(s, actions, []);
    assert [] + Frames(s, actions) == Frames(s, actions);
  }

  lemma WhatIsShown(s: State, frames: seq<Shown>)
    requires FramesSound(s, frames)
    ensures s.pump.Recv? ==> OnDisplay(frames) == s.io.applied
    ensures s.pump.Finished? ==> frames != [] && frames[|frames| - 1] == Shown(s.io.applied, true)
    ensures forall i | 0 <= i < |frames| :: frames[i].applied <= s.io.applied
  {}

  // ---------- frames the host asks for ----------

  /** Calls of the host on thread t that are to deliver a frame. */
  function Asked(actions: seq<Action>, t: Tid): nat
    decreases |actions|
  {
    if actions == [] then 0
    else Asked(actions[..|actions| - 1], t) + if AsksFor(actions[|actions| - 1], t) then 1 else 0
  }

  predicate AsksFor(a: Action, t: Tid) {
    a.HostRender? && a.t == t
  }

  /** The step offers a frame that the host asked for on thread t. */
  predicate Offers(s: State, a: Action, t: Tid) {
    a == Lookup(t) && Nested(s, t) != [] && Top(s, t).Fetch? && Top(s, t).cb.OnRender?
  }

  function OfferedFrames(s: State, actions: seq<Action>, t: Tid): nat
    requires Possible(s, actions)
    decreases |actions|
  {
    if actions == [] then 0
    else (if Offers(s, actions[0], t) then 1 else 0) + OfferedFrames(Do(s, actions[0]), actions[1..], t)
  }

  /** A frame is asked for and not offered yet. */
  function Awaited(s: State, t: Tid): nat {
    if Nested(s, t) != [] && Top(s, t).Fetch? then 1 else 0
  }

  lemma AwaitedStep(s: State, a: Action, t: Tid)
    requires StacksOk(s) && Enabled(s, a)
    ensures Awaited(Do(s, a), t) + (if Offers(s, a, t) then 1 else 0)
            == Awaited(s, t) + if AsksFor(a, t) then 1 else 0
  {
    if CallStep(a) {
      CallMoves(s, a, t);
    } else if a.ApiReturns? || (a.DropSteps? && s.teardown.at.JoinReader?) {
      StackPops(s, a, t);
    } else if a.HostRender? || a.BeginDrop? {
      assert a.t == t ==> Nested(Do(s, a), t) == Nested(s, t) + [if a.BeginDrop? then InDrop else Fetch(OnRender, Return)];
      assert a.t != t ==> Nested(Do(s, a), t) == Nested(s, t);
    } else {
      OtherStacks(s, a, t);
    }
  }

  lemma OtherStacks(s: State, a: Action, t: Tid)
    requires Enabled(s, a) && !CallStep(a) && !a.ApiReturns? && !a.HostRender? && !a.BeginDrop?
    requires a.DropSteps? ==> !s.teardown.at.JoinReader?
    ensures Nested(Do(s, a), t) == Nested(s, t)
  {}

  lemma CallMoves(s: State, a: Action, t: Tid)
    requires StacksOk(s) && Enabled(s, a) && CallStep(a)
    ensures Awaited(Do(s, a), t) + (if Offers(s, a, t) then 1 else 0) == Awaited(s, t)
  {
    if a.t != t || Nested(s, t) == [] {
      OtherCall(s, a, t);
    } else {
      OwnCall(s, a);
    }
  }

  lemma OtherCall(s: State, a: Action, t: Tid)
    requires Enabled(s, a) && CallStep(a) && (a.t != t || Nested(s, t) == [])
    ensures Nested(Do(s, a), t) == Nested(s, t)
  {}

  lemma OwnCall(s: State, a: Action)
    requires StacksOk(s) && Enabled(s, a) && CallStep(a) && Nested(s, a.t) != []
    ensures Nested(Do(s, a), a.t) == Nested(s, a.t)[..|Nested(s, a.t)| - 1] + [Called(s, a)]
    ensures NestedCode(Top(s, a.t)) && !Called(s, a).Fetch?
  {
    assert NestedCode(Top(s, a.t));
  }

  /** Below the innermost call there are only callbacks. */
  lemma StackPops(s: State, a: Action, t: Tid)
    requires StacksOk(s) && Enabled(s, a) && (a.ApiReturns? || (a.DropSteps? && s.teardown.at.JoinReader?))
    ensures Awaited(Do(s, a), t) == Awaited(s, t) && !Offers(s, a, t)
  {
    var who := if a.DropSteps? then s.teardown.who else a.t;
    var stack := Nested(s, who);
    assert StackCode(stack);
    assert Nested(Do(s, a), who) == stack[..|stack| - 1];
    assert t != who ==> Nested(Do(s, a), t) == Nested(s, t);
  }

  lemma {:induction false} AskedSnoc(actions: seq<Action>, t: Tid)
    requires actions != []
    ensures Asked(actions, t) == (if AsksFor(actions[0], t) then 1 else 0) + Asked(actions[1..], t)
    decreases |actions|
  {
    if |actions| > 1 {
      AskedSnoc(actions[..|actions| - 1], t);
      assert actions[..|actions| - 1][1..] == actions[1..][..|actions| - 2];
    }
  }

  /** Every frame that the host asks for is offered once, or is about to be. */
  lemma {:induction false} AskedFramesAreOffered(s: State, actions: seq<Action>, t: Tid)
    requires StacksOk(s) && Possible(s, actions)
    ensures OfferedFrames(s, actions, t) + Awaited(After(s, actions), t) == Awaited(s, t) + Asked(actions, t)
    decreases |actions|
  {
    if actions != [] {
      AwaitedStep(s, actions[0], t);
      StacksStep(s, actions[0]);
      AskedSnoc(actions, t);
      AskedFramesAreOffered(Do(s, actions[0]), actions[1..], t);
    }
  }

  // ---------- what is looked up is called ----------

  /** The function that the table holds for a callback. */
  function Slot(callbacks: Callbacks, cb: Callback): Option<nat> {
    match cb
    case OnTitle(_) => callbacks.onTitle
    case OnBell => callbacks.onBell
    case OnClipboard(_) => callbacks.onClipboard
    case OnExit(_) => callbacks.onExit
    case OnRender => callbacks.onRender
  }

  /**
    A callback that is looked up while its own slot is filled can be called next,
    and nothing else; one whose slot is empty is skipped. Called, it is the callback
    that was looked up.
   */
  lemma LookedUpIsCalled(s: State, t: Tid)
    requires Enabled(s, Lookup(t)) && (t.HostThread? ==> Nested(s, t) != [])
    ensures var s', cb := Do(s, Lookup(t)), Top(s, t).cb;
      && (Slot(s.callbacks, cb).Some? ==>
            && Enabled(s', CallBegins(t)) && !Enabled(s', SkipCall(t))
            && Top(Do(s', CallBegins(t)), t) == Calling(cb, Top(s, t).next))
      && (Slot(s.callbacks, cb).None? ==>
            && Enabled(s', SkipCall(t)) && !Enabled(s', CallBegins(t))
            && Top(Do(s', SkipCall(t)), t) == Top(s, t).next)
  {
    LookupTop(s, t);
  }

  lemma LookupTop(s: State, t: Tid)
    requires Enabled(s, Lookup(t)) && (t.HostThread? ==> Nested(s, t) != [])
    ensures Top(Do(s, Lookup(t)), t) == Ready(Top(s, t).cb, Slot(s.callbacks, Top(s, t).cb).Some?, Top(s, t).next)
    ensures t.HostThread? ==> Nested(Do(s, Lookup(t)), t) != []
  {}
}
