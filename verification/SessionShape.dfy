/** Which codes each thread can be at, and how nested calls stack up. */
module SessionShape {
  import opened Common
  import opened SessionModel

  /** Where the pump resumes after one of its callbacks. */
  predicate AfterCallback(code: Code) {
    code.Dispatch? || code.Rendered? || code.ReadCode? || code.Finished?
  }

  predicate PumpCode(code: Code) {
    match code
    case Fetch(_, next) => AfterCallback(next)
    case Ready(_, _, next) => AfterCallback(next)
    case Calling(_, next) => AfterCallback(next)
    case Poll | QueryChild | Nap(_) | Return | InDrop | Outside => false
    case _ => true
  }

  predicate WatcherCode(code: Code) {
    match code
    case Fetch(cb, next) => cb.OnExit? && next == Finished
    case Ready(cb, _, next) => cb.OnExit? && next == Finished
    case Calling(cb, next) => cb.OnExit? && next == Finished
    case Poll | QueryChild | Nap(_) | StoreCode(_) | SwapAlive(_) | Finished => true
    case _ => false
  }

  /** A nested call renders, or tears the session down. */
  predicate NestedCode(code: Code) {
    match code
    case Fetch(cb, next) => cb.OnRender? && next == Return
    case Ready(cb, _, next) => cb.OnRender? && next == Return
    case Calling(cb, next) => cb.OnRender? && next == Return
    case Return | InDrop => true
    case _ => false
  }

  /** Only host code nests further calls, so everything below the top is inside a callback. */
  predicate StackCode(stack: seq<Code>) {
    && (forall i | 0 <= i < |stack| :: NestedCode(stack[i]))
    && (forall i | 0 <= i < |stack| - 1 :: stack[i].Calling?)
  }

  ghost predicate StacksOk(s: State) {
    forall t | t in s.calls :: StackCode(s.calls[t])
  }

  ghost predicate Shapes(s: State) {
    StacksOk(s) && WatcherCode(s.watcher) && PumpCode(s.pump)
  }

  lemma StacksSetTop(s: State, t: Tid, code: Code)
    requires StacksOk(s) && (Nested(s, t) != [] ==> NestedCode(code))
    ensures StacksOk(SetTop(s, t, code))
  {}

  lemma StacksPush(s: State, t: Tid, code: Code)
    requires StacksOk(s) && NestedCode(code) && InHostCode(s, t)
    ensures StacksOk(Push(s, t, code))
  {}

  lemma StacksPop(s: State, t: Tid)
    requires StacksOk(s) && Nested(s, t) != []
    ensures StacksOk(Pop(s, t))
  {}

  lemma StacksStep(s: State, a: Action)
    requires StacksOk(s) && Enabled(s, a)
    ensures StacksOk(Do(s, a))
  {
    match a
    case Lookup(t) => StacksSetTop(s, t, Ready(Top(s, t).cb, Registered(s.callbacks, Top(s, t).cb), Top(s, t).next));
    case SkipCall(t) => StacksSetTop(s, t, Top(s, t).next);
    case CallBegins(t) => StacksSetTop(s, t, Calling(Top(s, t).cb, Top(s, t).next));
    case CallEnds(t) => StacksSetTop(s, t, Top(s, t).next);
    case ApiReturns(t) => StacksPop(s, t);
    case HostRender(t, _) => StacksPush(s, t, Fetch(OnRender, Return));
    case BeginDrop(t) => StacksPush(s, t, InDrop);
    case DropSteps => StacksPop(s, s.teardown.who);
    case _ => assert Do(s, a).calls == s.calls;
  }

  // ---------- what a step leaves alone ----------

  /** The steps of a callback: clone it out of the table, begin it, end it. */
  predicate CallStep(a: Action) {
    a.Lookup? || a.SkipCall? || a.CallBegins? || a.CallEnds?
  }

  predicate Reads(a: Action) {
    a.ReaderReads? || a.PipeEnds?
  }

  /** Steps of the world around the pump, the watcher and their callbacks. */
  predicate Elsewhere(a: Action) {
    !a.PumpSteps? && !a.WatcherSteps? && !CallStep(a)
  }

  lemma CodesKept(s: State, a: Action)
    requires Enabled(s, a) && !a.PumpSteps? && !CallStep(a)
    ensures Do(s, a).pump == s.pump && (!a.WatcherSteps? ==> Do(s, a).watcher == s.watcher)
  {}

  lemma IoKept(s: State, a: Action)
    requires Enabled(s, a) && !a.PumpSteps? && !Reads(a) && !a.ReaderSends? && !a.DropSteps?
    ensures Do(s, a).io == s.io
  {}

  lemma TeardownKept(s: State, a: Action)
    requires Enabled(s, a) && !a.DropSteps? && !a.BeginDrop?
    ensures Do(s, a).teardown == s.teardown
  {}

  lemma LifeKept(s: State, a: Action)
    requires Enabled(s, a) && Elsewhere(a) && !a.ChildExits? && !a.ReaderSends? && !a.DropSteps?
    ensures Do(s, a).life == s.life
  {}

  /** What the step of a callback makes of the code of its thread. */
  function Called(s: State, a: Action): Code
    requires Enabled(s, a) && CallStep(a)
  {
    var code := Top(s, a.t);
    match a
    case Lookup(_) => Ready(code.cb, Registered(s.callbacks, code.cb), code.next)
    case CallBegins(_) => Calling(code.cb, code.next)
    case SkipCall(_) => code.next
    case CallEnds(_) => code.next
  }

  /** Moves left to a nested call. */
  function CallRank(code: Code): nat {
    match code
    case Fetch(_, _) => 4
    case Ready(_, _, _) => 3
    case Calling(_, _) => 2
    case Return => 1
    case _ => 0
  }

  lemma CallStepShape(s: State, a: Action)
    requires Enabled(s, a) && CallStep(a)
    ensures var s' := Do(s, a);
      && s'.io == s.io && s'.out == s.out && s'.teardown == s.teardown && s'.callbacks == s.callbacks
      && s'.pump == (if a.t == PumpThread && Nested(s, a.t) == [] then Called(s, a) else s.pump)
      && s'.watcher == (if a.t == WatcherThread && Nested(s, a.t) == [] then Called(s, a) else s.watcher)
      && s'.life == (if a.CallBegins? && Top(s, a.t).cb.OnExit?
                     then s.life.(notified := s.life.notified + [Top(s, a.t).cb.code]) else s.life)
  {}

  lemma PumpCodeStep(s: State, emitted: seq<TermEvent>)
    requires PumpCode(s.pump) && PumpEnabled(s)
    ensures PumpCode(PumpDo(s, emitted).pump) && PumpDo(s, emitted).watcher == s.watcher
  {}

  lemma WatcherCodeStep(s: State)
    requires WatcherCode(s.watcher) && WatcherEnabled(s)
    ensures WatcherCode(WatcherDo(s).watcher) && WatcherDo(s).pump == s.pump
  {}

  lemma CodesStep(s: State, a: Action)
    requires WatcherCode(s.watcher) && PumpCode(s.pump) && Enabled(s, a)
    ensures WatcherCode(Do(s, a).watcher) && PumpCode(Do(s, a).pump)
  {
    if a.PumpSteps? {
      PumpCodeStep(s, a.emitted);
    } else if a.WatcherSteps? {
      WatcherCodeStep(s);
    } else if CallStep(a) {
      CallStepShape(s, a);
    } else {
      CodesKept(s, a);
    }
  }

  lemma ShapesStep(s: State, a: Action)
    requires Shapes(s) && Enabled(s, a)
    ensures Shapes(Do(s, a))
  {
    StacksStep(s, a);
    CodesStep(s, a);
  }

  lemma {:induction false} ShapesInvariant(s: State, actions: seq<Action>)
    requires Shapes(s) && Possible(s, actions)
    ensures Shapes(After(s, actions))
    decreases |actions|
  {
    if actions != [] {
      ShapesStep(s, actions[0]);
      ShapesInvariant(Do(s, actions[0]), actions[1..]);
    }
  }
}
