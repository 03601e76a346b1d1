/**
  The locks of a session (session.rs, listener.rs). Every operation is a script
  of acquisitions and releases, with marks where a host callback runs. Any number
  of threads run any operations, and a callback may start further operations on
  the same thread. The locks are not re-entrant.
 */
module LockOrder {
  datatype Lock = Term | Backend | Queue | Callbacks

  function Rank(l: Lock): nat {
    match l
    case Term => 0
    case Backend => 1
    case Queue => 1
    case Callbacks => 2
  }

  datatype Instr = Acquire(l: Lock) | Release(l: Lock) | HostCall

  type Script = seq<Instr>

  /** The operations of a session; `events` counts what the terminal queues meanwhile. */
  datatype Operation =
    | SetCallbacks
    | SetClipboard
    | RequestRender
    | Resize(events: nat)
    | SendKey
    | QueryTerm
    | Scroll(events: nat)
    | Select(events: nat)
    | ViCommand(events: nat)
    | ResetOrClear(events: nat)
    | SearchNext(events: nat)
    | PumpRound(advances: seq<nat>, forwarded: nat)
    | PumpExit
    | WatcherExit
    | Destroy

  // ---------- the scripts ----------

  const TABLE: Script := [Acquire(Callbacks), Release(Callbacks)]

  const READ_TERM: Script := [Acquire(Term), Release(Term)]

  /** The guard of `backend` is a temporary of the tail expression, released after `term`. */
  const SNAPSHOT: Script := [Acquire(Term), Acquire(Backend), Release(Term), Release(Backend)]

  const DRAIN: Script := [Acquire(Term), Acquire(Queue), Release(Queue), Release(Term)]

  const RENDER: Script := SNAPSHOT + TABLE + [HostCall]

  function Emit(events: nat): Script {
    if events == 0 then [] else [Acquire(Queue), Release(Queue)] + Emit(events - 1)
  }

  function Advance(events: nat): Script {
    [Acquire(Term)] + Emit(events) + [Release(Term)]
  }

  function AdvanceAll(advances: seq<nat>): Script {
    if advances == [] then [] else Advance(advances[0]) + AdvanceAll(advances[1..])
  }

  function Forward(calls: nat): Script {
    if calls == 0 then [] else TABLE + [HostCall] + Forward(calls - 1)
  }

  function ScriptOf(op: Operation): Script {
    match op
    case SetCallbacks => TABLE
    case SetClipboard => TABLE
    case RequestRender => RENDER
    case Resize(events) => Advance(events)
    case SendKey => READ_TERM
    case QueryTerm => READ_TERM
    case Scroll(events) => Advance(events) + RENDER
    case Select(events) => Advance(events) + RENDER
    case ViCommand(events) => Advance(events) + RENDER
    case ResetOrClear(events) => Advance(events) + RENDER
    case SearchNext(events) => Advance(events)
    case PumpRound(advances, forwarded) => AdvanceAll(advances) + DRAIN + Forward(forwarded) + RENDER
    case PumpExit => RENDER + TABLE + [HostCall]
    case WatcherExit => TABLE + [HostCall]
    case Destroy => TABLE
  }

  // ---------- the discipline ----------

  /** With `held` locks in hand, locks are taken in rank order, and host code runs with none. */
  ghost predicate Disciplined(held: set<Lock>, script: Script)
    decreases |script|
  {
    if script == [] then held == {}
    else match script[0]
      case Acquire(l) => (forall h | h in held :: Rank(h) < Rank(l)) && Disciplined(held + {l}, script[1..])
      case Release(l) => l in held && Disciplined(held - {l}, script[1..])
      case HostCall => held == {} && Disciplined({}, script[1..])
  }

  lemma {:induction false} DisciplinedThen(held: set<Lock>, a: Script, b: Script)
    requires Disciplined(held, a) && Disciplined({}, b)
    ensures Disciplined(held, a + b)
    decreases |a|
  {
    if a == [] {
      assert a + b == b;
    } else {
      assert (a + b)[1..] == a[1..] + b;
      match a[0]
      case Acquire(l) => DisciplinedThen(held + {l}, a[1..], b);
      case Release(l) => DisciplinedThen(held - {l}, a[1..], b);
      case HostCall => DisciplinedThen({}, a[1..], b);
    }
  }

  lemma {:induction false} EmitDisciplined(events: nat)
    ensures Disciplined({Term}, Emit(events) + [Release(Term)])
  {
    if events == 0 {
      assert Emit(0) + [Release(Term)] == [Release(Term)];
      assert {Term} - {Term} == {};
      assert [Release(Term)][1..] == [];
    } else {
      EmitDisciplined(events - 1);
      var rest := Emit(events - 1) + [Release(Term)];
      var script := Emit(events) + [Release(Term)];
      assert script == [Acquire(Queue), Release(Queue)] + rest;
      assert script[1..][1..] == rest;
      assert {Term} + {Queue} - {Queue} == {Term};
      assert Disciplined({Term} + {Queue}, script[1..]);
    }
  }

  lemma AdvanceDisciplined(events: nat)
    ensures Disciplined({}, Advance(events))
  {
    EmitDisciplined(events);
    assert Advance(events)[1..] == Emit(events) + [Release(Term)];
    assert {} + {Term} == {Term};
  }

  lemma {:induction false} AdvanceAllDisciplined(advances: seq<nat>)
    ensures Disciplined({}, AdvanceAll(advances))
  {
    if advances != [] {
      AdvanceDisciplined(advances[0]);
      AdvanceAllDisciplined(advances[1..]);
      DisciplinedThen({}, Advance(advances[0]), AdvanceAll(advances[1..]));
    }
  }

  lemma PairDisciplined(l: Lock)
    ensures Disciplined({}, [Acquire(l), Release(l)])
  {
    var script := [Acquire(l), Release(l)];
    assert script[1..] == [Release(l)] && script[1..][1..] == [];
    assert {} + {l} - {l} == {};
    assert Disciplined({} + {l}, script[1..]);
  }

  lemma CallDisciplined()
    ensures Disciplined({}, [HostCall])
    ensures Disciplined({}, TABLE + [HostCall])
  {
    assert [HostCall][1..] == [];
    PairDisciplined(Callbacks);
    DisciplinedThen({}, TABLE, [HostCall]);
  }

  lemma NestedPairDisciplined(l: Lock, first: Lock, second: Lock)
    requires Rank(Term) < Rank(l)
    requires (first == l && second == Term) || (first == Term && second == l)
    ensures Disciplined({}, [Acquire(Term), Acquire(l), Release(first), Release(second)])
  {
    var script := [Acquire(Term), Acquire(l), Release(first), Release(second)];
    var both := {} + {Term} + {l};
    assert script[1..][1..] == [Release(first), Release(second)];
    assert script[1..][1..][1..] == [Release(second)] && script[1..][1..][1..][1..] == [];
    assert both - {first} - {second} == {};
    assert Disciplined(both - {first}, script[1..][1..][1..]);
    assert Disciplined(both, script[1..][1..]);
    assert Disciplined({} + {Term}, script[1..]);
  }

  lemma RenderDisciplined()
    ensures Disciplined({}, RENDER)
  {
    NestedPairDisciplined(Backend, Term, Backend);
    CallDisciplined();
    DisciplinedThen({}, SNAPSHOT, TABLE + [HostCall]);
    assert RENDER == SNAPSHOT + (TABLE + [HostCall]);
  }

  lemma {:induction false} ForwardDisciplined(calls: nat)
    ensures Disciplined({}, Forward(calls))
  {
    if calls != 0 {
      CallDisciplined();
      ForwardDisciplined(calls - 1);
      DisciplinedThen({}, TABLE + [HostCall], Forward(calls - 1));
    }
  }

  lemma PumpRoundDisciplined(advances: seq<nat>, forwarded: nat)
    ensures Disciplined({}, AdvanceAll(advances) + DRAIN + Forward(forwarded) + RENDER)
  {
    AdvanceAllDisciplined(advances);
    NestedPairDisciplined(Queue, Queue, Term);
    ForwardDisciplined(forwarded);
    RenderDisciplined();
    DisciplinedThen({}, AdvanceAll(advances), DRAIN);
    DisciplinedThen({}, AdvanceAll(advances) + DRAIN, Forward(forwarded));
    DisciplinedThen({}, AdvanceAll(advances) + DRAIN + Forward(forwarded), RENDER);
  }

  lemma AdvanceThenRenderDisciplined(events: nat)
    ensures Disciplined({}, Advance(events) + RENDER)
  {
    AdvanceDisciplined(events);
    RenderDisciplined();
    DisciplinedThen({}, Advance(events), RENDER);
  }

  lemma PumpExitDisciplined()
    ensures Disciplined({}, RENDER + TABLE + [HostCall])
  {
    RenderDisciplined();
    CallDisciplined();
    DisciplinedThen({}, RENDER, TABLE + [HostCall]);
    assert RENDER + TABLE + [HostCall] == RENDER + (TABLE + [HostCall]);
  }

  /** Every operation keeps the lock order and calls the host with no lock held. */
  lemma OperationsDisciplined(op: Operation)
    ensures Disciplined({}, ScriptOf(op))
  {
    match op
    case SetCallbacks => PairDisciplined(Callbacks);
    case SetClipboard => PairDisciplined(Callbacks);
    case RequestRender => RenderDisciplined();
    case Resize(events) => AdvanceDisciplined(events);
    case SendKey => PairDisciplined(Term);
    case QueryTerm => PairDisciplined(Term);
    case Scroll(events) => AdvanceThenRenderDisciplined(events);
    case Select(events) => AdvanceThenRenderDisciplined(events);
    case ViCommand(events) => AdvanceThenRenderDisciplined(events);
    case ResetOrClear(events) => AdvanceThenRenderDisciplined(events);
    case SearchNext(events) => AdvanceDisciplined(events);
    case PumpRound(advances, forwarded) => PumpRoundDisciplined(advances, forwarded);
    case PumpExit => PumpExitDisciplined();
    case WatcherExit => CallDisciplined();
    case Destroy => PairDisciplined(Callbacks);
  }

  // ---------- what an operation protects ----------

  /** The locks a script takes. */
  function Takes(script: Script): set<Lock> {
    set l: Lock | Acquire(l) in script
  }

  /** What an operation works on: the terminal, its event queue, the snapshots, the callback table. */
  function WorksOn(op: Operation): set<Lock> {
    match op
    case SetCallbacks | SetClipboard | Destroy | WatcherExit => {Callbacks}
    case SendKey | QueryTerm => {Term}
    case Resize(events) => OnTerminal(events)
    case SearchNext(events) => OnTerminal(events)
    case RequestRender | PumpExit => {Term, Backend, Callbacks}
    case Scroll(events) => OnTerminal(events) + {Backend, Callbacks}
    case Select(events) => OnTerminal(events) + {Backend, Callbacks}
    case ViCommand(events) => OnTerminal(events) + {Backend, Callbacks}
    case ResetOrClear(events) => OnTerminal(events) + {Backend, Callbacks}
    case PumpRound(_, _) => {Term, Queue, Backend, Callbacks}
  }

  function OnTerminal(events: nat): set<Lock> {
    if events == 0 then {Term} else {Term, Queue}
  }

  lemma {:induction false} EmitTakes(events: nat)
    ensures Takes(Emit(events)) == if events == 0 then {} else {Queue}
  {
    if events > 0 {
      EmitTakes(events - 1);
      assert Takes(Emit(events)) == {Queue} + Takes(Emit(events - 1));
    }
  }

  lemma AdvanceTakes(events: nat)
    ensures Takes(Advance(events)) == OnTerminal(events)
  {
    EmitTakes(events);
    assert Takes(Advance(events)) == {Term} + Takes(Emit(events));
  }

  lemma {:induction false} AdvanceAllTakes(advances: seq<nat>)
    ensures Takes(AdvanceAll(advances)) <= {Term, Queue}
  {
    if advances != [] {
      AdvanceTakes(advances[0]);
      AdvanceAllTakes(advances[1..]);
      assert Takes(AdvanceAll(advances)) == Takes(Advance(advances[0])) + Takes(AdvanceAll(advances[1..]));
    }
  }

  lemma {:induction false} ForwardTakes(calls: nat)
    ensures Takes(Forward(calls)) <= {Callbacks}
  {
    if calls > 0 {
      ForwardTakes(calls - 1);
      assert Takes(Forward(calls)) == Takes(TABLE + [HostCall]) + Takes(Forward(calls - 1));
    }
  }

  lemma RenderTakes()
    ensures Takes(RENDER) == {Term, Backend, Callbacks}
  {
    assert RENDER == [Acquire(Term), Acquire(Backend), Release(Term), Release(Backend),
                      Acquire(Callbacks), Release(Callbacks), HostCall];
  }

  lemma AdvanceRenderTakes(events: nat)
    ensures Takes(Advance(events) + RENDER) == OnTerminal(events) + {Backend, Callbacks}
  {
    AdvanceTakes(events);
    RenderTakes();
    assert Takes(Advance(events) + RENDER) == Takes(Advance(events)) + Takes(RENDER);
  }

  lemma PumpRoundTakes(advances: seq<nat>, forwarded: nat)
    ensures Takes(ScriptOf(PumpRound(advances, forwarded))) == {Term, Queue, Backend, Callbacks}
  {
    AdvanceAllTakes(advances);
    ForwardTakes(forwarded);
    RenderTakes();
    assert Takes(ScriptOf(PumpRound(advances, forwarded)))
        == Takes(AdvanceAll(advances)) + Takes(DRAIN) + Takes(Forward(forwarded)) + Takes(RENDER);
  }

  /** Every operation takes the locks of exactly what it works on. */
  lemma OperationsProtect(op: Operation)
    ensures Takes(ScriptOf(op)) == WorksOn(op)
  {
    match op
    case SetCallbacks | SetClipboard | Destroy | SendKey | QueryTerm | WatcherExit =>
    case RequestRender => RenderTakes();
    case PumpExit =>
      RenderTakes();
      assert Takes(ScriptOf(op)) == Takes(RENDER) + {Callbacks};
    case Resize(events) => AdvanceTakes(events);
    case SearchNext(events) => AdvanceTakes(events);
    case Scroll(events) => AdvanceRenderTakes(events);
    case Select(events) => AdvanceRenderTakes(events);
    case ViCommand(events) => AdvanceRenderTakes(events);
    case ResetOrClear(events) => AdvanceRenderTakes(events);
    case PumpRound(advances, forwarded) => PumpRoundTakes(advances, forwarded);
  }

  // ---------- threads ----------

  type Thread = nat

  /** Per thread the scripts it is in, innermost last; per lock the thread that holds it. */
  datatype State = State(stacks: map<Thread, seq<Script>>, owner: map<Lock, Thread>)

  const INIT := State(map[], map[])

  function Stack(s: State, t: Thread): seq<Script> {
    if t in s.stacks then s.stacks[t] else []
  }

  /** The next instruction of a thread that is inside an operation. */
  predicate At(s: State, t: Thread, instr: Instr) {
    var stack := Stack(s, t);
    stack != [] && stack[|stack| - 1] != [] && stack[|stack| - 1][0] == instr
  }

  function Held(s: State, t: Thread): set<Lock> {
    set l | l in s.owner && s.owner[l] == t
  }

  datatype Action = Begin(t: Thread, op: Operation) | Run(t: Thread) | End(t: Thread)

  predicate Enabled(s: State, a: Action) {
    var stack := Stack(s, a.t);
    match a
    case Begin(t, _) => stack == [] || At(s, t, HostCall)
    case Run(t) =>
      stack != [] && stack[|stack| - 1] != [] &&
      (match stack[|stack| - 1][0]
       case Acquire(l) => l !in s.owner
       case Release(l) => l in s.owner && s.owner[l] == t
       case HostCall => true)
    case End(t) => stack != [] && stack[|stack| - 1] == []
  }

  function Do(s: State, a: Action): State
    requires Enabled(s, a)
  {
    var stack := Stack(s, a.t);
    match a
    case Begin(t, op) => s.(stacks := s.stacks[t := stack + [ScriptOf(op)]])
    case End(t) => s.(stacks := s.stacks[t := stack[..|stack| - 1]])
    case Run(t) =>
      var top := stack[|stack| - 1];
      var s' := s.(stacks := s.stacks[t := stack[..|stack| - 1] + [top[1..]]]);
      match top[0]
      case Acquire(l) => s'.(owner := s.owner[l := t])
      case Release(l) => s'.(owner := s.owner - {l})
      case HostCall => s'
  }

  ghost predicate Possible(s: State, actions: seq<Action>)
    decreases |actions|
  {
    actions == [] || (Enabled(s, actions[0]) && Possible(Do(s, actions[0]), actions[1..]))
  }

  ghost function After(s: State, actions: seq<Action>): State
    requires Possible(s, actions)
    decreases |actions|
  {
    if actions == [] then s else After(Do(s, actions[0]), actions[1..])
  }

  // ---------- the invariant ----------

  /** The innermost script accounts for every held lock; the outer ones wait inside a callback. */
  ghost predicate StackOk(held: set<Lock>, stack: seq<Script>) {
    && (stack == [] ==> held == {})
    && (stack != [] ==> Disciplined(held, stack[|stack| - 1]))
    && forall i | 0 <= i < |stack| - 1 :: stack[i] != [] && stack[i][0] == HostCall && Disciplined({}, stack[i])
  }

  ghost predicate Ok(s: State) {
    forall t: Thread :: StackOk(Held(s, t), Stack(s, t))
  }

  lemma StackPushed(stack: seq<Script>, script: Script)
    requires StackOk({}, stack) && Disciplined({}, script)
    requires stack != [] ==> stack[|stack| - 1] != [] && stack[|stack| - 1][0] == HostCall
    ensures StackOk({}, stack + [script])
  {}

  lemma PushStep(s: State, t: Thread, script: Script)
    requires Ok(s) && Disciplined({}, script) && (Stack(s, t) == [] || At(s, t, HostCall))
    ensures Ok(s.(stacks := s.stacks[t := Stack(s, t) + [script]]))
  {
    var s' := s.(stacks := s.stacks[t := Stack(s, t) + [script]]);
    forall u: Thread
      ensures StackOk(Held(s', u), Stack(s', u))
    {
      assert StackOk(Held(s, u), Stack(s, u));
      assert Held(s', u) == Held(s, u);
      if u == t {
        StackPushed(Stack(s, t), script);
      }
    }
  }

  lemma BeginStep(s: State, t: Thread, op: Operation)
    requires Ok(s) && Enabled(s, Begin(t, op))
    ensures Ok(Do(s, Begin(t, op)))
  {
    OperationsDisciplined(op);
    PushStep(s, t, ScriptOf(op));
  }

  lemma EndStep(s: State, t: Thread)
    requires Ok(s) && Enabled(s, End(t))
    ensures Ok(Do(s, End(t)))
  {
    var s' := Do(s, End(t));
    forall u: Thread
      ensures StackOk(Held(s', u), Stack(s', u))
    {
      assert StackOk(Held(s, u), Stack(s, u));
      assert Held(s', u) == Held(s, u);
    }
  }

  lemma RunStep(s: State, t: Thread)
    requires Ok(s) && Enabled(s, Run(t))
    ensures Ok(Do(s, Run(t)))
  {
    var s' := Do(s, Run(t));
    var stack := Stack(s, t);
    var instr := stack[|stack| - 1][0];
    assert StackOk(Held(s, t), stack);
    assert Held(s', t) == match instr
                          case Acquire(l) => Held(s, t) + {l}
                          case Release(l) => Held(s, t) - {l}
                          case HostCall => Held(s, t);
    forall u: Thread
      ensures StackOk(Held(s', u), Stack(s', u))
    {
      if u != t {
        assert StackOk(Held(s, u), Stack(s, u));
        assert Held(s', u) == Held(s, u);
      }
    }
  }

  lemma {:induction false} OkAlways(s: State, actions: seq<Action>)
    requires Ok(s) && Possible(s, actions)
    ensures Ok(After(s, actions))
    decreases |actions|
  {
    if actions != [] {
      match actions[0] {
        case Begin(t, op) => BeginStep(s, t, op);
        case Run(t) => RunStep(s, t);
        case End(t) => EndStep(s, t);
      }
      OkAlways(Do(s, actions[0]), actions[1..]);
    }
  }

  lemma InitOk()
    ensures Ok(INIT)
  {
    forall t: Thread
      ensures StackOk(Held(INIT, t), Stack(INIT, t))
    {
      assert Held(INIT, t) == {};
    }
  }

  // ---------- no deadlock ----------

  /** Thread t waits for lock l, which u holds. */
  predicate WaitsFor(s: State, t: Thread, l: Lock, u: Thread) {
    At(s, t, Acquire(l)) && l in s.owner && s.owner[l] == u
  }

  ghost predicate Waits(s: State, t: Thread, u: Thread) {
    exists l :: WaitsFor(s, t, l, u)
  }

  ghost predicate Chain(s: State, threads: seq<Thread>) {
    forall i | 0 <= i < |threads| - 1 :: Waits(s, threads[i], threads[i + 1])
  }

  lemma WaitsClimb(s: State, t: Thread, l: Lock, u: Thread, m: Lock, v: Thread)
    requires Ok(s) && WaitsFor(s, t, l, u) && WaitsFor(s, u, m, v)
    ensures Rank(l) < Rank(m)
  {
    assert StackOk(Held(s, u), Stack(s, u));
    assert l in Held(s, u);
  }

  /** Along a chain of waiting threads the ranks of the wanted locks rise. */
  lemma {:induction false} ChainClimbs(s: State, threads: seq<Thread>, l: Lock)
    requires Ok(s) && Chain(s, threads) && |threads| >= 2
    requires WaitsFor(s, threads[0], l, threads[1])
    ensures exists m :: WaitsFor(s, threads[|threads| - 2], m, threads[|threads| - 1])
                        && Rank(m) >= Rank(l) + |threads| - 2
  {
    if |threads| > 2 {
      var rest := threads[1..];
      forall i | 0 <= i < |rest| - 1
        ensures Waits(s, rest[i], rest[i + 1])
      {
        assert Waits(s, threads[i + 1], threads[i + 1 + 1]);
      }
      assert Waits(s, threads[1], threads[2]);
      var m :| WaitsFor(s, threads[1], m, threads[2]);
      WaitsClimb(s, threads[0], l, threads[1], m, threads[2]);
      ChainClimbs(s, rest, m);
    }
  }

  /** The session's own code moves, without waiting for the host to return from a callback. */
  predicate Moves(s: State, a: Action) {
    !a.Begin? && Enabled(s, a) && !At(s, a.t, HostCall)
  }

  /** The chain leads from t to a thread that can move. */
  ghost predicate LeadsToMove(s: State, t: Thread, chain: seq<Thread>, a: Action) {
    chain != [] && chain[0] == t && Chain(s, chain) && Moves(s, a) && a.t == chain[|chain| - 1]
  }

  lemma ChainCons(s: State, t: Thread, chain: seq<Thread>)
    requires chain != [] && Waits(s, t, chain[0]) && Chain(s, chain)
    ensures Chain(s, [t] + chain)
  {
    var longer := [t] + chain;
    forall i | 0 <= i < |longer| - 1
      ensures Waits(s, longer[i], longer[i + 1])
    {
      if i > 0 {
        assert Waits(s, chain[i - 1], chain[i - 1 + 1]);
      }
    }
  }

  /** Following who holds what is wanted, one arrives at a thread that can run. */
  lemma FreeHolder(s: State, t: Thread, l: Lock, u: Thread) returns (chain: seq<Thread>)
    requires Ok(s) && WaitsFor(s, t, l, u)
    ensures |chain| >= 2 && LeadsToMove(s, t, chain, Run(chain[|chain| - 1]))
    decreases 3 - Rank(l)
  {
    var stack := Stack(s, u);
    assert StackOk(Held(s, u), stack);
    assert l in Held(s, u);
    match stack[|stack| - 1][0] {
      case Acquire(m) =>
        if m in s.owner {
          WaitsClimb(s, t, l, u, m, s.owner[m]);
          chain := FreeHolder(s, u, m, s.owner[m]);
          ChainCons(s, t, chain);
          chain := [t] + chain;
        } else {
          chain := [t, u];
        }
      case Release(m) =>
        assert m in Held(s, u);
        chain := [t, u];
      case HostCall =>
        assert false;
    }
  }

  /**
    In every reachable state of any number of threads: waiting chains have at most
    three links and never close, not even on one thread; host callbacks run with no
    lock held; and from every thread that is inside an operation and not inside a
    callback, a waiting chain (of the thread alone, if it waits for nobody) leads to a
    thread that can move and does not have to wait for the host.
   */
  lemma NoDeadlock(actions: seq<Action>)
    requires Possible(INIT, actions)
    ensures var s := After(INIT, actions);
      && (forall threads | Chain(s, threads) && |threads| >= 2 ::
            |threads| <= 4 && threads[0] != threads[|threads| - 1])
      && (forall t | At(s, t, HostCall) :: Held(s, t) == {})
      && (forall t | Stack(s, t) != [] && !At(s, t, HostCall) :: exists chain, a :: LeadsToMove(s, t, chain, a))
  {
    InitOk();
    OkAlways(INIT, actions);
    var s := After(INIT, actions);
    forall threads | Chain(s, threads) && |threads| >= 2
      ensures |threads| <= 4 && threads[0] != threads[|threads| - 1]
    {
      ChainIsOpen(s, threads);
    }
    forall t | At(s, t, HostCall)
      ensures Held(s, t) == {}
    {
      assert StackOk(Held(s, t), Stack(s, t));
    }
    forall t | Stack(s, t) != [] && !At(s, t, HostCall)
      ensures exists chain, a :: LeadsToMove(s, t, chain, a)
    {
      SomeoneMoves(s, t);
    }
  }

  lemma ChainIsOpen(s: State, threads: seq<Thread>)
    requires Ok(s) && Chain(s, threads) && |threads| >= 2
    ensures |threads| <= 4 && threads[0] != threads[|threads| - 1]
  {
    assert Waits(s, threads[0], threads[1]);
    var l :| WaitsFor(s, threads[0], l, threads[1]);
    ChainClimbs(s, threads, l);
    var m :| WaitsFor(s, threads[|threads| - 2], m, threads[|threads| - 1])
             && Rank(m) >= Rank(l) + |threads| - 2;
    ClimbsPast(s, threads[|threads| - 2], m, threads[|threads| - 1], l, threads[1]);
  }

  lemma ClimbsPast(s: State, t: Thread, l: Lock, u: Thread, m: Lock, v: Thread)
    requires Ok(s) && WaitsFor(s, t, l, u)
    ensures WaitsFor(s, u, m, v) ==> Rank(l) < Rank(m)
  {
    if WaitsFor(s, u, m, v) {
      WaitsClimb(s, t, l, u, m, v);
    }
  }

  lemma SomeoneMoves(s: State, t: Thread)
    requires Ok(s) && Stack(s, t) != [] && !At(s, t, HostCall)
    ensures exists chain, a :: LeadsToMove(s, t, chain, a)
  {
    var stack := Stack(s, t);
    assert StackOk(Held(s, t), stack);
    if stack[|stack| - 1] == [] {
      assert LeadsToMove(s, t, [t], End(t));
    } else {
      match stack[|stack| - 1][0] {
        case Acquire(l) =>
          if l in s.owner {
            var chain := FreeHolder(s, t, l, s.owner[l]);
          } else {
            assert LeadsToMove(s, t, [t], Run(t));
          }
        case Release(l) =>
          assert l in Held(s, t);
          assert LeadsToMove(s, t, [t], Run(t));
        case HostCall =>
      }
    }
  }
}
