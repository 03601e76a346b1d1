/**
  One started session as a transition system (session.rs, io.rs).

  Five kinds of thread run against each other: any number of host threads, the
  reader, the pump, the watcher and the writer. Each step below is one atomic
  access of the program to shared state: a channel operation, a critical
  section, an access to `alive` or `exit_code`, or the start or end of a host
  callback. While a callback runs, the host may call the session again from
  inside it, so every thread carries a stack of nested calls.

  Fields whose names say "taken", "enqueued", "history", "sent" and so on are
  histories: the program does not store them, the theorems speak about them.
 */
module SessionModel {
  import opened Common

  /** Capacity of the reader-to-pump channel. */
  const CHANNEL_CAPACITY := 64

  /** The watcher splits its polling pause into this many naps. */
  const NAPS := 5

  datatype IoEvent = Bytes(buf: seq<Byte>) | Eof

  /** What the terminal emulator queues while it consumes bytes. */
  datatype TermEvent =
    | Title(title: string)
    | ResetTitle
    | Bell
    | ClipboardStore(text: string)
    | PtyWrite(reply: seq<Byte>)
    | OtherEvent

  /** A queued event, marked with who was advancing the terminal. */
  datatype Queued = Queued(ev: TermEvent, byPump: bool)

  /** A host callback together with its argument. */
  datatype Callback =
    | OnRender
    | OnExit(code: int)
    | OnBell
    | OnTitle(title: string)
    | OnClipboard(text: string)

  /** What the pump does with a terminal event, logged when it happens. */
  datatype Effect = Offered(cb: Callback) | Replied(reply: seq<Byte>) | Ignored

  /** The callback table: which of the host's functions each slot holds, if any. */
  datatype Callbacks = Callbacks(onRender: Option<nat>,
                                 onExit: Option<nat>,
                                 onBell: Option<nat>,
                                 onTitle: Option<nat>,
                                 onClipboard: Option<nat>)

  const NO_CALLBACKS := Callbacks(None, None, None, None, None)

  predicate Registered(callbacks: Callbacks, cb: Callback) {
    match cb
    case OnRender => callbacks.onRender.Some?
    case OnExit(_) => callbacks.onExit.Some?
    case OnBell => callbacks.onBell.Some?
    case OnTitle(_) => callbacks.onTitle.Some?
    case OnClipboard(_) => callbacks.onClipboard.Some?
  }

  datatype Tid = PumpThread | WatcherThread | HostThread(id: nat)

  /** What a thread does next. */
  datatype Code =
    // the pump loop
    | Recv
    | Advance(buf: seq<Byte>)
    | TryRecv
    | Drain(eof: bool)
    | Dispatch(eof: bool, events: seq<Queued>)
    | Snapshot(eof: bool)
    | Rendered(eof: bool)
    | LastSnapshot
    | ReadCode
    // the watcher loop
    | Poll
    | QueryChild
    | Nap(count: nat)
    // exit notification, the same steps in the pump and in the watcher
    | StoreCode(code: int)
    | SwapAlive(code: int)
    // a host callback: clone it out of the table, then call it with no lock held
    | Fetch(cb: Callback, next: Code)
    | Ready(cb: Callback, live: bool, next: Code)
    | Calling(cb: Callback, next: Code)
    // nested calls made by host code
    | Return
    | InDrop
    // base states of threads with nothing to do
    | Finished
    | Outside

  /** The steps of `Drop for Session`, in order. */
  datatype DropStep =
    | LowerAlive
    | ClearCallbacks
    | Terminate
    | SyntheticEof
    | StopWriter
    | JoinWriter
    | ReleasePty
    | JoinPump
    | JoinWatcher
    | JoinReader

  datatype Teardown = NotBegun | Running(who: Tid, at: DropStep) | Returned(who: Tid)

  datatype Reader = Reading | Sending(ev: IoEvent) | ReaderDone

  datatype Writer = Waiting | Writing(buf: seq<Byte>) | WriterDone

  /** The channel from reader to pump, and the terminal input. */
  datatype Io = Io(reader: Reader,
                   chan: seq<IoEvent>,
                   enqueued: seq<IoEvent>,
                   taken: seq<IoEvent>,
                   applied: seq<Byte>)

  /** The terminal's event queue. */
  datatype Bus = Bus(queue: seq<Queued>, history: seq<Queued>, delivered: seq<Effect>)

  /** The unbounded channel to the writer, and the pipe behind it. */
  datatype Out = Out(writer: Writer,
                     queue: seq<seq<Byte>>,
                     sent: seq<seq<Byte>>,
                     taken: seq<seq<Byte>>,
                     written: seq<seq<Byte>>)

  /**
    Liveness of the child. `earlyEof` records an Eof enqueued before the process
    was signalled, `blindRead` that the pump asked for an exit code there was not yet.
   */
  datatype Life = Life(alive: bool,
                       child: Option<int>,
                       exitCode: int,
                       earlyEof: bool,
                       blindRead: bool,
                       winners: seq<Tid>,
                       notified: seq<int>)

  datatype State = State(io: Io,
                         bus: Bus,
                         out: Out,
                         life: Life,
                         callbacks: Callbacks,
                         pump: Code,
                         watcher: Code,
                         calls: map<Tid, seq<Code>>,
                         teardown: Teardown)

  /** The state `Session::start` leaves behind. */
  function Init(callbacks: Callbacks): State {
    State(Io(Reading, [], [], [], []),
          Bus([], [], []),
          Out(Waiting, [], [], [], []),
          Life(true, None, 0, false, false, [], []),
          callbacks, Recv, Poll, map[], NotBegun)
  }

  // ---------- threads and their stacks ----------

  function Nested(s: State, t: Tid): seq<Code> {
    if t in s.calls then s.calls[t] else []
  }

  function Base(s: State, t: Tid): Code {
    match t
    case PumpThread => s.pump
    case WatcherThread => s.watcher
    case HostThread(_) => Outside
  }

  function Top(s: State, t: Tid): Code {
    var stack := Nested(s, t);
    if stack == [] then Base(s, t) else stack[|stack| - 1]
  }

  function SetTop(s: State, t: Tid, code: Code): State {
    var stack := Nested(s, t);
    if stack != [] then
      s.(calls := s.calls[t := stack[..|stack| - 1] + [code]])
    else match t
      case PumpThread => s.(pump := code)
      case WatcherThread => s.(watcher := code)
      case HostThread(_) => s
  }

  function Push(s: State, t: Tid, code: Code): State {
    s.(calls := s.calls[t := Nested(s, t) + [code]])
  }

  function Pop(s: State, t: Tid): State
    requires Nested(s, t) != []
  {
    s.(calls := s.calls[t := Nested(s, t)[..|Nested(s, t)| - 1]])
  }

  /** Host code runs on a host thread outside the session, and inside every callback. */
  predicate InHostCode(s: State, t: Tid) {
    Top(s, t).Outside? || Top(s, t).Calling?
  }

  // ---------- shared pieces ----------

  function Enqueue(io: Io, ev: IoEvent): Io {
    io.(chan := io.chan + [ev], enqueued := io.enqueued + [ev])
  }

  function Receive(io: Io): Io
    requires io.chan != []
  {
    io.(chan := io.chan[1..], taken := io.taken + [io.chan[0]])
  }

  function Tag(events: seq<TermEvent>, byPump: bool): seq<Queued> {
    seq(|events|, i requires 0 <= i < |events| => Queued(events[i], byPump))
  }

  function QueueEvents(bus: Bus, events: seq<TermEvent>, byPump: bool): Bus {
    bus.(queue := bus.queue + Tag(events, byPump), history := bus.history + Tag(events, byPump))
  }

  /** Sending to the writer fails silently once the writer thread, which owns the receiver, is gone. */
  function Send(out: Out, buf: seq<Byte>): Out {
    if out.writer.WriterDone? then out
    else out.(queue := out.queue + [buf], sent := out.sent + [buf])
  }

  function NoteEof(life: Life, ev: IoEvent): Life {
    if ev.Eof? && life.child.None? then life.(earlyEof := true) else life
  }

  /** The receiver reports disconnection when both senders are gone. */
  predicate Disconnected(s: State) {
    s.io.chan == [] && s.teardown.Returned?
  }

  /** Drop has let go of the session's own handle to the pseudo-console. */
  predicate ConsoleReleased(teardown: Teardown) {
    || teardown.Returned?
    || (teardown.Running? && (teardown.at.JoinPump? || teardown.at.JoinWatcher? || teardown.at.JoinReader?))
  }

  /** Three owners share the pseudo-console: the session, the pump and the watcher. The last to let go closes it. */
  predicate ConsoleClosed(s: State) {
    s.pump.Finished? && s.watcher.Finished? && ConsoleReleased(s.teardown)
  }

  // ---------- the pump ----------

  predicate PumpEnabled(s: State) {
    Nested(s, PumpThread) == [] &&
    match s.pump
    case Recv => s.io.chan != [] || Disconnected(s)
    case Advance(_) | TryRecv | Drain(_) | Dispatch(_, _) | Snapshot(_) | Rendered(_)
       | LastSnapshot | ReadCode | StoreCode(_) | SwapAlive(_) => true
    case _ => false
  }

  function PumpRecv(s: State): State {
    if s.io.chan == [] then s.(pump := Finished)
    else
      s.(io := Receive(s.io),
         pump := match s.io.chan[0] case Bytes(buf) => Advance(buf) case Eof => LastSnapshot)
  }

  function PumpTryRecv(s: State): State {
    if s.io.chan == [] then s.(pump := Drain(false))
    else
      s.(io := Receive(s.io),
         pump := match s.io.chan[0] case Bytes(buf) => Advance(buf) case Eof => Drain(true))
  }

  function PumpDispatch(s: State): State
    requires s.pump.Dispatch?
  {
    var Dispatch(eof, events) := s.pump;
    if events == [] then s.(pump := Snapshot(eof))
    else
      var rest := Dispatch(eof, events[1..]);
      match events[0].ev
      case Title(title) => s.(pump := Fetch(OnTitle(title), rest))
      case ResetTitle => s.(pump := Fetch(OnTitle(""), rest))
      case Bell => s.(pump := Fetch(OnBell, rest))
      case ClipboardStore(text) => s.(pump := Fetch(OnClipboard(text), rest))
      case PtyWrite(reply) => s.(bus := Deliver(s.bus, Replied(reply)), out := Send(s.out, reply), pump := rest)
      case OtherEvent => s.(bus := Deliver(s.bus, Ignored), pump := rest)
  }

  function Deliver(bus: Bus, effect: Effect): Bus {
    bus.(delivered := bus.delivered + [effect])
  }

  /** Callbacks that stem from terminal events, as opposed to frames and the exit notice. */
  predicate FromEvent(cb: Callback) {
    cb.OnTitle? || cb.OnBell? || cb.OnClipboard?
  }

  /** One step of the pump loop. `emitted` is what the terminal queues if the step advances it. */
  function PumpDo(s: State, emitted: seq<TermEvent>): State
    requires PumpEnabled(s)
  {
    match s.pump
    case Recv => PumpRecv(s)
    case Advance(buf) =>
      s.(io := s.io.(applied := s.io.applied + buf), bus := QueueEvents(s.bus, emitted, true), pump := TryRecv)
    case TryRecv => PumpTryRecv(s)
    case Drain(eof) => s.(bus := s.bus.(queue := []), pump := Dispatch(eof, s.bus.queue))
    case Dispatch(_, _) => PumpDispatch(s)
    case Snapshot(eof) => s.(pump := Fetch(OnRender, Rendered(eof)))
    case Rendered(eof) => s.(pump := if eof then LastSnapshot else Recv)
    case LastSnapshot => s.(pump := Fetch(OnRender, ReadCode))
    case ReadCode =>
      if s.life.child.Some? then s.(pump := StoreCode(s.life.child.value))
      else s.(life := s.life.(blindRead := true), pump := StoreCode(0))
    case StoreCode(code) => s.(life := s.life.(exitCode := code), pump := SwapAlive(code))
    case SwapAlive(code) => s.(life := Swap(s.life, PumpThread), pump := AfterSwap(s.life, code))
    case _ => s
  }

  function Swap(life: Life, t: Tid): Life {
    if life.alive then life.(alive := false, winners := life.winners + [t]) else life
  }

  function AfterSwap(life: Life, code: int): Code {
    if life.alive then Fetch(OnExit(code), Finished) else Finished
  }

  // ---------- the watcher ----------

  predicate WatcherEnabled(s: State) {
    Nested(s, WatcherThread) == [] &&
    (s.watcher.Poll? || s.watcher.QueryChild? || s.watcher.Nap? || s.watcher.StoreCode? || s.watcher.SwapAlive?)
  }

  function WatcherDo(s: State): State
    requires WatcherEnabled(s)
  {
    match s.watcher
    case Poll => s.(watcher := if s.life.alive then QueryChild else Finished)
    case QueryChild =>
      s.(watcher := match s.life.child case Some(code) => StoreCode(code) case None => Nap(0))
    case Nap(count) =>
      s.(watcher := if count >= NAPS then Poll else if s.life.alive then Nap(count + 1) else Finished)
    case StoreCode(code) => s.(life := s.life.(exitCode := code), watcher := SwapAlive(code))
    case SwapAlive(code) => s.(life := Swap(s.life, WatcherThread), watcher := AfterSwap(s.life, code))
    case _ => s
  }

  // ---------- reader and writer ----------

  function ReaderSend(s: State): State
    requires s.io.reader.Sending?
  {
    var ev := s.io.reader.ev;
    s.(io := Enqueue(s.io, ev).(reader := if ev.Eof? then ReaderDone else Reading),
       life := NoteEof(s.life, ev))
  }

  function WriterRecv(out: Out): Out
    requires out.queue != []
  {
    var buf := out.queue[0];
    out.(queue := out.queue[1..],
         taken := out.taken + [buf],
         writer := if buf == [] then WriterDone else Writing(buf))
  }

  function WriterWrite(out: Out): Out
    requires out.writer.Writing?
  {
    out.(written := out.written + [out.writer.buf], writer := Waiting)
  }

  // ---------- Drop ----------

  predicate DropEnabled(s: State) {
    s.teardown.Running? && Nested(s, s.teardown.who) != [] && Top(s, s.teardown.who) == InDrop &&
    match s.teardown.at
    case JoinWriter => s.out.writer.WriterDone?
    case JoinPump => s.teardown.who == PumpThread || s.pump.Finished?
    case JoinWatcher => s.teardown.who == WatcherThread || s.watcher.Finished?
    case JoinReader => s.io.reader.ReaderDone?
    case _ => true
  }

  function DropDo(s: State): State
    requires DropEnabled(s)
  {
    var who := s.teardown.who;
    match s.teardown.at
    case LowerAlive => s.(life := s.life.(alive := false), teardown := Running(who, ClearCallbacks))
    case ClearCallbacks => s.(callbacks := NO_CALLBACKS, teardown := Running(who, Terminate))
    case Terminate => s.(teardown := Running(who, SyntheticEof))
    case SyntheticEof =>
      if |s.io.chan| < CHANNEL_CAPACITY then
        s.(io := Enqueue(s.io, Eof), life := NoteEof(s.life, Eof), teardown := Running(who, StopWriter))
      else s.(teardown := Running(who, StopWriter))
    case StopWriter => s.(out := Send(s.out, []), teardown := Running(who, JoinWriter))
    case JoinWriter => s.(teardown := Running(who, ReleasePty))
    case ReleasePty => s.(teardown := Running(who, JoinPump))
    case JoinPump => s.(teardown := Running(who, JoinWatcher))
    case JoinWatcher => s.(teardown := Running(who, JoinReader))
    case JoinReader => Pop(s, who).(teardown := Returned(who))
  }

  // ---------- the step relation ----------

  /**
    `PipeEnds`: the reader meets the end of the pipe while the pseudo-console still
    has an owner, because the console has gone by itself or the read has failed.
    Host calls: `HostTouch` only works on the terminal (resize, search),
    `HostRender` also delivers a frame.
   */
  datatype Action =
    | ChildExits(code: int)
    | PipeEnds
    | ReaderReads(ev: IoEvent)
    | ReaderSends
    | WriterReceives
    | WriterWrites
    | PumpSteps(emitted: seq<TermEvent>)
    | WatcherSteps
    | Lookup(t: Tid)
    | SkipCall(t: Tid)
    | CallBegins(t: Tid)
    | CallEnds(t: Tid)
    | ApiReturns(t: Tid)
    | HostTouch(t: Tid, emitted: seq<TermEvent>)
    | HostRender(t: Tid, emitted: seq<TermEvent>)
    | HostSend(t: Tid, payload: seq<Byte>)
    | HostSetCallbacks(t: Tid, table: Callbacks)
    | HostSetClipboard(t: Tid, clipboard: Option<nat>)
    | BeginDrop(t: Tid)
    | DropSteps

  /**
    What may happen next. The host keeps its side of the contract of
    `rata_session_destroy`: destroy is called once, while no other thread is
    inside a call to the session, and nothing is called afterwards.
   */
  predicate Enabled(s: State, a: Action) {
    match a
    case ChildExits(_) => s.life.child.None?
    case PipeEnds => s.io.reader.Reading?
    case ReaderReads(ev) => s.io.reader.Reading? && (if ev.Eof? then ConsoleClosed(s) else ev.buf != [])
    case ReaderSends => s.io.reader.Sending? && |s.io.chan| < CHANNEL_CAPACITY
    case WriterReceives => s.out.writer.Waiting? && s.out.queue != []
    case WriterWrites => s.out.writer.Writing?
    case PumpSteps(_) => PumpEnabled(s)
    case WatcherSteps => WatcherEnabled(s)
    case Lookup(t) => Top(s, t).Fetch?
    case SkipCall(t) => Top(s, t).Ready? && !Top(s, t).live
    case CallBegins(t) => Top(s, t).Ready? && Top(s, t).live
    case CallEnds(t) => Top(s, t).Calling?
    case ApiReturns(t) => Nested(s, t) != [] && Top(s, t) == Return
    case HostTouch(t, _) => InHostCode(s, t) && s.teardown.NotBegun?
    case HostRender(t, _) => InHostCode(s, t) && s.teardown.NotBegun?
    case HostSend(t, payload) => InHostCode(s, t) && s.teardown.NotBegun?
    case HostSetCallbacks(t, _) => InHostCode(s, t) && s.teardown.NotBegun?
    case HostSetClipboard(t, _) => InHostCode(s, t) && s.teardown.NotBegun?
    case BeginDrop(t) =>
      InHostCode(s, t) && s.teardown.NotBegun? && forall u | u in s.calls && u != t :: s.calls[u] == []
    case DropSteps => DropEnabled(s)
  }

  function Do(s: State, a: Action): State
    requires Enabled(s, a)
  {
    match a
    case ChildExits(code) => s.(life := s.life.(child := Some(code)))
    case PipeEnds => s.(io := s.io.(reader := Sending(Eof)))
    case ReaderReads(ev) => s.(io := s.io.(reader := Sending(ev)))
    case ReaderSends => ReaderSend(s)
    case WriterReceives => s.(out := WriterRecv(s.out))
    case WriterWrites => s.(out := WriterWrite(s.out))
    case PumpSteps(emitted) => PumpDo(s, emitted)
    case WatcherSteps => WatcherDo(s)
    case Lookup(t) =>
      var Fetch(cb, next) := Top(s, t);
      var s' := if FromEvent(cb) then s.(bus := Deliver(s.bus, Offered(cb))) else s;
      SetTop(s', t, Ready(cb, Registered(s.callbacks, cb), next))
    case SkipCall(t) => SetTop(s, t, Top(s, t).next)
    case CallBegins(t) =>
      var Ready(cb, _, next) := Top(s, t);
      SetTop(NoteCall(s, cb), t, Calling(cb, next))
    case CallEnds(t) => SetTop(s, t, Top(s, t).next)
    case ApiReturns(t) => Pop(s, t)
    case HostTouch(_, emitted) => s.(bus := QueueEvents(s.bus, emitted, false))
    case HostRender(t, emitted) => Push(s.(bus := QueueEvents(s.bus, emitted, false)), t, Fetch(OnRender, Return))
    case HostSend(_, payload) => if payload == [] then s else s.(out := Send(s.out, payload))
    case HostSetCallbacks(_, table) =>
      s.(callbacks := table.(onClipboard := s.callbacks.onClipboard))
    case HostSetClipboard(_, clipboard) =>
      s.(callbacks := s.callbacks.(onClipboard := clipboard))
    case BeginDrop(t) => Push(s, t, InDrop).(teardown := Running(t, LowerAlive))
    case DropSteps => DropDo(s)
  }

  function NoteCall(s: State, cb: Callback): State {
    if cb.OnExit? then s.(life := s.life.(notified := s.life.notified + [cb.code])) else s
  }

  // ---------- runs ----------

  /** Every action of the list is enabled when its turn comes. */
  predicate Possible(s: State, actions: seq<Action>)
    decreases |actions|
  {
    actions == [] || (Enabled(s, actions[0]) && Possible(Do(s, actions[0]), actions[1..]))
  }

  function After(s: State, actions: seq<Action>): State
    requires Possible(s, actions)
    decreases |actions|
  {
    if actions == [] then s else After(Do(s, actions[0]), actions[1..])
  }
}
