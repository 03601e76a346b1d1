/**
  Any number of session threads deliver frames through the one-place mailbox to
  the window thread (SCShell.Ctrl.pas). Frames may be skipped; no wake-up is
  lost, and when nothing is under way the picture is the one that delivering
  every frame would have left, unless the window has changed size since.
 */
module FrameDelivery {
  import opened Common
  import opened Backend
  import opened Painter
  import opened PaintedImage

  /** The window thread: waiting, between a message and the mailbox, or with a frame to draw. */
  datatype Window = Idle | Woken | Holding(index: nat)

  datatype BackBuffer = BackBuffer(cols: nat, rows: nat, bands: Canvas)

  /**
    Frames are numbered in the order in which they are stored. `posted` counts
    the wake-up messages in the window's queue, `between` the session threads that
    have stored a frame and not posted yet. `blank` records that the back buffer has
    been replaced since a frame was last drawn on it.
   */
  datatype State = State(stored: seq<Frame>,
                         pending: Option<nat>,
                         between: nat,
                         posted: nat,
                         window: Window,
                         painted: seq<nat>,
                         buffer: BackBuffer,
                         blank: bool,
                         lastCells: seq<Cell>)

  const EMPTY := BackBuffer(0, 0, [])

  const INIT := State([], None, 0, 0, Idle, [], EMPTY, true, [])

  datatype Screen = Screen(cellW: nat, colors: Colors)

  // ---------- drawing one frame after another ----------

  function Blank(cols: nat, rows: nat, screen: Screen): Canvas {
    seq(rows, y => seq(Px(cols, screen.cellW), x => Pixel(screen.colors.defaultBg, None)))
  }

  /** A blank back buffer if the size differs. */
  function Resized(buffer: BackBuffer, cols: nat, rows: nat, screen: Screen): BackBuffer {
    if buffer.cols == cols && buffer.rows == rows then buffer else BackBuffer(cols, rows, Blank(cols, rows, screen))
  }

  /** DrawEvent: a new back buffer if the size differs, then the drawing calls. */
  function Draw(buffer: BackBuffer, f: Frame, screen: Screen): BackBuffer
    requires ValidFrame(f)
  {
    FrameDrawable(f, f.rows, screen);
    var bands := Resized(buffer, f.cols, f.rows, screen).bands;
    BackBuffer(f.cols, f.rows, PaintOps(bands, FrameRuns(f, f.rows, screen.cellW, screen.colors), screen.cellW))
  }

  /** The reference: every frame is drawn. */
  function DrawAll(frames: seq<Frame>, screen: Screen): BackBuffer
    requires forall i | 0 <= i < |frames| :: ValidFrame(frames[i])
  {
    if frames == [] then EMPTY
    else Draw(DrawAll(frames[..|frames| - 1], screen), frames[|frames| - 1], screen)
  }

  lemma {:induction false} RowDrawable(row: seq<Stroke>, n: nat, y: nat, cellW: nat)
    requires n <= |row|
    ensures Drawable(Flush(Taken(row, n, y, cellW)))
  {
    if n > 0 {
      var p := Taken(row, n - 1, y, cellW);
      RowDrawable(row, n - 1, y, cellW);
      if row[n - 1].width > 0 {
        if p.open.Some? {
          PaintFlush([], p, cellW);
        }
        if Joins(p, row[n - 1]) {
          FlushDrawable(p.drawn, Extend(p.open.value, row[n - 1], cellW));
        } else {
          FlushDrawable(Flush(p), NewRun(row[n - 1], n - 1, y, cellW));
        }
      }
    }
  }

  lemma {:induction false} FrameDrawable(f: Frame, n: nat, screen: Screen)
    requires ValidFrame(f) && n <= f.rows
    ensures Drawable(FrameRuns(f, n, screen.cellW, screen.colors))
  {
    if n > 0 {
      FrameDrawable(f, n - 1, screen);
      RowDrawable(StrokeRow(f, n - 1, screen.colors), f.cols, n - 1, screen.cellW);
    }
  }

  // ---------- sizes ----------

  /** The bands fit the size the painter has on record. */
  predicate Fitting(buffer: BackBuffer, screen: Screen) {
    |buffer.bands| == buffer.rows
    && forall y | 0 <= y < |buffer.bands| :: |buffer.bands[y]| == Px(buffer.cols, screen.cellW)
  }

  lemma {:induction false} TextKeepsLength(band: Band, left: nat, style: Style, text: seq<nat>, dx: seq<nat>)
    requires |text| == |dx|
    ensures |DrawText(band, left, style, text, dx)| == |band|
    decreases |text|
  {
    if text != [] {
      TextKeepsLength(band, left, style, text[..|text| - 1], dx[..|dx| - 1]);
    }
  }

  lemma RunKeepsLength(band: Band, run: Run, cellW: nat)
    requires |run.text| == |run.dx|
    ensures |PaintRun(band, run, cellW)| == |band|
  {
    var filled := Fill(band, Px(run.startX, cellW), Px(run.startX + run.cols, cellW), run.style.bg);
    TextKeepsLength(filled, Px(run.startX, cellW), run.style, run.text, run.dx);
  }

  lemma {:induction false} OpsKeepSizes(canvas: Canvas, ops: seq<Run>, cellW: nat)
    requires Drawable(ops)
    ensures |PaintOps(canvas, ops, cellW)| == |canvas|
    ensures forall y | 0 <= y < |canvas| :: |PaintOps(canvas, ops, cellW)[y]| == |canvas[y]|
    decreases |ops|
  {
    if ops != [] {
      var before := PaintOps(canvas, ops[..|ops| - 1], cellW);
      var op := ops[|ops| - 1];
      OpsKeepSizes(canvas, ops[..|ops| - 1], cellW);
      if op.y < |before| {
        RunKeepsLength(before[op.y], op, cellW);
      }
    }
  }

  lemma DrawFits(buffer: BackBuffer, f: Frame, screen: Screen)
    requires ValidFrame(f) && Fitting(buffer, screen)
    ensures Fitting(Draw(buffer, f, screen), screen)
  {
    FrameDrawable(f, f.rows, screen);
    var bands := Resized(buffer, f.cols, f.rows, screen).bands;
    OpsKeepSizes(bands, FrameRuns(f, f.rows, screen.cellW, screen.colors), screen.cellW);
  }

  lemma {:induction false} DrawAllFits(frames: seq<Frame>, screen: Screen)
    requires forall i | 0 <= i < |frames| :: ValidFrame(frames[i])
    ensures Fitting(DrawAll(frames, screen), screen)
  {
    if frames != [] {
      DrawAllFits(frames[..|frames| - 1], screen);
      DrawFits(DrawAll(frames[..|frames| - 1], screen), frames[|frames| - 1], screen);
    }
  }

  /** A well-formed frame is drawn the same on any two back buffers. */
  lemma DrawForgets(a: BackBuffer, b: BackBuffer, f: Frame, screen: Screen)
    requires Fitting(a, screen) && Fitting(b, screen) && screen.cellW > 0 && WellFormedFrame(f, screen.colors)
    ensures Draw(a, f, screen) == Draw(b, f, screen)
  {
    EarlierFramesDoNotMatter(Resized(a, f.cols, f.rows, screen).bands, Resized(b, f.cols, f.rows, screen).bands, f,
                             screen.cellW, screen.colors);
  }

  /** What a frame looks like on a new back buffer. */
  function Picture(f: Frame, screen: Screen): BackBuffer
    requires ValidFrame(f)
  {
    Draw(EMPTY, f, screen)
  }

  /** Cell by cell: band y shows, at column x, what the frame has in row y and column x. */
  lemma PictureShowsCell(f: Frame, x: nat, y: nat, screen: Screen, i: nat)
    requires WellFormedFrame(f, screen.colors) && screen.cellW > 0
    requires x < f.cols && y < f.rows && y * f.cols + x < |f.cells| && f.cells[y * f.cols + x].width > 0
    requires Px(x, screen.cellW) <= i < Px(x + f.cells[y * f.cols + x].width, screen.cellW)
    requires i < Px(f.cols, screen.cellW)
    ensures var bands := Picture(f, screen).bands;
      && |bands| == f.rows && |bands[y]| == Px(f.cols, screen.cellW)
      && ShowsCell(bands[y][i], f.cells[y * f.cols + x], i == Px(x, screen.cellW), screen.colors)
  {
    DrawnFrameShowsCell(Resized(EMPTY, f.cols, f.rows, screen).bands, f, x, y, screen.cellW, screen.colors, i);
  }

  /** Only the last frame counts. */
  lemma DrawAllIsPicture(frames: seq<Frame>, screen: Screen)
    requires frames != [] && forall i | 0 <= i < |frames| :: ValidFrame(frames[i])
    requires screen.cellW > 0 && WellFormedFrame(frames[|frames| - 1], screen.colors)
    ensures DrawAll(frames, screen) == Picture(frames[|frames| - 1], screen)
  {
    DrawAllFits(frames[..|frames| - 1], screen);
    DrawForgets(DrawAll(frames[..|frames| - 1], screen), EMPTY, frames[|frames| - 1], screen);
  }

  // ---------- a picture is not blank ----------

  predicate IsBlank(buffer: BackBuffer) {
    forall y | 0 <= y < |buffer.bands| :: NoGlyph(buffer.bands[y])
  }

  predicate NoGlyph(band: Band) {
    forall i | 0 <= i < |band| :: band[i].glyph.None?
  }

  /** The first cell of a well-formed row is visible, so a drawn frame has a glyph in its corner. */
  lemma PictureIsNotBlank(f: Frame, screen: Screen)
    requires screen.cellW > 0 && WellFormedFrame(f, screen.colors)
    ensures !IsBlank(Picture(f, screen))
  {
    var row := StrokeRow(f, 0, screen.colors);
    var canvas := Blank(f.cols, f.rows, screen);
    FramePaintedAlike(canvas, f, f.rows, screen.cellW, screen.colors);
    PaintedRow(canvas, f, f.rows, 0, screen.cellW, screen.colors);
    assert WellFormedRow(row) && WellFormedAt(row, 0);
    RowShows(canvas[0], row, f.cols, 0, screen.cellW);
    CellsKeepLength(canvas[0], row, f.cols, screen.cellW);
    PxPositive(f.cols, screen.cellW);
    PxPositive(row[0].width, screen.cellW);
    assert Picture(f, screen).bands[0][0] == CellPixel(row[0], 0, screen.cellW, 0);
  }

  // ---------- the protocol ----------

  datatype Action =
    | Store(f: Frame)
    | Post
    | TakeMessage
    | Consume
    | DrawHeld
    | Resize(cols: nat, rows: nat)

  predicate Enabled(s: State, a: Action) {
    match a
    case Store(f) => ValidFrame(f)
    case Post => s.between > 0
    case TakeMessage => s.window.Idle? && s.posted > 0
    case Consume => s.window.Woken?
    case DrawHeld => s.window.Holding? && s.window.index < |s.stored| && ValidFrame(s.stored[s.window.index])
    case Resize(cols, rows) => s.window.Idle? && cols >= 1 && rows >= 1
  }

  function Do(s: State, a: Action, screen: Screen): State
    requires Enabled(s, a)
  {
    match a
    case Store(f) => s.(stored := s.stored + [f], pending := Some(|s.stored|), between := s.between + 1)
    case Post => s.(between := s.between - 1, posted := s.posted + 1)
    case TakeMessage => s.(posted := s.posted - 1, window := Woken)
    case Consume =>
      s.(pending := None, window := match s.pending case Some(index) => Holding(index) case None => Idle)
    case DrawHeld =>
      var f := s.stored[s.window.index];
      s.(buffer := Draw(s.buffer, f, screen), lastCells := f.cells,
         blank := false, painted := s.painted + [s.window.index], window := Idle)
    case Resize(cols, rows) =>
      s.(buffer := Resized(s.buffer, cols, rows, screen),
         blank := s.blank || s.buffer.cols != cols || s.buffer.rows != rows)
  }

  predicate Possible(s: State, actions: seq<Action>, screen: Screen)
    decreases |actions|
  {
    actions == [] || (Enabled(s, actions[0]) && Possible(Do(s, actions[0], screen), actions[1..], screen))
  }

  function After(s: State, actions: seq<Action>, screen: Screen): State
    requires Possible(s, actions, screen)
    decreases |actions|
  {
    if actions == [] then s else After(Do(s, actions[0], screen), actions[1..], screen)
  }

  // ---------- the invariant ----------

  /** Frame numbers on their way: painted, held, waiting. */
  function Journey(s: State): seq<nat> {
    s.painted + (if s.window.Holding? then [s.window.index] else []) + (if s.pending.Some? then [s.pending.value] else [])
  }

  predicate Increasing(path: seq<nat>) {
    forall i, j | 0 <= i < j < |path| :: path[i] < path[j]
  }

  /** Each frame number is of a stored frame, in storing order, and the newest stored frame comes last. */
  predicate InOrder(s: State) {
    var path := Journey(s);
    && Increasing(path)
    && (s.stored == [] <==> path == [])
    && (path != [] ==> path[|path| - 1] == |s.stored| - 1)
  }

  /** A waiting frame always has a wake-up coming. */
  predicate WakeUpComing(s: State) {
    s.pending.Some? ==> s.posted > 0 || s.between > 0 || s.window.Woken?
  }

  function LastPainted(s: State): Frame
    requires s.painted != [] && s.painted[|s.painted| - 1] < |s.stored|
  {
    s.stored[s.painted[|s.painted| - 1]]
  }

  /** The remembered cells are those of the last frame painted, and so is the back buffer, unless it is blank. */
  ghost predicate Painted(s: State, screen: Screen) {
    && AllValid(s.stored)
    && (forall i | 0 <= i < |s.painted| :: s.painted[i] < |s.stored|)
    && Fitting(s.buffer, screen)
    && (s.blank ==> IsBlank(s.buffer))
    && (s.painted == [] ==> s.blank)
    && (s.painted != [] ==> s.lastCells == LastPainted(s).cells)
    && (!s.blank && screen.cellW > 0 && WellFormedFrame(LastPainted(s), screen.colors) ==>
          s.buffer == Picture(LastPainted(s), screen))
  }

  ghost predicate Ok(s: State, screen: Screen) {
    InOrder(s) && WakeUpComing(s) && Painted(s, screen)
  }

  lemma JourneyBelow(s: State)
    requires InOrder(s)
    ensures forall i | 0 <= i < |Journey(s)| :: Journey(s)[i] < |s.stored|
  {}

  /** Storing drops the frame that was waiting, and the new one waits instead. */
  lemma StoreInOrder(s: State, f: Frame, screen: Screen)
    requires InOrder(s) && ValidFrame(f)
    ensures InOrder(Do(s, Store(f), screen))
  {
    var s' := Do(s, Store(f), screen);
    var rest := s.painted + if s.window.Holding? then [s.window.index] else [];
    JourneyBelow(s);
    assert rest <= Journey(s);
    assert Journey(s') == rest + [|s.stored|];
  }

  lemma OrderStep(s: State, a: Action, screen: Screen)
    requires InOrder(s) && Enabled(s, a)
    ensures InOrder(Do(s, a, screen))
  {
    match a
    case Store(f) => StoreInOrder(s, f, screen);
    case Consume => assert Journey(Do(s, a, screen)) == Journey(s);
    case DrawHeld => assert Journey(Do(s, a, screen)) == Journey(s);
    case Post =>
    case TakeMessage =>
    case Resize(_, _) => assert Journey(Do(s, a, screen)) == Journey(s);
  }

  lemma PaintHeld(s: State, screen: Screen)
    requires Painted(s, screen) && Enabled(s, DrawHeld)
    ensures Painted(Do(s, DrawHeld, screen), screen)
  {
    var f := s.stored[s.window.index];
    DrawFits(s.buffer, f, screen);
    if screen.cellW > 0 && WellFormedFrame(f, screen.colors) {
      DrawForgets(s.buffer, EMPTY, f, screen);
    }
  }

  lemma PaintResized(s: State, cols: nat, rows: nat, screen: Screen)
    requires Painted(s, screen) && Enabled(s, Resize(cols, rows))
    ensures Painted(Do(s, Resize(cols, rows), screen), screen)
  {
    if s.buffer.cols != cols || s.buffer.rows != rows {
      assert forall y | 0 <= y < rows :: NoGlyph(Blank(cols, rows, screen)[y]);
    }
  }

  lemma OkStep(s: State, a: Action, screen: Screen)
    requires Ok(s, screen) && Enabled(s, a)
    ensures Ok(Do(s, a, screen), screen)
  {
    OrderStep(s, a, screen);
    match a
    case Store(f) =>
    case DrawHeld => PaintHeld(s, screen);
    case Resize(cols, rows) => PaintResized(s, cols, rows, screen);
    case Consume =>
    case Post =>
    case TakeMessage =>
  }

  lemma {:induction false} OkInvariant(s: State, actions: seq<Action>, screen: Screen)
    requires Ok(s, screen) && Possible(s, actions, screen)
    ensures Ok(After(s, actions, screen), screen)
    decreases |actions|
  {
    if actions != [] {
      OkStep(s, actions[0], screen);
      OkInvariant(Do(s, actions[0], screen), actions[1..], screen);
    }
  }

  lemma Reached(actions: seq<Action>, screen: Screen)
    requires Possible(INIT, actions, screen)
    ensures Ok(After(INIT, actions, screen), screen)
  {
    assert Journey(INIT) == [];
    OkInvariant(INIT, actions, screen);
  }

  // ---------- what it is for ----------

  /** In every interleaving a waiting frame has a wake-up coming, and frames are drawn in storing order. */
  lemma NoLostWakeUp(actions: seq<Action>, screen: Screen)
    requires Possible(INIT, actions, screen)
    ensures var s := After(INIT, actions, screen);
      && WakeUpComing(s)
      && Increasing(s.painted)
      && (forall i | 0 <= i < |s.painted| :: s.painted[i] < |s.stored|)
  {
    Reached(actions, screen);
    PaintedInOrder(After(INIT, actions, screen));
  }

  lemma PaintedInOrder(s: State)
    requires InOrder(s)
    ensures Increasing(s.painted) && forall i | 0 <= i < |s.painted| :: s.painted[i] < |s.stored|
  {
    JourneyBelow(s);
    assert s.painted <= Journey(s);
    assert forall i | 0 <= i < |s.painted| :: s.painted[i] == Journey(s)[i];
  }

  predicate Quiescent(s: State) {
    s.posted == 0 && s.between == 0 && s.window.Idle?
  }

  lemma NewestPainted(s: State)
    requires InOrder(s) && WakeUpComing(s) && Quiescent(s)
    ensures s.pending == None
    ensures s.stored != [] ==> s.painted != [] && s.painted[|s.painted| - 1] == |s.stored| - 1
  {
    assert Journey(s) == s.painted;
  }

  /**
    When no message is queued and no thread is mid-way, the last frame stored is
    the last one drawn and its cells are the remembered ones.
   */
  lemma QuiescentShowsNewest(actions: seq<Action>, screen: Screen)
    requires Possible(INIT, actions, screen) && Quiescent(After(INIT, actions, screen))
    ensures var s := After(INIT, actions, screen);
      && s.pending == None
      && (s.stored != [] ==>
            && s.painted != [] && s.painted[|s.painted| - 1] == |s.stored| - 1
            && s.lastCells == s.stored[|s.stored| - 1].cells)
  {
    Reached(actions, screen);
    NewestPainted(After(INIT, actions, screen));
  }

  /**
    Then, if that frame is well formed, the back buffer is what drawing every stored
    frame would have left if and only if the window has not changed its size since
    it was drawn.
   */
  lemma QuiescentPictureIff(actions: seq<Action>, screen: Screen)
    requires Possible(INIT, actions, screen) && Quiescent(After(INIT, actions, screen))
    requires var s := After(INIT, actions, screen);
      s.stored != [] && screen.cellW > 0 && WellFormedFrame(s.stored[|s.stored| - 1], screen.colors)
    ensures AllValid(After(INIT, actions, screen).stored)
    ensures var s := After(INIT, actions, screen);
      s.buffer == DrawAll(s.stored, screen) <==> !s.blank
  {
    Reached(actions, screen);
    PictureIff(After(INIT, actions, screen), screen);
  }

  lemma PictureIff(s: State, screen: Screen)
    requires InOrder(s) && WakeUpComing(s) && Painted(s, screen) && Quiescent(s)
    requires s.stored != [] && screen.cellW > 0 && WellFormedFrame(s.stored[|s.stored| - 1], screen.colors)
    ensures AllValid(s.stored)
    ensures s.buffer == DrawAll(s.stored, screen) <==> !s.blank
  {
    NewestPainted(s);
    PaintedShows(s, screen);
    NewestShownIff(s.buffer, s.blank, s.stored, screen);
  }

  lemma PaintedShows(s: State, screen: Screen)
    requires Painted(s, screen) && s.painted != [] && screen.cellW > 0
    requires WellFormedFrame(LastPainted(s), screen.colors)
    ensures if s.blank then IsBlank(s.buffer) else s.buffer == Picture(LastPainted(s), screen)
  {}

  lemma NewestShownIff(buffer: BackBuffer, blank: bool, stored: seq<Frame>, screen: Screen)
    requires AllValid(stored) && stored != [] && screen.cellW > 0
    requires WellFormedFrame(stored[|stored| - 1], screen.colors)
    requires if blank then IsBlank(buffer) else buffer == Picture(stored[|stored| - 1], screen)
    ensures buffer == DrawAll(stored, screen) <==> !blank
  {
    DrawAllIsPicture(stored, screen);
    PictureIsNotBlank(stored[|stored| - 1], screen);
    ShownIff(buffer, blank, Picture(stored[|stored| - 1], screen));
  }

  lemma ShownIff(buffer: BackBuffer, blank: bool, picture: BackBuffer)
    requires !IsBlank(picture) && if blank then IsBlank(buffer) else buffer == picture
    ensures buffer == picture <==> !blank
  {}

  /** Drawing some of the frames, the newest among them, leaves the same picture as drawing all. */
  lemma SkippedFramesDoNotMatter(stored: seq<Frame>, picked: seq<Frame>, screen: Screen)
    requires AllValid(stored) && AllValid(picked) && stored != [] && picked != []
    requires picked[|picked| - 1] == stored[|stored| - 1]
    requires screen.cellW > 0 && WellFormedFrame(stored[|stored| - 1], screen.colors)
    ensures DrawAll(picked, screen) == DrawAll(stored, screen)
  {
    DrawAllIsPicture(picked, screen);
    DrawAllIsPicture(stored, screen);
  }

  /** Steps left to the threads that are under way, if nothing new is stored. */
  function Outstanding(s: State): nat {
    5 * s.between + 4 * s.posted + (match s.window case Idle => 0 case Woken => 3 case Holding(_) => 1)
  }

  lemma HeldIsStored(s: State, screen: Screen)
    requires InOrder(s) && Painted(s, screen)
    ensures s.window.Holding? ==> Enabled(s, DrawHeld)
  {
    JourneyBelow(s);
    assert s.window.Holding? ==> Journey(s)[|s.painted|] == s.window.index;
  }

  /** Steps that carry something on, as opposed to new frames and changes of size. */
  predicate Moves(a: Action) {
    !a.Store? && !a.Resize?
  }

  predicate NothingStored(actions: seq<Action>) {
    forall i | 0 <= i < |actions| :: !actions[i].Store?
  }

  function MovesIn(actions: seq<Action>): nat {
    if actions == [] then 0 else (if Moves(actions[0]) then 1 else 0) + MovesIn(actions[1..])
  }

  lemma EveryMoveCounts(s: State, a: Action, screen: Screen)
    requires Enabled(s, a) && !a.Store?
    ensures Outstanding(Do(s, a, screen)) + (if Moves(a) then 1 else 0) <= Outstanding(s)
    ensures Do(s, a, screen).stored == s.stored
  {}

  lemma {:induction false} MovesRunOut(s: State, more: seq<Action>, screen: Screen)
    requires Possible(s, more, screen) && NothingStored(more)
    ensures MovesIn(more) + Outstanding(After(s, more, screen)) <= Outstanding(s)
    ensures After(s, more, screen).stored == s.stored
    decreases |more|
  {
    if more != [] {
      EveryMoveCounts(s, more[0], screen);
      MovesRunOut(Do(s, more[0], screen), more[1..], screen);
    }
  }

  ghost predicate CanMove(s: State) {
    exists a :: Enabled(s, a) && Moves(a)
  }

  /**
    Every run in which nothing more is stored comes to rest with the newest frame,
    in whatever order the threads move: there are only so many moves, as long as it
    is not at rest one can be made, and at rest the newest frame is remembered.
   */
  lemma EveryRunComesToRest(actions: seq<Action>, more: seq<Action>, screen: Screen)
    requires Possible(INIT, actions, screen) && Possible(After(INIT, actions, screen), more, screen)
    requires NothingStored(more)
    ensures var s := After(INIT, actions, screen);
      var s' := After(s, more, screen);
      && MovesIn(more) + Outstanding(s') <= Outstanding(s)
      && (Quiescent(s') <==> Outstanding(s') == 0)
      && (Quiescent(s') <==> !CanMove(s'))
      && s'.stored == s.stored
      && (Quiescent(s') && s.stored != [] ==> s'.lastCells == s.stored[|s.stored| - 1].cells)
  {
    var s := After(INIT, actions, screen);
    Reached(actions, screen);
    OkInvariant(s, more, screen);
    MovesRunOut(s, more, screen);
    RestIsNoMove(After(s, more, screen), screen);
    RestRemembersNewest(After(s, more, screen), screen);
  }

  lemma RestIsNoMove(s: State, screen: Screen)
    requires InOrder(s) && Painted(s, screen)
    ensures Quiescent(s) <==> !CanMove(s)
    ensures Quiescent(s) <==> Outstanding(s) == 0
  {
    HeldIsStored(s, screen);
    var a := if s.window.Holding? then DrawHeld else if s.window.Woken? then Consume
             else if s.posted > 0 then TakeMessage else Post;
    assert !Quiescent(s) ==> Enabled(s, a) && Moves(a);
  }

  lemma RestRemembersNewest(s: State, screen: Screen)
    requires InOrder(s) && WakeUpComing(s) && Painted(s, screen)
    ensures Quiescent(s) && s.stored != [] ==> s.lastCells == s.stored[|s.stored| - 1].cells
  {
    if Quiescent(s) {
      NewestPainted(s);
    }
  }

  /** From any reachable state, letting everything under way finish takes finitely many steps and ends quiescent. */
  lemma {:induction false} Drains(s: State, screen: Screen) returns (more: seq<Action>)
    requires Ok(s, screen)
    ensures Possible(s, more, screen) && Quiescent(After(s, more, screen)) && |more| <= Outstanding(s)
    ensures After(s, more, screen).stored == s.stored
    ensures s.pending.Some? || s.window.Holding? || !s.blank ==> !After(s, more, screen).blank
    decreases Outstanding(s)
  {
    if Quiescent(s) {
      more := [];
    } else {
      var a := if s.window.Holding? then DrawHeld else if s.window.Woken? then Consume
               else if s.posted > 0 then TakeMessage else Post;
      HeldIsStored(s, screen);
      OkStep(s, a, screen);
      var rest := Drains(Do(s, a, screen), screen);
      more := [a] + rest;
      assert more[1..] == rest;
    }
  }

  /** The next frame repairs a picture that a change of size has blanked. */
  lemma NextFrameRepairs(actions: seq<Action>, f: Frame, screen: Screen) returns (more: seq<Action>)
    requires Possible(INIT, actions, screen) && WellFormedFrame(f, screen.colors) && screen.cellW > 0
    ensures Possible(After(INIT, actions, screen), [Store(f)] + more, screen)
    ensures var s := After(After(INIT, actions, screen), [Store(f)] + more, screen);
      Quiescent(s) && s.lastCells == f.cells && s.buffer == Picture(f, screen)
  {
    var s := After(INIT, actions, screen);
    Reached(actions, screen);
    OkStep(s, Store(f), screen);
    more := Drains(Do(s, Store(f), screen), screen);
    Follow(s, Store(f), more, screen);
    OkInvariant(Do(s, Store(f), screen), more, screen);
    RestShows(After(Do(s, Store(f), screen), more, screen), f, screen);
  }

  lemma RestShows(s: State, f: Frame, screen: Screen)
    requires InOrder(s) && WakeUpComing(s) && Painted(s, screen) && Quiescent(s) && !s.blank
    requires s.stored != [] && s.stored[|s.stored| - 1] == f && WellFormedFrame(f, screen.colors) && screen.cellW > 0
    ensures s.lastCells == f.cells && s.buffer == Picture(f, screen)
  {
    NewestPainted(s);
    PaintedShows(s, screen);
  }

  /**
    Two session threads can deliver out of snapshot order: of two frames stored one
    after the other, whichever was taken first, the window comes to rest with the one
    stored last.
   */
  lemma StoreOrderDecides(actions: seq<Action>, newer: Frame, older: Frame, screen: Screen) returns (more: seq<Action>)
    requires Possible(INIT, actions, screen) && ValidFrame(newer) && ValidFrame(older)
    ensures Possible(After(INIT, actions, screen), [Store(newer)] + ([Store(older)] + more), screen)
    ensures var s := After(After(INIT, actions, screen), [Store(newer)] + ([Store(older)] + more), screen);
      Quiescent(s) && s.lastCells == older.cells
  {
    var s0 := After(INIT, actions, screen);
    var s1 := Do(s0, Store(newer), screen);
    var s2 := Do(s1, Store(older), screen);
    Reached(actions, screen);
    OkStep(s0, Store(newer), screen);
    OkStep(s1, Store(older), screen);
    more := Drains(s2, screen);
    Follow(s1, Store(older), more, screen);
    Follow(s0, Store(newer), [Store(older)] + more, screen);
    OkInvariant(s2, more, screen);
    RestRemembers(After(s2, more, screen), older, screen);
  }

  lemma RestRemembers(s: State, f: Frame, screen: Screen)
    requires InOrder(s) && WakeUpComing(s) && Painted(s, screen) && Quiescent(s)
    requires s.stored != [] && s.stored[|s.stored| - 1] == f
    ensures s.lastCells == f.cells
  {
    NewestPainted(s);
  }

  lemma Follow(s: State, a: Action, rest: seq<Action>, screen: Screen)
    requires Enabled(s, a) && Possible(Do(s, a, screen), rest, screen)
    ensures Possible(s, [a] + rest, screen)
    ensures After(s, [a] + rest, screen) == After(Do(s, a, screen), rest, screen)
  {
    assert ([a] + rest)[1..] == rest;
  }
}
