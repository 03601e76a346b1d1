/**
  The visible window onto the terminal's grid (term.rs): scrolling, snapshots,
  selection points and search all map between viewport rows and grid lines.
  The grid itself, and the search engine, belong to the emulator.
 */
module Viewport {
  import opened Common
  import opened Backend

  /** Grid coordinates: lines 0.. are the screen, negative lines the history. */
  datatype Point = Point(line: int, column: nat)

  datatype SelectionKind = Simple | Block | Semantic | Lines

  datatype Selection = Selection(kind: SelectionKind, anchor: Point, end: Point)

  /** Oldest row first; the last `lines` rows are the screen. */
  datatype View = View(grid: seq<seq<Cell>>,
                       lines: nat,
                       cols: nat,
                       displayOffset: nat,
                       cursor: Point,
                       showCursor: bool,
                       searchPattern: string,
                       searchOrigin: Option<Point>,
                       selection: Option<Selection>)

  function History(v: View): int {
    |v.grid| - v.lines
  }

  predicate InGrid(v: View, p: Point) {
    -History(v) <= p.line < v.lines && p.column < v.cols
  }

  predicate ValidView(v: View) {
    && 1 <= v.lines <= MAX_U16 && 2 <= v.cols <= MAX_U16 && v.lines <= |v.grid|
    && (forall i | 0 <= i < |v.grid| :: |v.grid[i]| == v.cols)
    && v.displayOffset <= History(v)
    && 0 <= v.cursor.line < v.lines
  }

  function GridLine(v: View, line: int): (row: seq<Cell>)
    requires ValidView(v) && -History(v) <= line < v.lines
    ensures |row| == v.cols
  {
    v.grid[line + History(v)]
  }

  /** What viewport row r shows. */
  function Shown(v: View, r: nat): (row: seq<Cell>)
    requires ValidView(v) && r < v.lines
    ensures |row| == v.cols
  {
    GridLine(v, r - v.displayOffset)
  }

  function Clamp(x: int, low: int, high: int): int {
    if x < low then low else if x > high then high else x
  }

  /** Scroll::Delta: positive is towards the history. */
  function ScrollDisplay(v: View, delta: int): View
    requires ValidView(v)
  {
    v.(displayOffset := Offset(v, delta))
  }

  function Offset(v: View, delta: int): nat
    requires ValidView(v)
  {
    Clamp(v.displayOffset + delta, 0, History(v))
  }

  // ---------- bringing a line into view ----------

  function BringIntoView(v: View, line: int): View
    requires ValidView(v)
  {
    var off: int := v.displayOffset;
    if line < -off then ScrollDisplay(v, -off - line)
    else if line > v.lines - 1 - off then ScrollDisplay(v, v.lines - 1 - off - line)
    else v
  }

  predicate OnScreen(v: View, line: int, off: int) {
    0 <= line + off < v.lines
  }

  function Distance(a: int, b: int): nat {
    if a < b then b - a else a - b
  }

  /** Every line of the grid can be brought into view, and the scroll is the least that does. */
  lemma BroughtIntoView(v: View, line: int)
    requires ValidView(v) && -History(v) <= line < v.lines
    ensures var w := BringIntoView(v, line);
      && ValidView(w)
      && OnScreen(v, line, w.displayOffset)
      && Shown(w, line + w.displayOffset) == GridLine(v, line)
      && forall off | 0 <= off <= History(v) && OnScreen(v, line, off) ::
           Distance(v.displayOffset, w.displayOffset) <= Distance(v.displayOffset, off)
  {}

  // ---------- search ----------

  datatype Match = Match(start: Point, end: Point)

  /** First column, viewport row and length; the zeroes mean that nothing was found. */
  datatype Hit = Hit(col: nat, row: int, len: nat)

  const NOTHING := Hit(0, 0, 0)

  /** The emulator's search: which patterns compile, the cell next to a cell, and the next match from a cell. */
  datatype Engine = Engine(compiles: string -> bool,
                           next: (Point, bool) -> Point,
                           find: (string, Point, bool) -> Option<Match>)

  predicate MatchInGrid(v: View, m: Match) {
    && InGrid(v, m.start) && InGrid(v, m.end)
    && (m.start.line < m.end.line || (m.start.line == m.end.line && m.start.column <= m.end.column))
  }

  ghost predicate SearchesGrid(engine: Engine, v: View) {
    forall pattern, origin, forward ::
      engine.find(pattern, origin, forward).Some? ==> MatchInGrid(v, engine.find(pattern, origin, forward).value)
  }

  /** Repeated searches for one pattern go on from the previous match; a new pattern starts at the cursor. */
  function Origin(v: View, pattern: string, forward: bool, engine: Engine): Point {
    if v.searchPattern == pattern && v.searchOrigin.Some? then engine.next(v.searchOrigin.value, forward) else v.cursor
  }

  function MatchLength(v: View, m: Match): nat {
    if m.end.line == m.start.line then Minus(m.end.column + 1, m.start.column) else Minus(v.cols, m.start.column)
  }

  /** saturating_sub */
  function Minus(a: nat, b: nat): nat {
    if a >= b then a - b else 0
  }

  predicate Searchable(pattern: string, engine: Engine) {
    pattern != "" && engine.compiles(pattern)
  }

  /** `search_next`: the view it leaves and what it returns. */
  function Search(v: View, pattern: string, forward: bool, engine: Engine): (View, Hit)
    requires ValidView(v)
  {
    if !Searchable(pattern, engine) then (v, NOTHING)
    else
      match engine.find(pattern, Origin(v, pattern, forward, engine), forward)
      case None => (v.(searchPattern := pattern, searchOrigin := None), NOTHING)
      case Some(m) =>
        var w := BringIntoView(v.(searchPattern := pattern, searchOrigin := Some(m.start)), m.start.line);
        (w, Report(w, m))
  }

  /** Where a match is in the view, or nothing if it is not in view. */
  function Report(w: View, m: Match): Hit {
    var row := m.start.line + w.displayOffset;
    if row < 0 || row >= w.lines then NOTHING else Hit(m.start.column, row, MatchLength(w, m))
  }

  /**
    A match anywhere in the grid is reported, after the least scroll, at the
    viewport row that shows its first line, and its length stays inside the row.
    So a length of zero means that nothing was found.
   */
  lemma MatchIsShown(v: View, pattern: string, forward: bool, engine: Engine)
    requires ValidView(v) && SearchesGrid(engine, v)
    ensures var (w, hit) := Search(v, pattern, forward, engine);
      var found := engine.find(pattern, Origin(v, pattern, forward, engine), forward);
      && ValidView(w) && w.grid == v.grid
      && (hit.len > 0 <==> Searchable(pattern, engine) && found.Some?)
      && (hit.len == 0 ==> hit == NOTHING && w.displayOffset == v.displayOffset)
      && (hit.len > 0 ==>
            && 0 <= hit.row < v.lines && hit.col + hit.len <= v.cols
            && hit.col == found.value.start.column
            && hit.col + hit.len == (if found.value.end.line == found.value.start.line
                                     then found.value.end.column + 1 else v.cols)
            && Shown(w, hit.row) == GridLine(v, found.value.start.line)
            && w.searchOrigin == Some(found.value.start)
            && forall off | 0 <= off <= History(v) && OnScreen(v, found.value.start.line, off) ::
                 Distance(v.displayOffset, w.displayOffset) <= Distance(v.displayOffset, off))
  {
    var found := engine.find(pattern, Origin(v, pattern, forward, engine), forward);
    if Searchable(pattern, engine) && found.Some? {
      var m := found.value;
      assert MatchInGrid(v, m);
      BroughtIntoView(v.(searchPattern := pattern, searchOrigin := Some(m.start)), m.start.line);
    }
  }

  /** What a search starts from: the last match if it is for the pattern of the last search, else the cursor. */
  lemma SearchGoesOn(v: View, pattern: string, forward: bool, next: string, again: bool, engine: Engine)
    requires ValidView(v) && Searchable(pattern, engine)
    ensures v.searchPattern != pattern ==> Origin(v, pattern, forward, engine) == v.cursor
    ensures var w := Search(v, pattern, forward, engine).0;
      var found := engine.find(pattern, Origin(v, pattern, forward, engine), forward);
      && w.cursor == v.cursor
      && Origin(w, next, again, engine)
         == if next == pattern && found.Some? then engine.next(found.value.start, again) else v.cursor
  {}

  // ---------- snapshots ----------

  /** The viewport, row after row. */
  function Flat(v: View, n: nat): (cells: seq<Cell>)
    requires ValidView(v) && n <= v.lines
    ensures |cells| == v.cols * n
  {
    if n == 0 then [] else Flat(v, n - 1) + Shown(v, n - 1)
  }

  function ViewportFrame(v: View): (f: Frame)
    requires ValidView(v)
    ensures ValidFrame(f)
  {
    Frame(v.cols, v.lines, Flat(v, v.lines))
  }

  lemma {:induction false} FlatPrefix(v: View, n: nat, m: nat)
    requires ValidView(v) && n <= m <= v.lines
    ensures Flat(v, n) <= Flat(v, m)
  {
    if n < m {
      FlatPrefix(v, n, m - 1);
    }
  }

  /** Row r of a snapshot is grid line r - display_offset; the last row of the screen is the newest of the grid. */
  lemma SnapshotShowsGrid(v: View, r: nat)
    requires ValidView(v) && r < v.lines
    ensures Row(ViewportFrame(v), r) == GridLine(v, r - v.displayOffset)
    ensures Row(ViewportFrame(v), r) == v.grid[|v.grid| - v.lines - v.displayOffset + r]
  {
    FlatPrefix(v, r + 1, v.lines);
    var f := ViewportFrame(v);
    RowBounds(v.cols, v.lines, r);
    assert |Flat(v, r)| == r * v.cols;
    assert Flat(v, r + 1)[r * v.cols..] == Shown(v, r);
    assert Flat(v, r + 1) == f.cells[..r * v.cols + v.cols];
  }

  /** A snapshot taken right after a search shows the line of the match at the reported row. */
  lemma SearchThenSnapshot(v: View, pattern: string, forward: bool, engine: Engine)
    requires ValidView(v) && SearchesGrid(engine, v)
    ensures var (w, hit) := Search(v, pattern, forward, engine);
      hit.len > 0 ==>
        && ValidView(w) && 0 <= hit.row < w.lines
        && Row(ViewportFrame(w), hit.row)
           == GridLine(v, engine.find(pattern, Origin(v, pattern, forward, engine), forward).value.start.line)
  {
    MatchIsShown(v, pattern, forward, engine);
    var (w, hit) := Search(v, pattern, forward, engine);
    if hit.len > 0 {
      SnapshotShowsGrid(w, hit.row);
    }
  }

  // ---------- the cursor ----------

  datatype CursorMeta = CursorMeta(x: nat, y: nat, visible: bool)

  function CursorOf(v: View): CursorMeta
    requires ValidView(v)
  {
    var row := v.cursor.line + v.displayOffset;
    CursorMeta(Clamp(v.cursor.column, 0, v.cols - 1), Clamp(row, 0, v.lines - 1),
               v.showCursor && 0 <= row < v.lines)
  }

  /** A shown cursor is visible exactly when its line is on screen, and then it sits on that line. */
  lemma CursorFollowsItsLine(v: View)
    requires ValidView(v)
    ensures var c := CursorOf(v);
      && c.x < v.cols && c.y < v.lines && (v.cursor.column < v.cols ==> c.x == v.cursor.column)
      && (c.visible <==> v.showCursor && exists r: nat | r < v.lines :: IsLineOf(v, r, v.cursor.line))
      && (c.visible ==> IsLineOf(v, c.y, v.cursor.line) && Shown(v, c.y) == GridLine(v, v.cursor.line))
  {
    if CursorOf(v).visible {
      assert IsLineOf(v, CursorOf(v).y, v.cursor.line);
    }
  }

  /** Viewport row r shows this grid line. */
  predicate IsLineOf(v: View, r: nat, line: int) {
    r - v.displayOffset == line
  }

  // ---------- selection ----------

  function KindOf(kind: nat): SelectionKind {
    match kind case 1 => Block case 2 => Semantic case 3 => Lines case _ => Simple
  }

  function PointAt(v: View, col: nat, row: nat): Point {
    Point(row - v.displayOffset, col)
  }

  /** Selecting picks the grid cell that the viewport shows there, and later scrolling does not move it. */
  lemma SelectionSticks(v: View, col: nat, row: nat, delta: int)
    requires ValidView(v) && col < v.cols && row < v.lines
    ensures InGrid(v, PointAt(v, col, row))
    ensures GridLine(v, PointAt(v, col, row).line)[col] == Shown(v, row)[col]
    ensures var w := ScrollDisplay(v, delta);
      var moved := row + w.displayOffset - v.displayOffset;
      ValidView(w) && (0 <= moved < v.lines ==>
        PointAt(w, col, moved) == PointAt(v, col, row) && Shown(w, moved) == Shown(v, row))
  {}

  // ---------- the program ----------

  /** The part of the terminal host that scrolls, searches, selects and takes snapshots. */
  class TermViewport {
    // the emulator's part
    var grid: seq<seq<Cell>>
    var displayOffset: nat
    var cursor: Point
    var showCursor: bool
    var selection: Option<Selection>
    // the host's own part
    var lines: nat
    var cols: nat
    var searchPattern: string
    var searchOrigin: Option<Point>

    ghost function Abs(): View
      reads this
    {
      View(grid, lines, cols, displayOffset, cursor, showCursor, searchPattern, searchOrigin, selection)
    }

    ghost predicate Valid()
      reads this
    {
      ValidView(Abs())
    }

    constructor (lines: nat, cols: nat, grid: seq<seq<Cell>>)
      requires 1 <= lines <= MAX_U16 && 2 <= cols <= MAX_U16 && lines <= |grid|
      requires forall i | 0 <= i < |grid| :: |grid[i]| == cols
      ensures Valid() && Abs() == View(grid, lines, cols, 0, Point(0, 0), true, "", None, None)
    {
      this.lines, this.cols, this.grid := lines, cols, grid;
      displayOffset, cursor, showCursor := 0, Point(0, 0), true;
      searchPattern, searchOrigin, selection := "", None, None;
    }

    method ScrollBy(delta: int)
      requires Valid()
      modifies this`displayOffset
      ensures Valid() && Abs() == ScrollDisplay(old(Abs()), delta)
    {
      displayOffset := Clamp(displayOffset + delta, 0, |grid| - lines);
    }

    /** The scrolling part of `search_next`. */
    method ScrollTo(line: int)
      requires Valid()
      modifies this`displayOffset
      ensures Valid() && Abs() == BringIntoView(old(Abs()), line)
    {
      var off: int := displayOffset;
      if line < -off {
        ScrollBy(-off - line);
      } else if line > lines - 1 - off {
        ScrollBy(lines - 1 - off - line);
      }
    }

    method SearchNext(pattern: string, forward: bool, engine: Engine) returns (hit: Hit)
      requires Valid() && SearchesGrid(engine, Abs())
      modifies this
      ensures Valid() && (Abs(), hit) == Search(old(Abs()), pattern, forward, engine)
    {
      if pattern == "" || !engine.compiles(pattern) {
        return NOTHING;
      }
      if searchPattern != pattern {
        searchPattern := pattern;
        searchOrigin := None;
      }
      var origin := match searchOrigin case Some(p) => engine.next(p, forward) case None => cursor;
      assert origin == Origin(old(Abs()), pattern, forward, engine);
      var result := engine.find(pattern, origin, forward);
      if result.None? {
        searchOrigin := None;
        return NOTHING;
      }
      var start := result.value.start;
      searchOrigin := Some(start);
      assert Abs() == old(Abs()).(searchPattern := pattern, searchOrigin := Some(start));
      ScrollTo(start.line);
      hit := ReportMatch(result.value);
    }

    /** The end of `search_next`: viewport coordinates of a match. */
    method ReportMatch(m: Match) returns (hit: Hit)
      ensures hit == Report(Abs(), m)
    {
      var start, end := m.start, m.end;
      var row := start.line + displayOffset;
      if row < 0 || row >= lines {
        return NOTHING;
      }
      var len := if end.line == start.line then Minus(end.column + 1, start.column) else Minus(cols, start.column);
      hit := Hit(start.column, row, len);
    }

    method SelectionStart(col: nat, row: nat, kind: nat)
      requires Valid()
      modifies this`selection
      ensures Valid()
      ensures var p := PointAt(old(Abs()), col, row);
        Abs() == old(Abs()).(selection := Some(Selection(KindOf(kind), p, p)))
      ensures selection.value.kind == (if kind == 1 then Block else if kind == 2 then Semantic
                                       else if kind == 3 then Lines else Simple)
    {
      var p := Point(row - displayOffset, col);
      selection := Some(Selection(KindOf(kind), p, p));
    }

    /** Without a selection there is nothing to extend. */
    method SelectionExtend(col: nat, row: nat)
      requires Valid()
      modifies this`selection
      ensures Valid()
      ensures old(selection).None? ==> Abs() == old(Abs())
      ensures old(selection).Some? ==>
                Abs() == old(Abs()).(selection := Some(old(selection).value.(end := PointAt(old(Abs()), col, row))))
    {
      if selection.Some? {
        selection := Some(selection.value.(end := Point(row - displayOffset, col)));
      }
    }

    /** The frame the host sees. */
    method Snapshot() returns (f: Frame, meta: CursorMeta)
      requires Valid()
      ensures f == ViewportFrame(Abs()) && meta == CursorOf(Abs())
    {
      var off := displayOffset;
      var cells: seq<Cell> := [];
      for r := 0 to lines
        invariant cells == Flat(Abs(), r)
      {
        var row := grid[r - off + (|grid| - lines)];
        for c := 0 to cols
          invariant cells == Flat(Abs(), r) + row[..c]
        {
          cells := cells + [row[c]];
        }
        assert row[..cols] == Shown(Abs(), r);
      }
      f := Frame(cols, lines, cells);
      var line := cursor.line + off;
      meta := CursorMeta(Clamp(cursor.column, 0, cols - 1), Clamp(line, 0, lines - 1),
                         showCursor && 0 <= line < lines);
    }
  }

  // ---------- cursor shapes ----------

  datatype Shape = BlockShape | UnderlineShape | BarShape

  /** The style code a snapshot carries. */
  function StyleCode(shape: Shape, blinking: bool): nat {
    match shape
    case UnderlineShape => if blinking then 3 else 4
    case BarShape => if blinking then 5 else 6
    case BlockShape => if blinking then 1 else 2
  }

  /** What the painter draws for a style code. */
  function PaintedShape(code: nat): Shape {
    match code
    case 2 => UnderlineShape
    case 3 => UnderlineShape
    case 5 => BarShape
    case 6 => BarShape
    case _ => BlockShape
  }

  /** The two sides disagree on steady blocks and steady underlines, and on nothing else. */
  lemma ShapePaintedIff(shape: Shape, blinking: bool)
    ensures PaintedShape(StyleCode(shape, blinking)) == shape <==> blinking || shape.BarShape?
  {
    match shape
    case BlockShape =>
    case UnderlineShape =>
    case BarShape =>
  }
}
