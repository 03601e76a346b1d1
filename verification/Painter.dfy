/** The cell-grid painter (SCShell.Painter.pas): cells of one style are drawn in one call. */
module Painter {
  import opened Common
  import opened Backend

  const DEFAULT_FLAG := 0x8000_0000
  const SPACE := 32

  /** Effective colours and attributes, after REVERSE. */
  datatype Style = Style(fg: nat, bg: nat, attrs: nat)

  datatype Colors = Colors(defaultFg: nat, defaultBg: nat)

  /** Stored colours are 0x00RRGGBB with a flag for "default"; canvas colours are 0x00BBGGRR. */
  function ResolveColor(value: nat, default: nat): nat {
    if value / DEFAULT_FLAG % 2 != 0 then default
    else value / 0x10000 % 0x100 + value / 0x100 % 0x100 * 0x100 + value % 0x100 * 0x10000
  }

  function StyleOf(cell: Cell, colors: Colors): Style {
    var fg := ResolveColor(cell.fg, colors.defaultFg);
    var bg := ResolveColor(cell.bg, colors.defaultBg);
    if cell.attrs / 0x20 % 2 != 0 then Style(bg, fg, cell.attrs) else Style(fg, bg, cell.attrs)
  }

  /** One UTF-16 unit per cell: blanks become spaces, and code points above U+FFFF lose their upper bits. */
  function GlyphOf(cell: Cell): nat {
    if cell.ch != 0 && cell.ch != SPACE then cell.ch % 0x10000 else SPACE
  }

  /** A stored colour with its three channels, red highest, and the same colour as the canvas wants it. */
  lemma ResolvedColor(r: nat, g: nat, b: nat, flags: nat, default: nat)
    requires r < 0x100 && g < 0x100 && b < 0x100 && flags < 0x100
    ensures ResolveColor(flags * 0x100_0000 + r * 0x10000 + g * 0x100 + b, default)
            == if flags >= 0x80 then default else r + g * 0x100 + b * 0x10000
  {
    var value := flags * 0x100_0000 + r * 0x10000 + g * 0x100 + b;
    assert value / DEFAULT_FLAG == flags / 0x80;
    assert value / 0x10000 == flags * 0x100 + r;
    assert value / 0x100 == flags * 0x10000 + r * 0x100 + g;
  }

  /** The unit drawn is the cell's character exactly for characters of one UTF-16 unit; a blank is a space. */
  lemma GlyphDrawnIff(cell: Cell)
    ensures GlyphOf(cell) == cell.ch <==> 1 <= cell.ch <= 0xFFFF
    ensures cell.ch == 0 ==> GlyphOf(cell) == SPACE
    ensures cell.ch > 0xFFFF ==> GlyphOf(cell) < 0x10000 && (cell.ch - GlyphOf(cell)) % 0x10000 == 0
  {}

  /** What the painter needs of a cell: its width, its effective style and the unit it draws. */
  datatype Stroke = Stroke(width: nat, style: Style, unit: nat)

  function StrokeOf(cell: Cell, colors: Colors): Stroke {
    Stroke(cell.width, StyleOf(cell, colors), GlyphOf(cell))
  }

  function Strokes(row: seq<Cell>, colors: Colors): (strokes: seq<Stroke>)
    ensures |strokes| == |row|
  {
    seq(|row|, i requires 0 <= i < |row| => StrokeOf(row[i], colors))
  }

  function StrokeRow(f: Frame, y: nat, colors: Colors): (strokes: seq<Stroke>)
    requires ValidFrame(f) && y < f.rows
    ensures |strokes| == f.cols
  {
    Strokes(Row(f, y), colors)
  }

  /** The width of some cells in pixels. */
  function Px(cells: nat, cellW: nat): nat {
    if cells == 0 then 0 else Px(cells - 1, cellW) + cellW
  }

  lemma {:induction false} PxIsProduct(cells: nat, cellW: nat)
    ensures Px(cells, cellW) == cells * cellW
  {
    if cells > 0 {
      PxIsProduct(cells - 1, cellW);
      assert cells * cellW == (cells - 1) * cellW + cellW;
    }
  }

  /** One call of ExtTextOut: an opaque rectangle of `cols` cells, and glyphs with their advances in pixels. */
  datatype Run = Run(startX: nat, y: nat, cols: nat, style: Style, text: seq<nat>, dx: seq<nat>)

  function NewRun(stroke: Stroke, x: nat, y: nat, cellW: nat): Run {
    Run(x, y, stroke.width, stroke.style, [stroke.unit], [Px(stroke.width, cellW)])
  }

  function Extend(run: Run, stroke: Stroke, cellW: nat): Run {
    run.(cols := run.cols + stroke.width, text := run.text + [stroke.unit], dx := run.dx + [Px(stroke.width, cellW)])
  }

  /** A row in progress: the runs already drawn, and the one being collected. */
  datatype Progress = Progress(drawn: seq<Run>, open: Option<Run>)

  function Flush(p: Progress): seq<Run> {
    match p.open
    case None => p.drawn
    case Some(run) => p.drawn + [run]
  }

  /** The open run takes in a stroke of its own style. */
  predicate Joins(p: Progress, stroke: Stroke) {
    p.open.Some? && p.open.value.style == stroke.style
  }

  function Take(p: Progress, stroke: Stroke, x: nat, y: nat, cellW: nat): Progress {
    if stroke.width == 0 then p
    else if Joins(p, stroke) then p.(open := Some(Extend(p.open.value, stroke, cellW)))
    else Progress(Flush(p), Some(NewRun(stroke, x, y, cellW)))
  }

  /** A row after its first n cells. */
  function Taken(row: seq<Stroke>, n: nat, y: nat, cellW: nat): Progress
    requires n <= |row|
  {
    if n == 0 then Progress([], None)
    else Take(Taken(row, n - 1, y, cellW), row[n - 1], n - 1, y, cellW)
  }

  function RowRuns(row: seq<Stroke>, y: nat, cellW: nat): seq<Run> {
    Flush(Taken(row, |row|, y, cellW))
  }

  /** The runs of the first n rows of a frame. */
  function FrameRuns(f: Frame, n: nat, cellW: nat, colors: Colors): seq<Run>
    requires ValidFrame(f) && n <= f.rows
  {
    if n == 0 then [] else FrameRuns(f, n - 1, cellW, colors) + RowRuns(StrokeRow(f, n - 1, colors), n - 1, cellW)
  }

  /** Pixels for some cells, at least one. */
  function Extent(cells: nat, cell: nat): nat {
    if Px(cells, cell) == 0 then 1 else Px(cells, cell)
  }

  class TRataPainter {
    var cellW: nat
    var cellH: nat
    var fCols: nat
    var fRows: nat
    var colors: Colors
    /** Width and height of the back buffer, and the drawing calls made on it since it was blank. */
    var bufferW: nat
    var bufferH: nat
    var canvas: seq<Run>

    constructor (cellW: nat, cellH: nat, colors: Colors)
      ensures this.cellW == cellW && this.cellH == cellH && this.colors == colors && canvas == []
    {
      this.cellW, this.cellH, this.colors, canvas := cellW, cellH, colors, [];
      fCols, fRows, bufferW, bufferH := 0, 0, 0, 0;
    }

    /** The back buffer has the size of a grid of so many cells. */
    predicate Fits(cols: nat, rows: nat)
      reads this
    {
      bufferW == Extent(cols, cellW) && bufferH == Extent(rows, cellH)
    }

    /** Blanks the back buffer if its size has to change. */
    method RecreateBuffer()
      modifies this`bufferW, this`bufferH, this`canvas
      ensures Fits(fCols, fRows)
      ensures canvas == if old(Fits(fCols, fRows)) then old(canvas) else []
    {
      var w, h := Extent(fCols, cellW), Extent(fRows, cellH);
      if bufferW != w || bufferH != h {
        bufferW, bufferH := w, h;
        canvas := [];
      }
    }

    /** Called by the window itself when it changes size; nothing is drawn. */
    method Resize(cols: nat, rows: nat)
      modifies this`fCols, this`fRows, this`bufferW, this`bufferH, this`canvas
      ensures fCols == (if cols == 0 then 1 else cols) && fRows == (if rows == 0 then 1 else rows)
      ensures Fits(fCols, fRows)
      ensures canvas == if old(Fits(if cols == 0 then 1 else cols, if rows == 0 then 1 else rows)) then old(canvas) else []
    {
      fCols := if cols == 0 then 1 else cols;
      fRows := if rows == 0 then 1 else rows;
      RecreateBuffer();
    }

    /** A frame of this size is drawn over what the back buffer holds. */
    predicate Keeps(f: Frame)
      reads this
    {
      (f.cols == fCols && f.rows == fRows) || Fits(f.cols, f.rows)
    }

    /** Draws the pending run, if there is one. */
    method FlushRun(startX: nat, y: nat, runCols: nat, style: Style, text: seq<nat>, dx: array<nat>, runCells: nat)
      requires runCells <= dx.Length
      modifies this`canvas
      ensures canvas == old(canvas) +
                        if runCols == 0 then [] else [Run(startX, y, runCols, style, text, dx[..runCells])]
    {
      if runCols == 0 {
        return;
      }
      canvas := canvas + [Run(startX, y, runCols, style, text, dx[..runCells])];
    }

    /** Draws a frame, on a new back buffer if the size differs. */
    method DrawEvent(f: Frame)
      requires ValidFrame(f)
      modifies this
      ensures canvas == (if old(Keeps(f)) then old(canvas) else []) + FrameRuns(f, f.rows, cellW, colors)
      ensures fCols == f.cols && fRows == f.rows && cellW == old(cellW) && cellH == old(cellH) && colors == old(colors)
    {
      if f.cols != fCols || f.rows != fRows {
        fCols := f.cols;
        fRows := f.rows;
        RecreateBuffer();
      }
      DrawRows(f);
    }

    /** Draws every row; the array of advances is never indexed past its end. */
    method DrawRows(f: Frame)
      requires ValidFrame(f)
      modifies this`canvas
      ensures canvas == old(canvas) + FrameRuns(f, f.rows, cellW, colors)
    {
      var runDx := new nat[f.cols + 4];
      for y := 0 to f.rows
        invariant canvas == old(canvas) + FrameRuns(f, y, cellW, colors)
      {
        ghost var above := FrameRuns(f, y, cellW, colors);
        DrawRow(Row(f, y), y, runDx);
        assert canvas == old(canvas) + (above + RowRuns(StrokeRow(f, y, colors), y, cellW));
      }
    }

    /** The inner loop: the cell pointer moves along one row. */
    method DrawRow(row: seq<Cell>, y: nat, runDx: array<nat>)
      requires runDx.Length == |row| + 4
      modifies this`canvas, runDx
      ensures canvas == old(canvas) + RowRuns(Strokes(row, colors), y, cellW)
    {
      var runText: seq<nat>, runCells: nat, runCols: nat, runStartX: nat := [], 0, 0, 0;
      var prev := Style(0, 0, 0xFFFF);
      ghost var p := Progress([], None);
      for x := 0 to |row|
        invariant p == Taken(Strokes(row, colors), x, y, cellW)
        invariant canvas == old(canvas) + p.drawn
        invariant runCells <= x
        invariant p.open.None? <==> runCols == 0
        invariant p.open.Some? ==> p.open.value == Run(runStartX, y, runCols, prev, runText, runDx[..runCells])
        invariant p.open.None? ==> p.drawn == []
      {
        var cell := row[x];
        p := Take(p, StrokeOf(cell, colors), x, y, cellW);
        if cell.width == 0 {
          continue;
        }
        var style := StyleOf(cell, colors);
        if runCols == 0 || prev != style {
          FlushRun(runStartX, y, runCols, prev, runText, runDx, runCells);
          runText, runCells, runCols := [], 0, 0;
          runStartX := x;
          prev := style;
        }
        PxIsProduct(cell.width, cellW);
        ghost var dx := runDx[..runCells];
        runText := runText + [GlyphOf(cell)];
        runDx[runCells] := cell.width * cellW;
        runCells := runCells + 1;
        runCols := runCols + cell.width;
        assert runDx[..runCells] == dx + [Px(cell.width, cellW)];
      }
      FlushRun(runStartX, y, runCols, prev, runText, runDx, runCells);
    }
  }
}
