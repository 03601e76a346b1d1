/**
  What the painter's drawing calls leave on the back buffer: the same picture as
  painting each cell alone.
 */
module PaintedImage {
  import opened Common
  import opened Backend
  import opened Painter

  /** A character drawn with its origin at a pixel. */
  datatype Glyph = Glyph(unit: nat, fg: nat, attrs: nat)

  /** One pixel column of a text row: its background, and the glyph whose origin it is. */
  datatype Pixel = Pixel(bg: nat, glyph: Option<Glyph>)

  /** The pixel columns of one text row of the back buffer. */
  type Band = seq<Pixel>

  function Fill(band: Band, left: int, right: int, bg: nat): Band {
    seq(|band|, i requires 0 <= i < |band| => if left <= i < right then Pixel(bg, None) else band[i])
  }

  function DrawGlyph(band: Band, at: nat, g: Glyph): Band {
    if at < |band| then band[at := band[at].(glyph := Some(g))] else band
  }

  function Sum(dx: seq<nat>): nat {
    if dx == [] then 0 else Sum(dx[..|dx| - 1]) + dx[|dx| - 1]
  }

  /** Each glyph starts where the advances of the ones before it end. */
  function DrawText(band: Band, left: nat, style: Style, text: seq<nat>, dx: seq<nat>): Band
    requires |text| == |dx|
  {
    if text == [] then band
    else
      var n := |text| - 1;
      DrawGlyph(DrawText(band, left, style, text[..n], dx[..n]), left + Sum(dx[..n]), Glyph(text[n], style.fg, style.attrs))
  }

  /** ExtTextOut with an opaque, clipping rectangle. */
  function PaintRun(band: Band, run: Run, cellW: nat): Band
    requires |run.text| == |run.dx|
  {
    DrawText(Fill(band, Px(run.startX, cellW), Px(run.startX + run.cols, cellW), run.style.bg),
             Px(run.startX, cellW), run.style, run.text, run.dx)
  }

  predicate Drawable(runs: seq<Run>) {
    forall i | 0 <= i < |runs| :: |runs[i].text| == |runs[i].dx|
  }

  function PaintRuns(band: Band, runs: seq<Run>, cellW: nat): Band
    requires Drawable(runs)
  {
    if runs == [] then band
    else PaintRun(PaintRuns(band, runs[..|runs| - 1], cellW), runs[|runs| - 1], cellW)
  }

  /** The reference: a cell paints its own columns and its glyph at its own left edge. */
  function PaintCell(band: Band, stroke: Stroke, x: nat, cellW: nat): Band {
    if stroke.width == 0 then band
    else
      var style := stroke.style;
      DrawGlyph(Fill(band, Px(x, cellW), Px(x + stroke.width, cellW), style.bg),
                Px(x, cellW), Glyph(stroke.unit, style.fg, style.attrs))
  }

  function PaintCells(band: Band, row: seq<Stroke>, n: nat, cellW: nat): Band
    requires n <= |row|
  {
    if n == 0 then band
    else PaintCell(PaintCells(band, row, n - 1, cellW), row[n - 1], n - 1, cellW)
  }

  // ---------- a run grown by one cell ----------

  predicate RunOk(run: Run, cellW: nat) {
    |run.text| == |run.dx| && Sum(run.dx) == Px(run.cols, cellW) && forall i | 0 <= i < |run.dx| :: run.dx[i] > 0
  }

  lemma SumAppend(dx: seq<nat>, d: nat)
    ensures Sum(dx + [d]) == Sum(dx) + d
  {
    assert (dx + [d])[..|dx|] == dx;
  }

  lemma FillGlyphCommute(band: Band, at: nat, g: Glyph, left: int, right: int, bg: nat)
    requires at < left
    ensures Fill(DrawGlyph(band, at, g), left, right, bg) == DrawGlyph(Fill(band, left, right, bg), at, g)
  {}

  /** Painting further right does not disturb glyphs already drawn. */
  lemma {:induction false} FillTextCommute(band: Band, at: nat, style: Style, text: seq<nat>, dx: seq<nat>,
                                           left: int, right: int, bg: nat)
    requires |text| == |dx| && at + Sum(dx) <= left && forall i | 0 <= i < |dx| :: dx[i] > 0
    ensures Fill(DrawText(band, at, style, text, dx), left, right, bg)
            == DrawText(Fill(band, left, right, bg), at, style, text, dx)
    decreases |text|
  {
    if text != [] {
      var n := |text| - 1;
      FillTextCommute(band, at, style, text[..n], dx[..n], left, right, bg);
      FillGlyphCommute(DrawText(band, at, style, text[..n], dx[..n]), at + Sum(dx[..n]),
                       Glyph(text[n], style.fg, style.attrs), left, right, bg);
    }
  }

  lemma TextAppend(band: Band, left: nat, style: Style, text: seq<nat>, dx: seq<nat>, unit: nat, d: nat)
    requires |text| == |dx|
    ensures DrawText(band, left, style, text + [unit], dx + [d])
            == DrawGlyph(DrawText(band, left, style, text, dx), left + Sum(dx), Glyph(unit, style.fg, style.attrs))
  {
    assert (text + [unit])[..|text|] == text && (dx + [d])[..|dx|] == dx;
  }

  lemma FillSplit(band: Band, left: int, middle: int, right: int, bg: nat)
    requires left <= middle <= right
    ensures Fill(band, left, right, bg) == Fill(Fill(band, left, middle, bg), middle, right, bg)
  {}

  lemma {:induction false} PxAdd(a: nat, b: nat, w: nat)
    ensures Px(a + b, w) == Px(a, w) + Px(b, w)
  {
    if b > 0 {
      PxAdd(a, b - 1, w);
    }
  }

  lemma PxPositive(a: nat, w: nat)
    requires a > 0 && w > 0
    ensures Px(a, w) > 0
  {}

  /** Drawing a run with one more cell is drawing the run, then the cell alone where the run ends. */
  lemma GrownRun(band: Band, run: Run, stroke: Stroke, cellW: nat)
    requires RunOk(run, cellW) && stroke.width > 0 && run.style == stroke.style
    ensures PaintRun(band, Extend(run, stroke, cellW), cellW)
            == PaintCell(PaintRun(band, run, cellW), stroke, run.startX + run.cols, cellW)
  {
    var left := Px(run.startX, cellW);
    var middle := Px(run.startX + run.cols, cellW);
    var right := Px(run.startX + run.cols + stroke.width, cellW);
    PxAdd(run.startX, run.cols, cellW);
    PxAdd(run.startX + run.cols, stroke.width, cellW);
    WiderRun(band, run, left, middle, right);
    TextAppend(Fill(band, left, right, run.style.bg), left, run.style, run.text, run.dx, stroke.unit, Px(stroke.width, cellW));
  }

  /** Text on a wider background is the same text with more background on its right. */
  lemma WiderRun(band: Band, run: Run, left: nat, middle: nat, right: nat)
    requires |run.text| == |run.dx| && forall i | 0 <= i < |run.dx| :: run.dx[i] > 0
    requires left + Sum(run.dx) == middle <= right
    ensures DrawText(Fill(band, left, right, run.style.bg), left, run.style, run.text, run.dx)
            == Fill(DrawText(Fill(band, left, middle, run.style.bg), left, run.style, run.text, run.dx),
                    middle, right, run.style.bg)
  {
    FillSplit(band, left, middle, right, run.style.bg);
    FillTextCommute(Fill(band, left, middle, run.style.bg), left, run.style, run.text, run.dx, middle, right, run.style.bg);
  }

  lemma ExtendOk(run: Run, stroke: Stroke, cellW: nat)
    requires RunOk(run, cellW) && stroke.width > 0 && cellW > 0
    ensures RunOk(Extend(run, stroke, cellW), cellW)
  {
    SumAppend(run.dx, Px(stroke.width, cellW));
    PxAdd(run.cols, stroke.width, cellW);
    PxPositive(stroke.width, cellW);
  }

  lemma FirstCell(band: Band, stroke: Stroke, x: nat, y: nat, cellW: nat)
    requires stroke.width > 0 && cellW > 0
    ensures RunOk(NewRun(stroke, x, y, cellW), cellW)
    ensures PaintRun(band, NewRun(stroke, x, y, cellW), cellW) == PaintCell(band, stroke, x, cellW)
  {
    var run := NewRun(stroke, x, y, cellW);
    PxPositive(stroke.width, cellW);
    SumAppend([], Px(stroke.width, cellW));
    assert [] + [Px(stroke.width, cellW)] == run.dx && [] + [stroke.unit] == run.text;
    var filled := Fill(band, Px(x, cellW), Px(x + stroke.width, cellW), run.style.bg);
    TextAppend(filled, Px(x, cellW), run.style, [], [], stroke.unit, Px(stroke.width, cellW));
  }

  // ---------- rows ----------

  /** Column right after the last visible cell among the first n. */
  function EndColumn(row: seq<Stroke>, n: nat): nat
    requires n <= |row|
  {
    if n == 0 then 0
    else if row[n - 1].width == 0 then EndColumn(row, n - 1)
    else n - 1 + row[n - 1].width
  }

  /** Width-2 cells are followed by one width-0 trailer, and there are no other trailers. */
  predicate WellFormedRow(row: seq<Stroke>) {
    forall x | 0 <= x < |row| :: WellFormedAt(row, x)
  }

  predicate WellFormedAt(row: seq<Stroke>, x: nat)
    requires x < |row|
  {
    && row[x].width <= 2
    && (row[x].width == 2 ==> x + 1 < |row| && row[x + 1].width == 0)
    && (row[x].width == 0 ==> x > 0 && row[x - 1].width == 2)
  }

  /** Every cell that continues a run begins where the previous visible cell ends. */
  predicate InStep(row: seq<Stroke>, n: nat)
    requires n <= |row|
  {
    forall x | 0 <= x < n :: Continues(row, x) ==> EndColumn(row, x) == x
  }

  /** The last visible cell among the first n. */
  function LastVisible(row: seq<Stroke>, n: nat): (last: Option<nat>)
    requires n <= |row|
    ensures last.Some? ==> last.value < n && row[last.value].width != 0
  {
    if n == 0 then None else if row[n - 1].width != 0 then Some(n - 1) else LastVisible(row, n - 1)
  }

  /** A visible cell in the style of the visible cell before it. */
  predicate Continues(row: seq<Stroke>, x: nat)
    requires x < |row|
  {
    var last := LastVisible(row, x);
    row[x].width != 0 && last.Some? && row[last.value].style == row[x].style
  }

  lemma {:induction false} WellFormedEnd(row: seq<Stroke>, n: nat)
    requires WellFormedRow(row) && n <= |row|
    ensures n == 0 || row[n - 1].width != 2 ==> EndColumn(row, n) == n
    ensures n > 0 && row[n - 1].width == 2 ==> EndColumn(row, n) == n + 1
    ensures n == |row| ==> EndColumn(row, n) == n
  {
    if n > 0 {
      WellFormedEnd(row, n - 1);
      assert WellFormedAt(row, n - 1);
      assert n < |row| ==> WellFormedAt(row, n);
      assert n > 1 ==> WellFormedAt(row, n - 2);
    }
  }

  lemma VisibleStartsAtEnd(row: seq<Stroke>, x: nat)
    requires WellFormedRow(row) && x < |row| && row[x].width != 0
    ensures EndColumn(row, x) == x
  {
    WellFormedEnd(row, x);
    assert x > 0 ==> WellFormedAt(row, x - 1);
  }

  lemma WellFormedInStep(row: seq<Stroke>, n: nat)
    requires WellFormedRow(row) && n <= |row|
    ensures InStep(row, n)
  {
    forall x | 0 <= x < n && Continues(row, x)
      ensures EndColumn(row, x) == x
    {
      VisibleStartsAtEnd(row, x);
    }
  }

  ghost predicate Good(row: seq<Stroke>, n: nat, y: nat, cellW: nat)
    requires n <= |row|
  {
    var p := Taken(row, n, y, cellW);
    && (forall i | 0 <= i < |p.drawn| :: RunOk(p.drawn[i], cellW))
    && (p.open.Some? ==> RunOk(p.open.value, cellW) && p.open.value.startX + p.open.value.cols == EndColumn(row, n))
    && (p.open.None? ==> p.drawn == [])
  }

  /** The open run has the style of the last visible cell, so the cells that continue a run are those above. */
  lemma {:induction false} OpenStyle(row: seq<Stroke>, n: nat, y: nat, cellW: nat)
    requires n <= |row|
    ensures var open, last := Taken(row, n, y, cellW).open, LastVisible(row, n);
      open.Some? == last.Some? && (open.Some? ==> open.value.style == row[last.value].style)
    ensures n < |row| && row[n].width != 0 ==> (Continues(row, n) <==> Joins(Taken(row, n, y, cellW), row[n]))
  {
    if n > 0 {
      OpenStyle(row, n - 1, y, cellW);
    }
  }

  lemma {:induction false} RunsGood(row: seq<Stroke>, n: nat, y: nat, cellW: nat)
    requires n <= |row| && cellW > 0 && InStep(row, n)
    ensures Good(row, n, y, cellW)
  {
    if n > 0 {
      var stroke := row[n - 1];
      var p := Taken(row, n - 1, y, cellW);
      RunsGood(row, n - 1, y, cellW);
      OpenStyle(row, n - 1, y, cellW);
      if stroke.width > 0 {
        FirstCell([], stroke, n - 1, y, cellW);
        if Joins(p, stroke) {
          assert Continues(row, n - 1);
          ExtendOk(p.open.value, stroke, cellW);
        }
      }
    }
  }

  lemma FlushDrawable(drawn: seq<Run>, run: Run)
    requires Drawable(drawn) && |run.text| == |run.dx|
    ensures Drawable(Flush(Progress(drawn, Some(run))))
  {}

  lemma PaintFlush(band: Band, p: Progress, cellW: nat)
    requires p.open.Some? && Drawable(Flush(p))
    ensures Drawable(p.drawn) && |p.open.value.text| == |p.open.value.dx|
    ensures PaintRuns(band, Flush(p), cellW) == PaintRun(PaintRuns(band, p.drawn, cellW), p.open.value, cellW)
  {
    assert Flush(p)[..|p.drawn|] == p.drawn && Flush(p)[|p.drawn|] == p.open.value;
    forall i | 0 <= i < |p.drawn|
      ensures |p.drawn[i].text| == |p.drawn[i].dx|
    {
      assert Flush(p)[i] == p.drawn[i];
    }
  }

  /** What drawing the runs of a row in progress leaves on a band. */
  function ImageOf(p: Progress, band: Band, cellW: nat): Option<Band> {
    if Drawable(Flush(p)) then Some(PaintRuns(band, Flush(p), cellW)) else None
  }

  lemma ImageOfOpen(band: Band, drawn: seq<Run>, run: Run, cellW: nat)
    requires Drawable(drawn) && |run.text| == |run.dx|
    ensures ImageOf(Progress(drawn, Some(run)), band, cellW) == Some(PaintRun(PaintRuns(band, drawn, cellW), run, cellW))
  {
    FlushDrawable(drawn, run);
    PaintFlush(band, Progress(drawn, Some(run)), cellW);
  }

  lemma PaintNewRun(band: Band, image: Band, before: Progress, stroke: Stroke, x: nat, y: nat, cellW: nat)
    requires ImageOf(before, band, cellW) == Some(image) && stroke.width > 0 && cellW > 0 && !Joins(before, stroke)
    ensures ImageOf(Take(before, stroke, x, y, cellW), band, cellW) == Some(PaintCell(image, stroke, x, cellW))
  {
    FirstCell(image, stroke, x, y, cellW);
    ImageOfOpen(band, Flush(before), NewRun(stroke, x, y, cellW), cellW);
  }

  lemma PaintGrownRun(band: Band, image: Band, before: Progress, stroke: Stroke, cellW: nat)
    requires ImageOf(before, band, cellW) == Some(image) && stroke.width > 0 && Joins(before, stroke)
    requires RunOk(before.open.value, cellW)
    ensures var run := before.open.value;
      ImageOf(before.(open := Some(Extend(run, stroke, cellW))), band, cellW)
      == Some(PaintCell(image, stroke, run.startX + run.cols, cellW))
  {
    var run := before.open.value;
    PaintFlush(band, before, cellW);
    ImageOfOpen(band, before.drawn, Extend(run, stroke, cellW), cellW);
    GrownRun(PaintRuns(band, before.drawn, cellW), run, stroke, cellW);
  }

  /** If the next cell joins the open run, that run ends at the cell's column. */
  predicate ReadyFor(p: Progress, stroke: Stroke, x: nat, cellW: nat) {
    stroke.width > 0 && Joins(p, stroke) ==>
      RunOk(p.open.value, cellW) && p.open.value.startX + p.open.value.cols == x
  }

  lemma InStepReady(row: seq<Stroke>, x: nat, y: nat, cellW: nat)
    requires x < |row| && cellW > 0 && InStep(row, |row|)
    ensures ReadyFor(Taken(row, x, y, cellW), row[x], x, cellW)
  {
    if row[x].width > 0 && Joins(Taken(row, x, y, cellW), row[x]) {
      RunsGood(row, x, y, cellW);
      OpenStyle(row, x, y, cellW);
      assert Continues(row, x);
    }
  }

  /** Taking one more cell into the runs adds to the image what painting it alone would. */
  lemma PaintNext(band: Band, image: Band, before: Progress, stroke: Stroke, x: nat, y: nat, cellW: nat)
    requires ImageOf(before, band, cellW) == Some(image) && ReadyFor(before, stroke, x, cellW) && cellW > 0
    ensures ImageOf(Take(before, stroke, x, y, cellW), band, cellW) == Some(PaintCell(image, stroke, x, cellW))
  {
    if stroke.width > 0 {
      if Joins(before, stroke) {
        PaintGrownRun(band, image, before, stroke, cellW);
      } else {
        PaintNewRun(band, image, before, stroke, x, y, cellW);
      }
    }
  }

  lemma PaintNextOfRow(band: Band, row: seq<Stroke>, x: nat, before: Progress, y: nat, cellW: nat)
    requires x < |row| && cellW > 0 && ReadyFor(before, row[x], x, cellW)
    requires ImageOf(before, band, cellW) == Some(PaintCells(band, row, x, cellW))
    ensures ImageOf(Take(before, row[x], x, y, cellW), band, cellW) == Some(PaintCells(band, row, x + 1, cellW))
  {
    PaintNext(band, PaintCells(band, row, x, cellW), before, row[x], x, y, cellW);
  }

  /** Painting in runs equals painting cell by cell, after any number of cells of a row in step. */
  lemma {:induction false} RunsPaintCells(band: Band, row: seq<Stroke>, n: nat, y: nat, cellW: nat)
    requires n <= |row| && cellW > 0 && InStep(row, |row|)
    ensures ImageOf(Taken(row, n, y, cellW), band, cellW) == Some(PaintCells(band, row, n, cellW))
  {
    if n > 0 {
      RunsPaintCells(band, row, n - 1, y, cellW);
      InStepReady(row, n - 1, y, cellW);
      PaintNextOfRow(band, row, n - 1, Taken(row, n - 1, y, cellW), y, cellW);
    }
  }

  // ---------- where the glyphs go ----------

  function TextOrigins(run: Run, cellW: nat, n: nat): seq<nat>
    requires n <= |run.dx|
  {
    if n == 0 then [] else TextOrigins(run, cellW, n - 1) + [Px(run.startX, cellW) + Sum(run.dx[..n - 1])]
  }

  /** Pixel origins of all glyphs drawn, in drawing order. */
  function Origins(runs: seq<Run>, cellW: nat): seq<nat> {
    if runs == [] then []
    else
      var last := runs[|runs| - 1];
      Origins(runs[..|runs| - 1], cellW) + TextOrigins(last, cellW, |last.dx|)
  }

  /** Left edges of the visible cells. */
  function CellOrigins(row: seq<Stroke>, n: nat, cellW: nat): seq<nat>
    requires n <= |row|
  {
    if n == 0 then []
    else CellOrigins(row, n - 1, cellW) + if row[n - 1].width == 0 then [] else [Px(n - 1, cellW)]
  }

  lemma {:induction false} TextOriginsPrefix(run: Run, d: nat, unit: nat, cols: nat, cellW: nat, n: nat)
    requires n <= |run.dx|
    ensures TextOrigins(run.(dx := run.dx + [d], text := run.text + [unit], cols := cols), cellW, n)
            == TextOrigins(run, cellW, n)
  {
    if n > 0 {
      TextOriginsPrefix(run, d, unit, cols, cellW, n - 1);
      assert (run.dx + [d])[..n - 1] == run.dx[..n - 1];
    }
  }

  lemma OriginsFlush(p: Progress, cellW: nat)
    requires p.open.Some?
    ensures Origins(Flush(p), cellW) == Origins(p.drawn, cellW) + TextOrigins(p.open.value, cellW, |p.open.value.dx|)
  {
    assert Flush(p)[..|p.drawn|] == p.drawn;
  }

  /** A cell that begins a run adds its own origin. */
  lemma OriginOfNewRun(p: Progress, stroke: Stroke, x: nat, y: nat, cellW: nat)
    requires stroke.width > 0 && !Joins(p, stroke)
    ensures Origins(Flush(Take(p, stroke, x, y, cellW)), cellW) == Origins(Flush(p), cellW) + [Px(x, cellW)]
  {
    var run := NewRun(stroke, x, y, cellW);
    OriginsFlush(Take(p, stroke, x, y, cellW), cellW);
    assert run.dx[..0] == [];
    assert TextOrigins(run, cellW, 1) == [Px(x, cellW)];
  }

  /** A cell that continues a run adds the end of the run. */
  lemma OriginOfGrownRun(p: Progress, stroke: Stroke, cellW: nat)
    requires p.open.Some? && RunOk(p.open.value, cellW)
    ensures var run := p.open.value;
      Origins(Flush(p.(open := Some(Extend(run, stroke, cellW)))), cellW)
      == Origins(Flush(p), cellW) + [Px(run.startX + run.cols, cellW)]
  {
    var run := p.open.value;
    OriginsFlush(p, cellW);
    OriginsFlush(p.(open := Some(Extend(run, stroke, cellW))), cellW);
    TextOriginsPrefix(run, Px(stroke.width, cellW), stroke.unit, run.cols + stroke.width, cellW, |run.dx|);
    PxAdd(run.startX, run.cols, cellW);
    assert Extend(run, stroke, cellW).dx[..|run.dx|] == run.dx;
  }

  lemma NextOrigin(p: Progress, stroke: Stroke, x: nat, y: nat, cellW: nat)
    requires stroke.width > 0 && (p.open.Some? ==> RunOk(p.open.value, cellW))
    ensures Origins(Flush(Take(p, stroke, x, y, cellW)), cellW) ==
            Origins(Flush(p), cellW) +
            [if !Joins(p, stroke) then Px(x, cellW) else Px(p.open.value.startX + p.open.value.cols, cellW)]
  {
    if Joins(p, stroke) {
      OriginOfGrownRun(p, stroke, cellW);
    } else {
      OriginOfNewRun(p, stroke, x, y, cellW);
    }
  }

  lemma {:induction false} RunsOk(row: seq<Stroke>, n: nat, y: nat, cellW: nat)
    requires n <= |row| && cellW > 0
    ensures var p := Taken(row, n, y, cellW); p.open.Some? ==> RunOk(p.open.value, cellW)
  {
    if n > 0 {
      var stroke := row[n - 1];
      var p := Taken(row, n - 1, y, cellW);
      RunsOk(row, n - 1, y, cellW);
      if stroke.width > 0 {
        FirstCell([], stroke, n - 1, y, cellW);
        if p.open.Some? {
          ExtendOk(p.open.value, stroke, cellW);
        }
      }
    }
  }

  lemma AppendEqual(a: seq<nat>, b: seq<nat>, x: nat, y: nat)
    requires |a| == |b|
    ensures a + [x] == b + [y] <==> a == b && x == y
  {
    if a + [x] == b + [y] {
      assert (a + [x])[..|a|] == a && (b + [y])[..|b|] == b;
      assert (a + [x])[|a|] == x && (b + [y])[|b|] == y;
    }
  }

  lemma PxInjective(a: nat, b: nat, w: nat)
    requires w > 0
    ensures Px(a, w) == Px(b, w) <==> a == b
  {
    if a > b {
      PxAdd(b, a - b, w);
      PxPositive(a - b, w);
    } else if b > a {
      PxAdd(a, b - a, w);
      PxPositive(b - a, w);
    }
  }

  lemma InStepNext(row: seq<Stroke>, x: nat)
    requires x < |row|
    ensures InStep(row, x + 1)
            <==> InStep(row, x) && (Continues(row, x) ==> EndColumn(row, x) == x)
  {}

  /** Where the runs put the glyph of the visible cell x. */
  function Origin(row: seq<Stroke>, x: nat, y: nat, cellW: nat): nat
    requires x < |row|
  {
    var p := Taken(row, x, y, cellW);
    if !Joins(p, row[x]) then Px(x, cellW)
    else Px(p.open.value.startX + p.open.value.cols, cellW)
  }

  lemma OriginInPlaceIff(row: seq<Stroke>, x: nat, y: nat, cellW: nat)
    requires x < |row| && row[x].width > 0 && cellW > 0 && InStep(row, x)
    ensures Origin(row, x, y, cellW) == Px(x, cellW)
            <==> (Continues(row, x) ==> EndColumn(row, x) == x)
  {
    RunsGood(row, x, y, cellW);
    OpenStyle(row, x, y, cellW);
    PxInjective(EndColumn(row, x), x, cellW);
  }

  lemma NextOriginOfRow(row: seq<Stroke>, x: nat, y: nat, cellW: nat)
    requires x < |row| && row[x].width > 0 && cellW > 0
    ensures RowOrigins(row, x + 1, y, cellW)
            == RowOrigins(row, x, y, cellW) + [Origin(row, x, y, cellW)]
  {
    RunsOk(row, x, y, cellW);
    NextOrigin(Taken(row, x, y, cellW), row[x], x, y, cellW);
  }

  /** All glyph origins of the first n cells of a row. */
  function RowOrigins(row: seq<Stroke>, n: nat, y: nat, cellW: nat): seq<nat>
    requires n <= |row|
  {
    Origins(Flush(Taken(row, n, y, cellW)), cellW)
  }

  /**
    For any row at all: every glyph lands on the left edge of its own cell if and
    only if every cell that continues a run begins where the previous one ends.
   */
  lemma {:induction false} GlyphsInPlaceIff(row: seq<Stroke>, n: nat, y: nat, cellW: nat)
    requires n <= |row| && cellW > 0
    ensures |RowOrigins(row, n, y, cellW)| == |CellOrigins(row, n, cellW)|
    ensures RowOrigins(row, n, y, cellW) == CellOrigins(row, n, cellW) <==> InStep(row, n)
  {
    if n > 0 {
      var x := n - 1;
      GlyphsInPlaceIff(row, x, y, cellW);
      InStepNext(row, x);
      if row[x].width > 0 {
        NextOriginOfRow(row, x, y, cellW);
        PlaceVisible(row, x, y, cellW, RowOrigins(row, x, y, cellW));
      } else {
        assert Taken(row, n, y, cellW) == Taken(row, x, y, cellW);
      }
    }
  }

  lemma PlaceVisible(row: seq<Stroke>, x: nat, y: nat, cellW: nat, drawn: seq<nat>)
    requires x < |row| && row[x].width > 0 && cellW > 0
    requires |drawn| == |CellOrigins(row, x, cellW)|
    requires drawn == CellOrigins(row, x, cellW) <==> InStep(row, x)
    ensures |drawn + [Origin(row, x, y, cellW)]| == |CellOrigins(row, x + 1, cellW)|
    ensures drawn + [Origin(row, x, y, cellW)] == CellOrigins(row, x + 1, cellW)
            <==> InStep(row, x) && (Continues(row, x) ==> EndColumn(row, x) == x)
  {
    if InStep(row, x) {
      OriginInPlaceIff(row, x, y, cellW);
    }
    CellOriginsNext(row, x, cellW);
    AppendBoth(drawn, CellOrigins(row, x, cellW), Origin(row, x, y, cellW), Px(x, cellW),
               InStep(row, x), Continues(row, x) ==> EndColumn(row, x) == x);
  }

  lemma CellOriginsNext(row: seq<Stroke>, x: nat, cellW: nat)
    requires x < |row| && row[x].width > 0
    ensures CellOrigins(row, x + 1, cellW) == CellOrigins(row, x, cellW) + [Px(x, cellW)]
  {}

  lemma AppendBoth(a: seq<nat>, b: seq<nat>, x: nat, y: nat, same: bool, next: bool)
    requires |a| == |b| && (a == b <==> same) && (same ==> (x == y <==> next))
    ensures a + [x] == b + [y] <==> same && next
  {
    AppendEqual(a, b, x, y);
  }

  /** A stray trailer between two cells of one style shifts the second glyph. */
  lemma StrayTrailerShifts()
    ensures var a := Stroke(1, Style(0, 0, 0), 65);
      var row := [a, a.(width := 0), a];
      RowOrigins(row, 3, 0, 8) != CellOrigins(row, 3, 8)
  {
    var a := Stroke(1, Style(0, 0, 0), 65);
    var row := [a, a.(width := 0), a];
    assert Taken(row, 1, 0, 8).open.value.style == a.style;
    assert Taken(row, 2, 0, 8) == Taken(row, 1, 0, 8);
    assert LastVisible(row, 2) == Some(0) && Continues(row, 2) && EndColumn(row, 2) == 1;
    GlyphsInPlaceIff(row, 3, 0, 8);
  }

  // ---------- tiling ----------

  /** The runs follow each other without gap or overlap, from column 0 to `end`. */
  predicate Chained(runs: seq<Run>, end: nat) {
    if runs == [] then end == 0
    else
      var last := runs[|runs| - 1];
      last.cols > 0 && last.startX + last.cols == end && Chained(runs[..|runs| - 1], last.startX)
  }

  lemma ChainFlush(p: Progress, end: nat)
    requires p.open.Some?
    ensures Chained(Flush(p), end) <==>
            p.open.value.cols > 0 && p.open.value.startX + p.open.value.cols == end
            && Chained(p.drawn, p.open.value.startX)
  {
    assert Flush(p)[..|p.drawn|] == p.drawn;
  }

  lemma ChainNext(p: Progress, stroke: Stroke, x: nat, y: nat, cellW: nat)
    requires stroke.width > 0 && Chained(Flush(p), x) && (p.open.None? ==> p.drawn == [])
    ensures Chained(Flush(Take(p, stroke, x, y, cellW)), x + stroke.width)
  {
    ChainFlush(Take(p, stroke, x, y, cellW), x + stroke.width);
    if p.open.Some? {
      ChainFlush(p, x);
    }
  }

  /** The runs of a well-formed row tile it. */
  lemma {:induction false} RunsTile(row: seq<Stroke>, n: nat, y: nat, cellW: nat)
    requires WellFormedRow(row) && n <= |row|
    ensures Chained(Flush(Taken(row, n, y, cellW)), EndColumn(row, n))
  {
    if n > 0 {
      RunsTile(row, n - 1, y, cellW);
      if row[n - 1].width > 0 {
        VisibleStartsAtEnd(row, n - 1);
        NothingDrawnYet(row, n - 1, y, cellW);
        ChainNext(Taken(row, n - 1, y, cellW), row[n - 1], n - 1, y, cellW);
      }
    }
  }

  lemma RowTiled(row: seq<Stroke>, y: nat, cellW: nat, c: nat)
    requires WellFormedRow(row)
    ensures var runs := RowRuns(row, y, cellW);
      && (c < |row| <==> exists i :: 0 <= i < |runs| && InRun(runs[i], c))
      && (forall i, j | 0 <= i < j < |runs| :: !(InRun(runs[i], c) && InRun(runs[j], c)))
  {
    RunsTile(row, |row|, y, cellW);
    WellFormedEnd(row, |row|);
    ChainedCoversOnce(RowRuns(row, y, cellW), |row|, c);
  }

  lemma {:induction false} NothingDrawnYet(row: seq<Stroke>, n: nat, y: nat, cellW: nat)
    requires n <= |row|
    ensures Taken(row, n, y, cellW).open.None? ==> Taken(row, n, y, cellW).drawn == []
  {
    if n > 0 {
      NothingDrawnYet(row, n - 1, y, cellW);
    }
  }

  predicate InRun(run: Run, c: nat) {
    run.startX <= c < run.startX + run.cols
  }

  /** Tiling means: each column below `end` is in exactly one run, and no other column in any. */
  lemma {:induction false} ChainedCoversOnce(runs: seq<Run>, end: nat, c: nat)
    requires Chained(runs, end)
    ensures c < end <==> exists i :: 0 <= i < |runs| && InRun(runs[i], c)
    ensures forall i, j | 0 <= i < j < |runs| :: !(InRun(runs[i], c) && InRun(runs[j], c))
  {
    if runs != [] {
      var n := |runs| - 1;
      ChainedCoversOnce(runs[..n], runs[n].startX, c);
      assert forall i | 0 <= i < n :: runs[..n][i] == runs[i];
      if c < runs[n].startX {
        var i :| 0 <= i < |runs[..n]| && InRun(runs[..n][i], c);
        assert InRun(runs[i], c);
      } else if c < end {
        assert InRun(runs[n], c);
      }
    }
  }

  // ---------- whole frames ----------

  type Canvas = seq<Band>

  function PaintOps(canvas: Canvas, ops: seq<Run>, cellW: nat): Canvas
    requires Drawable(ops)
  {
    if ops == [] then canvas
    else
      var before := PaintOps(canvas, ops[..|ops| - 1], cellW);
      var op := ops[|ops| - 1];
      if op.y < |before| then before[op.y := PaintRun(before[op.y], op, cellW)] else before
  }

  function PaintFrame(canvas: Canvas, f: Frame, n: nat, cellW: nat, colors: Colors): Canvas
    requires ValidFrame(f) && n <= f.rows && |canvas| == f.rows
    ensures |PaintFrame(canvas, f, n, cellW, colors)| == |canvas|
  {
    if n == 0 then canvas
    else
      var before := PaintFrame(canvas, f, n - 1, cellW, colors);
      before[n - 1 := PaintCells(before[n - 1], StrokeRow(f, n - 1, colors), f.cols, cellW)]
  }

  predicate WellFormedFrame(f: Frame, colors: Colors) {
    ValidFrame(f) && forall y | 0 <= y < f.rows :: WellFormedRow(StrokeRow(f, y, colors))
  }

  lemma {:induction false} OpsAppend(canvas: Canvas, a: seq<Run>, b: seq<Run>, cellW: nat)
    requires Drawable(a) && Drawable(b)
    ensures Drawable(a + b)
    ensures PaintOps(canvas, a + b, cellW) == PaintOps(PaintOps(canvas, a, cellW), b, cellW)
    decreases |b|
  {
    if b == [] {
      assert a + b == a;
    } else {
      var n := |b| - 1;
      OpsAppend(canvas, a, b[..n], cellW);
      assert (a + b)[..|a + b| - 1] == a + b[..n];
    }
  }

  lemma {:induction false} OpsOfOneRow(canvas: Canvas, ops: seq<Run>, y: nat, cellW: nat)
    requires Drawable(ops) && y < |canvas| && forall i | 0 <= i < |ops| :: ops[i].y == y
    ensures PaintOps(canvas, ops, cellW) == canvas[y := PaintRuns(canvas[y], ops, cellW)]
    decreases |ops|
  {
    if ops != [] {
      OpsOfOneRow(canvas, ops[..|ops| - 1], y, cellW);
    }
  }

  lemma {:induction false} RunsOfRow(row: seq<Stroke>, n: nat, y: nat, cellW: nat)
    requires n <= |row|
    ensures forall i | 0 <= i < |Flush(Taken(row, n, y, cellW))| :: Flush(Taken(row, n, y, cellW))[i].y == y
  {
    if n > 0 {
      var p, q := Taken(row, n - 1, y, cellW), Taken(row, n, y, cellW);
      RunsOfRow(row, n - 1, y, cellW);
      if row[n - 1].width > 0 && p.open.Some? {
        assert Flush(p)[|p.drawn|] == p.open.value;
        assert forall i | 0 <= i < |p.drawn| :: Flush(p)[i] == p.drawn[i];
      }
    }
  }

  /** What some drawing calls leave on a canvas. */
  function CanvasOf(canvas: Canvas, ops: seq<Run>, cellW: nat): Option<Canvas> {
    if Drawable(ops) then Some(PaintOps(canvas, ops, cellW)) else None
  }

  /** The runs of one well-formed row change that row of the canvas as its cells would. */
  lemma RowPaintedAlike(canvas: Canvas, image: Canvas, before: seq<Run>, row: seq<Stroke>, y: nat, cellW: nat)
    requires CanvasOf(canvas, before, cellW) == Some(image) && y < |image| && WellFormedRow(row) && cellW > 0
    ensures CanvasOf(canvas, before + RowRuns(row, y, cellW), cellW)
            == Some(image[y := PaintCells(image[y], row, |row|, cellW)])
  {
    WellFormedInStep(row, |row|);
    RunsPaintCells(image[y], row, |row|, y, cellW);
    RunsOfRow(row, |row|, y, cellW);
    OpsAppend(canvas, before, RowRuns(row, y, cellW), cellW);
    OpsOfOneRow(image, RowRuns(row, y, cellW), y, cellW);
  }

  /** The drawing calls of a well-formed frame paint what painting every cell alone would paint. */
  lemma {:induction false} FramePaintedAlike(canvas: Canvas, f: Frame, n: nat, cellW: nat, colors: Colors)
    requires WellFormedFrame(f, colors) && n <= f.rows && |canvas| == f.rows && cellW > 0
    ensures CanvasOf(canvas, FrameRuns(f, n, cellW, colors), cellW) == Some(PaintFrame(canvas, f, n, cellW, colors))
  {
    if n > 0 {
      FramePaintedAlike(canvas, f, n - 1, cellW, colors);
      NextRowPaintedAlike(canvas, PaintFrame(canvas, f, n - 1, cellW, colors), f, n, cellW, colors);
    }
  }

  lemma NextRowPaintedAlike(canvas: Canvas, image: Canvas, f: Frame, n: nat, cellW: nat, colors: Colors)
    requires WellFormedFrame(f, colors) && 0 < n <= f.rows && |image| == f.rows && cellW > 0
    requires CanvasOf(canvas, FrameRuns(f, n - 1, cellW, colors), cellW) == Some(image)
    ensures CanvasOf(canvas, FrameRuns(f, n, cellW, colors), cellW)
            == Some(image[n - 1 := PaintCells(image[n - 1], StrokeRow(f, n - 1, colors), f.cols, cellW)])
  {
    RowsAreWellFormed(f, n - 1, colors);
    FrameRunsGrow(f, n, cellW, colors);
    RowAdded(canvas, image, FrameRuns(f, n - 1, cellW, colors), FrameRuns(f, n, cellW, colors),
             StrokeRow(f, n - 1, colors), n - 1, f.cols, cellW);
  }

  lemma RowAdded(canvas: Canvas, image: Canvas, before: seq<Run>, runs: seq<Run>, row: seq<Stroke>, y: nat, cols: nat,
                 cellW: nat)
    requires CanvasOf(canvas, before, cellW) == Some(image) && y < |image| && WellFormedRow(row) && cellW > 0
    requires runs == before + RowRuns(row, y, cellW) && |row| == cols
    ensures CanvasOf(canvas, runs, cellW) == Some(image[y := PaintCells(image[y], row, cols, cellW)])
  {
    RowPaintedAlike(canvas, image, before, row, y, cellW);
  }

  lemma RowsAreWellFormed(f: Frame, y: nat, colors: Colors)
    requires WellFormedFrame(f, colors) && y < f.rows
    ensures WellFormedRow(StrokeRow(f, y, colors)) && |StrokeRow(f, y, colors)| == f.cols
  {}

  lemma FrameRunsGrow(f: Frame, n: nat, cellW: nat, colors: Colors)
    requires ValidFrame(f) && 0 < n <= f.rows
    ensures FrameRuns(f, n, cellW, colors)
            == FrameRuns(f, n - 1, cellW, colors) + RowRuns(StrokeRow(f, n - 1, colors), n - 1, cellW)
  {}

  // ---------- what a cell shows ----------

  /** Pixel column i of the cell: its background everywhere, its glyph at its left edge. */
  function CellPixel(stroke: Stroke, x: nat, cellW: nat, i: int): Pixel {
    Pixel(stroke.style.bg,
          if i == Px(x, cellW) then Some(Glyph(stroke.unit, stroke.style.fg, stroke.style.attrs)) else None)
  }

  /** The cell at x is in the picture. */
  ghost predicate Shows(band: Band, stroke: Stroke, x: nat, cellW: nat) {
    forall i | Px(x, cellW) <= i < Px(x + stroke.width, cellW) && i < |band| :: band[i] == CellPixel(stroke, x, cellW, i)
  }

  lemma PaintedCellShows(band: Band, stroke: Stroke, x: nat, cellW: nat)
    requires stroke.width > 0 && cellW > 0
    ensures Shows(PaintCell(band, stroke, x, cellW), stroke, x, cellW)
  {
    PxAdd(x, stroke.width, cellW);
    PxPositive(stroke.width, cellW);
  }

  /** A cell further right does not cover it. */
  lemma StillShows(band: Band, stroke: Stroke, x: nat, next: Stroke, at: nat, cellW: nat)
    requires Shows(band, stroke, x, cellW) && x + stroke.width <= at && cellW > 0
    ensures Shows(PaintCell(band, next, at, cellW), stroke, x, cellW)
  {
    PxAdd(x + stroke.width, at - (x + stroke.width), cellW);
  }

  /** In a well-formed row every visible cell shows, whatever is painted after it. */
  lemma {:induction false} RowShows(band: Band, row: seq<Stroke>, n: nat, x: nat, cellW: nat)
    requires WellFormedRow(row) && x < n <= |row| && row[x].width > 0 && cellW > 0
    ensures Shows(PaintCells(band, row, n, cellW), row[x], x, cellW)
  {
    if n == x + 1 {
      PaintedCellShows(PaintCells(band, row, x, cellW), row[x], x, cellW);
    } else {
      RowShows(band, row, n - 1, x, cellW);
      if row[n - 1].width > 0 {
        assert WellFormedAt(row, x) && WellFormedAt(row, x + 1);
        StillShows(PaintCells(band, row, n - 1, cellW), row[x], x, row[n - 1], n - 1, cellW);
      }
    }
  }

  /** The two colours that a cell is stored with, as the canvas wants them. */
  function Ink(cell: Cell, colors: Colors): nat {
    ResolveColor(cell.fg, colors.defaultFg)
  }

  function Paper(cell: Cell, colors: Colors): nat {
    ResolveColor(cell.bg, colors.defaultBg)
  }

  predicate Reversed(cell: Cell) {
    cell.attrs / 0x20 % 2 != 0
  }

  /** REVERSE is the attribute 0x20. */
  lemma ReversedIff(cell: Cell, low: nat, bit: nat, high: nat)
    requires cell.attrs == low + 0x20 * bit + 0x40 * high && low < 0x20 && bit < 2
    ensures Reversed(cell) <==> bit == 1
  {
    assert cell.attrs / 0x20 == bit + 2 * high;
  }

  /** A pixel column of a cell: its paper, and at its left edge its glyph in its ink; the two exchanged if reversed. */
  predicate ShowsCell(pixel: Pixel, cell: Cell, leftEdge: bool, colors: Colors) {
    var ink, paper := Ink(cell, colors), Paper(cell, colors);
    && pixel.bg == (if Reversed(cell) then ink else paper)
    && pixel.glyph == if leftEdge then Some(Glyph(GlyphOf(cell), if Reversed(cell) then paper else ink, cell.attrs))
                      else None
  }

  /**
    After the drawing calls of a well-formed row, every visible cell is in the picture:
    its glyph at its own left edge in its ink and its paper across its own columns, the
    two exchanged if it is reversed.
   */
  lemma DrawnRowShowsCell(band: Band, cells: seq<Cell>, x: nat, y: nat, cellW: nat, colors: Colors, i: nat)
    requires WellFormedRow(Strokes(cells, colors)) && x < |cells| && cells[x].width > 0 && cellW > 0
    requires Px(x, cellW) <= i < Px(x + cells[x].width, cellW) && i < |band|
    ensures Drawable(RowRuns(Strokes(cells, colors), y, cellW))
    ensures var image := PaintRuns(band, RowRuns(Strokes(cells, colors), y, cellW), cellW);
      |image| == |band| && ShowsCell(image[i], cells[x], i == Px(x, cellW), colors)
  {
    var row := Strokes(cells, colors);
    DrawnRow(band, row, y, cellW);
    RowShowsCell(band, row, cells[x], x, cellW, colors, i);
  }

  lemma DrawnRow(band: Band, row: seq<Stroke>, y: nat, cellW: nat)
    requires WellFormedRow(row) && cellW > 0
    ensures Drawable(RowRuns(row, y, cellW))
    ensures PaintRuns(band, RowRuns(row, y, cellW), cellW) == PaintCells(band, row, |row|, cellW)
  {
    WellFormedInStep(row, |row|);
    RunsPaintCells(band, row, |row|, y, cellW);
  }

  lemma ShownCell(image: Band, cell: Cell, x: nat, cellW: nat, colors: Colors, i: nat)
    requires Shows(image, StrokeOf(cell, colors), x, cellW)
    requires Px(x, cellW) <= i < Px(x + cell.width, cellW) && i < |image|
    ensures ShowsCell(image[i], cell, i == Px(x, cellW), colors)
  {
    assert image[i] == CellPixel(StrokeOf(cell, colors), x, cellW, i);
  }

  lemma {:induction false} CellsKeepLength(band: Band, row: seq<Stroke>, n: nat, cellW: nat)
    requires n <= |row|
    ensures |PaintCells(band, row, n, cellW)| == |band|
  {
    if n > 0 {
      CellsKeepLength(band, row, n - 1, cellW);
    }
  }

  lemma {:induction false} PaintedRow(canvas: Canvas, f: Frame, n: nat, y: nat, cellW: nat, colors: Colors)
    requires ValidFrame(f) && y < n <= f.rows && |canvas| == f.rows
    ensures PaintFrame(canvas, f, n, cellW, colors)[y] == PaintCells(canvas[y], StrokeRow(f, y, colors), f.cols, cellW)
  {
    if n == y + 1 {
      UnpaintedRow(canvas, f, y, y, cellW, colors);
    } else {
      PaintedRow(canvas, f, n - 1, y, cellW, colors);
    }
  }

  lemma {:induction false} UnpaintedRow(canvas: Canvas, f: Frame, n: nat, y: nat, cellW: nat, colors: Colors)
    requires ValidFrame(f) && n <= y < f.rows && |canvas| == f.rows
    ensures PaintFrame(canvas, f, n, cellW, colors)[y] == canvas[y]
  {
    if n > 0 {
      UnpaintedRow(canvas, f, n - 1, y, cellW, colors);
    }
  }

  /**
    After the drawing calls of a well-formed frame, whatever was there before: band y
    shows, at column x, the cell that the frame has in row y and column x.
   */
  lemma DrawnFrameShowsCell(canvas: Canvas, f: Frame, x: nat, y: nat, cellW: nat, colors: Colors, i: nat)
    requires WellFormedFrame(f, colors) && |canvas| == f.rows && cellW > 0
    requires x < f.cols && y < f.rows && y * f.cols + x < |f.cells| && f.cells[y * f.cols + x].width > 0
    requires Px(x, cellW) <= i < Px(x + f.cells[y * f.cols + x].width, cellW) && i < |canvas[y]|
    ensures Drawable(FrameRuns(f, f.rows, cellW, colors))
    ensures var image := PaintOps(canvas, FrameRuns(f, f.rows, cellW, colors), cellW);
      && |image| == f.rows && |image[y]| == |canvas[y]|
      && ShowsCell(image[y][i], f.cells[y * f.cols + x], i == Px(x, cellW), colors)
  {
    StrokeOfFrame(f, x, y, colors);
    DrawnStrokeShows(canvas, f, x, y, f.cells[y * f.cols + x], cellW, colors, i);
  }

  lemma DrawnStrokeShows(canvas: Canvas, f: Frame, x: nat, y: nat, cell: Cell, cellW: nat, colors: Colors, i: nat)
    requires WellFormedFrame(f, colors) && |canvas| == f.rows && cellW > 0
    requires x < f.cols && y < f.rows && StrokeRow(f, y, colors)[x] == StrokeOf(cell, colors) && cell.width > 0
    requires Px(x, cellW) <= i < Px(x + cell.width, cellW) && i < |canvas[y]|
    ensures Drawable(FrameRuns(f, f.rows, cellW, colors))
    ensures var image := PaintOps(canvas, FrameRuns(f, f.rows, cellW, colors), cellW);
      && |image| == f.rows && |image[y]| == |canvas[y]|
      && ShowsCell(image[y][i], cell, i == Px(x, cellW), colors)
  {
    FramePaintedAlike(canvas, f, f.rows, cellW, colors);
    PaintedRow(canvas, f, f.rows, y, cellW, colors);
    RowsAreWellFormed(f, y, colors);
    RowShowsCell(canvas[y], StrokeRow(f, y, colors), cell, x, cellW, colors, i);
  }

  lemma RowShowsCell(band: Band, row: seq<Stroke>, cell: Cell, x: nat, cellW: nat, colors: Colors, i: nat)
    requires WellFormedRow(row) && x < |row| && row[x] == StrokeOf(cell, colors) && cell.width > 0 && cellW > 0
    requires Px(x, cellW) <= i < Px(x + cell.width, cellW) && i < |band|
    ensures |PaintCells(band, row, |row|, cellW)| == |band|
    ensures ShowsCell(PaintCells(band, row, |row|, cellW)[i], cell, i == Px(x, cellW), colors)
  {
    RowShows(band, row, |row|, x, cellW);
    CellsKeepLength(band, row, |row|, cellW);
    ShownCell(PaintCells(band, row, |row|, cellW), cell, x, cellW, colors, i);
  }

  lemma StrokeOfFrame(f: Frame, x: nat, y: nat, colors: Colors)
    requires ValidFrame(f) && x < f.cols && y < f.rows && y * f.cols + x < |f.cells|
    ensures StrokeRow(f, y, colors)[x] == StrokeOf(f.cells[y * f.cols + x], colors)
  {
    RowBounds(f.cols, f.rows, y);
    assert Row(f, y)[x] == f.cells[y * f.cols + x];
  }

  // ---------- repainting forgets ----------

  /** Two bands of one length agree on their first columns. */
  predicate SameUpTo(a: Band, b: Band, columns: nat) {
    |a| == |b| && forall i | 0 <= i < columns && i < |a| :: a[i] == b[i]
  }

  lemma CellForgets(a: Band, b: Band, stroke: Stroke, x: nat, cellW: nat)
    requires cellW > 0 && SameUpTo(a, b, Px(x, cellW))
    ensures |PaintCell(a, stroke, x, cellW)| == |a|
    ensures SameUpTo(PaintCell(a, stroke, x, cellW), PaintCell(b, stroke, x, cellW), Px(x + stroke.width, cellW))
  {
    PxAdd(x, stroke.width, cellW);
    if stroke.width > 0 {
      PxPositive(stroke.width, cellW);
    }
  }

  lemma {:induction false} RowForgets(a: Band, b: Band, row: seq<Stroke>, n: nat, cellW: nat)
    requires WellFormedRow(row) && n <= |row| && |a| == |b| && cellW > 0
    ensures |PaintCells(a, row, n, cellW)| == |a|
    ensures SameUpTo(PaintCells(a, row, n, cellW), PaintCells(b, row, n, cellW), Px(EndColumn(row, n), cellW))
  {
    if n > 0 {
      RowForgets(a, b, row, n - 1, cellW);
      if row[n - 1].width > 0 {
        VisibleStartsAtEnd(row, n - 1);
        CellForgets(PaintCells(a, row, n - 1, cellW), PaintCells(b, row, n - 1, cellW),
                    row[n - 1], n - 1, cellW);
      }
    }
  }

  /** A back buffer of the size of the frame. */
  predicate Sized(canvas: Canvas, f: Frame, cellW: nat) {
    |canvas| == f.rows && forall y | 0 <= y < |canvas| :: |canvas[y]| == Px(f.cols, cellW)
  }

  lemma WholeRowForgets(a: Band, b: Band, row: seq<Stroke>, cols: nat, cellW: nat)
    requires WellFormedRow(row) && cols == |row| && |a| == |b| == Px(cols, cellW) && cellW > 0
    ensures PaintCells(a, row, cols, cellW) == PaintCells(b, row, cols, cellW)
  {
    RowForgets(a, b, row, cols, cellW);
    WellFormedEnd(row, cols);
  }

  lemma {:induction false} FrameForgets(a: Canvas, b: Canvas, f: Frame, n: nat, cellW: nat, colors: Colors)
    requires WellFormedFrame(f, colors) && n <= f.rows && cellW > 0 && Sized(a, f, cellW) && Sized(b, f, cellW)
    ensures forall y | 0 <= y < n ::
              PaintFrame(a, f, n, cellW, colors)[y] == PaintFrame(b, f, n, cellW, colors)[y]
    ensures forall y | n <= y < f.rows ::
              PaintFrame(a, f, n, cellW, colors)[y] == a[y] && PaintFrame(b, f, n, cellW, colors)[y] == b[y]
  {
    if n > 0 {
      FrameForgets(a, b, f, n - 1, cellW, colors);
      RowsAreWellFormed(f, n - 1, colors);
      WholeRowForgets(a[n - 1], b[n - 1], StrokeRow(f, n - 1, colors), f.cols, cellW);
    }
  }

  /** Drawing a well-formed frame leaves the same picture whatever was there before, so frames may be skipped. */
  lemma EarlierFramesDoNotMatter(a: Canvas, b: Canvas, f: Frame, cellW: nat, colors: Colors)
    requires WellFormedFrame(f, colors) && cellW > 0 && Sized(a, f, cellW) && Sized(b, f, cellW)
    ensures Drawable(FrameRuns(f, f.rows, cellW, colors))
    ensures PaintOps(a, FrameRuns(f, f.rows, cellW, colors), cellW) == PaintOps(b, FrameRuns(f, f.rows, cellW, colors), cellW)
  {
    FramePaintedAlike(a, f, f.rows, cellW, colors);
    FramePaintedAlike(b, f, f.rows, cellW, colors);
    FrameForgets(a, b, f, f.rows, cellW, colors);
  }
}
