/** Frames and dirty rectangles (render/backend.rs), and a host that replays them. */
module Backend {
  import opened Common

  const MAX_U16 := 65535

  datatype Cell = Cell(ch: nat, fg: nat, bg: nat, attrs: nat, width: nat, hyperlinkId: nat)

  datatype Rect = Rect(x: nat, y: nat, w: nat, h: nat)

  /** What the terminal shows: a row-major grid. The terminal never has less than two columns. */
  datatype Frame = Frame(cols: nat, rows: nat, cells: seq<Cell>)

  predicate ValidFrame(f: Frame) {
    2 <= f.cols <= MAX_U16 && 1 <= f.rows <= MAX_U16 && |f.cells| == f.cols * f.rows
  }

  datatype RenderSnapshot = RenderSnapshot(frame: Frame, dirty: seq<Rect>)

  /** Equal for `cells_eq`: everything but the hyperlink. */
  predicate SameLook(a: Cell, b: Cell) {
    a.ch == b.ch && a.fg == b.fg && a.bg == b.bg && a.attrs == b.attrs && a.width == b.width
  }

  /** Cells look the same if and only if they are equal but for their hyperlinks. */
  lemma SameLookIff(a: Cell, b: Cell)
    ensures SameLook(a, b) <==> a == b.(hyperlinkId := a.hyperlinkId)
  {}

  predicate CellsEq(a: seq<Cell>, b: seq<Cell>) {
    |a| == |b| && forall i | 0 <= i < |a| :: SameLook(a[i], b[i])
  }

  // ---------- rectangles ----------

  predicate Covers(r: Rect, x: int, y: int) {
    r.x <= x < r.x + r.w && r.y <= y < r.y + r.h
  }

  predicate Covered(rects: seq<Rect>, x: int, y: int) {
    exists i | 0 <= i < |rects| :: Covers(rects[i], x, y)
  }

  /** Inside a grid addressed with u16. */
  predicate Fits(r: Rect) {
    r.y + r.h <= MAX_U16
  }

  predicate AllFit(rects: seq<Rect>) {
    forall i | 0 <= i < |rects| :: Fits(rects[i])
  }

  predicate SortedByY(rects: seq<Rect>) {
    forall i, j | 0 <= i < j < |rects| :: rects[i].y <= rects[j].y
  }

  /** Stable insertion, the specification of `sort_by_key`. */
  function Insert(r: Rect, sorted: seq<Rect>): seq<Rect> {
    if sorted == [] || r.y <= sorted[0].y then [r] + sorted else [sorted[0]] + Insert(r, sorted[1..])
  }

  function Sort(rects: seq<Rect>): seq<Rect> {
    if rects == [] then [] else Insert(rects[0], Sort(rects[1..]))
  }

  lemma {:induction false} InsertMembers(r: Rect, sorted: seq<Rect>)
    ensures multiset(Insert(r, sorted)) == multiset(sorted) + multiset{r}
    ensures |Insert(r, sorted)| == |sorted| + 1
  {
    if sorted != [] && r.y > sorted[0].y {
      InsertMembers(r, sorted[1..]);
      assert sorted == [sorted[0]] + sorted[1..];
    }
  }

  /** A list all of whose members lie at or below a line. */
  predicate Below(y: nat, rects: seq<Rect>) {
    forall i | 0 <= i < |rects| :: y <= rects[i].y
  }

  lemma {:induction false} InsertBelow(y: nat, r: Rect, sorted: seq<Rect>)
    requires Below(y, sorted) && y <= r.y
    ensures Below(y, Insert(r, sorted))
  {
    if sorted != [] && r.y > sorted[0].y {
      InsertBelow(y, r, sorted[1..]);
    }
  }

  lemma SortedCons(r: Rect, rest: seq<Rect>)
    requires Below(r.y, rest) && SortedByY(rest)
    ensures SortedByY([r] + rest)
  {}

  lemma {:induction false} InsertSorted(r: Rect, sorted: seq<Rect>)
    requires SortedByY(sorted)
    ensures SortedByY(Insert(r, sorted))
  {
    if sorted != [] && r.y > sorted[0].y {
      InsertSorted(r, sorted[1..]);
      InsertBelow(sorted[0].y, r, sorted[1..]);
      SortedCons(sorted[0], Insert(r, sorted[1..]));
    } else {
      SortedCons(r, sorted);
    }
  }

  lemma {:induction false} SortProperties(rects: seq<Rect>)
    ensures SortedByY(Sort(rects)) && multiset(Sort(rects)) == multiset(rects)
  {
    if rects != [] {
      SortProperties(rects[1..]);
      InsertSorted(rects[0], Sort(rects[1..]));
      InsertMembers(rects[0], Sort(rects[1..]));
      assert rects == [rects[0]] + rects[1..];
    }
  }

  lemma {:induction false} SortKeepsSorted(rects: seq<Rect>)
    requires SortedByY(rects)
    ensures Sort(rects) == rects
  {
    if rects != [] {
      SortKeepsSorted(rects[1..]);
    }
  }

  /** One turn of the merging loop. */
  function Merge(out: seq<Rect>, r: Rect): seq<Rect> {
    if out != [] && out[|out| - 1].x == r.x && out[|out| - 1].w == r.w
       && out[|out| - 1].y + out[|out| - 1].h == r.y
    then out[..|out| - 1] + [out[|out| - 1].(h := out[|out| - 1].h + r.h)]
    else out + [r]
  }

  function Merged(rects: seq<Rect>): seq<Rect> {
    if rects == [] then [] else Merge(Merged(rects[..|rects| - 1]), rects[|rects| - 1])
  }

  function Coalesced(rects: seq<Rect>): seq<Rect> {
    Merged(Sort(rects))
  }

  lemma MergeFits(out: seq<Rect>, r: Rect)
    requires AllFit(out) && Fits(r)
    ensures AllFit(Merge(out, r))
  {}

  lemma MergedNext(rects: seq<Rect>, i: nat)
    requires i < |rects|
    ensures Merged(rects[..i + 1]) == Merge(Merged(rects[..i]), rects[i])
  {
    assert rects[..i + 1][..i] == rects[..i];
  }

  lemma SortFits(rects: seq<Rect>)
    requires AllFit(rects)
    ensures AllFit(Sort(rects))
  {
    SortProperties(rects);
    forall i | 0 <= i < |Sort(rects)|
      ensures Fits(Sort(rects)[i])
    {
      assert Sort(rects)[i] in multiset(Sort(rects));
      assert Sort(rects)[i] in rects;
    }
  }

  /** The in-place loop. Every sum it forms stays within u16. */
  method Coalesce(rects: seq<Rect>) returns (out: seq<Rect>)
    requires AllFit(rects)
    ensures out == Coalesced(rects)
  {
    var sorted := Sort(rects);
    SortFits(rects);
    out := [];
    for i := 0 to |sorted|
      invariant out == Merged(sorted[..i]) && AllFit(out)
    {
      MergedNext(sorted, i);
      MergeFits(out, sorted[i]);
      out := MergeInto(out, sorted[i]);
    }
    assert sorted[..|sorted|] == sorted;
  }

  /** The body of that loop. */
  method MergeInto(out: seq<Rect>, r: Rect) returns (out': seq<Rect>)
    requires AllFit(out) && Fits(r)
    ensures out' == Merge(out, r)
  {
    if out != [] {
      var last := out[|out| - 1];
      if last.x == r.x && last.w == r.w {
        assert last.y + last.h <= MAX_U16;
        if last.y + last.h == r.y {
          assert last.h + r.h <= MAX_U16;
          return out[..|out| - 1] + [last.(h := last.h + r.h)];
        }
      }
    }
    return out + [r];
  }

  lemma MergeCovers(out: seq<Rect>, r: Rect, x: int, y: int)
    ensures Covered(Merge(out, r), x, y) <==> Covered(out, x, y) || Covers(r, x, y)
  {
    var merged := Merge(out, r);
    var n := |out| - 1;
    if |merged| == |out| {
      assert merged[..n] == out[..n];
      assert Covers(merged[n], x, y) <==> Covers(out[n], x, y) || Covers(r, x, y);
      assert forall i | 0 <= i < n :: merged[i] == out[i];
    } else {
      assert merged[|out|] == r;
      assert forall i | 0 <= i < |out| :: merged[i] == out[i];
    }
  }

  lemma {:induction false} MergedCovers(rects: seq<Rect>, x: int, y: int)
    ensures Covered(Merged(rects), x, y) <==> Covered(rects, x, y)
    ensures |Merged(rects)| <= |rects|
  {
    if rects != [] {
      var n := |rects| - 1;
      MergedCovers(rects[..n], x, y);
      MergeCovers(Merged(rects[..n]), rects[n], x, y);
      assert Covered(rects, x, y) <==> Covered(rects[..n], x, y) || Covers(rects[n], x, y) by {
        if Covered(rects, x, y) {
          var i :| 0 <= i < |rects| && Covers(rects[i], x, y);
          assert i < n ==> rects[..n][i] == rects[i];
        }
        if Covered(rects[..n], x, y) {
          var i :| 0 <= i < n && Covers(rects[..n][i], x, y);
          assert Covers(rects[i], x, y);
        }
      }
    }
  }

  lemma SameMembersCover(a: seq<Rect>, b: seq<Rect>, x: int, y: int)
    requires multiset(a) == multiset(b)
    ensures Covered(a, x, y) <==> Covered(b, x, y)
  {
    if Covered(a, x, y) {
      var i :| 0 <= i < |a| && Covers(a[i], x, y);
      assert a[i] in multiset(b);
      var j :| 0 <= j < |b| && b[j] == a[i];
    }
    if Covered(b, x, y) {
      var i :| 0 <= i < |b| && Covers(b[i], x, y);
      assert b[i] in multiset(a);
      var j :| 0 <= j < |a| && a[j] == b[i];
    }
  }

  /** For any rectangles, coalescing covers the same cells with no more rectangles. */
  lemma CoalescePreservesCover(rects: seq<Rect>)
    ensures forall x, y :: Covered(Coalesced(rects), x, y) <==> Covered(rects, x, y)
    ensures |Coalesced(rects)| <= |rects|
  {
    SortProperties(rects);
    assert |multiset(Sort(rects))| == |multiset(rects)|;
    MergedCovers(Sort(rects), 0, 0);
    forall x, y
      ensures Covered(Coalesced(rects), x, y) <==> Covered(rects, x, y)
    {
      MergedCovers(Sort(rects), x, y);
      SameMembersCover(Sort(rects), rects, x, y);
    }
  }

  // ---------- bands ----------

  /** Full-width, non-empty. */
  predicate Band(r: Rect, cols: nat) {
    r.x == 0 && r.w == cols && r.h >= 1
  }

  predicate Bands(rects: seq<Rect>, cols: nat) {
    forall i | 0 <= i < |rects| :: Band(rects[i], cols)
  }

  predicate InRect(r: Rect, y: int) {
    r.y <= y < r.y + r.h
  }

  predicate RowIn(rects: seq<Rect>, y: int) {
    exists i | 0 <= i < |rects| :: InRect(rects[i], y)
  }

  /** Sorted, disjoint, and with a clean row between any two bands. */
  predicate Separated(rects: seq<Rect>) {
    forall i, j | 0 <= i < j < |rects| :: rects[i].y + rects[i].h < rects[j].y
  }

  predicate StrictRows(rects: seq<Rect>) {
    forall i, j | 0 <= i < j < |rects| :: rects[i].y + rects[i].h <= rects[j].y
  }

  lemma MergeKeepsSeparated(out: seq<Rect>, r: Rect, cols: nat)
    requires Bands(out, cols) && Separated(out) && Band(r, cols)
    requires out != [] ==> Bottom(out) <= r.y
    ensures Bands(Merge(out, r), cols) && Separated(Merge(out, r))
    ensures Merge(out, r) != [] && Bottom(Merge(out, r)) == r.y + r.h
  {
    var merged := Merge(out, r);
    var n := |out| - 1;
    forall i, j | 0 <= i < j < |merged|
      ensures merged[i].y + merged[i].h < merged[j].y
    {
      assert merged[i] == out[i];
      if j <= n {
        assert merged[j].y == out[j].y;
      } else {
        assert merged[j] == r;
        assert i < n ==> out[i].y + out[i].h < out[n].y;
      }
    }
  }

  lemma {:induction false} MergedIsCanonical(rects: seq<Rect>, cols: nat)
    requires Bands(rects, cols) && StrictRows(rects)
    ensures Bands(Merged(rects), cols) && Separated(Merged(rects))
    ensures rects != [] ==> Merged(rects) != [] && Bottom(Merged(rects)) == Bottom(rects)
    ensures rects == [] ==> Merged(rects) == []
  {
    if rects != [] {
      var n := |rects| - 1;
      MergedIsCanonical(rects[..n], cols);
      if n > 0 {
        assert rects[..n][n - 1] == rects[n - 1];
      }
      MergeKeepsSeparated(Merged(rects[..n]), rects[n], cols);
    }
  }

  function Bottom(rects: seq<Rect>): int
    requires rects != []
  {
    rects[|rects| - 1].y + rects[|rects| - 1].h
  }

  /** The band of a list that contains a row. */
  function Home(rects: seq<Rect>, y: int): (i: nat)
    requires RowIn(rects, y)
    ensures i < |rects| && InRect(rects[i], y)
  {
    if InRect(rects[0], y) then 0
    else
      assert RowIn(rects[1..], y) by {
        var k :| 0 <= k < |rects| && InRect(rects[k], y);
        assert rects[1..][k - 1] == rects[k];
      }
      1 + Home(rects[1..], y)
  }

  /** The row below a band is clean. */
  lemma GapIsFree(bands: seq<Rect>, i: nat)
    requires Separated(bands) && i < |bands|
    ensures !RowIn(bands, bands[i].y + bands[i].h)
  {
    var gap := bands[i].y + bands[i].h;
    forall m | 0 <= m < |bands|
      ensures !InRect(bands[m], gap)
    {
      assert m < i ==> bands[m].y + bands[m].h < bands[i].y;
      assert m > i ==> gap < bands[m].y;
    }
  }

  /** Distinct bands of a separated list never share a band of another cover of the same rows. */
  lemma HomesDiffer(bands: seq<Rect>, other: seq<Rect>, i: nat, j: nat, k: nat)
    requires Separated(bands) && i < j < |bands| && k < |other|
    requires forall y :: RowIn(bands, y) <==> RowIn(other, y)
    ensures !(InRect(other[k], bands[i].y) && InRect(other[k], bands[j].y))
  {
    var gap := bands[i].y + bands[i].h;
    GapIsFree(bands, i);
    assert !RowIn(other, gap);
    assert !InRect(other[k], gap);
    assert gap < bands[j].y;
  }

  function UpTo(n: nat): (s: set<nat>)
    ensures |s| == n && forall i: nat :: i in s <==> i < n
  {
    if n == 0 then {} else UpTo(n - 1) + {n - 1}
  }

  lemma {:induction false} SubsetSize(a: set<nat>, b: set<nat>)
    requires a <= b
    ensures |a| <= |b|
  {
    if a != {} {
      var x :| x in a;
      SubsetSize(a - {x}, b - {x});
    }
  }

  /** For each band, where another cover of the same rows keeps its first row. */
  function Homes(bands: seq<Rect>, other: seq<Rect>): (homes: seq<nat>)
    requires forall i | 0 <= i < |bands| :: RowIn(other, bands[i].y)
    ensures |homes| == |bands|
    ensures forall i | 0 <= i < |bands| :: homes[i] < |other| && InRect(other[homes[i]], bands[i].y)
  {
    if bands == [] then [] else Homes(bands[..|bands| - 1], other) + [Home(other, bands[|bands| - 1].y)]
  }

  lemma {:induction false} DistinctBound(f: seq<nat>, n: nat) returns (image: set<nat>)
    requires forall i | 0 <= i < |f| :: f[i] < n
    requires forall i, j | 0 <= i < j < |f| :: f[i] != f[j]
    ensures image <= UpTo(n) && |image| == |f| && forall x :: x in image <==> x in f
  {
    if f == [] {
      image := {};
    } else {
      var last := f[|f| - 1];
      image := DistinctBound(f[..|f| - 1], n);
      assert f == f[..|f| - 1] + [last];
      image := image + {last};
    }
  }

  lemma HomesDistinct(bands: seq<Rect>, other: seq<Rect>, homes: seq<nat>)
    requires Separated(bands) && |homes| == |bands|
    requires forall y :: RowIn(bands, y) <==> RowIn(other, y)
    requires forall i | 0 <= i < |bands| :: homes[i] < |other| && InRect(other[homes[i]], bands[i].y)
    ensures forall i, j | 0 <= i < j < |homes| :: homes[i] != homes[j]
  {
    forall i, j | 0 <= i < j < |homes|
      ensures homes[i] != homes[j]
    {
      HomesDiffer(bands, other, i, j, homes[i]);
    }
  }

  lemma BandsOccupied(bands: seq<Rect>, cols: nat)
    requires Bands(bands, cols)
    ensures forall i | 0 <= i < |bands| :: RowIn(bands, bands[i].y)
  {
    forall i | 0 <= i < |bands|
      ensures RowIn(bands, bands[i].y)
    {
      assert Band(bands[i], cols) && InRect(bands[i], bands[i].y);
    }
  }

  /** A separated list of bands is a smallest cover of its rows. */
  lemma SeparatedIsSmallest(bands: seq<Rect>, other: seq<Rect>, cols: nat)
    requires Bands(bands, cols) && Separated(bands)
    requires forall y :: RowIn(bands, y) <==> RowIn(other, y)
    ensures |bands| <= |other|
  {
    BandsOccupied(bands, cols);
    var homes := Homes(bands, other);
    HomesDistinct(bands, other, homes);
    var image := DistinctBound(homes, |other|);
    SubsetSize(image, UpTo(|other|));
  }

  /** On dirty rows, coalescing yields the one smallest band cover: sorted, disjoint, no two adjacent. */
  lemma CoalesceIsCanonical(rects: seq<Rect>, cols: nat, other: seq<Rect>)
    requires cols >= 1 && Bands(rects, cols) && StrictRows(rects)
    ensures Bands(Coalesced(rects), cols) && Separated(Coalesced(rects))
    ensures forall y :: RowIn(Coalesced(rects), y) <==> RowIn(rects, y)
    ensures (forall y :: RowIn(other, y) <==> RowIn(rects, y)) ==> |Coalesced(rects)| <= |other|
  {
    SortKeepsSorted(rects);
    MergedIsCanonical(rects, cols);
    forall y
      ensures RowIn(Coalesced(rects), y) <==> RowIn(rects, y)
    {
      MergedCovers(rects, 0, y);
      RowIsCovered(Coalesced(rects), cols, y);
      RowIsCovered(rects, cols, y);
    }
    if forall y :: RowIn(other, y) <==> RowIn(rects, y) {
      SeparatedIsSmallest(Coalesced(rects), other, cols);
    }
  }

  lemma RowIsCovered(rects: seq<Rect>, cols: nat, y: int)
    requires cols >= 1 && Bands(rects, cols)
    ensures RowIn(rects, y) <==> Covered(rects, 0, y)
  {
    assert forall i | 0 <= i < |rects| ::
        InRect(rects[i], y) == Covers(rects[i], 0, y);
  }

  // ---------- snapshots ----------

  /** Rows are inside the grid. */
  lemma RowBounds(cols: nat, rows: nat, y: nat)
    requires y < rows
    ensures 0 <= y * cols <= y * cols + cols <= cols * rows
  {
    assert (y + 1) * cols <= rows * cols;
  }

  /** Splitting an index into row and column. */
  lemma IndexSplit(cols: nat, rows: nat, i: nat)
    requires cols >= 1 && i < cols * rows
    ensures 0 <= i / cols < rows && 0 <= i % cols < cols
    ensures i / cols * cols + i % cols == i
  {
    var y := i / cols;
    assert y * cols <= i;
    MulMonotone(y, rows, cols);
  }

  lemma MulMonotone(a: nat, b: nat, c: nat)
    ensures a >= b ==> a * c >= b * c
  {
    if a >= b {
      assert a * c == b * c + (a - b) * c;
    }
  }

  function Row(f: Frame, y: nat): (row: seq<Cell>)
    requires ValidFrame(f) && y < f.rows
    ensures |row| == f.cols
  {
    RowBounds(f.cols, f.rows, y);
    f.cells[y * f.cols..y * f.cols + f.cols]
  }

  predicate SameSize(a: Frame, b: Frame) {
    a.cols == b.cols && a.rows == b.rows
  }

  predicate SameRow(prev: Frame, now: Frame, y: nat)
    requires ValidFrame(prev) && ValidFrame(now) && y < now.rows && y < prev.rows
  {
    CellsEq(Row(now, y), Row(prev, y))
  }

  /** The changed rows among the first n. */
  function DirtyRows(prev: Frame, now: Frame, n: nat): seq<Rect>
    requires ValidFrame(prev) && ValidFrame(now) && SameSize(prev, now) && n <= now.rows
  {
    if n == 0 then []
    else
      DirtyRows(prev, now, n - 1) +
      if SameRow(prev, now, n - 1) then [] else [Rect(0, n - 1, now.cols, 1)]
  }

  function DirtyOf(prev: Option<Frame>, now: Frame): seq<Rect>
    requires ValidFrame(now) && (prev.Some? ==> ValidFrame(prev.value))
  {
    if prev.None? || !SameSize(prev.value, now) then [Rect(0, 0, now.cols, now.rows)]
    else Coalesced(DirtyRows(prev.value, now, now.rows))
  }

  /** One-row bands above a row, and that row. */
  lemma AppendRow(above: seq<Rect>, cols: nat, y: nat)
    requires Bands(above, cols) && StrictRows(above) && AllFit(above) && y < MAX_U16
    requires forall i | 0 <= i < |above| :: above[i].y < y && above[i].h == 1
    ensures var d := above + [Rect(0, y, cols, 1)];
      && Bands(d, cols) && StrictRows(d) && AllFit(d)
      && forall i | 0 <= i < |d| :: d[i].y < y + 1 && d[i].h == 1
  {}

  lemma {:induction false} DirtyRowsShape(prev: Frame, now: Frame, n: nat)
    requires ValidFrame(prev) && ValidFrame(now) && SameSize(prev, now) && n <= now.rows
    ensures var d := DirtyRows(prev, now, n);
      && Bands(d, now.cols) && StrictRows(d) && AllFit(d)
      && forall i | 0 <= i < |d| :: d[i].y < n && d[i].h == 1
  {
    if n > 0 {
      DirtyRowsShape(prev, now, n - 1);
      AppendRow(DirtyRows(prev, now, n - 1), now.cols, n - 1);
    }
  }

  lemma RowInAppend(a: seq<Rect>, b: seq<Rect>, y: int)
    ensures RowIn(a + b, y) <==> RowIn(a, y) || RowIn(b, y)
  {
    var both := a + b;
    if RowIn(a, y) {
      var i :| 0 <= i < |a| && InRect(a[i], y);
      assert InRect(both[i], y);
    }
    if RowIn(b, y) {
      var i :| 0 <= i < |b| && InRect(b[i], y);
      assert InRect(both[|a| + i], y);
    }
  }

  lemma {:induction false} DirtyRowsExact(prev: Frame, now: Frame, n: nat, y: nat)
    requires ValidFrame(prev) && ValidFrame(now) && SameSize(prev, now) && n <= now.rows && y < now.rows
    ensures RowIn(DirtyRows(prev, now, n), y) <==> y < n && !SameRow(prev, now, y)
  {
    if n > 0 {
      var last := if SameRow(prev, now, n - 1) then [] else [Rect(0, n - 1, now.cols, 1)];
      DirtyRowsExact(prev, now, n - 1, y);
      RowInAppend(DirtyRows(prev, now, n - 1), last, y);
      assert RowIn(last, y) <==> y == n - 1 && !SameRow(prev, now, n - 1) by {
        if last != [] && y == n - 1 {
          assert InRect(last[0], y);
        }
      }
    }
  }

  /** The row diff of `snapshot`. */
  method ChangedRows(prev: seq<Cell>, cellsNow: seq<Cell>, cols: nat, rows: nat) returns (dirty: seq<Rect>)
    requires ValidFrame(Frame(cols, rows, prev)) && ValidFrame(Frame(cols, rows, cellsNow))
    ensures dirty == DirtyRows(Frame(cols, rows, prev), Frame(cols, rows, cellsNow), rows)
  {
    dirty := [];
    for y := 0 to rows
      invariant dirty == DirtyRows(Frame(cols, rows, prev), Frame(cols, rows, cellsNow), y)
    {
      RowBounds(cols, rows, y);
      var off := y * cols;
      var newSlice := cellsNow[off..off + cols];
      var oldSlice := prev[off..off + cols];
      if !CellsEq(newSlice, oldSlice) {
        dirty := dirty + [Rect(0, y, cols, 1)];
      }
    }
  }

  class HostBackend {
    var prev: Option<seq<Cell>>
    var prevCols: nat
    var prevRows: nat
    var cellBuf: seq<Cell>

    predicate Valid()
      reads this
    {
      prev.Some? ==> ValidFrame(Frame(prevCols, prevRows, prev.value))
    }

    /** The frame of the last snapshot. */
    function Last(): Option<Frame>
      reads this
    {
      match prev
      case None => None
      case Some(cells) => Some(Frame(prevCols, prevRows, cells))
    }

    constructor ()
      ensures Valid() && Last() == None
    {
      prev, prevCols, prevRows, cellBuf := None, 0, 0, [];
    }

    /** `now` is what the terminal writes into the cell buffer. */
    method Snapshot(now: Frame) returns (snap: RenderSnapshot)
      requires Valid() && ValidFrame(now)
      modifies this
      ensures Valid() && Last() == Some(now)
      ensures snap == RenderSnapshot(now, DirtyOf(old(Last()), now))
    {
      cellBuf := now.cells;
      var cellsNow := cellBuf;
      var dirty: seq<Rect> := [];
      var sameSize := prev.Some? && prevCols == now.cols && prevRows == now.rows;
      if !sameSize {
        dirty := [Rect(0, 0, now.cols, now.rows)];
      } else {
        dirty := ChangedRows(prev.value, cellsNow, now.cols, now.rows);
        DirtyRowsShape(Frame(prevCols, prevRows, prev.value), now, now.rows);
        dirty := Coalesce(dirty);
      }
      prev := Some(cellsNow);
      prevCols := now.cols;
      prevRows := now.rows;
      snap := RenderSnapshot(now, dirty);
    }
  }

  // ---------- a host that replays dirty rectangles ----------

  /** What the host keeps, or a grid of the new size filled with anything. */
  function Canvas(copy: Option<Frame>, now: Frame, blank: Cell): seq<Cell> {
    if copy.Some? && SameSize(copy.value, now) && |copy.value.cells| == |now.cells| then copy.value.cells
    else seq(|now.cells|, _ => blank)
  }

  /** Overwrites the cells inside the dirty rectangles and nothing else. */
  function Replay(copy: Option<Frame>, snap: RenderSnapshot, blank: Cell): Frame
    requires ValidFrame(snap.frame)
  {
    var now := snap.frame;
    var base := Canvas(copy, now, blank);
    Frame(now.cols, now.rows,
          seq(|now.cells|, i requires 0 <= i < |now.cells| =>
            if Covered(snap.dirty, i % now.cols, i / now.cols) then now.cells[i] else base[i]))
  }

  predicate Looks(a: Frame, b: Frame) {
    SameSize(a, b) && CellsEq(a.cells, b.cells)
  }

  lemma BandsCoverRows(rects: seq<Rect>, cols: nat, x: nat, y: nat)
    requires Bands(rects, cols) && x < cols
    ensures Covered(rects, x, y) <==> RowIn(rects, y)
  {
    assert forall k | 0 <= k < |rects| :: InRect(rects[k], y) == Covers(rects[k], x, y);
  }

  /** Between frames of one size, a cell is repainted exactly when its row looks different. */
  lemma RepaintedIffRowChanged(prev: Frame, now: Frame, x: nat, y: nat)
    requires ValidFrame(prev) && ValidFrame(now) && SameSize(prev, now) && x < now.cols && y < now.rows
    ensures Covered(DirtyOf(Some(prev), now), x, y) <==> !SameRow(prev, now, y)
  {
    var rows := DirtyRows(prev, now, now.rows);
    CoalescePreservesCover(rows);
    DirtyRowsExact(prev, now, now.rows, y);
    DirtyRowsShape(prev, now, now.rows);
    BandsCoverRows(rows, now.cols, x, y);
  }

  lemma SameRowSameLook(prev: Frame, now: Frame, x: nat, y: nat, i: nat)
    requires ValidFrame(prev) && ValidFrame(now) && SameSize(prev, now)
    requires x < now.cols && y < now.rows && i == y * now.cols + x < |now.cells| == |prev.cells|
    ensures SameRow(prev, now, y) ==> SameLook(now.cells[i], prev.cells[i])
  {
    RowBounds(now.cols, now.rows, y);
    assert Row(now, y)[x] == now.cells[i] && Row(prev, y)[x] == prev.cells[i];
  }

  lemma ReplayCell(prev: Frame, copy: Frame, now: Frame, dirty: seq<Rect>, i: nat, blank: Cell)
    requires ValidFrame(now) && ValidFrame(prev) && Looks(copy, prev) && SameSize(prev, now)
    requires i < |now.cells|
    requires Covered(dirty, i % now.cols, i / now.cols) || SameLook(now.cells[i], prev.cells[i])
    ensures SameLook(Replay(Some(copy), RenderSnapshot(now, dirty), blank).cells[i], now.cells[i])
  {}

  lemma ReplaySameSize(prev: Frame, copy: Frame, now: Frame, i: nat, blank: Cell)
    requires ValidFrame(now) && ValidFrame(prev) && Looks(copy, prev) && SameSize(prev, now)
    requires i < |now.cells|
    ensures SameLook(Replay(Some(copy), RenderSnapshot(now, DirtyOf(Some(prev), now)), blank).cells[i], now.cells[i])
  {
    SameOrRepainted(prev, now, i);
    ReplayCell(prev, copy, now, DirtyOf(Some(prev), now), i, blank);
  }

  lemma SameOrRepaintedAt(prev: Frame, now: Frame, x: nat, y: nat, i: nat)
    requires ValidFrame(prev) && ValidFrame(now) && SameSize(prev, now)
    requires x < now.cols && y < now.rows && i == y * now.cols + x < |now.cells| == |prev.cells|
    ensures SameLook(now.cells[i], prev.cells[i]) || Covered(DirtyOf(Some(prev), now), x, y)
  {
    SameRowSameLook(prev, now, x, y, i);
    RepaintedIffRowChanged(prev, now, x, y);
  }

  lemma SameOrRepainted(prev: Frame, now: Frame, i: nat)
    requires ValidFrame(prev) && ValidFrame(now) && SameSize(prev, now) && i < |now.cells|
    ensures i < |prev.cells|
    ensures SameLook(now.cells[i], prev.cells[i]) || Covered(DirtyOf(Some(prev), now), i % now.cols, i / now.cols)
  {
    IndexSplit(now.cols, now.rows, i);
    var x: nat, y: nat := i % now.cols, i / now.cols;
    SameOrRepaintedAt(prev, now, x, y, i);
  }

  lemma ReplayStep(prev: Option<Frame>, copy: Option<Frame>, now: Frame, blank: Cell)
    requires ValidFrame(now)
    requires prev.Some? ==> ValidFrame(prev.value) && copy.Some? && Looks(copy.value, prev.value)
    ensures Looks(Replay(copy, RenderSnapshot(now, DirtyOf(prev, now)), blank), now)
  {
    var dirty := DirtyOf(prev, now);
    var host := Replay(copy, RenderSnapshot(now, dirty), blank);
    forall i | 0 <= i < |now.cells|
      ensures SameLook(host.cells[i], now.cells[i])
    {
      if prev.None? || !SameSize(prev.value, now) {
        IndexSplit(now.cols, now.rows, i);
        assert Covers(dirty[0], i % now.cols, i / now.cols);
      } else {
        ReplaySameSize(prev.value, copy.value, now, i, blank);
      }
    }
  }

  /** The host's copy after a run of snapshots. */
  function ReplayAll(prev: Option<Frame>, copy: Option<Frame>, frames: seq<Frame>, blank: Cell): Option<Frame>
    requires forall i | 0 <= i < |frames| :: ValidFrame(frames[i])
    requires prev.Some? ==> ValidFrame(prev.value)
    decreases |frames|
  {
    if frames == [] then copy
    else
      var snap := RenderSnapshot(frames[0], DirtyOf(prev, frames[0]));
      ReplayAll(Some(frames[0]), Some(Replay(copy, snap, blank)), frames[1..], blank)
  }

  /**
    Replaying only dirty rectangles keeps up with full frames: after any run of
    snapshots, with any resizes, and whatever the host held at first, its copy looks
    exactly like the last frame.
   */
  lemma {:induction false} ReplayKeepsUp(prev: Option<Frame>, copy: Option<Frame>, frames: seq<Frame>, blank: Cell)
    requires forall i | 0 <= i < |frames| :: ValidFrame(frames[i])
    requires prev.Some? ==> ValidFrame(prev.value) && copy.Some? && Looks(copy.value, prev.value)
    requires frames != []
    ensures ReplayAll(prev, copy, frames, blank).Some?
    ensures Looks(ReplayAll(prev, copy, frames, blank).value, frames[|frames| - 1])
    decreases |frames|
  {
    var snap := RenderSnapshot(frames[0], DirtyOf(prev, frames[0]));
    var copy' := Replay(copy, snap, blank);
    ReplayStep(prev, copy, frames[0], blank);
    if |frames| > 1 {
      ReplayKeepsUp(Some(frames[0]), Some(copy'), frames[1..], blank);
    } else {
      assert ReplayAll(prev, copy, frames, blank) == ReplayAll(Some(frames[0]), Some(copy'), [], blank);
    }
  }

  /**
    Hyperlinks are not compared: a snapshot reports nothing dirty exactly when all
    cells look the same, even if their hyperlinks differ.
   */
  lemma NothingDirtyIff(prev: Frame, now: Frame)
    requires ValidFrame(prev) && ValidFrame(now) && SameSize(prev, now)
    ensures DirtyOf(Some(prev), now) == [] <==> CellsEq(prev.cells, now.cells)
  {
    if CellsEq(prev.cells, now.cells) {
      NoDirtyRows(prev, now, now.rows);
    } else {
      var i :| 0 <= i < |now.cells| && !SameLook(prev.cells[i], now.cells[i]);
      SameOrRepainted(prev, now, i);
    }
  }

  lemma {:induction false} NoDirtyRows(prev: Frame, now: Frame, n: nat)
    requires ValidFrame(prev) && ValidFrame(now) && SameSize(prev, now) && n <= now.rows
    requires CellsEq(prev.cells, now.cells)
    ensures DirtyRows(prev, now, n) == []
  {
    if n > 0 {
      RowBounds(now.cols, now.rows, n - 1);
      NoDirtyRows(prev, now, n - 1);
    }
  }

  lemma ReplayedCell(prev: Frame, copy: Frame, now: Frame, blank: Cell, x: nat, y: nat)
    requires ValidFrame(prev) && ValidFrame(now) && ValidFrame(copy) && SameSize(prev, now) && Looks(copy, prev)
    requires x < now.cols && y < now.rows
    ensures var host := Replay(Some(copy), RenderSnapshot(now, DirtyOf(Some(prev), now)), blank);
      ValidFrame(host) && Row(host, y)[x] == if SameRow(prev, now, y) then Row(copy, y)[x] else Row(now, y)[x]
  {
    RowBounds(now.cols, now.rows, y);
    IndexJoined(now.cols, x, y);
    RepaintedIffRowChanged(prev, now, x, y);
  }

  lemma IndexJoined(cols: nat, x: nat, y: nat)
    requires x < cols
    ensures (y * cols + x) / cols == y && (y * cols + x) % cols == x
  {
    var i := y * cols + x;
    assert i == i / cols * cols + i % cols;
    MulMonotone(i / cols, y + 1, cols);
    MulMonotone(y, i / cols + 1, cols);
  }

  lemma ReplayedRow(prev: Frame, copy: Frame, now: Frame, blank: Cell, y: nat)
    requires ValidFrame(prev) && ValidFrame(now) && ValidFrame(copy) && SameSize(prev, now) && Looks(copy, prev)
    requires y < now.rows
    ensures var host := Replay(Some(copy), RenderSnapshot(now, DirtyOf(Some(prev), now)), blank);
      ValidFrame(host) && SameSize(host, now)
      && Row(host, y) == if SameRow(prev, now, y) then Row(copy, y) else Row(now, y)
  {
    forall x | 0 <= x < now.cols
      ensures var host := Replay(Some(copy), RenderSnapshot(now, DirtyOf(Some(prev), now)), blank);
        Row(host, y)[x] == if SameRow(prev, now, y) then Row(copy, y)[x] else Row(now, y)[x]
    {
      ReplayedCell(prev, copy, now, blank, x, y);
    }
  }

  lemma SameRowsSameFrame(a: Frame, b: Frame)
    requires ValidFrame(a) && ValidFrame(b) && SameSize(a, b)
    requires forall y | 0 <= y < a.rows :: Row(a, y) == Row(b, y)
    ensures a == b
  {
    forall i | 0 <= i < |a.cells|
      ensures a.cells[i] == b.cells[i]
    {
      IndexSplit(a.cols, a.rows, i);
      var x: nat, y: nat := i % a.cols, i / a.cols;
      RowBounds(a.cols, a.rows, y);
      assert Row(a, y)[x] == Row(b, y)[x];
    }
  }

  /** The host's copy has the current row wherever the snapshot has no dirty one. */
  ghost predicate CleanRowsCurrent(prev: Frame, copy: Frame, now: Frame)
    requires ValidFrame(prev) && ValidFrame(now) && ValidFrame(copy) && SameSize(prev, now) && SameSize(copy, now)
  {
    forall y | 0 <= y < now.rows && SameRow(prev, now, y) :: Row(copy, y) == Row(now, y)
  }

  /**
    The exact condition, hyperlinks and all: a host whose copy looks like the previous
    frame ends up with exactly the current one if and only if every row that looks
    unchanged is in its copy as it is now.
   */
  lemma ReplayExactIff(prev: Frame, copy: Frame, now: Frame, blank: Cell)
    requires ValidFrame(prev) && ValidFrame(now) && ValidFrame(copy) && SameSize(prev, now) && Looks(copy, prev)
    ensures Replay(Some(copy), RenderSnapshot(now, DirtyOf(Some(prev), now)), blank) == now
            <==> CleanRowsCurrent(prev, copy, now)
  {
    var host := Replay(Some(copy), RenderSnapshot(now, DirtyOf(Some(prev), now)), blank);
    forall y | 0 <= y < now.rows
      ensures ValidFrame(host) && SameSize(host, now)
      ensures Row(host, y) == if SameRow(prev, now, y) then Row(copy, y) else Row(now, y)
    {
      ReplayedRow(prev, copy, now, blank, y);
    }
    ReplayedRow(prev, copy, now, blank, 0);
    if CleanRowsCurrent(prev, copy, now) {
      SameRowsSameFrame(host, now);
    }
  }

  /** The first snapshot, and every one after a change of size, delivers the frame exactly. */
  lemma ReplayFresh(prev: Option<Frame>, copy: Option<Frame>, now: Frame, blank: Cell)
    requires ValidFrame(now) && (prev.Some? ==> ValidFrame(prev.value) && !SameSize(prev.value, now))
    ensures Replay(copy, RenderSnapshot(now, DirtyOf(prev, now)), blank) == now
  {
    forall i | 0 <= i < |now.cells|
      ensures Covered(DirtyOf(prev, now), i % now.cols, i / now.cols)
    {
      IndexSplit(now.cols, now.rows, i);
      assert Covers(DirtyOf(prev, now)[0], i % now.cols, i / now.cols);
    }
  }

  // ---------- hyperlinks over a whole run ----------

  predicate AllValid(frames: seq<Frame>) {
    forall i | 0 <= i < |frames| :: ValidFrame(frames[i])
  }

  /** The snapshot that last reported row y of the last frame: its look changed then, or everything was new. */
  function LastReported(frames: seq<Frame>, y: nat): (k: nat)
    requires AllValid(frames) && frames != [] && y < frames[|frames| - 1].rows
    ensures k < |frames| && SameSize(frames[k], frames[|frames| - 1])
    decreases |frames|
  {
    var n := |frames| - 1;
    if n == 0 || !SameSize(frames[n - 1], frames[n]) || !SameRow(frames[n - 1], frames[n], y) then n
    else LastReported(frames[..n], y)
  }

  /** The row as that snapshot delivered it. */
  function RowAsReported(frames: seq<Frame>, y: nat): seq<Cell>
    requires AllValid(frames) && frames != [] && y < frames[|frames| - 1].rows
  {
    Row(frames[LastReported(frames, y)], y)
  }

  lemma {:induction false} ReplayOneMore(prev: Option<Frame>, copy: Option<Frame>, frames: seq<Frame>, now: Frame,
                                         blank: Cell)
    requires AllValid(frames) && ValidFrame(now) && AllValid(frames + [now]) && (prev.Some? ==> ValidFrame(prev.value))
    ensures var last := if frames == [] then prev else Some(frames[|frames| - 1]);
      ReplayAll(prev, copy, frames + [now], blank)
      == Some(Replay(ReplayAll(prev, copy, frames, blank), RenderSnapshot(now, DirtyOf(last, now)), blank))
    decreases |frames|
  {
    var all := frames + [now];
    if frames == [] {
      assert all[1..] == [];
    } else {
      var snap := RenderSnapshot(frames[0], DirtyOf(prev, frames[0]));
      assert all[1..] == frames[1..] + [now];
      ReplayOneMore(Some(frames[0]), Some(Replay(copy, snap, blank)), frames[1..], now, blank);
    }
  }

  /** The host holds every row as it was last reported. */
  ghost predicate HoldsReported(host: Frame, frames: seq<Frame>)
    requires AllValid(frames) && frames != []
  {
    && ValidFrame(host) && SameSize(host, frames[|frames| - 1])
    && forall y | 0 <= y < host.rows :: Row(host, y) == RowAsReported(frames, y)
  }

  lemma NextHoldsReported(host: Frame, before: seq<Frame>, now: Frame, blank: Cell)
    requires AllValid(before) && before != [] && ValidFrame(now) && AllValid(before + [now])
    requires HoldsReported(host, before) && Looks(host, before[|before| - 1])
    ensures HoldsReported(Replay(Some(host), RenderSnapshot(now, DirtyOf(Some(before[|before| - 1]), now)), blank),
                          before + [now])
  {
    var prev, frames := before[|before| - 1], before + [now];
    var next := Replay(Some(host), RenderSnapshot(now, DirtyOf(Some(prev), now)), blank);
    assert frames[..|before|] == before && frames[|before| - 1] == prev;
    if SameSize(prev, now) {
      ReplayedRow(prev, host, now, blank, 0);
      forall y | 0 <= y < now.rows
        ensures Row(next, y) == RowAsReported(frames, y)
      {
        ReplayedRow(prev, host, now, blank, y);
        assert SameRow(prev, now, y) ==> LastReported(frames, y) == LastReported(before, y);
      }
    } else {
      ReplayFresh(Some(prev), Some(host), now, blank);
      assert forall y | 0 <= y < now.rows :: LastReported(frames, y) == |before|;
    }
  }

  /** Whatever the host held before the first snapshot. */
  lemma {:induction false} HostHoldsReported(copy: Option<Frame>, frames: seq<Frame>, blank: Cell)
    requires AllValid(frames) && frames != []
    ensures ReplayAll(None, copy, frames, blank).Some?
    ensures HoldsReported(ReplayAll(None, copy, frames, blank).value, frames)
    decreases |frames|
  {
    var n := |frames| - 1;
    var before, now := frames[..n], frames[n];
    assert frames == before + [now];
    ReplayOneMore(None, copy, before, now, blank);
    if n == 0 {
      ReplayFresh(None, copy, now, blank);
      assert forall y | 0 <= y < now.rows :: LastReported(frames, y) == 0;
    } else {
      HostHoldsReported(copy, before, blank);
      ReplayKeepsUp(None, copy, before, blank);
      NextHoldsReported(ReplayAll(None, copy, before, blank).value, before, now, blank);
    }
  }

  /**
    Over any run of snapshots from the first one on, with any resizes: the host holds
    every row as it was when it was last reported, hyperlinks included, and so its
    copy is exactly the last frame if and only if no row has changed since then.
   */
  lemma ReplayAllExactIff(copy: Option<Frame>, frames: seq<Frame>, blank: Cell)
    requires AllValid(frames) && frames != []
    ensures var host, last := ReplayAll(None, copy, frames, blank), frames[|frames| - 1];
      && host.Some? && HoldsReported(host.value, frames)
      && (host == Some(last) <==> forall y | 0 <= y < last.rows :: RowAsReported(frames, y) == Row(last, y))
  {
    var last := frames[|frames| - 1];
    HostHoldsReported(copy, frames, blank);
    if forall y | 0 <= y < last.rows :: RowAsReported(frames, y) == Row(last, y) {
      SameRowsSameFrame(ReplayAll(None, copy, frames, blank).value, last);
    }
  }

  /** A link that appears under unchanged text does not reach a replaying host. */
  lemma HyperlinkGoesStale()
    ensures var plain := Cell(65, 0, 0, 0, 1, 0);
      var first := Frame(2, 1, [plain, plain]);
      var second := Frame(2, 1, [plain.(hyperlinkId := 7), plain]);
      ReplayAll(None, None, [first, second], plain) == Some(first)
  {
    var plain := Cell(65, 0, 0, 0, 1, 0);
    var first := Frame(2, 1, [plain, plain]);
    var second := Frame(2, 1, [plain.(hyperlinkId := 7), plain]);
    NothingDirtyIff(first, second);
    ReplayFresh(None, None, first, plain);
    assert Replay(Some(first), RenderSnapshot(second, []), plain).cells == first.cells;
    assert [first, second][1..] == [second] && [second][1..] == [];
    assert ReplayAll(None, None, [first, second], plain) == ReplayAll(Some(first), Some(first), [second], plain)
        == ReplayAll(Some(second), Some(first), [], plain);
  }
}
