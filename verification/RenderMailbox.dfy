/**
  The one-place mailbox between the session's threads and the window
  (SCShell.Ctrl.pas): an event is packed into one byte buffer together with its
  cells and rectangles, and read back by the window thread.
 */
module RenderMailbox {
  import opened Common
  import opened Backend
  import opened Painter

  /** Sizes of TRataRenderEvent (with 8-byte pointers), TRataCell and TRataRect. */
  const HEADER := 56
  const CELL := 20
  const RECT := 8

  // ---------- memory images ----------

  /** Little-endian, n bytes. */
  function Le(v: nat, n: nat): (bytes: seq<Byte>)
    ensures |bytes| == n
  {
    if n == 0 then [] else [v % 256] + Le(v / 256, n - 1)
  }

  function FromLe(bytes: seq<Byte>): nat {
    if bytes == [] then 0 else bytes[0] + 256 * FromLe(bytes[1..])
  }

  function Limit(n: nat): nat {
    if n == 0 then 1 else 256 * Limit(n - 1)
  }

  lemma {:induction false} LeRoundTrip(v: nat, n: nat)
    requires v < Limit(n)
    ensures FromLe(Le(v, n)) == v
  {
    if n > 0 {
      LeRoundTrip(v / 256, n - 1);
      assert Le(v, n)[1..] == Le(v / 256, n - 1);
    }
  }

  predicate CellFits(c: Cell) {
    c.ch < Limit(4) && c.fg < Limit(4) && c.bg < Limit(4) && c.attrs < Limit(2) && c.width < Limit(1)
    && c.hyperlinkId < Limit(4)
  }

  predicate RectFits(r: Rect) {
    r.x < Limit(2) && r.y < Limit(2) && r.w < Limit(2) && r.h < Limit(2)
  }

  function CellImage(c: Cell): (image: seq<Byte>)
    ensures |image| == CELL
  {
    Le(c.ch, 4) + Le(c.fg, 4) + Le(c.bg, 4) + Le(c.attrs, 2) + Le(c.width, 1) + [0] + Le(c.hyperlinkId, 4)
  }

  function ReadCell(image: seq<Byte>): Cell
    requires |image| == CELL
  {
    Cell(FromLe(image[..4]), FromLe(image[4..8]), FromLe(image[8..12]),
         FromLe(image[12..14]), FromLe(image[14..15]), FromLe(image[16..20]))
  }

  function RectImage(r: Rect): (image: seq<Byte>)
    ensures |image| == RECT
  {
    Le(r.x, 2) + Le(r.y, 2) + Le(r.w, 2) + Le(r.h, 2)
  }

  function ReadRect(image: seq<Byte>): Rect
    requires |image| == RECT
  {
    Rect(FromLe(image[..2]), FromLe(image[2..4]), FromLe(image[4..6]), FromLe(image[6..8]))
  }

  lemma CellRoundTrip(c: Cell)
    requires CellFits(c)
    ensures ReadCell(CellImage(c)) == c
  {
    var image := CellImage(c);
    assert image[..4] == Le(c.ch, 4) && image[4..8] == Le(c.fg, 4) && image[8..12] == Le(c.bg, 4);
    assert image[12..14] == Le(c.attrs, 2) && image[14..15] == Le(c.width, 1) && image[16..20] == Le(c.hyperlinkId, 4);
    LeRoundTrip(c.ch, 4);
    LeRoundTrip(c.fg, 4);
    LeRoundTrip(c.bg, 4);
    LeRoundTrip(c.attrs, 2);
    LeRoundTrip(c.width, 1);
    LeRoundTrip(c.hyperlinkId, 4);
  }

  lemma RectRoundTrip(r: Rect)
    requires RectFits(r)
    ensures ReadRect(RectImage(r)) == r
  {
    var image := RectImage(r);
    assert image == Le(r.x, 2) + (Le(r.y, 2) + (Le(r.w, 2) + Le(r.h, 2)));
    assert image[..2] == Le(r.x, 2) && image[2..4] == Le(r.y, 2);
    assert image[4..6] == Le(r.w, 2) && image[6..8] == Le(r.h, 2);
    LeRoundTrip(r.x, 2);
    LeRoundTrip(r.y, 2);
    LeRoundTrip(r.w, 2);
    LeRoundTrip(r.h, 2);
  }

  function CellsImage(cells: seq<Cell>): (image: seq<Byte>)
    ensures |image| == CELL * |cells|
  {
    if cells == [] then [] else CellImage(cells[0]) + CellsImage(cells[1..])
  }

  function ReadCells(image: seq<Byte>, n: nat): (cells: seq<Cell>)
    requires |image| == CELL * n
    ensures |cells| == n
  {
    if n == 0 then [] else [ReadCell(image[..CELL])] + ReadCells(image[CELL..], n - 1)
  }

  function RectsImage(rects: seq<Rect>): (image: seq<Byte>)
    ensures |image| == RECT * |rects|
  {
    if rects == [] then [] else RectImage(rects[0]) + RectsImage(rects[1..])
  }

  function ReadRects(image: seq<Byte>, n: nat): (rects: seq<Rect>)
    requires |image| == RECT * n
    ensures |rects| == n
  {
    if n == 0 then [] else [ReadRect(image[..RECT])] + ReadRects(image[RECT..], n - 1)
  }

  lemma {:induction false} CellsRoundTrip(cells: seq<Cell>)
    requires forall i | 0 <= i < |cells| :: CellFits(cells[i])
    ensures ReadCells(CellsImage(cells), |cells|) == cells
  {
    if cells != [] {
      CellRoundTrip(cells[0]);
      CellsRoundTrip(cells[1..]);
      assert CellsImage(cells)[..CELL] == CellImage(cells[0]);
      assert CellsImage(cells)[CELL..] == CellsImage(cells[1..]);
    }
  }

  lemma {:induction false} RectsRoundTrip(rects: seq<Rect>)
    requires forall i | 0 <= i < |rects| :: RectFits(rects[i])
    ensures ReadRects(RectsImage(rects), |rects|) == rects
  {
    if rects != [] {
      RectRoundTrip(rects[0]);
      RectsRoundTrip(rects[1..]);
      assert RectsImage(rects)[..RECT] == RectImage(rects[0]);
      assert RectsImage(rects)[RECT..] == RectsImage(rects[1..]);
    }
  }

  // ---------- events ----------

  /** The fields of TRataRenderEvent other than its two pointers. */
  datatype Header = Header(cols: nat, rows: nat, cursorX: nat, cursorY: nat, cursorStyle: nat,
                           cellsLen: nat, dirtyCount: nat)

  /** An event together with the memory its pointers lead to. */
  datatype Event = Event(header: Header, cells: seq<Cell>, rects: seq<Rect>)

  /** What the session hands to the render callback. */
  predicate ValidEvent(ev: Event) {
    && ev.header.cellsLen == |ev.cells| && ev.header.dirtyCount == |ev.rects|
    && ValidFrame(FrameOf(ev))
    && (forall i | 0 <= i < |ev.cells| :: CellFits(ev.cells[i]))
    && (forall i | 0 <= i < |ev.rects| :: RectFits(ev.rects[i]))
  }

  function FrameOf(ev: Event): Frame {
    Frame(ev.header.cols, ev.header.rows, ev.cells)
  }

  function RectsStart(h: Header): nat {
    HEADER + h.cellsLen * CELL
  }

  function Total(h: Header): nat {
    RectsStart(h) + h.dirtyCount * RECT
  }

  /** What the two adjusted pointers lead to inside a packed buffer. */
  function Unpack(h: Header, buf: seq<Byte>): Event
    requires |buf| == Total(h)
  {
    Event(h, ReadCells(buf[HEADER..RectsStart(h)], h.cellsLen), ReadRects(buf[RectsStart(h)..], h.dirtyCount))
  }

  lemma UnpackPacked(ev: Event, buf: seq<Byte>)
    requires ValidEvent(ev) && |buf| == Total(ev.header)
    requires buf[HEADER..RectsStart(ev.header)] == CellsImage(ev.cells)
    requires buf[RectsStart(ev.header)..] == RectsImage(ev.rects)
    ensures Unpack(ev.header, buf) == ev
  {
    CellsRoundTrip(ev.cells);
    RectsRoundTrip(ev.rects);
  }

  /** The run-time library's Move. */
  method Move(src: seq<Byte>, dest: array<Byte>, at: nat)
    requires at + |src| <= dest.Length
    modifies dest
    ensures dest[at..at + |src|] == src
    ensures dest[..at] == old(dest[..at]) && dest[at + |src|..] == old(dest[at + |src|..])
  {
    for i := 0 to |src|
      invariant dest[at..at + i] == src[..i]
      invariant dest[..at] == old(dest[..at]) && dest[at + i..] == old(dest[at + i..])
    {
      dest[at + i] := src[i];
    }
  }

  /** The part of the control that receives frames. */
  class FrameMailbox {
    const painter: TRataPainter
    var pendingBuf: array?<Byte>
    var pendingEvent: Option<Header>
    var lastCursorX: nat
    var lastCursorY: nat
    var lastCursorStyle: nat
    var lastCols: nat
    var lastRows: nat
    var lastCells: seq<Cell>

    ghost predicate Valid()
      reads this, pendingBuf
    {
      pendingEvent.Some? ==>
        pendingBuf != null && pendingBuf.Length == Total(pendingEvent.value) && ValidEvent(Packed())
    }

    ghost function Packed(): Event
      requires pendingEvent.Some? && pendingBuf != null && pendingBuf.Length == Total(pendingEvent.value)
      reads this, pendingBuf
    {
      Unpack(pendingEvent.value, pendingBuf[..])
    }

    /** The event waiting in the mailbox. */
    ghost function Pending(): Option<Event>
      requires Valid()
      reads this, pendingBuf
    {
      if pendingEvent.Some? then Some(Packed()) else None
    }

    constructor (painter: TRataPainter)
      ensures Valid() && Pending() == None && this.painter == painter && lastCells == []
    {
      this.painter := painter;
      pendingBuf, pendingEvent := null, None;
      lastCursorX, lastCursorY, lastCursorStyle, lastCols, lastRows := 0, 0, 0, 0, 0;
      lastCells := [];
    }

    /** The new event replaces whatever was waiting; the copy is complete before it is swapped in. */
    method StoreRenderEvent(ev: Event)
      requires Valid() && ValidEvent(ev)
      modifies this`pendingBuf, this`pendingEvent
      ensures Valid() && Pending() == Some(ev) && fresh(pendingBuf)
    {
      var buf := new Byte[Total(ev.header)];
      Move(CellsImage(ev.cells), buf, HEADER);
      ghost var cellsPart := buf[..RectsStart(ev.header)];
      Move(RectsImage(ev.rects), buf, RectsStart(ev.header));
      assert buf[..RectsStart(ev.header)] == cellsPart;
      assert buf[HEADER..RectsStart(ev.header)] == cellsPart[HEADER..] == CellsImage(ev.cells);
      assert buf[RectsStart(ev.header)..] == RectsImage(ev.rects);
      UnpackPacked(ev, buf[..]);
      pendingBuf, pendingEvent := buf, Some(ev.header);
    }

    /** Takes the waiting event out, leaving the mailbox empty. */
    method ConsumePendingEvent() returns (header: Option<Header>, buf: array?<Byte>)
      requires Valid()
      modifies this`pendingBuf, this`pendingEvent
      ensures Valid() && Pending() == None
      ensures header.Some? == old(Pending()).Some?
      ensures header.None? ==> unchanged(this)
      ensures header.Some? ==> buf == old(pendingBuf) && buf != null && buf.Length == Total(header.value)
                               && Unpack(header.value, buf[..]) == old(Pending()).value
    {
      header, buf := None, null;
      if pendingEvent.Some? {
        header, buf := pendingEvent, pendingBuf;
        pendingEvent, pendingBuf := None, null;
      }
    }

    /** Draws the waiting event, if any, and remembers its cursor, size and cells. */
    method HandleRenderMessage()
      requires Valid()
      modifies this, painter
      ensures Valid() && Pending() == None
      ensures old(Pending()).None? ==> unchanged(this) && unchanged(painter)
      ensures old(Pending()).Some? ==>
                var ev := old(Pending()).value;
                && lastCells == ev.cells && lastCols == ev.header.cols && lastRows == ev.header.rows
                && lastCursorX == ev.header.cursorX && lastCursorY == ev.header.cursorY
                && lastCursorStyle == ev.header.cursorStyle
                && painter.cellW == old(painter.cellW) && painter.colors == old(painter.colors)
                && painter.canvas == (if old(painter.Keeps(FrameOf(Pending().value))) then old(painter.canvas) else [])
                                     + FrameRuns(FrameOf(ev), ev.header.rows, painter.cellW, painter.colors)
    {
      var header, buf := ConsumePendingEvent();
      if header.None? {
        return;
      }
      var h := header.value;
      if h.cursorStyle != lastCursorStyle {
        lastCursorStyle := h.cursorStyle;
      }
      var cells := ReadCells(buf[HEADER..RectsStart(h)], h.cellsLen);
      painter.DrawEvent(Frame(h.cols, h.rows, cells));
      lastCursorX, lastCursorY := h.cursorX, h.cursorY;
      lastCols, lastRows := h.cols, h.rows;
      lastCells := if h.cellsLen > 0 then cells else [];
    }
  }
}
