/** The scroll bar of the control (SCShell.Ctrl.pas): where the thumb is, and what dragging it does. */
module Scrollbar {
  import opened Common
  import opened Viewport

  const MAX_INT := 0x7FFF_FFFF
  const MIN_THUMB := 24

  // ---------- rounded arithmetic ----------

  function Abs(x: int): nat {
    if x < 0 then -x else x
  }

  function Times(a: nat, b: nat): nat {
    if a == 0 then 0 else Times(a - 1, b) + b
  }

  function Quotient(p: nat, c: nat): nat
    requires c > 0
  {
    if p < c then 0 else 1 + Quotient(p - c, c)
  }

  /** Rounding of non-negative numbers. */
  function Rounded(p: nat, c: nat): nat
    requires c > 0
  {
    Quotient(p + c / 2, c)
  }

  /** The Win32 function: a * b / c rounded to the nearest integer, or -1 if that is undefined or does not fit. */
  function MulDiv(a: int, b: int, c: int): int {
    if c == 0 then -1
    else
      var q := Rounded(Times(Abs(a), Abs(b)), Abs(c));
      var signed := if a == 0 || b == 0 || ((a < 0) == (b < 0)) == (c > 0) then q else 0 - q;
      if -MAX_INT - 1 <= signed <= MAX_INT then signed else -1
  }

  lemma {:induction false} TimesIsProduct(a: nat, b: nat)
    ensures Times(a, b) == a * b
  {
    if a > 0 {
      TimesIsProduct(a - 1, b);
      assert a * b == (a - 1) * b + b;
    }
  }

  lemma TimesSwapped(a: nat, b: nat)
    ensures Times(a, b) == Times(b, a)
  {
    TimesIsProduct(a, b);
    TimesIsProduct(b, a);
  }

  lemma {:induction false} TimesAdd(a: nat, b: nat, c: nat)
    ensures Times(a + b, c) == Times(a, c) + Times(b, c)
  {
    if b > 0 {
      TimesAdd(a, b - 1, c);
    }
  }

  lemma TimesMonotone(a: nat, b: nat, c: nat)
    ensures a <= b ==> Times(a, c) <= Times(b, c)
  {
    if a <= b {
      TimesAdd(a, b - a, c);
    }
  }

  lemma {:induction false} QuotientBounds(p: nat, c: nat)
    requires c > 0
    ensures Times(Quotient(p, c), c) <= p < Times(Quotient(p, c), c) + c
  {
    if p >= c {
      QuotientBounds(p - c, c);
    }
  }

  lemma QuotientUnique(p: nat, c: nat, q: nat)
    requires c > 0 && Times(q, c) <= p < Times(q, c) + c
    ensures Quotient(p, c) == q
  {
    QuotientBounds(p, c);
    TimesMonotone(Quotient(p, c) + 1, q, c);
    TimesMonotone(q + 1, Quotient(p, c), c);
  }

  lemma QuotientDivides(p: nat, c: nat)
    requires c > 0
    ensures Quotient(p, c) == p / c
  {
    assert p == p / c * c + p % c;
    TimesIsProduct(p / c, c);
    QuotientUnique(p, c, p / c);
  }

  /** In the usual notation, for the arguments the control passes. */
  lemma MulDivMeaning(a: nat, b: nat, c: nat)
    requires c > 0
    ensures MulDiv(a, b, c) == if (a * b + c / 2) / c <= MAX_INT then (a * b + c / 2) / c else -1
  {
    TimesIsProduct(a, b);
    QuotientDivides(a * b + c / 2, c);
  }

  lemma RoundedNearest(p: nat, c: nat)
    requires c > 0
    ensures 2 * Times(Rounded(p, c), c) <= 2 * p + c
    ensures 2 * p <= 2 * Times(Rounded(p, c), c) + c
  {
    QuotientBounds(p + c / 2, c);
  }

  lemma RoundedExact(q: nat, c: nat)
    requires c > 0
    ensures Rounded(Times(q, c), c) == q
  {
    QuotientUnique(Times(q, c) + c / 2, c, q);
  }

  lemma RoundedMonotone(p: nat, q: nat, c: nat)
    requires c > 0 && p <= q
    ensures Rounded(p, c) <= Rounded(q, c)
  {
    QuotientBounds(p + c / 2, c);
    QuotientBounds(q + c / 2, c);
    TimesMonotone(Rounded(q, c) + 1, Rounded(p, c), c);
  }

  /** A share b / c of a, with b <= c: exact at both ends, and never more than a. */
  lemma RoundedShare(a: nat, b: nat, c: nat)
    requires c > 0 && b <= c
    ensures Rounded(Times(b, a), c) <= a
    ensures b == 0 ==> Rounded(Times(b, a), c) == 0
    ensures b == c ==> Rounded(Times(b, a), c) == a
  {
    RoundedExact(0, c);
    RoundedExact(a, c);
    TimesSwapped(a, c);
    TimesMonotone(b, c, a);
    RoundedMonotone(Times(b, a), Times(c, a), c);
  }

  lemma MulDivRounds(a: nat, b: nat, c: nat)
    requires c > 0 && Rounded(Times(b, a), c) <= MAX_INT
    ensures MulDiv(a, b, c) == MulDiv(b, a, c) == Rounded(Times(b, a), c)
  {
    TimesSwapped(a, b);
  }

  // ---------- the thumb ----------

  /** Pixel height of the track, rows of the viewport, lines of history. */
  datatype Bar = Bar(trackH: nat, rows: nat, max: nat)

  /** Sizes within the 32-bit integers of the control. */
  predicate ValidBar(bar: Bar) {
    bar.trackH <= MAX_INT && 1 <= bar.rows && bar.max + bar.rows <= MAX_INT
  }

  function Max(a: int, b: int): int {
    if a >= b then a else b
  }

  function ThumbHeight(bar: Bar): int {
    Max(MIN_THUMB, MulDiv(bar.trackH, bar.rows, bar.max + bar.rows))
  }

  datatype Thumb = Thumb(top: int, height: int)

  /** Offset 0, the live screen, is at the bottom of the track. */
  function ThumbOf(bar: Bar, offset: nat): Option<Thumb> {
    if bar.max == 0 || bar.trackH <= 0 then None
    else
      Some(Thumb(MulDiv(bar.trackH - DrawnHeight(bar), bar.max - offset, bar.max), DrawnHeight(bar)))
  }

  /** Pixels the thumb can travel. */
  function Range(bar: Bar): int {
    bar.trackH - ThumbHeight(bar)
  }

  /** The offset for a thumb dragged to a position; None where dragging does nothing. */
  function DragOffset(bar: Bar, position: int): Option<int> {
    var range := Range(bar);
    if range <= 0 then None
    else Some(Clamp(MulDiv(range - Clamp(position, 0, range), bar.max, range), 0, bar.max))
  }

  lemma HeightBounds(bar: Bar)
    requires ValidBar(bar)
    ensures MIN_THUMB <= ThumbHeight(bar) && (ThumbHeight(bar) <= bar.trackH || ThumbHeight(bar) == MIN_THUMB)
  {
    RoundedShare(bar.trackH, bar.rows, bar.max + bar.rows);
    MulDivRounds(bar.trackH, bar.rows, bar.max + bar.rows);
  }

  /**
    The thumb has the rounded share of the track that the viewport has of all lines:
    off by half a pixel at most, unless that would be less than the least height.
   */
  lemma ThumbHeightIsShare(bar: Bar)
    requires ValidBar(bar)
    ensures var height, lines := ThumbHeight(bar), bar.max + bar.rows;
      if height > MIN_THUMB then 2 * Abs(height * lines - bar.rows * bar.trackH) <= lines
      else height == MIN_THUMB && 2 * (bar.rows * bar.trackH) <= (2 * MIN_THUMB + 1) * lines
  {
    var lines := bar.max + bar.rows;
    var share: nat := Rounded(Times(bar.rows, bar.trackH), lines);
    RoundedShare(bar.trackH, bar.rows, lines);
    MulDivRounds(bar.trackH, bar.rows, lines);
    RoundedNearest(Times(bar.rows, bar.trackH), lines);
    TimesIsProduct(share, lines);
    TimesIsProduct(bar.rows, bar.trackH);
    if share <= MIN_THUMB {
      TimesMonotone(share, MIN_THUMB, lines);
      TimesIsProduct(MIN_THUMB, lines);
    }
  }

  /** The height as ScrollThumbRect uses it. */
  function DrawnHeight(bar: Bar): int {
    if ThumbHeight(bar) > bar.trackH then bar.trackH else ThumbHeight(bar)
  }

  /** The thumb's position as a plain rounding. */
  lemma TopRounds(bar: Bar, offset: nat)
    requires ValidBar(bar) && bar.max > 0 && bar.trackH > 0 && offset <= bar.max
    ensures 0 < DrawnHeight(bar) <= bar.trackH
    ensures var top: nat := Rounded(Times(bar.max - offset, bar.trackH - DrawnHeight(bar)), bar.max);
      top <= bar.trackH - DrawnHeight(bar) && ThumbOf(bar, offset) == Some(Thumb(top, DrawnHeight(bar)))
  {
    HeightBounds(bar);
    RoundedShare(bar.trackH - DrawnHeight(bar), bar.max - offset, bar.max);
    MulDivRounds(bar.trackH - DrawnHeight(bar), bar.max - offset, bar.max);
  }

  /**
    The thumb stays inside the track and is at least 24 pixels high if the track
    is. It is at the top for the oldest line, at the bottom for the live screen,
    and never moves down as the offset grows.
   */
  lemma ThumbStaysInTrack(bar: Bar, offset: nat, further: nat)
    requires ValidBar(bar) && bar.max > 0 && bar.trackH > 0 && offset <= further <= bar.max
    ensures var thumb := ThumbOf(bar, offset).value;
      && 0 <= thumb.top && thumb.top + thumb.height <= bar.trackH
      && (thumb.height >= MIN_THUMB || thumb.height == bar.trackH)
      && (offset == bar.max ==> thumb.top == 0)
      && (offset == 0 ==> thumb.top + thumb.height == bar.trackH)
      && ThumbOf(bar, further).value.top <= thumb.top
  {
    HeightBounds(bar);
    TopRounds(bar, offset);
    TopRounds(bar, further);
    var travel := bar.trackH - DrawnHeight(bar);
    RoundedShare(travel, bar.max - offset, bar.max);
    TimesMonotone(bar.max - further, bar.max - offset, travel);
    RoundedMonotone(Times(bar.max - further, travel), Times(bar.max - offset, travel), bar.max);
  }

  // ---------- dragging ----------

  lemma DragRounds(bar: Bar, position: int)
    requires ValidBar(bar) && Range(bar) > 0
    ensures var range: nat := Range(bar);
      var lines: nat := Rounded(Times(range - Clamp(position, 0, range), bar.max), range);
      lines <= bar.max && DragOffset(bar, position) == Some(lines)
  {
    var range: nat := Range(bar);
    var rest: nat := range - Clamp(position, 0, range);
    RoundedShare(bar.max, rest, range);
    MulDivRounds(bar.max, rest, range);
  }

  /** Dragging past the ends reaches exactly the oldest line and the live screen, and the map is monotone. */
  lemma DragIsMonotone(bar: Bar, position: int, lower: int)
    requires ValidBar(bar) && Range(bar) > 0 && position <= lower
    ensures 0 <= DragOffset(bar, lower).value <= DragOffset(bar, position).value <= bar.max
    ensures position <= 0 ==> DragOffset(bar, position) == Some(bar.max)
    ensures position >= Range(bar) ==> DragOffset(bar, position) == Some(0)
  {
    var range: nat := Range(bar);
    DragRounds(bar, position);
    DragRounds(bar, lower);
    var a: nat, b: nat := range - Clamp(lower, 0, range), range - Clamp(position, 0, range);
    TimesMonotone(a, b, bar.max);
    RoundedMonotone(Times(a, bar.max), Times(b, bar.max), range);
    RoundedShare(bar.max, b, range);
  }

  /** A control in step with its session scrolls it to exactly the offset of the drag. */
  lemma DragReachesOffset(v: View, bar: Bar, position: int)
    requires ValidView(v) && ValidBar(bar) && bar.max == History(v) && Range(bar) > 0
    ensures ScrollDisplay(v, DragOffset(bar, position).value - v.displayOffset).displayOffset
            == DragOffset(bar, position).value
  {
    DragRounds(bar, position);
  }

  /** Where grabbing the thumb and not moving it puts the offset. */
  function Regrab(bar: Bar, offset: nat): Option<int>
    requires bar.max > 0 && bar.trackH > 0
  {
    DragOffset(bar, ThumbOf(bar, offset).value.top)
  }

  /** Thumb position for an offset, with `travel` pixels of travel and `max` lines. */
  function Place(travel: nat, max: nat, offset: nat): (p: nat)
    requires max > 0 && offset <= max
    ensures p <= travel
  {
    RoundedShare(travel, max - offset, max);
    Rounded(Times(max - offset, travel), max)
  }

  /** Offset for a thumb position. */
  function Lines(travel: nat, max: nat, position: nat): nat
    requires travel > 0 && position <= travel
  {
    Rounded(Times(travel - position, max), travel)
  }

  /** The errors of the two roundings add up. */
  lemma TwoRoundings(travel: nat, max: nat, offset: nat)
    requires travel > 0 && max > 0 && offset <= max
    ensures 2 * Times(Abs(Lines(travel, max, Place(travel, max, offset)) - offset), travel) <= travel + max
  {
    var p := Place(travel, max, offset);
    var lines := Lines(travel, max, p);
    RoundedNearest(Times(max - offset, travel), max);
    RoundedNearest(Times(travel - p, max), travel);
    RestsAddUp(travel, max, offset, p);
    DistanceTimes(lines, offset, travel);
  }

  lemma RestsAddUp(travel: nat, max: nat, offset: nat, p: nat)
    requires offset <= max && p <= travel
    ensures Times(max - offset, travel) + Times(offset, travel) == Times(travel - p, max) + Times(p, max)
  {
    TimesAdd(max - offset, offset, travel);
    TimesAdd(travel - p, p, max);
    TimesSwapped(travel, max);
  }

  lemma DistanceTimes(a: nat, b: nat, travel: nat)
    ensures Times(Abs(a - b), travel) == Abs(Times(a, travel) - Times(b, travel))
  {
    if a >= b {
      TimesAdd(b, a - b, travel);
    } else {
      TimesAdd(a, b - a, travel);
    }
  }

  /** With a pixel per line nothing is rounded. */
  lemma PixelPerLine(max: nat, offset: nat)
    requires max > 0 && offset <= max
    ensures Lines(max, max, Place(max, max, offset)) == offset
  {
    RoundedExact(max - offset, max);
    RoundedExact(offset, max);
  }

  lemma RegrabRounds(bar: Bar, offset: nat)
    requires ValidBar(bar) && bar.max > 0 && Range(bar) > 0 && offset <= bar.max
    ensures var p := Place(Range(bar), bar.max, offset);
      ThumbOf(bar, offset).value.top == p && Regrab(bar, offset) == Some(Lines(Range(bar), bar.max, p))
  {
    TopRounds(bar, offset);
    DragRounds(bar, ThumbOf(bar, offset).value.top);
  }

  lemma ProductOfDistance(d: nat, travel: nat, bound: nat)
    requires 2 * Times(d, travel) <= bound
    ensures 2 * (d * travel) <= bound
  {
    TimesIsProduct(d, travel);
  }

  /** Grabbing without moving shifts the offset by at most max / (2 * range) + 1/2 lines. */
  lemma RegrabError(bar: Bar, offset: nat)
    requires ValidBar(bar) && bar.max > 0 && Range(bar) > 0 && offset <= bar.max
    ensures 2 * (Abs(Regrab(bar, offset).value - offset) * Range(bar)) <= Range(bar) + bar.max
  {
    RegrabRounds(bar, offset);
    TwoRoundings(Range(bar), bar.max, offset);
    ProductOfDistance(Abs(Regrab(bar, offset).value - offset), Range(bar), Range(bar) + bar.max);
  }

  lemma RegrabExact(bar: Bar, offset: nat)
    requires ValidBar(bar) && 0 < bar.max <= Range(bar) && offset <= bar.max
    ensures Regrab(bar, offset) == Some(offset)
  {
    var travel: nat := Range(bar);
    RegrabRounds(bar, offset);
    if bar.max == travel {
      PixelPerLine(travel, offset);
    } else {
      TwoRoundings(travel, bar.max, offset);
      var d := Abs(Regrab(bar, offset).value - offset);
      TimesMonotone(1, d, travel);
    }
  }

  /** If every offset survives, neighbouring offsets have different thumb positions, so there are at most range + 1. */
  lemma {:induction false} PositionsRunOut(bar: Bar, offset: nat)
    requires ValidBar(bar) && bar.max > 0 && Range(bar) > 0 && offset <= bar.max
    requires forall o: nat | o <= bar.max :: Regrab(bar, o) == Some(o)
    ensures ThumbOf(bar, offset).value.top + offset <= Range(bar)
  {
    RegrabRounds(bar, offset);
    if offset > 0 {
      RegrabRounds(bar, offset - 1);
      PositionsRunOut(bar, offset - 1);
      ThumbStaysInTrack(bar, offset - 1, offset);
      assert Regrab(bar, offset - 1) == Some(offset - 1) && Regrab(bar, offset) == Some(offset);
    }
  }

  /** Grabbing without moving keeps every offset if and only if there is a pixel of travel for each line. */
  lemma RegrabIdentityIff(bar: Bar)
    requires ValidBar(bar) && bar.max > 0 && Range(bar) > 0
    ensures (forall o: nat | o <= bar.max :: Regrab(bar, o) == Some(o)) <==> bar.max <= Range(bar)
  {
    if bar.max <= Range(bar) {
      forall o: nat | o <= bar.max
        ensures Regrab(bar, o) == Some(o)
      {
        RegrabExact(bar, o);
      }
    } else if forall o: nat | o <= bar.max :: Regrab(bar, o) == Some(o) {
      PositionsRunOut(bar, bar.max);
      RegrabRounds(bar, bar.max);
    }
  }

  // ---------- the control ----------

  datatype Click = Ignored | Grabbed(grip: int) | PageUp | PageDown

  /** What a click on the bar means; a thumb that cannot be drawn is an empty rectangle at the top. */
  function ClickAt(bar: Bar, offset: nat, y: int): Click {
    if bar.max == 0 then Ignored
    else
      var thumb := match ThumbOf(bar, offset) case Some(t) => t case None => Thumb(0, 0);
      if thumb.top <= y <= thumb.top + thumb.height then Grabbed(y - thumb.top)
      else if y < thumb.top then PageUp else PageDown
  }

  /** Grabbing the thumb and moving the mouse to where it was grabbed is a drag to the thumb's own position. */
  lemma GripIsThumb(bar: Bar, offset: nat, y: int)
    requires ValidBar(bar) && bar.max > 0 && Range(bar) > 0 && offset <= bar.max
    requires ClickAt(bar, offset, y).Grabbed?
    ensures DragOffset(bar, y - ClickAt(bar, offset, y).grip) == Regrab(bar, offset)
  {}

  /** The part of the control that handles the scroll bar. */
  class ThumbControl {
    const session: TermViewport
    var clientHeight: nat
    var rows: nat
    var scrollOffset: nat
    var scrollMax: nat
    var draggingThumb: bool
    var thumbDragOffset: int

    ghost predicate Valid()
      reads this, session
    {
      && session.Valid()
      && ValidBar(BarNow())
      && History(session.Abs()) + rows <= MAX_INT
      && scrollOffset <= scrollMax
    }

    /** The control knows where the session is. */
    ghost predicate Synced()
      reads this, session
    {
      scrollOffset == session.displayOffset && scrollMax == History(session.Abs())
    }

    function BarNow(): Bar
      reads this
    {
      Bar(clientHeight, rows, scrollMax)
    }

    constructor (session: TermViewport, clientHeight: nat, rows: nat)
      requires session.Valid() && clientHeight <= MAX_INT && 1 <= rows && History(session.Abs()) + rows <= MAX_INT
      ensures Valid() && this.session == session && !draggingThumb
    {
      this.session, this.clientHeight, this.rows := session, clientHeight, rows;
      scrollOffset, scrollMax, draggingThumb, thumbDragOffset := 0, 0, false, 0;
    }

    method UpdateScrollInfo()
      requires Valid()
      modifies this`scrollOffset, this`scrollMax
      ensures Valid() && Synced()
    {
      scrollOffset := session.displayOffset;
      scrollMax := |session.grid| - session.lines;
    }

    method ScrollByLines(lines: int)
      requires Valid()
      modifies this`scrollOffset, this`scrollMax, session`displayOffset
      ensures Valid()
      ensures lines == 0 ==> unchanged(this) && unchanged(session)
      ensures lines != 0 ==> Synced() && session.Abs() == ScrollDisplay(old(session.Abs()), lines)
    {
      if lines == 0 {
        return;
      }
      session.ScrollBy(lines);
      UpdateScrollInfo();
    }

    /** A click on the bar grabs the thumb, or pages towards the click. */
    method MouseDown(y: int)
      requires Valid()
      modifies this`draggingThumb, this`thumbDragOffset, this`scrollOffset, this`scrollMax, session`displayOffset
      ensures Valid()
      ensures match ClickAt(old(BarNow()), old(scrollOffset), y)
        case Ignored => unchanged(this) && unchanged(session)
        case Grabbed(grip) =>
          draggingThumb && thumbDragOffset == grip
          && BarNow() == old(BarNow()) && scrollOffset == old(scrollOffset) && unchanged(session)
        case PageUp => session.Abs() == ScrollDisplay(old(session.Abs()), rows) && Synced()
        case PageDown => session.Abs() == ScrollDisplay(old(session.Abs()), 0 - rows) && Synced()
      // above the thumb towards the oldest line, below it towards the live screen
      ensures old(scrollMax) > 0 && ThumbOf(old(BarNow()), old(scrollOffset)).Some? ==>
                var thumb := ThumbOf(old(BarNow()), old(scrollOffset)).value;
                var before, all := old(session.displayOffset), History(session.Abs());
                && (y < thumb.top ==> session.displayOffset == if before + rows <= all then before + rows else all)
                && (y > thumb.top + thumb.height ==> session.displayOffset == if before >= rows then before - rows else 0)
    {
      if scrollMax == 0 {
        return;
      }
      var thumb := match ThumbOf(BarNow(), scrollOffset) case Some(t) => t case None => Thumb(0, 0);
      if thumb.top <= y <= thumb.top + thumb.height {
        draggingThumb := true;
        thumbDragOffset := y - thumb.top;
      } else if y < thumb.top {
        ScrollByLines(rows);
      } else {
        ScrollByLines(0 - rows);
      }
    }

    /** While the thumb is held, the session is scrolled to the offset of its position. */
    method MouseMove(y: int)
      requires Valid()
      modifies this`scrollOffset, this`scrollMax, session`displayOffset
      ensures Valid()
      ensures !draggingThumb || Range(old(BarNow())) <= 0 ==> unchanged(this) && unchanged(session)
      ensures draggingThumb && Range(old(BarNow())) > 0 ==>
                var delta := DragOffset(old(BarNow()), y - thumbDragOffset).value - old(scrollOffset);
                if delta == 0 then unchanged(this) && unchanged(session)
                else Synced() && session.Abs() == ScrollDisplay(old(session.Abs()), delta)
    {
      if !draggingThumb {
        return;
      }
      var target := DragTarget(y);
      if target.None? {
        return;
      }
      ScrollByLines(target.value - scrollOffset);
    }

    /** The arithmetic of a drag step: the offset for the mouse position, if the thumb can travel. */
    method DragTarget(y: int) returns (target: Option<int>)
      requires Valid()
      ensures target == DragOffset(BarNow(), y - thumbDragOffset)
    {
      var thumbH := Max(MIN_THUMB, MulDiv(clientHeight, rows, scrollMax + rows));
      var range := clientHeight - thumbH;
      assert range == Range(BarNow());
      if range <= 0 {
        return None;
      }
      var newPos := y - thumbDragOffset;
      if newPos < 0 {
        newPos := 0;
      }
      if newPos > range {
        newPos := range;
      }
      assert newPos == Clamp(y - thumbDragOffset, 0, range);
      var newOffset := MulDiv(range - newPos, scrollMax, range);
      ghost var unclamped := newOffset;
      if newOffset < 0 {
        newOffset := 0;
      }
      if newOffset > scrollMax {
        newOffset := scrollMax;
      }
      assert newOffset == Clamp(unclamped, 0, scrollMax);
      return Some(newOffset);
    }

    method MouseUp()
      modifies this`draggingThumb
      ensures !draggingThumb
    {
      draggingThumb := false;
    }
  }
}
