/** The virtualised event list: which rows it renders for a scroll position, against
    the naive list that renders them all. Lengths are in pixels, and may be fractions. */
module VirtualList {
  import opened Numbers

  const ROW_HEIGHT := 88.0
  const OVERSCAN := 8

  function Ceil(x: real): int {
    -((-x).Floor)
  }

  function MinReal(a: real, b: real): real {
    if a < b then a else b
  }

  function MaxReal(a: real, b: real): real {
    if a < b then b else a
  }

  /** The scroll position, no further than the end of the list. */
  function ClampedTop(length: nat, scrollTop: real, viewportHeight: real): real {
    MinReal(scrollTop, MaxReal(0.0, length as real * ROW_HEIGHT - viewportHeight))
  }

  function StartIndex(length: nat, scrollTop: real, viewportHeight: real): int {
    Max(0, (ClampedTop(length, scrollTop, viewportHeight) / ROW_HEIGHT).Floor - OVERSCAN)
  }

  function EndIndex(length: nat, scrollTop: real, viewportHeight: real): int {
    Min(length, StartIndex(length, scrollTop, viewportHeight) + Ceil(viewportHeight / ROW_HEIGHT) + OVERSCAN + OVERSCAN)
  }

  /** Where the viewport starts: at the scroll position unless the list ends before the viewport
      would, then where it ends with the list, or at the top when the list is shorter. */
  function ViewportTop(length: nat, scrollTop: real, viewportHeight: real): real {
    var listHeight := 88.0 * length as real;
    if scrollTop + viewportHeight <= listHeight || scrollTop <= 0.0 then scrollTop
    else if viewportHeight <= listHeight then listHeight - viewportHeight
    else 0.0
  }

  /** Row i, from 88 x i to 88 x (i + 1), meets the viewport. */
  predicate Visible(length: nat, scrollTop: real, viewportHeight: real, i: int) {
    var top := ViewportTop(length, scrollTop, viewportHeight);
    88.0 * i as real < top + viewportHeight && 88.0 * (i + 1) as real > top
  }

  lemma {:induction false} ClampedIsViewportTop(length: nat, scrollTop: real, viewportHeight: real)
    ensures ClampedTop(length, scrollTop, viewportHeight) == ViewportTop(length, scrollTop, viewportHeight)
  {
  }

  /** For every length, scroll position and height: the rendered slice is in bounds, is at most
      the rows that fit plus the overscan on both sides, and has every row the viewport meets,
      with the 8 rows before it and the 7 after it where they exist. */
  lemma {:induction false} WindowCoversViewport(length: nat, scrollTop: real, viewportHeight: real)
    requires viewportHeight > 0.0
    ensures var start := StartIndex(length, scrollTop, viewportHeight);
            var end := EndIndex(length, scrollTop, viewportHeight);
      && 0 <= start <= end <= length
      && (end - start - 16) as real * 88.0 < viewportHeight + 88.0
      && forall i :: 0 <= i < length && Visible(length, scrollTop, viewportHeight, i) ==>
           start <= Max(0, i - 8) && i < end && Min(length, i + 8) <= end
  {
    ClampedIsViewportTop(length, scrollTop, viewportHeight);
    var top, rows := ClampedTop(length, scrollTop, viewportHeight), Ceil(viewportHeight / ROW_HEIGHT);
    forall i | 0 <= i < length && Visible(length, scrollTop, viewportHeight, i)
      ensures StartIndex(length, scrollTop, viewportHeight) <= Max(0, i - 8)
      ensures Min(length, i + 8) <= EndIndex(length, scrollTop, viewportHeight)
    {
      assert (i + 1) as real > top / ROW_HEIGHT;
      assert i as real < ((top / ROW_HEIGHT).Floor + 1 + rows) as real;
    }
  }

  /** A rendered row: the event and the offset it is drawn at. */
  datatype Row<T> = Row(event: T, offset: real)

  /** The rows of events[start..end] that meet the viewport, drawn where the list draws them. */
  function Shown<T>(events: seq<T>, start: int, end: int, scrollTop: real, viewportHeight: real): seq<Row<T>>
    requires 0 <= start <= end <= |events|
    decreases end - start
  {
    if start == end then []
    else
      Shown(events, start, end - 1, scrollTop, viewportHeight)
      + if Visible(|events|, scrollTop, viewportHeight, end - 1)
        then [Row(events[end - 1], 88.0 * (end - 1) as real)] else []
  }

  lemma {:induction false} NothingShownBefore<T>(events: seq<T>, start: int, end: int, scrollTop: real,
        viewportHeight: real)
    requires 0 <= start <= end <= |events|
    requires forall i :: start <= i < end ==> !Visible(|events|, scrollTop, viewportHeight, i)
    ensures Shown(events, start, end, scrollTop, viewportHeight) == []
    decreases end - start
  {
    if start < end { NothingShownBefore(events, start, end - 1, scrollTop, viewportHeight); }
  }

  lemma {:induction false} ShownSplit<T>(events: seq<T>, start: int, middle: int, end: int, scrollTop: real,
        viewportHeight: real)
    requires 0 <= start <= middle <= end <= |events|
    ensures Shown(events, start, end, scrollTop, viewportHeight)
            == Shown(events, start, middle, scrollTop, viewportHeight)
              + Shown(events, middle, end, scrollTop, viewportHeight)
    decreases end - middle
  {
    if middle < end { ShownSplit(events, start, middle, end - 1, scrollTop, viewportHeight); }
  }

  /** What the viewport shows of the virtualised list is what it shows of the naive one. */
  lemma {:induction false} RefinesNaiveList<T>(events: seq<T>, scrollTop: real, viewportHeight: real)
    requires viewportHeight > 0.0
    ensures var start := StartIndex(|events|, scrollTop, viewportHeight);
            var end := EndIndex(|events|, scrollTop, viewportHeight);
      && 0 <= start <= end <= |events|
      && Shown(events, start, end, scrollTop, viewportHeight) == Shown(events, 0, |events|, scrollTop, viewportHeight)
  {
    var n := |events|;
    var start, end := StartIndex(n, scrollTop, viewportHeight), EndIndex(n, scrollTop, viewportHeight);
    WindowCoversViewport(n, scrollTop, viewportHeight);
    NothingShownBefore(events, 0, start, scrollTop, viewportHeight);
    NothingShownBefore(events, end, n, scrollTop, viewportHeight);
    ShownSplit(events, 0, start, n, scrollTop, viewportHeight);
    ShownSplit(events, start, end, n, scrollTop, viewportHeight);
  }
}
