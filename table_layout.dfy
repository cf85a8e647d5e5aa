/**
 * Layout and hit-testing helpers of the data-grid widget: the table view
 * supplied by the host, column-width reconciliation, content extents,
 * column edges, divider hit-testing and scrollbar thumb geometry.
 *
 * Pixel values are modelled as `real`; the widget's single-precision
 * rounding is not modelled.
 */
module TableLayout {

  datatype Option<T> = None | Some(value: T)

  const ROW_HEIGHT: real := 28.0
  const HEADER_HEIGHT: real := 32.0
  const MIN_COL_WIDTH: real := 28.0
  const DEFAULT_COL_WIDTH: real := 80.0
  const V_SCROLLBAR_WIDTH: real := 12.0
  const H_SCROLLBAR_HEIGHT: real := 12.0
  const COL_RESIZE_GRAB_ZONE: real := 4.0
  /** The smallest thumb length along either scrollbar. */
  const MIN_THUMB_SIZE: real := 20.0

  datatype Point = Point(x: real, y: real)
  datatype Rect = Rect(x: real, y: real, width: real, height: real)

  /** Point-in-rectangle test of the widget framework: left/top edges inclusive, right/bottom exclusive. */
  predicate Contains(r: Rect, p: Point)
  {
    r.x <= p.x < r.x + r.width && r.y <= p.y < r.y + r.height
  }

  function Max(a: real, b: real): (m: real)
    ensures m >= a && m >= b
    ensures m == a || m == b
  {
    if a >= b then a else b
  }

  function Min(a: real, b: real): (m: real)
    ensures m <= a && m <= b
    ensures m == a || m == b
  {
    if a <= b then a else b
  }

  function Abs(a: real): (r: real)
    ensures r >= 0.0
    ensures r == a || r == -a
  {
    if a < 0.0 then -a else a
  }

  /** Clamping to [lo, hi]; the widget only ever clamps with lo <= hi. */
  function Clamp(v: real, lo: real, hi: real): (r: real)
    requires lo <= hi
    ensures lo <= r <= hi
    ensures lo <= v <= hi ==> r == v
    ensures v < lo ==> r == lo
    ensures v > hi ==> r == hi
  {
    if v < lo then lo else if v > hi then hi else v
  }

  /**
   * The immutable per-frame view of the data: header labels, column-major
   * cells, the logical row count of the whole data set, the absolute index
   * of the first loaded row, and an optional fixed column width.
   */
  datatype Table = Table(
    headers: seq<string>,
    columns: seq<seq<string>>,
    totalRowCount: nat,
    rowOffset: nat,
    colWidth: Option<real>)

  /** The construction contract (checked only in debug builds): one header per column. */
  predicate WellFormed(t: Table)
  {
    |t.headers| == |t.columns|
  }

  function ColCount(t: Table): nat
  {
    |t.columns|
  }

  /** The width each column would get before the floor: the fixed width, or an even share of the viewport. */
  function ColShare(t: Table, viewportWidth: real): real
  {
    if t.colWidth.Some? then t.colWidth.value
    else viewportWidth / (if ColCount(t) > 0 then ColCount(t) as real else 1.0)
  }

  /** Default column width: the share, floored at DEFAULT_COL_WIDTH (not at MIN_COL_WIDTH). */
  function DefaultColWidth(t: Table, viewportWidth: real): (w: real)
    ensures w >= DEFAULT_COL_WIDTH && w >= ColShare(t, viewportWidth)
    ensures w == DEFAULT_COL_WIDTH || w == ColShare(t, viewportWidth)
  {
    Max(ColShare(t, viewportWidth), DEFAULT_COL_WIDTH)
  }

  /**
   * The width vector after reconciliation with the current column count:
   * kept as it is when the length matches (so manual resizes persist),
   * otherwise reset to one default width per column.
   */
  function ReconciledWidths(t: Table, widths: seq<real>, viewportWidth: real): (r: seq<real>)
    ensures |r| == ColCount(t)
    ensures |widths| == ColCount(t) ==> r == widths
    ensures |widths| != ColCount(t) ==>
      forall i :: 0 <= i < |r| ==> r[i] == DefaultColWidth(t, viewportWidth)
  {
    if |widths| == ColCount(t) then widths
    else seq(ColCount(t), _ => DefaultColWidth(t, viewportWidth))
  }

  /** Left-to-right sum of a width vector. */
  function Sum(w: seq<real>): real
  {
    if |w| == 0 then 0.0 else Sum(w[..|w| - 1]) + w[|w| - 1]
  }

  predicate AllAtLeast(w: seq<real>, m: real)
  {
    forall i :: 0 <= i < |w| ==> w[i] >= m
  }

  lemma {:induction false} SumSnoc(w: seq<real>, i: nat)
    requires i < |w|
    ensures Sum(w[..i + 1]) == Sum(w[..i]) + w[i]
  {
    assert w[..i + 1][..i] == w[..i];
  }

  lemma {:induction false} SumAtLeast(w: seq<real>, m: real)
    requires AllAtLeast(w, m)
    ensures Sum(w) >= |w| as real * m
  {
    if w != [] {
      SumAtLeast(w[..|w| - 1], m);
    }
  }

  /** Replacing one width changes the sum by exactly the difference. */
  lemma {:induction false} SumUpdate(w: seq<real>, k: nat, v: real)
    requires k < |w|
    ensures Sum(w[k := v]) == Sum(w) - w[k] + v
  {
    var n := |w|;
    if k == n - 1 {
      assert w[k := v][..n - 1] == w[..n - 1];
    } else {
      assert w[k := v][..n - 1] == w[..n - 1][k := v];
      SumUpdate(w[..n - 1], k, v);
    }
  }

  /**
   * Every reconciled width is at least MIN_COL_WIDTH, given that the old
   * widths were, and the content is therefore at least one minimum width
   * per column wide.
   */
  lemma ReconciledWidthsBounded(t: Table, widths: seq<real>, viewportWidth: real)
    requires AllAtLeast(widths, MIN_COL_WIDTH)
    ensures AllAtLeast(ReconciledWidths(t, widths, viewportWidth), MIN_COL_WIDTH)
    ensures Sum(ReconciledWidths(t, widths, viewportWidth)) >= ColCount(t) as real * MIN_COL_WIDTH
  {
    SumAtLeast(ReconciledWidths(t, widths, viewportWidth), MIN_COL_WIDTH);
  }

  /** Reconciling twice is the same as reconciling once. */
  lemma ReconcileIdempotent(t: Table, widths: seq<real>, viewportWidth: real, viewportWidth': real)
    ensures ReconciledWidths(t, ReconciledWidths(t, widths, viewportWidth), viewportWidth')
         == ReconciledWidths(t, widths, viewportWidth)
  {
  }

  /** The content is as wide as the sum of the widths: it ends at the last column's divider. */
  function TotalContentWidth(widths: seq<real>): (w: real)
    ensures |widths| > 0 ==> w == DividerX(widths, |widths| - 1)
    ensures |widths| == 0 ==> w == 0.0
  {
    Sum(widths)
  }

  /** Header plus every logical row, loaded or not. */
  function TotalContentHeight(t: Table): (h: real)
    ensures h >= HEADER_HEIGHT
    ensures (h - HEADER_HEIGHT) / ROW_HEIGHT == t.totalRowCount as real
  {
    HEADER_HEIGHT + t.totalRowCount as real * ROW_HEIGHT
  }

  /** The number of loaded rows: the length of the first column, or 0 without columns. */
  function LoadedRowCount(t: Table): (n: nat)
    ensures ColCount(t) == 0 ==> n == 0
    ensures ColCount(t) > 0 ==> n == |t.columns[0]|
  {
    if |t.columns| == 0 then 0 else |t.columns[0]|
  }

  function ViewportWidth(bounds: Rect): real
  {
    bounds.width - V_SCROLLBAR_WIDTH
  }

  function ViewportHeight(bounds: Rect): real
  {
    bounds.height - H_SCROLLBAR_HEIGHT
  }

  /** The largest horizontal offset: content width beyond the viewport, never negative. */
  function MaxHScroll(widths: seq<real>, bounds: Rect): (m: real)
    ensures m >= 0.0
    ensures m >= TotalContentWidth(widths) - ViewportWidth(bounds)
    ensures m == 0.0 || m == TotalContentWidth(widths) - ViewportWidth(bounds)
  {
    Max(TotalContentWidth(widths) - ViewportWidth(bounds), 0.0)
  }

  /** The largest vertical offset: content height beyond the viewport, never negative. */
  function MaxVScroll(t: Table, bounds: Rect): (m: real)
    ensures m >= 0.0
    ensures m >= TotalContentHeight(t) - ViewportHeight(bounds)
    ensures m == 0.0 || m == TotalContentHeight(t) - ViewportHeight(bounds)
  {
    Max(TotalContentHeight(t) - ViewportHeight(bounds), 0.0)
  }

  // ----- column edges and dividers -----

  /** The content-space x of column i's left edge: the sum of the widths before it. */
  function LeftEdge(widths: seq<real>, i: nat): real
    requires i <= |widths|
  {
    Sum(widths[..i])
  }

  /** The content-space x of the divider to the right of column i. */
  function DividerX(widths: seq<real>, i: nat): real
    requires i < |widths|
  {
    LeftEdge(widths, i) + widths[i]
  }

  /**
   * One left edge per column, the first at 0 and each next one a column
   * width further: the running sum of the widths.
   */
  method ColLeftEdges(widths: seq<real>) returns (edges: seq<real>)
    ensures |edges| == |widths|
    ensures forall i :: 0 <= i < |edges| ==> edges[i] == LeftEdge(widths, i)
    ensures |edges| > 0 ==> edges[0] == 0.0
    ensures forall i :: 0 <= i < |edges| - 1 ==> edges[i + 1] == edges[i] + widths[i]
  {
    edges := [];
    var x := 0.0;
    var i := 0;
    while i < |widths|
      invariant 0 <= i <= |widths| && |edges| == i
      invariant x == Sum(widths[..i])
      invariant forall j :: 0 <= j < i ==> edges[j] == Sum(widths[..j])
    {
      edges := edges + [x];
      SumSnoc(widths, i);
      x := x + widths[i];
      i := i + 1;
    }
    assert widths[..0] == [];
    forall i | 0 <= i < |edges| - 1
      ensures edges[i + 1] == edges[i] + widths[i]
    {
      SumSnoc(widths, i);
    }
  }

  /** With non-negative widths, edges further right are never further left. */
  lemma {:induction false} LeftEdgeMonotone(widths: seq<real>, i: nat, j: nat)
    requires AllAtLeast(widths, 0.0) && i <= j <= |widths|
    ensures LeftEdge(widths, i) <= LeftEdge(widths, j)
    decreases j - i
  {
    if i < j {
      LeftEdgeMonotone(widths, i, j - 1);
      SumSnoc(widths, j - 1);
    }
  }

  /** The cursor, in content coordinates, is within the grab zone of divider i. */
  predicate NearDivider(widths: seq<real>, i: nat, contentX: real)
    requires i < |widths|
  {
    Abs(contentX - DividerX(widths, i)) <= COL_RESIZE_GRAB_ZONE
  }

  /** The first divider at or after `from` within the grab zone. */
  function FirstNearDivider(widths: seq<real>, contentX: real, from: nat): Option<nat>
    decreases |widths| - from
  {
    if from >= |widths| then None
    else if NearDivider(widths, from, contentX) then Some(from)
    else FirstNearDivider(widths, contentX, from + 1)
  }

  predicate InHeaderBand(bounds: Rect, cursorY: real)
  {
    bounds.y <= cursorY <= bounds.y + HEADER_HEIGHT
  }

  function ContentX(bounds: Rect, hScroll: real, cursorX: real): real
  {
    cursorX - bounds.x + hScroll
  }

  /** The divider under the cursor: none outside the header band, else the leftmost one in reach. */
  function DividerHit(widths: seq<real>, hScroll: real, bounds: Rect, cursorX: real, cursorY: real): (r: Option<nat>)
    ensures r.Some? ==> r.value < |widths|
  {
    FirstNearDividerSpec(widths, ContentX(bounds, hScroll, cursorX), 0);
    if !InHeaderBand(bounds, cursorY) then None
    else FirstNearDivider(widths, ContentX(bounds, hScroll, cursorX), 0)
  }

  lemma {:induction false} FirstNearDividerSpec(widths: seq<real>, contentX: real, from: nat)
    ensures var r := FirstNearDivider(widths, contentX, from);
      && (r.None? <==> forall j :: from <= j < |widths| ==> !NearDivider(widths, j, contentX))
      && (r.Some? ==> from <= r.value < |widths| && NearDivider(widths, r.value, contentX)
                      && forall j :: from <= j < r.value ==> !NearDivider(widths, j, contentX))
    decreases |widths| - from
  {
    if from < |widths| && !NearDivider(widths, from, contentX) {
      FirstNearDividerSpec(widths, contentX, from + 1);
    }
  }

  /**
   * The divider hit-test: no hit outside the header band; otherwise a hit
   * exactly when some divider is within the grab zone, and then the
   * leftmost such divider.
   */
  lemma DividerHitSpec(widths: seq<real>, hScroll: real, bounds: Rect, cursorX: real, cursorY: real)
    ensures var r := DividerHit(widths, hScroll, bounds, cursorX, cursorY);
      var cx := ContentX(bounds, hScroll, cursorX);
      && (!InHeaderBand(bounds, cursorY) ==> r.None?)
      && (InHeaderBand(bounds, cursorY) ==>
            (r.None? <==> forall j :: 0 <= j < |widths| ==> !NearDivider(widths, j, cx)))
      && (r.Some? ==> InHeaderBand(bounds, cursorY) && r.value < |widths| && NearDivider(widths, r.value, cx)
                      && forall j :: 0 <= j < r.value ==> !NearDivider(widths, j, cx))
  {
    FirstNearDividerSpec(widths, ContentX(bounds, hScroll, cursorX), 0);
  }

  /** The hit-test as the widget runs it: computes the edges, then scans them with an early return. */
  method DividerAtCursor(widths: seq<real>, hScroll: real, bounds: Rect, cursorX: real, cursorY: real)
    returns (r: Option<nat>)
    ensures r == DividerHit(widths, hScroll, bounds, cursorX, cursorY)
    ensures r.Some? ==> r.value < |widths|
  {
    if cursorY < bounds.y || cursorY > bounds.y + HEADER_HEIGHT {
      return None;
    }
    var contentX := cursorX - bounds.x + hScroll;
    var edges := ColLeftEdges(widths);
    var i := 0;
    while i < |edges|
      invariant 0 <= i <= |edges|
      invariant FirstNearDivider(widths, contentX, i) == FirstNearDivider(widths, contentX, 0)
    {
      var dividerX := edges[i] + widths[i];
      if Abs(contentX - dividerX) <= COL_RESIZE_GRAB_ZONE {
        return Some(i);
      }
      i := i + 1;
    }
    return None;
  }

  // ----- scrollbar thumbs -----

  /** Thumb length: the track scaled by the visible fraction of the content, at least MIN_THUMB_SIZE. */
  function ThumbSize(track: real, content: real): (size: real)
    ensures size >= MIN_THUMB_SIZE
  {
    Max(track * (track / Max(content, 1.0)), MIN_THUMB_SIZE)
  }

  /** How far the thumb sits from the start of its track. */
  function ThumbTravel(offset: real, maxScroll: real, track: real, thumb: real): (d: real)
    ensures maxScroll <= 0.0 ==> d == 0.0
    ensures maxScroll > 0.0 && offset == 0.0 ==> d == 0.0
    ensures maxScroll > 0.0 && offset == maxScroll ==> d == track - thumb
  {
    if maxScroll > 0.0 then offset / maxScroll * (track - thumb) else 0.0
  }

  /** An offset in range puts the thumb inside its track. */
  lemma ThumbTravelWithinTrack(offset: real, maxScroll: real, track: real, thumb: real)
    requires 0.0 <= offset <= maxScroll && thumb <= track
    ensures 0.0 <= ThumbTravel(offset, maxScroll, track, thumb) <= track - thumb
  {
    if maxScroll > 0.0 {
      var f := offset / maxScroll;
      assert f * maxScroll == offset;
      ScaleWithin(f, track - thumb);
    }
  }

  /** A fraction between 0 and 1 of a non-negative length lies between 0 and that length. */
  lemma ScaleWithin(f: real, len: real)
    requires 0.0 <= f <= 1.0 && 0.0 <= len
    ensures 0.0 <= f * len <= len
  {
    assert len - f * len == (1.0 - f) * len;
  }

  /** The horizontal thumb along the bottom strip, left of the vertical scrollbar. */
  function HScrollbarThumbRect(bounds: Rect, hScroll: real, widths: seq<real>): (r: Rect)
    ensures r.width >= MIN_THUMB_SIZE
    ensures r.y == bounds.y + bounds.height - H_SCROLLBAR_HEIGHT + 2.0 && r.height == H_SCROLLBAR_HEIGHT - 4.0
    ensures MaxHScroll(widths, bounds) == 0.0 ==> r.x == bounds.x
    ensures MaxHScroll(widths, bounds) > 0.0 && hScroll == 0.0 ==> r.x == bounds.x
    ensures MaxHScroll(widths, bounds) > 0.0 && hScroll == MaxHScroll(widths, bounds) ==>
      r.x == bounds.x + ViewportWidth(bounds) - r.width
  {
    var totalW := TotalContentWidth(widths);
    var trackW := bounds.width - V_SCROLLBAR_WIDTH;
    var thumbW := ThumbSize(trackW, totalW);
    var maxScroll := Max(totalW - trackW, 0.0);
    Rect(bounds.x + ThumbTravel(hScroll, maxScroll, trackW, thumbW),
         bounds.y + bounds.height - H_SCROLLBAR_HEIGHT + 2.0,
         thumbW,
         H_SCROLLBAR_HEIGHT - 4.0)
  }

  function VTrackHeight(bounds: Rect): real
  {
    bounds.height - HEADER_HEIGHT - H_SCROLLBAR_HEIGHT
  }

  /** The vertical thumb along the right strip, below the header. */
  function VScrollbarThumbRect(t: Table, bounds: Rect, vScroll: real): (r: Rect)
    ensures r.height >= MIN_THUMB_SIZE
    ensures r.x == bounds.x + bounds.width - V_SCROLLBAR_WIDTH - 2.0 && r.width == V_SCROLLBAR_WIDTH - 4.0
    ensures MaxVScroll(t, bounds) == 0.0 ==> r.y == bounds.y + HEADER_HEIGHT
    ensures MaxVScroll(t, bounds) > 0.0 && vScroll == 0.0 ==> r.y == bounds.y + HEADER_HEIGHT
    ensures MaxVScroll(t, bounds) > 0.0 && vScroll == MaxVScroll(t, bounds) ==>
      r.y == bounds.y + HEADER_HEIGHT + VTrackHeight(bounds) - r.height
  {
    var totalH := TotalContentHeight(t);
    var trackH := bounds.height - HEADER_HEIGHT - H_SCROLLBAR_HEIGHT;
    var thumbH := ThumbSize(trackH, totalH - HEADER_HEIGHT);
    var maxScroll := Max(totalH - bounds.height + H_SCROLLBAR_HEIGHT, 0.0);
    Rect(bounds.x + bounds.width - V_SCROLLBAR_WIDTH - 2.0,
         bounds.y + HEADER_HEIGHT + ThumbTravel(vScroll, maxScroll, trackH, thumbH),
         V_SCROLLBAR_WIDTH - 4.0,
         thumbH)
  }

  /**
   * The vertical thumb is offset 2 pixels to the left of its strip, so
   * its left 2 pixels lie over the rows area, while the horizontal thumb
   * is inset 2 pixels into its own strip.
   */
  lemma ThumbInsets(t: Table, bounds: Rect, vScroll: real, hScroll: real, widths: seq<real>)
    ensures var v := VScrollbarThumbRect(t, bounds, vScroll);
      v.x == bounds.x + ViewportWidth(bounds) - 2.0 && v.x + v.width == bounds.x + bounds.width - 6.0
    ensures HScrollbarThumbRect(bounds, hScroll, widths).y == bounds.y + ViewportHeight(bounds) + 2.0
  {
  }

  /** A scrollable axis whose track holds a minimum thumb gets a thumb no longer than the track. */
  lemma ThumbFitsWhenScrollable(track: real, content: real)
    requires MIN_THUMB_SIZE <= track < content
    ensures ThumbSize(track, content) <= track
  {
    assert Max(content, 1.0) == content;
    var f := track / content;
    assert f * content == track;
    ScaleWithin(f, track);
  }

  /** A horizontally scrollable table whose viewport holds a minimum thumb gets a thumb no wider than the viewport. */
  lemma HThumbFitsWhenScrollable(bounds: Rect, hScroll: real, widths: seq<real>)
    requires MaxHScroll(widths, bounds) > 0.0 && ViewportWidth(bounds) >= MIN_THUMB_SIZE
    ensures HScrollbarThumbRect(bounds, hScroll, widths).width <= ViewportWidth(bounds)
  {
    ThumbFitsWhenScrollable(ViewportWidth(bounds), TotalContentWidth(widths));
  }

  /** A vertically scrollable table whose track holds a minimum thumb gets a thumb no taller than the track. */
  lemma VThumbFitsWhenScrollable(t: Table, bounds: Rect, vScroll: real)
    requires MaxVScroll(t, bounds) > 0.0 && VTrackHeight(bounds) >= MIN_THUMB_SIZE
    ensures VScrollbarThumbRect(t, bounds, vScroll).height <= VTrackHeight(bounds)
  {
    ThumbFitsWhenScrollable(VTrackHeight(bounds), TotalContentHeight(t) - HEADER_HEIGHT);
  }

  /**
   * When the table scrolls horizontally and the viewport holds a minimum
   * thumb, the horizontal thumb stays on its track for every offset in range.
   */
  lemma HThumbWithinTrack(bounds: Rect, hScroll: real, widths: seq<real>)
    requires 0.0 <= hScroll <= MaxHScroll(widths, bounds)
    requires MaxHScroll(widths, bounds) > 0.0 && ViewportWidth(bounds) >= MIN_THUMB_SIZE
    ensures var r := HScrollbarThumbRect(bounds, hScroll, widths);
      bounds.x <= r.x && r.x + r.width <= bounds.x + ViewportWidth(bounds)
  {
    var r := HScrollbarThumbRect(bounds, hScroll, widths);
    HThumbFitsWhenScrollable(bounds, hScroll, widths);
    ThumbTravelWithinTrack(hScroll, MaxHScroll(widths, bounds), ViewportWidth(bounds), r.width);
  }

  /**
   * When the table scrolls vertically and the track holds a minimum thumb,
   * the vertical thumb stays on its track for every offset in range.
   */
  lemma VThumbWithinTrack(t: Table, bounds: Rect, vScroll: real)
    requires 0.0 <= vScroll <= MaxVScroll(t, bounds)
    requires MaxVScroll(t, bounds) > 0.0 && VTrackHeight(bounds) >= MIN_THUMB_SIZE
    ensures var r := VScrollbarThumbRect(t, bounds, vScroll);
      bounds.y + HEADER_HEIGHT <= r.y && r.y + r.height <= bounds.y + HEADER_HEIGHT + VTrackHeight(bounds)
  {
    var r := VScrollbarThumbRect(t, bounds, vScroll);
    VThumbFitsWhenScrollable(t, bounds, vScroll);
    ThumbTravelWithinTrack(vScroll, MaxVScroll(t, bounds), VTrackHeight(bounds), r.height);
  }

  /** Without horizontal scrolling the thumb can be far wider than the viewport: one 100-pixel column in an 800-pixel widget. */
  lemma HThumbOverflowsWhenNotScrollable(bounds: Rect, widths: seq<real>)
    requires bounds == Rect(0.0, 0.0, 800.0, 600.0) && widths == [100.0]
    ensures MaxHScroll(widths, bounds) == 0.0
    ensures HScrollbarThumbRect(bounds, 0.0, widths).width > ViewportWidth(bounds)
  {
    assert TotalContentWidth(widths) == 100.0;
    assert ThumbSize(788.0, 100.0) == 788.0 * 7.88;
  }
}
