/**
 * The interaction state machine of the data-grid widget: the widget-owned
 * state record, the cursor affordance, and the event update step.
 *
 * `Step` states the effect of one event on a value of the record; the
 * method `Update` performs the same step in place on a `TableState` object
 * and is proved to agree with `Step`. The lemmas below are about `Step`.
 */
module TableInteraction {
  import opened TableLayout

  datatype Key = PageDown | PageUp | Home | End | ArrowDown | ArrowUp | ArrowRight | ArrowLeft | OtherKey

  datatype ScrollDelta = Lines(x: real, y: real) | Pixels(x: real, y: real)

  /** The events the widget reacts to; every other event is `OtherEvent`. */
  datatype Event =
    | LeftPressed
    | CursorMoved(position: Point)
    | LeftReleased
    | WheelScrolled(delta: ScrollDelta)
    | KeyPressed(key: Key)
    | OtherEvent

  /** The cursor hint reported to the host. */
  datatype Interaction = DefaultCursor | ResizingHorizontally

  /** The value of the widget's state record. */
  datatype Snapshot = Snapshot(
    colWidths: seq<real>,
    resizingCol: Option<nat>,
    resizeDragStartX: real,
    resizeDragStartWidth: real,
    hDragStartOffset: real,
    hDragStartX: real,
    hDraggingScrollbar: bool,
    hScrollOffset: real,
    vDragStartOffset: real,
    vDragStartY: real,
    vDraggingScrollbar: bool,
    vScrollOffset: real)

  /** The record as first created: no widths, no drag, both offsets 0. */
  function InitialState(): Snapshot
  {
    Snapshot([], None, 0.0, 0.0, 0.0, 0.0, false, 0.0, 0.0, 0.0, false, 0.0)
  }

  /** The new state record and whether the host is asked to redraw. */
  datatype Outcome = Outcome(state: Snapshot, redraw: bool)

  /** One input to the widget: the cursor as the host reports it (None when unavailable) and the event. */
  datatype Input = Input(cursor: Option<Point>, event: Event)

  /** The mutable state record owned by one widget instance. */
  class TableState {
    var colWidths: seq<real>
    var resizingCol: Option<nat>
    var resizeDragStartX: real
    var resizeDragStartWidth: real
    var hDragStartOffset: real
    var hDragStartX: real
    var hDraggingScrollbar: bool
    var hScrollOffset: real
    var vDragStartOffset: real
    var vDragStartY: real
    var vDraggingScrollbar: bool
    var vScrollOffset: real

    function Value(): Snapshot
      reads this
    {
      Snapshot(colWidths, resizingCol, resizeDragStartX, resizeDragStartWidth,
               hDragStartOffset, hDragStartX, hDraggingScrollbar, hScrollOffset,
               vDragStartOffset, vDragStartY, vDraggingScrollbar, vScrollOffset)
    }

    constructor ()
      ensures Value() == InitialState()
    {
      colWidths := [];
      resizingCol := None;
      resizeDragStartX, resizeDragStartWidth := 0.0, 0.0;
      hDragStartOffset, hDragStartX, hDraggingScrollbar, hScrollOffset := 0.0, 0.0, false, 0.0;
      vDragStartOffset, vDragStartY, vDraggingScrollbar, vScrollOffset := 0.0, 0.0, false, 0.0;
    }
  }

  predicate IsOver(cursor: Option<Point>, r: Rect)
  {
    cursor.Some? && Contains(r, cursor.value)
  }

  /** A column being resized exists in the table (else the widget would index out of bounds). */
  predicate ResizeIndexOk(t: Table, s: Snapshot)
  {
    s.resizingCol.Some? ==> s.resizingCol.value < ColCount(t)
  }

  /** The record after its widths are reconciled with the table for these bounds. */
  function Reconciled(t: Table, bounds: Rect, s: Snapshot): (r: Snapshot)
    ensures |r.colWidths| == ColCount(t)
    ensures r == s.(colWidths := r.colWidths)
  {
    s.(colWidths := ReconciledWidths(t, s.colWidths, ViewportWidth(bounds)))
  }

  /** Quantities the update step derives from the bounds and the reconciled record before it looks at the event. */
  datatype Frame = Frame(viewportW: real, viewportH: real, maxV: real, maxH: real, vThumb: Rect, hThumb: Rect)

  /**
   * The frame quantities: scroll ranges that are never negative and are
   * positive exactly when the content overflows the viewport, and thumbs
   * at least MIN_THUMB_SIZE long. They agree with the layout's helpers.
   */
  function FrameOf(t: Table, bounds: Rect, s: Snapshot): (f: Frame)
    ensures f.maxV >= 0.0 && f.maxH >= 0.0
    ensures f.maxV > 0.0 <==> TotalContentHeight(t) > f.viewportH
    ensures f.maxH > 0.0 <==> TotalContentWidth(s.colWidths) > f.viewportW
    ensures TotalContentHeight(t) <= f.viewportH + f.maxV && TotalContentWidth(s.colWidths) <= f.viewportW + f.maxH
    ensures f.vThumb.height >= MIN_THUMB_SIZE && f.hThumb.width >= MIN_THUMB_SIZE
    ensures f.maxV == MaxVScroll(t, bounds) && f.maxH == MaxHScroll(s.colWidths, bounds)
    ensures f.viewportW == ViewportWidth(bounds) && f.viewportH == ViewportHeight(bounds)
  {
    var viewportW := bounds.width - V_SCROLLBAR_WIDTH;
    var viewportH := bounds.height - H_SCROLLBAR_HEIGHT;
    Frame(viewportW, viewportH,
          Max(TotalContentHeight(t) - viewportH, 0.0),
          Max(TotalContentWidth(s.colWidths) - viewportW, 0.0),
          VScrollbarThumbRect(t, bounds, s.vScrollOffset),
          HScrollbarThumbRect(bounds, s.hScrollOffset, s.colWidths))
  }

  /** Left press: starts at most one mode, never changes a width or an offset, and changes nothing unless it asks for a redraw. */
  function OnPress(bounds: Rect, cursor: Option<Point>, s: Snapshot, f: Frame): (o: Outcome)
    ensures o.state.colWidths == s.colWidths
    ensures o.state.vScrollOffset == s.vScrollOffset && o.state.hScrollOffset == s.hScrollOffset
    ensures !o.redraw ==> o.state == s
    ensures o.state.resizingCol.Some? && s.resizingCol != o.state.resizingCol ==> o.state.resizingCol.value < |s.colWidths|
  {
    if cursor.None? then Outcome(s, false)
    else
      var pos := cursor.value;
      var hit := DividerHit(s.colWidths, s.hScrollOffset, bounds, pos.x, pos.y);
      if hit.Some? then
        Outcome(s.(resizingCol := hit, resizeDragStartX := pos.x,
                   resizeDragStartWidth := s.colWidths[hit.value]), true)
      else if Contains(f.vThumb, pos) then
        Outcome(s.(vDraggingScrollbar := true, vDragStartY := pos.y,
                   vDragStartOffset := s.vScrollOffset), true)
      else if Contains(f.hThumb, pos) then
        Outcome(s.(hDraggingScrollbar := true, hDragStartX := pos.x,
                   hDragStartOffset := s.hScrollOffset), true)
      else Outcome(s, false)
  }

  /** Width of column k after a resize drag to cursor x: the anchored width plus the cursor travel, floored. */
  function ResizedWidth(s: Snapshot, x: real): real
  {
    Max(s.resizeDragStartWidth + (x - s.resizeDragStartX), MIN_COL_WIDTH)
  }

  /** Thumb drag: the anchored offset plus the cursor travel scaled from track to content, clamped. */
  function DraggedOffset(startOffset: real, dragDelta: real, track: real, thumb: real, maxScroll: real): (r: real)
    requires maxScroll >= 0.0
    ensures 0.0 <= r <= maxScroll
  {
    var scrollRatio := dragDelta / Max(track - thumb, 1.0);
    Clamp(startOffset + scrollRatio * maxScroll, 0.0, maxScroll)
  }

  /** Cursor move: never starts or ends a mode, keeps the column count, and acts (with a redraw) exactly when a mode is active. */
  function OnMove(bounds: Rect, position: Point, s: Snapshot, f: Frame): (o: Outcome)
    requires s.resizingCol.Some? ==> s.resizingCol.value < |s.colWidths|
    requires f.maxV >= 0.0 && f.maxH >= 0.0
    ensures |o.state.colWidths| == |s.colWidths|
    ensures o.state.resizingCol == s.resizingCol
    ensures o.state.vDraggingScrollbar == s.vDraggingScrollbar && o.state.hDraggingScrollbar == s.hDraggingScrollbar
    ensures o.redraw <==> s.resizingCol.Some? || s.vDraggingScrollbar || s.hDraggingScrollbar
    ensures !o.redraw ==> o.state == s
  {
    if s.resizingCol.Some? then
      var w := s.colWidths[s.resizingCol.value := ResizedWidth(s, position.x)];
      var newMaxH := Max(TotalContentWidth(w) - f.viewportW, 0.0);
      Outcome(s.(colWidths := w, hScrollOffset := Min(s.hScrollOffset, newMaxH)), true)
    else if s.vDraggingScrollbar then
      var trackH := bounds.height - HEADER_HEIGHT - H_SCROLLBAR_HEIGHT;
      Outcome(s.(vScrollOffset := DraggedOffset(s.vDragStartOffset, position.y - s.vDragStartY,
                                                trackH, f.vThumb.height, f.maxV)), true)
    else if s.hDraggingScrollbar then
      Outcome(s.(hScrollOffset := DraggedOffset(s.hDragStartOffset, position.x - s.hDragStartX,
                                                f.viewportW, f.hThumb.width, f.maxH)), true)
    else Outcome(s, false)
  }

  /** Left release: no resize survives it, no width or offset changes, and it redraws exactly when some mode was active. */
  function OnRelease(s: Snapshot): (o: Outcome)
    ensures o.state.resizingCol.None?
    ensures o.state.colWidths == s.colWidths
    ensures o.state.vScrollOffset == s.vScrollOffset && o.state.hScrollOffset == s.hScrollOffset
    ensures o.redraw <==> s.resizingCol.Some? || s.vDraggingScrollbar || s.hDraggingScrollbar
  {
    if s.resizingCol.Some? then Outcome(s.(resizingCol := None), true)
    else if s.vDraggingScrollbar || s.hDraggingScrollbar then
      Outcome(s.(vDraggingScrollbar := false, hDraggingScrollbar := false), true)
    else Outcome(s, false)
  }

  /** Wheel: the dominant axis scrolls (vertical on ties), lines scaled by one step, the delta subtracted. */
  function OnWheel(s: Snapshot, f: Frame, delta: ScrollDelta): (r: Snapshot)
    requires f.maxV >= 0.0 && f.maxH >= 0.0
    ensures r == s.(hScrollOffset := r.hScrollOffset) || r == s.(vScrollOffset := r.vScrollOffset)
    ensures r.hScrollOffset != s.hScrollOffset ==> 0.0 <= r.hScrollOffset <= f.maxH
    ensures r.vScrollOffset != s.vScrollOffset ==> 0.0 <= r.vScrollOffset <= f.maxV
  {
    var (dx, dy) := match delta
      case Lines(x, y) => (x * MIN_COL_WIDTH, y * ROW_HEIGHT)
      case Pixels(x, y) => (x, y);
    if Abs(delta.x) > Abs(delta.y) then
      s.(hScrollOffset := Clamp(s.hScrollOffset - dx, 0.0, f.maxH))
    else
      s.(vScrollOffset := Clamp(s.vScrollOffset - dy, 0.0, f.maxV))
  }

  /** Key press: moves at most one offset, and a moved offset lands in [0, maxScroll]. */
  function OnKey(s: Snapshot, f: Frame, key: Key): (r: Snapshot)
    requires f.maxV >= 0.0 && f.maxH >= 0.0
    ensures r == s.(hScrollOffset := r.hScrollOffset) || r == s.(vScrollOffset := r.vScrollOffset)
    ensures r.hScrollOffset != s.hScrollOffset ==> 0.0 <= r.hScrollOffset <= f.maxH
    ensures r.vScrollOffset != s.vScrollOffset ==> 0.0 <= r.vScrollOffset <= f.maxV
  {
    var pageSize := f.viewportH - HEADER_HEIGHT;
    match key
    case PageDown => s.(vScrollOffset := Clamp(s.vScrollOffset + pageSize, 0.0, f.maxV))
    case PageUp => s.(vScrollOffset := Clamp(s.vScrollOffset - pageSize, 0.0, f.maxV))
    case Home => s.(vScrollOffset := 0.0)
    case End => s.(vScrollOffset := f.maxV)
    case ArrowDown => s.(vScrollOffset := Clamp(s.vScrollOffset + ROW_HEIGHT, 0.0, f.maxV))
    case ArrowUp => s.(vScrollOffset := Clamp(s.vScrollOffset - ROW_HEIGHT, 0.0, f.maxV))
    case ArrowRight => s.(hScrollOffset := Clamp(s.hScrollOffset + MIN_COL_WIDTH, 0.0, f.maxH))
    case ArrowLeft => s.(hScrollOffset := Clamp(s.hScrollOffset - MIN_COL_WIDTH, 0.0, f.maxH))
    case OtherKey => s
  }

  /**
   * One update step: reconcile the widths, derive the frame quantities,
   * then react to the event. A cursor move during a resize whose column no
   * longer exists would index out of bounds in the widget; callers exclude it.
   */
  function Step(t: Table, bounds: Rect, cursor: Option<Point>, ev: Event, s0: Snapshot): (o: Outcome)
    requires ev.CursorMoved? ==> ResizeIndexOk(t, s0)
    ensures |o.state.colWidths| == ColCount(t)
    ensures ResizeIndexOk(t, s0) ==> ResizeIndexOk(t, o.state)
  {
    var s := Reconciled(t, bounds, s0);
    var f := FrameOf(t, bounds, s);
    match ev
    case LeftPressed => OnPress(bounds, cursor, s, f)
    case CursorMoved(position) => OnMove(bounds, position, s, f)
    case LeftReleased => OnRelease(s)
    case WheelScrolled(delta) =>
      if IsOver(cursor, bounds) then Outcome(OnWheel(s, f, delta), true) else Outcome(s, false)
    case KeyPressed(key) =>
      if IsOver(cursor, bounds) then Outcome(OnKey(s, f, key), true) else Outcome(s, false)
    case OtherEvent => Outcome(s, false)
  }

  /** The cursor hint: resizing while a resize is in progress or when the cursor is over a divider. */
  function MouseInteraction(s: Snapshot, bounds: Rect, cursor: Option<Point>): (i: Interaction)
    ensures s.resizingCol.Some? ==> i == ResizingHorizontally
    ensures s.resizingCol.None? && (cursor.None? || !InHeaderBand(bounds, cursor.value.y)) ==> i == DefaultCursor
    ensures s.resizingCol.None? && cursor.Some? && InHeaderBand(bounds, cursor.value.y) ==>
      (i == ResizingHorizontally <==>
         exists j :: 0 <= j < |s.colWidths|
           && NearDivider(s.colWidths, j, ContentX(bounds, s.hScrollOffset, cursor.value.x)))
  {
    if s.resizingCol.Some? then ResizingHorizontally
    else if cursor.None? then DefaultCursor
    else
      var pos := cursor.value;
      DividerHitSpec(s.colWidths, s.hScrollOffset, bounds, pos.x, pos.y);
      if DividerHit(s.colWidths, s.hScrollOffset, bounds, pos.x, pos.y).Some? then ResizingHorizontally
      else DefaultCursor
  }

  // ----- properties of the update step -----

  /** The state the widget keeps between events: see StepKeepsInvariant. */
  predicate Inv(t: Table, bounds: Rect, s: Snapshot)
  {
    && ResizeIndexOk(t, s)
    && AllAtLeast(s.colWidths, MIN_COL_WIDTH)
    && 0.0 <= s.vScrollOffset <= MaxVScroll(t, bounds)
    && 0.0 <= s.hScrollOffset <= MaxHScroll(ReconciledWidths(t, s.colWidths, ViewportWidth(bounds)), bounds)
  }

  lemma InitialStateValid(t: Table, bounds: Rect)
    ensures Inv(t, bounds, InitialState())
  {
  }

  /** Every state change beyond width reconciliation is signalled to the host with a redraw request. */
  lemma ChangeIsSignalled(t: Table, bounds: Rect, cursor: Option<Point>, ev: Event, s0: Snapshot)
    requires ev.CursorMoved? ==> ResizeIndexOk(t, s0)
    ensures var o := Step(t, bounds, cursor, ev, s0);
      o.state != Reconciled(t, bounds, s0) ==> o.redraw
  {
  }

  /** Unhandled events, and wheel or key events away from the widget, only reconcile the widths. */
  lemma IgnoredEvents(t: Table, bounds: Rect, cursor: Option<Point>, ev: Event, s0: Snapshot)
    requires ev.OtherEvent? || ((ev.WheelScrolled? || ev.KeyPressed?) && !IsOver(cursor, bounds))
    ensures Step(t, bounds, cursor, ev, s0) == Outcome(Reconciled(t, bounds, s0), false)
  {
  }

  /** Some divider is within reach of a press at p in the header band. */
  predicate NearSomeDivider(s: Snapshot, bounds: Rect, p: Point)
  {
    var cx := ContentX(bounds, s.hScrollOffset, p.x);
    InHeaderBand(bounds, p.y) && exists i :: 0 <= i < |s.colWidths| && NearDivider(s.colWidths, i, cx)
  }

  /**
   * Left press. A press never cancels a mode already active, never moves
   * the content or changes a width, and asks for a redraw exactly when it
   * is near a divider or on a thumb; without a redraw nothing changes.
   */
  lemma PressPreserves(t: Table, bounds: Rect, p: Point, s0: Snapshot)
    ensures var s := Reconciled(t, bounds, s0);
      var f := FrameOf(t, bounds, s);
      var o := Step(t, bounds, Some(p), LeftPressed, s0);
      && o.state.colWidths == s.colWidths
      && o.state.vScrollOffset == s.vScrollOffset && o.state.hScrollOffset == s.hScrollOffset
      && (s.resizingCol.Some? ==> o.state.resizingCol.Some?)
      && (s.vDraggingScrollbar ==> o.state.vDraggingScrollbar)
      && (s.hDraggingScrollbar ==> o.state.hDraggingScrollbar)
      && (o.redraw <==> NearSomeDivider(s, bounds, p) || Contains(f.vThumb, p) || Contains(f.hThumb, p))
      && (!o.redraw ==> o.state == s)
  {
    var s := Reconciled(t, bounds, s0);
    DividerHitSpec(s.colWidths, s.hScrollOffset, bounds, p.x, p.y);
  }

  /**
   * Left press, continued. A divider within reach in the header band wins
   * over the thumbs and starts a resize of the leftmost such column,
   * anchored at the cursor x and that column's width; otherwise a press on
   * the vertical, then the horizontal thumb starts that drag, anchored at
   * the cursor and the current offset.
   */
  lemma PressTransitions(t: Table, bounds: Rect, p: Point, s0: Snapshot)
    ensures var s := Reconciled(t, bounds, s0);
      var f := FrameOf(t, bounds, s);
      var o := Step(t, bounds, Some(p), LeftPressed, s0);
      var cx := ContentX(bounds, s.hScrollOffset, p.x);
      var nearSome := NearSomeDivider(s, bounds, p);
      && (nearSome ==>
            && o.redraw && o.state.resizingCol.Some?
            && var k := o.state.resizingCol.value;
            && k < |s.colWidths| && NearDivider(s.colWidths, k, cx)
            && (forall j :: 0 <= j < k ==> !NearDivider(s.colWidths, j, cx))
            && o.state == s.(resizingCol := Some(k), resizeDragStartX := p.x, resizeDragStartWidth := s.colWidths[k]))
      && (!nearSome && Contains(f.vThumb, p) ==>
            o == Outcome(s.(vDraggingScrollbar := true, vDragStartY := p.y, vDragStartOffset := s.vScrollOffset), true))
      && (!nearSome && !Contains(f.vThumb, p) && Contains(f.hThumb, p) ==>
            o == Outcome(s.(hDraggingScrollbar := true, hDragStartX := p.x, hDragStartOffset := s.hScrollOffset), true))
      && (!nearSome && !Contains(f.vThumb, p) && !Contains(f.hThumb, p) ==> o == Outcome(s, false))
  {
    var s := Reconciled(t, bounds, s0);
    DividerHitSpec(s.colWidths, s.hScrollOffset, bounds, p.x, p.y);
  }

  /** Without a cursor position a press does nothing. */
  lemma PressWithoutCursor(t: Table, bounds: Rect, s0: Snapshot)
    ensures Step(t, bounds, None, LeftPressed, s0) == Outcome(Reconciled(t, bounds, s0), false)
  {
  }

  /**
   * Cursor move during a resize of column k: column k becomes the anchored
   * width plus the cursor travel, floored at MIN_COL_WIDTH; no other width
   * and not the vertical offset change; the content width changes by the
   * change of that one column; and the horizontal offset is pulled back
   * into range for the new widths, never pushed forward.
   */
  lemma ResizeMove(t: Table, bounds: Rect, cursor: Option<Point>, p: Point, s0: Snapshot)
    requires ResizeIndexOk(t, s0) && s0.resizingCol.Some? && s0.hScrollOffset >= 0.0
    ensures var s := Reconciled(t, bounds, s0);
      var o := Step(t, bounds, cursor, CursorMoved(p), s0);
      var k := s0.resizingCol.value;
      var w := o.state.colWidths;
      && o.redraw
      && |w| == |s.colWidths| && k < |w|
      && w[k] == Max(s0.resizeDragStartWidth + (p.x - s0.resizeDragStartX), MIN_COL_WIDTH)
      && (forall j :: 0 <= j < |w| && j != k ==> w[j] == s.colWidths[j])
      && TotalContentWidth(w) == TotalContentWidth(s.colWidths) - s.colWidths[k] + w[k]
      && o.state == s.(colWidths := w, hScrollOffset := o.state.hScrollOffset)
      && 0.0 <= o.state.hScrollOffset <= MaxHScroll(w, bounds)
      && o.state.hScrollOffset <= s.hScrollOffset
      && (s.hScrollOffset <= MaxHScroll(w, bounds) ==> o.state.hScrollOffset == s.hScrollOffset)
      && (s.hScrollOffset > MaxHScroll(w, bounds) ==> o.state.hScrollOffset == MaxHScroll(w, bounds))
  {
    var s := Reconciled(t, bounds, s0);
    var k := s0.resizingCol.value;
    SumUpdate(s.colWidths, k, ResizedWidth(s, p.x));
  }

  lemma DivAtLeastOne(a: real, d: real)
    requires d > 0.0 && a >= d
    ensures a / d >= 1.0
  {
    assert (a / d) * d == a;
  }

  lemma DivAtMostMinusOne(a: real, d: real)
    requires d > 0.0 && a <= -d
    ensures a / d <= -1.0
  {
    assert (a / d) * d == a;
  }

  lemma MulAtLeast(r: real, m: real)
    requires r >= 1.0 && m >= 0.0
    ensures r * m >= m
  {
    assert r * m - m == (r - 1.0) * m;
  }

  lemma MulAtMost(r: real, m: real)
    requires r <= -1.0 && m >= 0.0
    ensures r * m <= -m
  {
    assert r * m + m == (r + 1.0) * m;
  }

  /** A drag by at least the denominator either way travels at least the whole scroll range that way. */
  lemma DragTravel(startOffset: real, dragDelta: real, den: real, maxScroll: real)
    requires den >= 1.0 && maxScroll >= 0.0
    ensures 0.0 <= startOffset && dragDelta >= den ==> startOffset + dragDelta / den * maxScroll >= maxScroll
    ensures startOffset <= maxScroll && dragDelta <= -den ==> startOffset + dragDelta / den * maxScroll <= 0.0
    ensures dragDelta == 0.0 ==> startOffset + dragDelta / den * maxScroll == startOffset
  {
    if dragDelta >= den {
      DivAtLeastOne(dragDelta, den);
      MulAtLeast(dragDelta / den, maxScroll);
    }
    if dragDelta <= -den {
      DivAtMostMinusOne(dragDelta, den);
      MulAtMost(dragDelta / den, maxScroll);
    }
  }

  /**
   * A thumb drag lands in [0, maxScroll]; a drag by at least the travel
   * denominator (track minus thumb, floored at 1) from an in-range anchor
   * lands exactly on maxScroll, and one by at least that much the other
   * way lands exactly on 0.
   */
  lemma DraggedOffsetSpec(startOffset: real, dragDelta: real, track: real, thumb: real, maxScroll: real)
    requires maxScroll >= 0.0
    ensures var r := DraggedOffset(startOffset, dragDelta, track, thumb, maxScroll);
      var den := Max(track - thumb, 1.0);
      && 0.0 <= r <= maxScroll
      && (0.0 <= startOffset && dragDelta >= den ==> r == maxScroll)
      && (startOffset <= maxScroll && dragDelta <= -den ==> r == 0.0)
      && (dragDelta == 0.0 && 0.0 <= startOffset <= maxScroll ==> r == startOffset)
  {
    var den := Max(track - thumb, 1.0);
    DragTravel(startOffset, dragDelta, den, maxScroll);
  }

  /** Cursor move during a vertical thumb drag (and no resize): only the vertical offset changes, within range. */
  lemma VThumbDragMove(t: Table, bounds: Rect, cursor: Option<Point>, p: Point, s0: Snapshot)
    requires s0.resizingCol.None? && s0.vDraggingScrollbar
    ensures var s := Reconciled(t, bounds, s0);
      var f := FrameOf(t, bounds, s);
      var o := Step(t, bounds, cursor, CursorMoved(p), s0);
      && o.redraw
      && o.state == s.(vScrollOffset := o.state.vScrollOffset)
      && o.state.vScrollOffset == DraggedOffset(s.vDragStartOffset, p.y - s.vDragStartY,
                                                VTrackHeight(bounds), f.vThumb.height, MaxVScroll(t, bounds))
      && 0.0 <= o.state.vScrollOffset <= MaxVScroll(t, bounds)
  {
    var s := Reconciled(t, bounds, s0);
    var f := FrameOf(t, bounds, s);
    DraggedOffsetSpec(s.vDragStartOffset, p.y - s.vDragStartY, VTrackHeight(bounds), f.vThumb.height, f.maxV);
  }

  /** Cursor move during a horizontal thumb drag only (no resize, no vertical drag): only the horizontal offset changes, within range. */
  lemma HThumbDragMove(t: Table, bounds: Rect, cursor: Option<Point>, p: Point, s0: Snapshot)
    requires s0.resizingCol.None? && !s0.vDraggingScrollbar && s0.hDraggingScrollbar
    ensures var s := Reconciled(t, bounds, s0);
      var f := FrameOf(t, bounds, s);
      var o := Step(t, bounds, cursor, CursorMoved(p), s0);
      && o.redraw
      && o.state == s.(hScrollOffset := o.state.hScrollOffset)
      && o.state.hScrollOffset == DraggedOffset(s.hDragStartOffset, p.x - s.hDragStartX,
                                                ViewportWidth(bounds), f.hThumb.width, MaxHScroll(s.colWidths, bounds))
      && 0.0 <= o.state.hScrollOffset <= MaxHScroll(s.colWidths, bounds)
  {
    var s := Reconciled(t, bounds, s0);
    var f := FrameOf(t, bounds, s);
    DraggedOffsetSpec(s.hDragStartOffset, p.x - s.hDragStartX, ViewportWidth(bounds), f.hThumb.width, f.maxH);
  }

  /** Cursor move with no resize and no thumb drag changes nothing and asks for no redraw. */
  lemma IdleMove(t: Table, bounds: Rect, cursor: Option<Point>, p: Point, s0: Snapshot)
    requires s0.resizingCol.None? && !s0.vDraggingScrollbar && !s0.hDraggingScrollbar
    ensures Step(t, bounds, cursor, CursorMoved(p), s0) == Outcome(Reconciled(t, bounds, s0), false)
  {
  }

  /**
   * Left release: a resize in progress is ended and nothing else (thumb
   * drags survive it); otherwise both thumb drags end. A redraw is asked
   * for exactly when some mode was active.
   */
  lemma ReleaseTransitions(t: Table, bounds: Rect, cursor: Option<Point>, s0: Snapshot)
    ensures var s := Reconciled(t, bounds, s0);
      var o := Step(t, bounds, cursor, LeftReleased, s0);
      && o.state.resizingCol.None?
      && (s.resizingCol.Some? ==> o.state == s.(resizingCol := None))
      && (s.resizingCol.None? ==> o.state == s.(vDraggingScrollbar := false, hDraggingScrollbar := false))
      && (o.redraw <==> s.resizingCol.Some? || s.vDraggingScrollbar || s.hDraggingScrollbar)
  {
  }

  predicate IsIdle(s: Snapshot)
  {
    s.resizingCol.None? && !s.vDraggingScrollbar && !s.hDraggingScrollbar
  }

  /** Two releases in a row always leave every mode inactive. */
  lemma TwoReleasesIdle(t: Table, bounds: Rect, c1: Option<Point>, c2: Option<Point>, s0: Snapshot)
    ensures IsIdle(Step(t, bounds, c2, LeftReleased, Step(t, bounds, c1, LeftReleased, s0).state).state)
  {
    ReleaseTransitions(t, bounds, c1, s0);
    ReleaseTransitions(t, bounds, c2, Step(t, bounds, c1, LeftReleased, s0).state);
  }

  /**
   * Wheel over the widget: when the horizontal magnitude is strictly larger
   * only the horizontal offset moves, otherwise (ties included) only the
   * vertical one; line deltas are scaled by MIN_COL_WIDTH horizontally and
   * ROW_HEIGHT vertically, pixel deltas are not; the delta is subtracted
   * and the result clamped. A redraw is always asked for.
   */
  lemma WheelDominantAxis(t: Table, bounds: Rect, cursor: Option<Point>, delta: ScrollDelta, s0: Snapshot)
    requires IsOver(cursor, bounds)
    ensures var s := Reconciled(t, bounds, s0);
      var o := Step(t, bounds, cursor, WheelScrolled(delta), s0);
      var dx := if delta.Lines? then delta.x * MIN_COL_WIDTH else delta.x;
      var dy := if delta.Lines? then delta.y * ROW_HEIGHT else delta.y;
      var maxH := MaxHScroll(s.colWidths, bounds);
      var maxV := MaxVScroll(t, bounds);
      && o.redraw
      && (Abs(delta.x) > Abs(delta.y) ==>
            o.state == s.(hScrollOffset := o.state.hScrollOffset)
            && 0.0 <= o.state.hScrollOffset <= maxH
            && (0.0 <= s.hScrollOffset - dx <= maxH ==> o.state.hScrollOffset == s.hScrollOffset - dx)
            && (s.hScrollOffset - dx < 0.0 ==> o.state.hScrollOffset == 0.0)
            && (s.hScrollOffset - dx > maxH ==> o.state.hScrollOffset == maxH))
      && (Abs(delta.x) <= Abs(delta.y) ==>
            o.state == s.(vScrollOffset := o.state.vScrollOffset)
            && 0.0 <= o.state.vScrollOffset <= maxV
            && (0.0 <= s.vScrollOffset - dy <= maxV ==> o.state.vScrollOffset == s.vScrollOffset - dy)
            && (s.vScrollOffset - dy < 0.0 ==> o.state.vScrollOffset == 0.0)
            && (s.vScrollOffset - dy > maxV ==> o.state.vScrollOffset == maxV))
  {
  }

  /** The vertical step of a navigation key, 0 for keys that scroll horizontally or not at all. */
  function KeyVStep(key: Key, bounds: Rect): real
  {
    var pageSize := ViewportHeight(bounds) - HEADER_HEIGHT;
    match key
    case PageDown => pageSize
    case PageUp => -pageSize
    case ArrowDown => ROW_HEIGHT
    case ArrowUp => -ROW_HEIGHT
    case _ => 0.0
  }

  /**
   * Key press over the widget: Home and End jump to exactly 0 and
   * maxScroll; page and arrow keys step by a page (viewport height minus
   * header), a row or a minimum column width, clamped; only the offset of
   * the key's axis changes. A redraw is asked for on every key, handled or not.
   */
  lemma KeyNavigation(t: Table, bounds: Rect, cursor: Option<Point>, key: Key, s0: Snapshot)
    requires IsOver(cursor, bounds)
    ensures var s := Reconciled(t, bounds, s0);
      var o := Step(t, bounds, cursor, KeyPressed(key), s0);
      var maxH := MaxHScroll(s.colWidths, bounds);
      var maxV := MaxVScroll(t, bounds);
      var hStep := if key.ArrowRight? then MIN_COL_WIDTH else if key.ArrowLeft? then -MIN_COL_WIDTH else 0.0;
      && o.redraw
      && (key.Home? ==> o.state == s.(vScrollOffset := 0.0))
      && (key.End? ==> o.state == s.(vScrollOffset := maxV))
      && (key.PageDown? || key.PageUp? || key.ArrowDown? || key.ArrowUp? ==>
            o.state == s.(vScrollOffset := o.state.vScrollOffset)
            && 0.0 <= o.state.vScrollOffset <= maxV
            && (0.0 <= s.vScrollOffset + KeyVStep(key, bounds) <= maxV ==>
                  o.state.vScrollOffset == s.vScrollOffset + KeyVStep(key, bounds))
            && (s.vScrollOffset + KeyVStep(key, bounds) < 0.0 ==> o.state.vScrollOffset == 0.0)
            && (s.vScrollOffset + KeyVStep(key, bounds) > maxV ==> o.state.vScrollOffset == maxV))
      && (key.ArrowRight? || key.ArrowLeft? ==>
            o.state == s.(hScrollOffset := o.state.hScrollOffset)
            && 0.0 <= o.state.hScrollOffset <= maxH
            && (0.0 <= s.hScrollOffset + hStep <= maxH ==> o.state.hScrollOffset == s.hScrollOffset + hStep)
            && (s.hScrollOffset + hStep < 0.0 ==> o.state.hScrollOffset == 0.0)
            && (s.hScrollOffset + hStep > maxH ==> o.state.hScrollOffset == maxH))
      && (key.OtherKey? ==> o.state == s)
  {
  }

  /** Every event keeps the widths at least MIN_COL_WIDTH and both offsets within [0, maxScroll]. */
  lemma StepKeepsInvariant(t: Table, bounds: Rect, input: Input, s0: Snapshot)
    requires Inv(t, bounds, s0)
    ensures Inv(t, bounds, Step(t, bounds, input.cursor, input.event, s0).state)
  {
    match input.event
    case CursorMoved(p) => MoveKeepsInvariant(t, bounds, input.cursor, p, s0);
    case LeftPressed => PressKeepsInvariant(t, bounds, input.cursor, s0);
    case _ => OtherKeepsInvariant(t, bounds, input.cursor, input.event, s0);
  }

  lemma MoveKeepsInvariant(t: Table, bounds: Rect, cursor: Option<Point>, p: Point, s0: Snapshot)
    requires Inv(t, bounds, s0)
    ensures Inv(t, bounds, Step(t, bounds, cursor, CursorMoved(p), s0).state)
  {
    var s := Reconciled(t, bounds, s0);
    ReconciledWidthsBounded(t, s0.colWidths, ViewportWidth(bounds));
    if s.resizingCol.Some? {
      ResizeMove(t, bounds, cursor, p, s0);
    } else if s.vDraggingScrollbar {
      VThumbDragMove(t, bounds, cursor, p, s0);
    } else if s.hDraggingScrollbar {
      HThumbDragMove(t, bounds, cursor, p, s0);
    }
  }

  lemma PressKeepsInvariant(t: Table, bounds: Rect, cursor: Option<Point>, s0: Snapshot)
    requires Inv(t, bounds, s0)
    ensures Inv(t, bounds, Step(t, bounds, cursor, LeftPressed, s0).state)
  {
    ReconciledWidthsBounded(t, s0.colWidths, ViewportWidth(bounds));
    if cursor.Some? {
      PressPreserves(t, bounds, cursor.value, s0);
    }
  }

  lemma OtherKeepsInvariant(t: Table, bounds: Rect, cursor: Option<Point>, ev: Event, s0: Snapshot)
    requires Inv(t, bounds, s0) && !ev.CursorMoved? && !ev.LeftPressed?
    ensures Inv(t, bounds, Step(t, bounds, cursor, ev, s0).state)
  {
    ReconciledWidthsBounded(t, s0.colWidths, ViewportWidth(bounds));
    match ev
    case WheelScrolled(delta) =>
      if IsOver(cursor, bounds) {
        WheelDominantAxis(t, bounds, cursor, delta, s0);
      }
    case KeyPressed(key) =>
      if IsOver(cursor, bounds) {
        KeyNavigation(t, bounds, cursor, key, s0);
      }
    case LeftReleased =>
      ReleaseTransitions(t, bounds, cursor, s0);
    case OtherEvent =>
  }

  /** The state after feeding the widget a sequence of inputs, in order, with the table and the bounds fixed throughout. */
  function Run(t: Table, bounds: Rect, inputs: seq<Input>, s: Snapshot): (r: Snapshot)
    requires ResizeIndexOk(t, s)
    ensures ResizeIndexOk(t, r)
    decreases |inputs|
  {
    if inputs == [] then s
    else Run(t, bounds, inputs[1..], Step(t, bounds, inputs[0].cursor, inputs[0].event, s).state)
  }

  /**
   * For a fixed table and fixed bounds, no sequence of events, however
   * long, takes a width below the minimum or an offset out of
   * [0, maxScroll]. A change of bounds between events is not covered: see
   * StaleOffsetAfterBoundsChange.
   */
  lemma {:induction false} RunKeepsInvariant(t: Table, bounds: Rect, inputs: seq<Input>, s: Snapshot)
    requires Inv(t, bounds, s)
    ensures Inv(t, bounds, Run(t, bounds, inputs, s))
    decreases |inputs|
  {
    if inputs != [] {
      StepKeepsInvariant(t, bounds, inputs[0], s);
      RunKeepsInvariant(t, bounds, inputs[1..], Step(t, bounds, inputs[0].cursor, inputs[0].event, s).state);
    }
  }

  // ----- offsets after a change of bounds -----

  /**
   * The step clamps an offset only when an event moves it: an offset in
   * range at one widget size is kept when the widget grows and the range
   * shrinks below it.
   */
  lemma StaleOffsetAfterBoundsChange(t: Table, small: Rect, large: Rect, s: Snapshot)
    requires t == Table(["a"], [seq(20, _ => "v")], 20, 0, None)
    requires small == Rect(0.0, 0.0, 800.0, 600.0) && large == Rect(0.0, 0.0, 800.0, 800.0)
    requires s == InitialState().(colWidths := [788.0], vScrollOffset := 4.0)
    ensures Inv(t, small, s)
    ensures MaxVScroll(t, large) == 0.0
    ensures Step(t, large, None, OtherEvent, s).state.vScrollOffset == 4.0
    ensures !Inv(t, large, Step(t, large, None, OtherEvent, s).state)
  {
  }

  /** The record with both offsets clamped into the ranges of the current bounds. */
  function ClampedToFrame(t: Table, bounds: Rect, s: Snapshot): (r: Snapshot)
    ensures r == s.(vScrollOffset := r.vScrollOffset, hScrollOffset := r.hScrollOffset)
    ensures 0.0 <= r.vScrollOffset <= MaxVScroll(t, bounds) && 0.0 <= r.hScrollOffset <= MaxHScroll(s.colWidths, bounds)
    ensures 0.0 <= s.vScrollOffset <= MaxVScroll(t, bounds) ==> r.vScrollOffset == s.vScrollOffset
    ensures 0.0 <= s.hScrollOffset <= MaxHScroll(s.colWidths, bounds) ==> r.hScrollOffset == s.hScrollOffset
  {
    s.(vScrollOffset := Clamp(s.vScrollOffset, 0.0, MaxVScroll(t, bounds)),
       hScrollOffset := Clamp(s.hScrollOffset, 0.0, MaxHScroll(s.colWidths, bounds)))
  }

  /** The update step with the offsets clamped to the current bounds after reconciling and before the event is handled. */
  function StepClamped(t: Table, bounds: Rect, cursor: Option<Point>, ev: Event, s0: Snapshot): Outcome
    requires ev.CursorMoved? ==> ResizeIndexOk(t, s0)
  {
    Step(t, bounds, cursor, ev, ClampedToFrame(t, bounds, Reconciled(t, bounds, s0)))
  }

  /**
   * With the clamp, a record whose widths and resize index are valid ends
   * every event inside the invariant of the bounds the widget has now,
   * whatever bounds it had before.
   */
  lemma ClampedStepKeepsInvariant(t: Table, bounds: Rect, input: Input, s0: Snapshot)
    requires ResizeIndexOk(t, s0) && AllAtLeast(s0.colWidths, MIN_COL_WIDTH)
    ensures Inv(t, bounds, StepClamped(t, bounds, input.cursor, input.event, s0).state)
  {
    var s1 := ClampedToFrame(t, bounds, Reconciled(t, bounds, s0));
    ReconciledWidthsBounded(t, s0.colWidths, ViewportWidth(bounds));
    assert Inv(t, bounds, s1);
    StepKeepsInvariant(t, bounds, input, s1);
  }

  /**
   * The resize cursor is shown over exactly the points where a press
   * would start a resize (for reconciled widths and no resize in
   * progress), and always while a resize is in progress.
   */
  lemma AffordanceMatchesPress(t: Table, bounds: Rect, p: Point, s: Snapshot)
    requires |s.colWidths| == ColCount(t)
    ensures s.resizingCol.None? ==>
      ((MouseInteraction(s, bounds, Some(p)) == ResizingHorizontally)
         <==> Step(t, bounds, Some(p), LeftPressed, s).state.resizingCol.Some?)
    ensures Step(t, bounds, Some(p), LeftPressed, s).state.resizingCol.Some? ==>
      forall c :: MouseInteraction(Step(t, bounds, Some(p), LeftPressed, s).state, bounds, c) == ResizingHorizontally
  {
    assert Reconciled(t, bounds, s) == s;
  }

  // ----- scenarios -----

  /** Four columns of ten loaded rows, fixed width 80, paged into a million logical rows at offset 500000. */
  function PagedExampleTable(): Table
  {
    Table(["a", "b", "c", "d"], seq(4, _ => seq(10, _ => "v")), 1000000, 500000, Some(80.0))
  }

  function ExampleBounds(): Rect
  {
    Rect(0.0, 0.0, 800.0, 600.0)
  }

  /** One wheel notch of three lines downwards over a fresh widget scrolls by three rows, 84 pixels. */
  lemma WheelScenario()
    ensures var o := Step(PagedExampleTable(), ExampleBounds(), Some(Point(100.0, 300.0)),
                          WheelScrolled(Lines(0.0, -3.0)), InitialState());
      o.state.vScrollOffset == 84.0 && o.state.hScrollOffset == 0.0 && o.redraw
      && o.state.colWidths == [80.0, 80.0, 80.0, 80.0]
  {
    var t := PagedExampleTable();
    var s := Reconciled(t, ExampleBounds(), InitialState());
    assert s.colWidths == [80.0, 80.0, 80.0, 80.0];
    assert MaxVScroll(t, ExampleBounds()) == 32.0 + 28000000.0 - 588.0;
  }

  /**
   * Press two pixels right of the first divider, move 20 pixels right,
   * release: the first column is 20 pixels wider, the resize is over, and
   * the next event keeps the new width.
   */
  lemma ResizeScenario()
    ensures var t, b := PagedExampleTable(), ExampleBounds();
      var s1 := Step(t, b, Some(Point(82.0, 10.0)), LeftPressed, InitialState()).state;
      var s2 := Step(t, b, Some(Point(102.0, 10.0)), CursorMoved(Point(102.0, 10.0)), s1).state;
      var s3 := Step(t, b, Some(Point(102.0, 10.0)), LeftReleased, s2).state;
      var s4 := Step(t, b, None, OtherEvent, s3).state;
      && s1.resizingCol == Some(0) && s1.resizeDragStartWidth == 80.0
      && s2.colWidths == [100.0, 80.0, 80.0, 80.0]
      && s3.resizingCol.None? && s3.colWidths == [100.0, 80.0, 80.0, 80.0]
      && s4.colWidths == [100.0, 80.0, 80.0, 80.0]
  {
    var t, b := PagedExampleTable(), ExampleBounds();
    var p, q := Point(82.0, 10.0), Point(102.0, 10.0);
    var s1 := Step(t, b, Some(p), LeftPressed, InitialState()).state;
    ResizeScenarioPress(t, b, p, InitialState());
    var s2 := Step(t, b, Some(q), CursorMoved(q), s1).state;
    ResizeScenarioMove(t, b, q, s1);
    var s3 := Step(t, b, Some(q), LeftReleased, s2).state;
    ResizeScenarioKeep(t, b, Some(q), LeftReleased, s2);
    ResizeScenarioKeep(t, b, None, OtherEvent, s3);
  }

  /** The press of the resize scenario lands two pixels right of the first divider and starts its resize. */
  lemma ResizeScenarioPress(t: Table, b: Rect, p: Point, s0: Snapshot)
    requires t == PagedExampleTable() && b == ExampleBounds() && p == Point(82.0, 10.0) && s0 == InitialState()
    ensures Step(t, b, Some(p), LeftPressed, s0).state
      == s0.(colWidths := [80.0, 80.0, 80.0, 80.0], resizingCol := Some(0), resizeDragStartX := 82.0, resizeDragStartWidth := 80.0)
  {
    var s := Reconciled(t, b, s0);
    var w := [80.0, 80.0, 80.0, 80.0];
    assert s.colWidths == w;
    assert w[..0] == [];
    assert DividerX(w, 0) == 80.0;
    assert NearDivider(w, 0, 82.0);
    assert DividerHit(w, 0.0, b, 82.0, 10.0) == Some(0);
  }

  /** The move of the resize scenario widens the first column by the 20 pixels the cursor travelled. */
  lemma ResizeScenarioMove(t: Table, b: Rect, q: Point, s1: Snapshot)
    requires t == PagedExampleTable() && b == ExampleBounds() && q == Point(102.0, 10.0)
    requires s1 == InitialState().(colWidths := [80.0, 80.0, 80.0, 80.0], resizingCol := Some(0),
                                   resizeDragStartX := 82.0, resizeDragStartWidth := 80.0)
    ensures Step(t, b, Some(q), CursorMoved(q), s1).state == s1.(colWidths := [100.0, 80.0, 80.0, 80.0])
  {
    assert Reconciled(t, b, s1) == s1;
    assert s1.colWidths[0 := 100.0] == [100.0, 80.0, 80.0, 80.0];
  }

  /** Release and unhandled events keep widths that already match the column count. */
  lemma ResizeScenarioKeep(t: Table, b: Rect, cursor: Option<Point>, ev: Event, s: Snapshot)
    requires ev.LeftReleased? || ev.OtherEvent?
    requires |s.colWidths| == ColCount(t)
    ensures Step(t, b, cursor, ev, s).state.colWidths == s.colWidths
    ensures ev.LeftReleased? ==> Step(t, b, cursor, ev, s).state.resizingCol.None?
  {
    assert Reconciled(t, b, s) == s;
  }

  // ----- the in-place step -----

  /** Reconciles the state's widths with the column count in place and returns them. */
  method ColWidths(t: Table, s: TableState, viewportWidth: real) returns (widths: seq<real>)
    modifies s
    ensures s.Value() == old(s.Value()).(colWidths := ReconciledWidths(t, old(s.colWidths), viewportWidth))
    ensures widths == s.colWidths
  {
    var colCount := |t.columns|;
    if |s.colWidths| != colCount {
      var default := DefaultColWidth(t, viewportWidth);
      s.colWidths := seq(colCount, _ => default);
    }
    widths := s.colWidths;
  }

  /** Left press: a divider hit starts a resize; otherwise a thumb hit starts a thumb drag. */
  method PressInPlace(s: TableState, bounds: Rect, cursor: Option<Point>, vThumb: Rect, hThumb: Rect)
    returns (redraw: bool)
    modifies s
    ensures var f := Frame(0.0, 0.0, 0.0, 0.0, vThumb, hThumb);
      Outcome(s.Value(), redraw) == OnPress(bounds, cursor, old(s.Value()), f)
  {
    redraw := false;
    if cursor.Some? {
      var pos := cursor.value;
      var hit := DividerAtCursor(s.colWidths, s.hScrollOffset, bounds, pos.x, pos.y);
      if hit.Some? {
        s.resizingCol := hit;
        s.resizeDragStartX := pos.x;
        s.resizeDragStartWidth := s.colWidths[hit.value];
        return true;
      }
      if Contains(vThumb, pos) {
        s.vDraggingScrollbar := true;
        s.vDragStartY := pos.y;
        s.vDragStartOffset := s.vScrollOffset;
        redraw := true;
      } else if Contains(hThumb, pos) {
        s.hDraggingScrollbar := true;
        s.hDragStartX := pos.x;
        s.hDragStartOffset := s.hScrollOffset;
        redraw := true;
      }
    }
  }

  /** Cursor move: continues the resize or the thumb drag in progress, if any. */
  method MoveInPlace(s: TableState, bounds: Rect, position: Point, f: Frame) returns (redraw: bool)
    requires s.resizingCol.Some? ==> s.resizingCol.value < |s.colWidths|
    requires f.maxV >= 0.0 && f.maxH >= 0.0
    modifies s
    ensures Outcome(s.Value(), redraw) == OnMove(bounds, position, old(s.Value()), f)
  {
    redraw := false;
    if s.resizingCol.Some? {
      ResizeDragInPlace(s, bounds, position, f);
      redraw := true;
    } else if s.vDraggingScrollbar {
      VThumbDragInPlace(s, bounds, position, f);
      redraw := true;
    } else if s.hDraggingScrollbar {
      HThumbDragInPlace(s, bounds, position, f);
      redraw := true;
    }
  }

  /** The resized column follows the cursor; the horizontal offset is pulled back into the new range. */
  method ResizeDragInPlace(s: TableState, bounds: Rect, position: Point, f: Frame)
    requires s.resizingCol.Some? && s.resizingCol.value < |s.colWidths|
    requires f.maxV >= 0.0 && f.maxH >= 0.0
    modifies s
    ensures s.Value() == OnMove(bounds, position, old(s.Value()), f).state
  {
    var colIdx := s.resizingCol.value;
    var delta := position.x - s.resizeDragStartX;
    s.colWidths := s.colWidths[colIdx := Max(s.resizeDragStartWidth + delta, MIN_COL_WIDTH)];
    var newTotalW := TotalContentWidth(s.colWidths);
    var newMaxH := Max(newTotalW - f.viewportW, 0.0);
    s.hScrollOffset := Min(s.hScrollOffset, newMaxH);
  }

  method VThumbDragInPlace(s: TableState, bounds: Rect, position: Point, f: Frame)
    requires s.resizingCol.None? && s.vDraggingScrollbar
    requires f.maxV >= 0.0 && f.maxH >= 0.0
    modifies s
    ensures s.Value() == OnMove(bounds, position, old(s.Value()), f).state
  {
    var dragDelta := position.y - s.vDragStartY;
    var trackH := bounds.height - HEADER_HEIGHT - H_SCROLLBAR_HEIGHT;
    var thumbH := f.vThumb.height;
    var scrollRatio := dragDelta / Max(trackH - thumbH, 1.0);
    s.vScrollOffset := Clamp(s.vDragStartOffset + scrollRatio * f.maxV, 0.0, f.maxV);
  }

  method HThumbDragInPlace(s: TableState, bounds: Rect, position: Point, f: Frame)
    requires s.resizingCol.None? && !s.vDraggingScrollbar && s.hDraggingScrollbar
    requires f.maxV >= 0.0 && f.maxH >= 0.0
    modifies s
    ensures s.Value() == OnMove(bounds, position, old(s.Value()), f).state
  {
    var dragDelta := position.x - s.hDragStartX;
    var trackW := f.viewportW;
    var thumbW := f.hThumb.width;
    var scrollRatio := dragDelta / Max(trackW - thumbW, 1.0);
    s.hScrollOffset := Clamp(s.hDragStartOffset + scrollRatio * f.maxH, 0.0, f.maxH);
  }

  /** Left release: ends the resize if one is in progress, else ends both thumb drags. */
  method ReleaseInPlace(s: TableState) returns (redraw: bool)
    modifies s
    ensures Outcome(s.Value(), redraw) == OnRelease(old(s.Value()))
  {
    redraw := false;
    if s.resizingCol.Some? {
      s.resizingCol := None;
      redraw := true;
    } else if s.vDraggingScrollbar || s.hDraggingScrollbar {
      s.vDraggingScrollbar := false;
      s.hDraggingScrollbar := false;
      redraw := true;
    }
  }

  method WheelInPlace(s: TableState, f: Frame, delta: ScrollDelta)
    requires f.maxV >= 0.0 && f.maxH >= 0.0
    modifies s
    ensures s.Value() == OnWheel(old(s.Value()), f, delta)
  {
    match delta {
      case Lines(x, y) =>
        if Abs(x) > Abs(y) {
          s.hScrollOffset := Clamp(s.hScrollOffset - x * MIN_COL_WIDTH, 0.0, f.maxH);
        } else {
          s.vScrollOffset := Clamp(s.vScrollOffset - y * ROW_HEIGHT, 0.0, f.maxV);
        }
      case Pixels(x, y) =>
        if Abs(x) > Abs(y) {
          s.hScrollOffset := Clamp(s.hScrollOffset - x, 0.0, f.maxH);
        } else {
          s.vScrollOffset := Clamp(s.vScrollOffset - y, 0.0, f.maxV);
        }
    }
  }

  method KeyInPlace(s: TableState, f: Frame, key: Key)
    requires f.maxV >= 0.0 && f.maxH >= 0.0
    modifies s
    ensures s.Value() == OnKey(old(s.Value()), f, key)
  {
    var pageSize := f.viewportH - HEADER_HEIGHT;
    match key {
      case PageDown => s.vScrollOffset := Clamp(s.vScrollOffset + pageSize, 0.0, f.maxV);
      case PageUp => s.vScrollOffset := Clamp(s.vScrollOffset - pageSize, 0.0, f.maxV);
      case Home => s.vScrollOffset := 0.0;
      case End => s.vScrollOffset := f.maxV;
      case ArrowDown => s.vScrollOffset := Clamp(s.vScrollOffset + ROW_HEIGHT, 0.0, f.maxV);
      case ArrowUp => s.vScrollOffset := Clamp(s.vScrollOffset - ROW_HEIGHT, 0.0, f.maxV);
      case ArrowRight => s.hScrollOffset := Clamp(s.hScrollOffset + MIN_COL_WIDTH, 0.0, f.maxH);
      case ArrowLeft => s.hScrollOffset := Clamp(s.hScrollOffset - MIN_COL_WIDTH, 0.0, f.maxH);
      case OtherKey =>
    }
  }

  /** The widget's update step, changing the state record in place and reporting whether to redraw. */
  method Update(t: Table, s: TableState, ev: Event, bounds: Rect, cursor: Option<Point>) returns (redraw: bool)
    requires ev.CursorMoved? ==> ResizeIndexOk(t, s.Value())
    modifies s
    ensures Outcome(s.Value(), redraw) == Step(t, bounds, cursor, ev, old(s.Value()))
  {
    var viewportW := bounds.width - V_SCROLLBAR_WIDTH;
    var _ := ColWidths(t, s, viewportW);
    var totalH := TotalContentHeight(t);
    var totalW := TotalContentWidth(s.colWidths);
    var viewportH := bounds.height - H_SCROLLBAR_HEIGHT;
    var maxV := Max(totalH - viewportH, 0.0);
    var maxH := Max(totalW - viewportW, 0.0);
    var vThumb := VScrollbarThumbRect(t, bounds, s.vScrollOffset);
    var hThumb := HScrollbarThumbRect(bounds, s.hScrollOffset, s.colWidths);
    var f := Frame(viewportW, viewportH, maxV, maxH, vThumb, hThumb);
    assert f == FrameOf(t, bounds, s.Value());
    redraw := false;
    match ev {
      case LeftPressed =>
        redraw := PressInPlace(s, bounds, cursor, vThumb, hThumb);
      case CursorMoved(position) =>
        redraw := MoveInPlace(s, bounds, position, f);
      case LeftReleased =>
        redraw := ReleaseInPlace(s);
      case WheelScrolled(delta) =>
        if IsOver(cursor, bounds) {
          WheelInPlace(s, f, delta);
          redraw := true;
        }
      case KeyPressed(key) =>
        if IsOver(cursor, bounds) {
          KeyInPlace(s, f, key);
          redraw := true;
        }
      case OtherEvent =>
    }
  }
}
