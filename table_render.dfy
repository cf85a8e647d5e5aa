/**
 * The clipped renderer of the data-grid widget, as an abstract sequence of
 * draw commands. Colours, clip layers, text layout and exact pixel
 * rectangles of cells are not modelled; each command names the row, the
 * column or the stripe it draws.
 *
 * Row arithmetic writes ROW_HEIGHT out as 28.0 where it multiplies a row
 * index, so that the products stay linear.
 */
module TableRender {
  import opened TableLayout
  import TableInteraction

  datatype Stripe = EvenStripe | OddStripe

  datatype DrawCmd =
    | Panel                                         // background of the whole widget
    | HeaderBand                                    // background of the header band
    | HeaderDivider(col: nat)                       // vertical line left of a header cell
    | HeaderLabel(col: nat, caption: string)        // bold header text
    | HeaderSeparator                               // line between header and rows
    | RowBand(row: nat, stripe: Stripe)             // row background and its bottom border
    | CellDivider(row: nat, col: nat)               // vertical line left of a body cell
    | CellText(row: nat, col: nat, content: string) // body text
    | VThumb(rect: Rect)
    | HThumb(rect: Rect)

  /** Stripe by absolute row index, so it stays put when the loaded window shifts. */
  function StripeOf(absIdx: nat): (st: Stripe)
    ensures st == EvenStripe <==> absIdx % 2 == 0
  {
    if absIdx % 2 == 0 then EvenStripe else OddStripe
  }

  /** Cast of a floored value to an unsigned index: negative values become 0. */
  function SatFloor(r: real): nat
  {
    if r.Floor < 0 then 0 else r.Floor
  }

  /** Cast of a ceiled value to an unsigned index: negative values become 0. */
  function SatCeil(r: real): nat
  {
    var c := -((-r).Floor);
    if c < 0 then 0 else c
  }

  function FirstVisibleRow(vScroll: real): nat
  {
    SatFloor(vScroll / 28.0)
  }

  function VisibleRowCount(bounds: Rect): nat
  {
    SatCeil((bounds.height - HEADER_HEIGHT) / 28.0) + 1
  }

  /** Rows the row walk visits before it stops at the end of the walk or at the first unloaded row. */
  function VisitedRowCount(t: Table, bounds: Rect, vScroll: real): nat
  {
    var first, loaded := FirstVisibleRow(vScroll), LoadedRowCount(t);
    if loaded <= first then 0
    else if VisibleRowCount(bounds) + 1 <= loaded - first then VisibleRowCount(bounds) + 1
    else loaded - first
  }

  /** The screen x of column i's left edge: the running sum of the widths before it, shifted by the scroll. */
  function CellX(bounds: Rect, hScroll: real, widths: seq<real>, i: nat): real
    requires i <= |widths|
  {
    bounds.x - hScroll + LeftEdge(widths, i)
  }

  /** The culling test: a column is drawn iff its extent touches the viewport's horizontal span. */
  predicate ColumnVisible(bounds: Rect, cellX: real, colW: real)
  {
    cellX + colW >= bounds.x && cellX <= bounds.x + ViewportWidth(bounds)
  }

  predicate ColumnShown(bounds: Rect, hScroll: real, widths: seq<real>, c: nat)
    requires c < |widths|
  {
    ColumnVisible(bounds, CellX(bounds, hScroll, widths, c), widths[c])
  }

  /** The row lies wholly above the rows area; the row walk skips such a row. */
  predicate RowAboveViewport(bounds: Rect, vScroll: real, row: nat)
  {
    var rowY := bounds.y + HEADER_HEIGHT + row as real * 28.0 - vScroll;
    rowY + ROW_HEIGHT < bounds.y + HEADER_HEIGHT
  }

  /** Every row from the first visible one on reaches the rows area, so the walk never skips a row. */
  lemma RowNotAboveViewport(bounds: Rect, vScroll: real, row: nat)
    requires FirstVisibleRow(vScroll) <= row
    ensures !RowAboveViewport(bounds, vScroll, row)
  {
    var q := vScroll / 28.0;
    assert vScroll == q * 28.0;
    if q.Floor >= 0 {
      assert q < row as real + 1.0;
    }
  }

  // ----- blocks of commands -----

  /** The commands of consecutive blocks, in order. */
  function Flatten(blocks: seq<seq<DrawCmd>>): seq<DrawCmd>
  {
    if |blocks| == 0 then [] else Flatten(blocks[..|blocks| - 1]) + blocks[|blocks| - 1]
  }

  lemma FlattenSnoc(blocks: seq<seq<DrawCmd>>, b: seq<DrawCmd>)
    ensures Flatten(blocks + [b]) == Flatten(blocks) + b
  {
    assert (blocks + [b])[..|blocks|] == blocks;
  }

  /** A command is in the flattening iff it is in one of the blocks. */
  lemma {:induction false} FlattenMembership(blocks: seq<seq<DrawCmd>>, x: DrawCmd)
    ensures x in Flatten(blocks) <==> exists i :: 0 <= i < |blocks| && x in blocks[i]
  {
    if |blocks| > 0 {
      var init := blocks[..|blocks| - 1];
      FlattenMembership(init, x);
      if x in Flatten(init) {
        var i :| 0 <= i < |init| && x in init[i];
        assert blocks[i] == init[i];
      }
      if exists i :: 0 <= i < |blocks| && x in blocks[i] {
        var i :| 0 <= i < |blocks| && x in blocks[i];
        if i < |init| {
          assert init[i] == blocks[i];
        }
      }
    }
  }

  // ----- the specification of the draw output -----

  function HeaderColumnCmds(t: Table, widths: seq<real>, bounds: Rect, hScroll: real, c: nat): seq<DrawCmd>
    requires c < |t.headers| <= |widths|
  {
    if ColumnShown(bounds, hScroll, widths, c) then
      (if c > 0 then [HeaderDivider(c)] else []) + [HeaderLabel(c, t.headers[c])]
    else []
  }

  /** One block per header cell, left to right. */
  function HeaderBlocks(t: Table, widths: seq<real>, bounds: Rect, hScroll: real, n: nat): seq<seq<DrawCmd>>
    requires n <= |t.headers| <= |widths|
  {
    if n == 0 then []
    else HeaderBlocks(t, widths, bounds, hScroll, n - 1) + [HeaderColumnCmds(t, widths, bounds, hScroll, n - 1)]
  }

  function HeaderCmds(t: Table, widths: seq<real>, bounds: Rect, hScroll: real): seq<DrawCmd>
    requires |t.headers| <= |widths|
  {
    Flatten(HeaderBlocks(t, widths, bounds, hScroll, |t.headers|))
  }

  function CellCmds(t: Table, widths: seq<real>, bounds: Rect, hScroll: real, row: nat, c: nat): seq<DrawCmd>
    requires c < |t.columns| <= |widths|
  {
    if ColumnShown(bounds, hScroll, widths, c) then
      (if c > 0 then [CellDivider(row, c)] else [])
      + (if row < |t.columns[c]| then [CellText(row, c, t.columns[c][row])] else [])
    else []
  }

  /** One block per body cell of a row, left to right. */
  function CellBlocks(t: Table, widths: seq<real>, bounds: Rect, hScroll: real, row: nat, n: nat): seq<seq<DrawCmd>>
    requires n <= |t.columns| <= |widths|
  {
    if n == 0 then []
    else CellBlocks(t, widths, bounds, hScroll, row, n - 1) + [CellCmds(t, widths, bounds, hScroll, row, n - 1)]
  }

  function RowCellsCmds(t: Table, widths: seq<real>, bounds: Rect, hScroll: real, row: nat): seq<DrawCmd>
    requires |t.columns| <= |widths|
  {
    Flatten(CellBlocks(t, widths, bounds, hScroll, row, |t.columns|))
  }

  function RowCmds(t: Table, widths: seq<real>, bounds: Rect, hScroll: real, vScroll: real, row: nat): seq<DrawCmd>
    requires |t.columns| <= |widths|
  {
    if RowAboveViewport(bounds, vScroll, row) then []
    else [RowBand(row, StripeOf(t.rowOffset + row))] + RowCellsCmds(t, widths, bounds, hScroll, row)
  }

  /** One block per row of the walk, from the first visible row down. */
  function RowBlocks(t: Table, widths: seq<real>, bounds: Rect, hScroll: real, vScroll: real, n: nat): seq<seq<DrawCmd>>
    requires |t.columns| <= |widths|
  {
    if n == 0 then []
    else RowBlocks(t, widths, bounds, hScroll, vScroll, n - 1)
         + [RowCmds(t, widths, bounds, hScroll, vScroll, FirstVisibleRow(vScroll) + n - 1)]
  }

  function RowsCmds(t: Table, widths: seq<real>, bounds: Rect, hScroll: real, vScroll: real): seq<DrawCmd>
    requires |t.columns| <= |widths|
  {
    Flatten(RowBlocks(t, widths, bounds, hScroll, vScroll, VisitedRowCount(t, bounds, vScroll)))
  }

  /** Thumbs as the widget draws them: the vertical one only when the content is taller than the whole widget. */
  function ThumbCmdsAsWritten(t: Table, widths: seq<real>, vScroll: real, hScroll: real, bounds: Rect): (cmds: seq<DrawCmd>)
    ensures VThumb(VScrollbarThumbRect(t, bounds, vScroll)) in cmds <==> TotalContentHeight(t) > bounds.height
    ensures HThumb(HScrollbarThumbRect(bounds, hScroll, widths)) in cmds <==> MaxHScroll(widths, bounds) > 0.0
  {
    (if TotalContentHeight(t) > bounds.height then [VThumb(VScrollbarThumbRect(t, bounds, vScroll))] else [])
    + (if TotalContentWidth(widths) > ViewportWidth(bounds) then [HThumb(HScrollbarThumbRect(bounds, hScroll, widths))] else [])
  }

  /** Thumbs drawn exactly when their axis can scroll: the vertical one when the content is taller than the viewport. */
  function ThumbCmds(t: Table, widths: seq<real>, vScroll: real, hScroll: real, bounds: Rect): seq<DrawCmd>
  {
    (if TotalContentHeight(t) > ViewportHeight(bounds) then [VThumb(VScrollbarThumbRect(t, bounds, vScroll))] else [])
    + (if TotalContentWidth(widths) > ViewportWidth(bounds) then [HThumb(HScrollbarThumbRect(bounds, hScroll, widths))] else [])
  }

  /** The widths the renderer can index: none at all, or one for every header and every column. */
  predicate DrawableWidths(t: Table, widths: seq<real>)
  {
    |widths| == 0 || (|t.headers| <= |widths| && |t.columns| <= |widths|)
  }

  /** Everything of a frame before the thumbs: background, header band, header cells, separator and rows. */
  function FrameBody(t: Table, widths: seq<real>, vScroll: real, hScroll: real, bounds: Rect): seq<DrawCmd>
    requires |t.headers| <= |widths| && |t.columns| <= |widths|
  {
    [Panel, HeaderBand] + HeaderCmds(t, widths, bounds, hScroll) + [HeaderSeparator]
    + RowsCmds(t, widths, bounds, hScroll, vScroll)
  }

  /** Everything the widget draws for one frame, in order. */
  function DrawSpec(t: Table, widths: seq<real>, vScroll: real, hScroll: real, bounds: Rect): (cmds: seq<DrawCmd>)
    requires DrawableWidths(t, widths)
    ensures cmds == [] <==> |widths| == 0
    ensures |widths| > 0 ==> |cmds| >= 2 && cmds[0] == Panel && cmds[1] == HeaderBand
  {
    if |widths| == 0 then []
    else FrameBody(t, widths, vScroll, hScroll, bounds) + ThumbCmdsAsWritten(t, widths, vScroll, hScroll, bounds)
  }

  /** The same frame with the vertical thumb drawn whenever the content can scroll vertically. */
  function DrawSpecCorrected(t: Table, widths: seq<real>, vScroll: real, hScroll: real, bounds: Rect): seq<DrawCmd>
    requires DrawableWidths(t, widths)
  {
    if |widths| == 0 then []
    else FrameBody(t, widths, vScroll, hScroll, bounds) + ThumbCmds(t, widths, vScroll, hScroll, bounds)
  }

  // ----- the draw pass -----

  /** The header cells, left to right, with the running left edge of each column. */
  method DrawHeaderCells(t: Table, widths: seq<real>, hScroll: real, bounds: Rect) returns (cmds: seq<DrawCmd>)
    requires |t.headers| <= |widths|
    ensures cmds == HeaderCmds(t, widths, bounds, hScroll)
  {
    var viewportW := bounds.width - V_SCROLLBAR_WIDTH;
    cmds := [];
    var cellX := bounds.x - hScroll;
    for colIdx := 0 to |t.headers|
      invariant cellX == CellX(bounds, hScroll, widths, colIdx)
      invariant cmds == Flatten(HeaderBlocks(t, widths, bounds, hScroll, colIdx))
    {
      FlattenSnoc(HeaderBlocks(t, widths, bounds, hScroll, colIdx), HeaderColumnCmds(t, widths, bounds, hScroll, colIdx));
      var colW := widths[colIdx];
      if cellX + colW >= bounds.x && cellX <= bounds.x + viewportW {
        if colIdx > 0 {
          cmds := cmds + [HeaderDivider(colIdx)];
        }
        cmds := cmds + [HeaderLabel(colIdx, t.headers[colIdx])];
      }
      SumSnoc(widths, colIdx);
      cellX := cellX + colW;
    }
  }

  /** The cells of one body row, left to right, culled like the header cells. */
  method DrawRowCells(t: Table, widths: seq<real>, hScroll: real, bounds: Rect, rowIdx: nat) returns (cmds: seq<DrawCmd>)
    requires |t.columns| <= |widths|
    ensures cmds == RowCellsCmds(t, widths, bounds, hScroll, rowIdx)
  {
    var viewportW := bounds.width - V_SCROLLBAR_WIDTH;
    cmds := [];
    var cellX := bounds.x - hScroll;
    for colIdx := 0 to |t.columns|
      invariant cellX == CellX(bounds, hScroll, widths, colIdx)
      invariant cmds == Flatten(CellBlocks(t, widths, bounds, hScroll, rowIdx, colIdx))
    {
      FlattenSnoc(CellBlocks(t, widths, bounds, hScroll, rowIdx, colIdx), CellCmds(t, widths, bounds, hScroll, rowIdx, colIdx));
      var colW := widths[colIdx];
      if cellX + colW >= bounds.x && cellX <= bounds.x + viewportW {
        if colIdx > 0 {
          cmds := cmds + [CellDivider(rowIdx, colIdx)];
        }
        if rowIdx < |t.columns[colIdx]| {
          cmds := cmds + [CellText(rowIdx, colIdx, t.columns[colIdx][rowIdx])];
        }
      }
      SumSnoc(widths, colIdx);
      cellX := cellX + colW;
    }
  }

  /** One body row that reaches the rows area: its striped band, then its cells. */
  method DrawRow(t: Table, widths: seq<real>, vScroll: real, hScroll: real, bounds: Rect, rowIdx: nat) returns (cmds: seq<DrawCmd>)
    requires |t.columns| <= |widths|
    requires !RowAboveViewport(bounds, vScroll, rowIdx)
    ensures cmds == RowCmds(t, widths, bounds, hScroll, vScroll, rowIdx)
  {
    var stripe := if (t.rowOffset + rowIdx) % 2 == 0 then EvenStripe else OddStripe;
    var cells := DrawRowCells(t, widths, hScroll, bounds, rowIdx);
    cmds := [RowBand(rowIdx, stripe)] + cells;
  }

  /** One more step of the walk appends the next row's commands. */
  lemma RowWalkStep(t: Table, widths: seq<real>, bounds: Rect, hScroll: real, vScroll: real, n: nat)
    requires |t.columns| <= |widths|
    ensures Flatten(RowBlocks(t, widths, bounds, hScroll, vScroll, n + 1))
      == Flatten(RowBlocks(t, widths, bounds, hScroll, vScroll, n)) + RowCmds(t, widths, bounds, hScroll, vScroll, FirstVisibleRow(vScroll) + n)
  {
    FlattenSnoc(RowBlocks(t, widths, bounds, hScroll, vScroll, n), RowCmds(t, widths, bounds, hScroll, vScroll, FirstVisibleRow(vScroll) + n));
  }

  /** A loaded row within the walk's bound is one more visited row. */
  lemma VisitedStep(t: Table, bounds: Rect, vScroll: real, n: nat)
    requires n <= VisibleRowCount(bounds) && FirstVisibleRow(vScroll) + n < LoadedRowCount(t)
    ensures n + 1 <= VisitedRowCount(t, bounds, vScroll)
  {
  }

  /** One step of the row walk: the row at the given offset from the first visible one, appended to the body so far. */
  method DrawNextRow(t: Table, widths: seq<real>, vScroll: real, hScroll: real, bounds: Rect, rowOffset: nat, body: seq<DrawCmd>)
    returns (body': seq<DrawCmd>)
    requires |t.columns| <= |widths|
    requires body == Flatten(RowBlocks(t, widths, bounds, hScroll, vScroll, rowOffset))
    ensures body' == Flatten(RowBlocks(t, widths, bounds, hScroll, vScroll, rowOffset + 1))
  {
    var rowIdx := FirstVisibleRow(vScroll) + rowOffset;
    // The walk's skip of a row above the viewport is never taken, so the row is drawn.
    RowNotAboveViewport(bounds, vScroll, rowIdx);
    var row := DrawRow(t, widths, vScroll, hScroll, bounds, rowIdx);
    RowWalkStep(t, widths, bounds, hScroll, vScroll, rowOffset);
    body' := body + row;
  }

  /**
   * The bounded row walk: from the first visible row, at most one row more
   * than fits, stopping at the first row that is not loaded.
   */
  method DrawRows(t: Table, widths: seq<real>, vScroll: real, hScroll: real, bounds: Rect) returns (body: seq<DrawCmd>)
    requires |t.columns| <= |widths|
    ensures body == RowsCmds(t, widths, bounds, hScroll, vScroll)
  {
    var firstVisible := FirstVisibleRow(vScroll);
    var visibleCount := VisibleRowCount(bounds);
    var loaded := LoadedRowCount(t);
    ghost var visited := VisitedRowCount(t, bounds, vScroll);
    body := [];
    var rowOffset := 0;
    while rowOffset <= visibleCount
      invariant rowOffset <= visited
      invariant body == Flatten(RowBlocks(t, widths, bounds, hScroll, vScroll, rowOffset))
    {
      var rowIdx := firstVisible + rowOffset;
      if rowIdx >= loaded {
        break;
      }
      body := DrawNextRow(t, widths, vScroll, hScroll, bounds, rowOffset, body);
      VisitedStep(t, bounds, vScroll, rowOffset);
      rowOffset := rowOffset + 1;
    }
    assert rowOffset == visited;
  }

  /** The scrollbar thumbs: the vertical one when the content is taller than the widget, the horizontal one when it is wider than the viewport. */
  method DrawThumbs(t: Table, widths: seq<real>, vScroll: real, hScroll: real, bounds: Rect) returns (cmds: seq<DrawCmd>)
    ensures cmds == ThumbCmdsAsWritten(t, widths, vScroll, hScroll, bounds)
  {
    cmds := [];
    if TotalContentHeight(t) > bounds.height {
      cmds := cmds + [VThumb(VScrollbarThumbRect(t, bounds, vScroll))];
    }
    if TotalContentWidth(widths) > bounds.width - V_SCROLLBAR_WIDTH {
      cmds := cmds + [HThumb(HScrollbarThumbRect(bounds, hScroll, widths))];
    }
  }

  /** The draw pass: nothing without widths, else background, header cells, rows and thumbs in that order. */
  method Draw(t: Table, widths: seq<real>, vScroll: real, hScroll: real, bounds: Rect) returns (cmds: seq<DrawCmd>)
    requires DrawableWidths(t, widths)
    ensures cmds == DrawSpec(t, widths, vScroll, hScroll, bounds)
  {
    if |widths| == 0 {
      return [];
    }
    var header := DrawHeaderCells(t, widths, hScroll, bounds);
    var body := DrawRows(t, widths, vScroll, hScroll, bounds);
    var thumbs := DrawThumbs(t, widths, vScroll, hScroll, bounds);
    cmds := [Panel, HeaderBand] + header + [HeaderSeparator] + body + thumbs;
  }

  // ----- properties of the draw output -----

  lemma {:induction false} HeaderBlocksIndex(t: Table, widths: seq<real>, bounds: Rect, hScroll: real, n: nat, c: nat)
    requires n <= |t.headers| <= |widths|
    ensures |HeaderBlocks(t, widths, bounds, hScroll, n)| == n
    ensures c < n ==> HeaderBlocks(t, widths, bounds, hScroll, n)[c] == HeaderColumnCmds(t, widths, bounds, hScroll, c)
  {
    if n > 0 {
      HeaderBlocksIndex(t, widths, bounds, hScroll, n - 1, c);
    }
  }

  lemma {:induction false} CellBlocksIndex(t: Table, widths: seq<real>, bounds: Rect, hScroll: real, row: nat, n: nat, c: nat)
    requires n <= |t.columns| <= |widths|
    ensures |CellBlocks(t, widths, bounds, hScroll, row, n)| == n
    ensures c < n ==> CellBlocks(t, widths, bounds, hScroll, row, n)[c] == CellCmds(t, widths, bounds, hScroll, row, c)
  {
    if n > 0 {
      CellBlocksIndex(t, widths, bounds, hScroll, row, n - 1, c);
    }
  }

  lemma {:induction false} RowBlocksIndex(t: Table, widths: seq<real>, bounds: Rect, hScroll: real, vScroll: real, n: nat, k: nat)
    requires |t.columns| <= |widths|
    ensures |RowBlocks(t, widths, bounds, hScroll, vScroll, n)| == n
    ensures k < n ==>
      RowBlocks(t, widths, bounds, hScroll, vScroll, n)[k] == RowCmds(t, widths, bounds, hScroll, vScroll, FirstVisibleRow(vScroll) + k)
  {
    if n > 0 {
      RowBlocksIndex(t, widths, bounds, hScroll, vScroll, n - 1, k);
    }
  }

  lemma HeaderShape(t: Table, widths: seq<real>, bounds: Rect, hScroll: real, x: DrawCmd)
    requires |t.headers| <= |widths|
    ensures x in HeaderCmds(t, widths, bounds, hScroll) ==> x.HeaderDivider? || x.HeaderLabel?
  {
    var n := |t.headers|;
    var bs := HeaderBlocks(t, widths, bounds, hScroll, n);
    FlattenMembership(bs, x);
    if x in Flatten(bs) {
      var i :| 0 <= i < |bs| && x in bs[i];
      HeaderBlocksIndex(t, widths, bounds, hScroll, n, i);
    }
  }

  lemma HeaderLabels(t: Table, widths: seq<real>, bounds: Rect, hScroll: real, c: nat, s: string)
    requires |t.headers| <= |widths|
    ensures HeaderLabel(c, s) in HeaderCmds(t, widths, bounds, hScroll) <==>
      c < |t.headers| && ColumnShown(bounds, hScroll, widths, c) && s == t.headers[c]
  {
    var n := |t.headers|;
    var bs := HeaderBlocks(t, widths, bounds, hScroll, n);
    FlattenMembership(bs, HeaderLabel(c, s));
    if HeaderLabel(c, s) in Flatten(bs) {
      var i :| 0 <= i < |bs| && HeaderLabel(c, s) in bs[i];
      HeaderBlocksIndex(t, widths, bounds, hScroll, n, i);
    }
    if c < n && ColumnShown(bounds, hScroll, widths, c) && s == t.headers[c] {
      HeaderBlocksIndex(t, widths, bounds, hScroll, n, c);
      assert HeaderLabel(c, s) in bs[c];
    }
  }

  lemma HeaderDividers(t: Table, widths: seq<real>, bounds: Rect, hScroll: real, c: nat)
    requires |t.headers| <= |widths|
    ensures HeaderDivider(c) in HeaderCmds(t, widths, bounds, hScroll) <==>
      0 < c < |t.headers| && ColumnShown(bounds, hScroll, widths, c)
  {
    var n := |t.headers|;
    var bs := HeaderBlocks(t, widths, bounds, hScroll, n);
    FlattenMembership(bs, HeaderDivider(c));
    if HeaderDivider(c) in Flatten(bs) {
      var i :| 0 <= i < |bs| && HeaderDivider(c) in bs[i];
      HeaderBlocksIndex(t, widths, bounds, hScroll, n, i);
    }
    if 0 < c < n && ColumnShown(bounds, hScroll, widths, c) {
      HeaderBlocksIndex(t, widths, bounds, hScroll, n, c);
      assert HeaderDivider(c) in bs[c];
    }
  }

  lemma CellsShape(t: Table, widths: seq<real>, bounds: Rect, hScroll: real, row: nat, x: DrawCmd)
    requires |t.columns| <= |widths|
    ensures x in RowCellsCmds(t, widths, bounds, hScroll, row) ==> (x.CellDivider? || x.CellText?) && x.row == row
  {
    var n := |t.columns|;
    var bs := CellBlocks(t, widths, bounds, hScroll, row, n);
    FlattenMembership(bs, x);
    if x in Flatten(bs) {
      var i :| 0 <= i < |bs| && x in bs[i];
      CellBlocksIndex(t, widths, bounds, hScroll, row, n, i);
    }
  }

  lemma CellTexts(t: Table, widths: seq<real>, bounds: Rect, hScroll: real, row: nat, c: nat, s: string)
    requires |t.columns| <= |widths|
    ensures CellText(row, c, s) in RowCellsCmds(t, widths, bounds, hScroll, row) <==>
      c < |t.columns| && ColumnShown(bounds, hScroll, widths, c) && row < |t.columns[c]| && s == t.columns[c][row]
  {
    var n := |t.columns|;
    var bs := CellBlocks(t, widths, bounds, hScroll, row, n);
    FlattenMembership(bs, CellText(row, c, s));
    if CellText(row, c, s) in Flatten(bs) {
      var i :| 0 <= i < |bs| && CellText(row, c, s) in bs[i];
      CellBlocksIndex(t, widths, bounds, hScroll, row, n, i);
    }
    if c < n && ColumnShown(bounds, hScroll, widths, c) && row < |t.columns[c]| && s == t.columns[c][row] {
      CellBlocksIndex(t, widths, bounds, hScroll, row, n, c);
      assert CellText(row, c, s) in bs[c];
    }
  }

  lemma CellDividers(t: Table, widths: seq<real>, bounds: Rect, hScroll: real, row: nat, c: nat)
    requires |t.columns| <= |widths|
    ensures CellDivider(row, c) in RowCellsCmds(t, widths, bounds, hScroll, row) <==>
      0 < c < |t.columns| && ColumnShown(bounds, hScroll, widths, c)
  {
    var n := |t.columns|;
    var bs := CellBlocks(t, widths, bounds, hScroll, row, n);
    FlattenMembership(bs, CellDivider(row, c));
    if CellDivider(row, c) in Flatten(bs) {
      var i :| 0 <= i < |bs| && CellDivider(row, c) in bs[i];
      CellBlocksIndex(t, widths, bounds, hScroll, row, n, i);
    }
    if 0 < c < n && ColumnShown(bounds, hScroll, widths, c) {
      CellBlocksIndex(t, widths, bounds, hScroll, row, n, c);
      assert CellDivider(row, c) in bs[c];
    }
  }

  /** A row is drawn iff it lies in the walk's window and is loaded. */
  predicate RowDrawn(t: Table, bounds: Rect, vScroll: real, r: nat)
  {
    FirstVisibleRow(vScroll) <= r <= FirstVisibleRow(vScroll) + VisibleRowCount(bounds)
    && r < LoadedRowCount(t)
  }

  lemma VisitedRowsAreDrawnRows(t: Table, bounds: Rect, vScroll: real, r: nat)
    ensures FirstVisibleRow(vScroll) <= r < FirstVisibleRow(vScroll) + VisitedRowCount(t, bounds, vScroll)
        <==> RowDrawn(t, bounds, vScroll, r)
  {
  }

  /** What the walk draws for a visited row: its band, then its cells. */
  function RowContent(t: Table, widths: seq<real>, bounds: Rect, hScroll: real, r: nat): seq<DrawCmd>
    requires |t.columns| <= |widths|
  {
    [RowBand(r, StripeOf(t.rowOffset + r))] + RowCellsCmds(t, widths, bounds, hScroll, r)
  }

  /** A command that belongs to row r of the body. */
  predicate OfRow(x: DrawCmd, r: nat)
  {
    (x.RowBand? || x.CellDivider? || x.CellText?) && x.row == r
  }

  lemma WalkBlock(t: Table, widths: seq<real>, bounds: Rect, hScroll: real, vScroll: real, k: nat)
    requires |t.columns| <= |widths|
    requires k < VisitedRowCount(t, bounds, vScroll)
    ensures |RowBlocks(t, widths, bounds, hScroll, vScroll, VisitedRowCount(t, bounds, vScroll))| == VisitedRowCount(t, bounds, vScroll)
    ensures RowBlocks(t, widths, bounds, hScroll, vScroll, VisitedRowCount(t, bounds, vScroll))[k]
      == RowContent(t, widths, bounds, hScroll, FirstVisibleRow(vScroll) + k)
  {
    RowBlocksIndex(t, widths, bounds, hScroll, vScroll, VisitedRowCount(t, bounds, vScroll), k);
    RowNotAboveViewport(bounds, vScroll, FirstVisibleRow(vScroll) + k);
  }

  lemma RowContentShape(t: Table, widths: seq<real>, bounds: Rect, hScroll: real, r: nat, x: DrawCmd)
    requires |t.columns| <= |widths|
    ensures x in RowContent(t, widths, bounds, hScroll, r) ==> OfRow(x, r)
    ensures x in RowContent(t, widths, bounds, hScroll, r) <==>
      x == RowBand(r, StripeOf(t.rowOffset + r)) || x in RowCellsCmds(t, widths, bounds, hScroll, r)
  {
    CellsShape(t, widths, bounds, hScroll, r, x);
  }

  lemma RowsMemberDrawn(t: Table, widths: seq<real>, bounds: Rect, hScroll: real, vScroll: real, r: nat, x: DrawCmd)
    requires |t.columns| <= |widths|
    requires OfRow(x, r)
    requires x in RowsCmds(t, widths, bounds, hScroll, vScroll)
    ensures RowDrawn(t, bounds, vScroll, r) && x in RowContent(t, widths, bounds, hScroll, r)
  {
    var n := VisitedRowCount(t, bounds, vScroll);
    var bs := RowBlocks(t, widths, bounds, hScroll, vScroll, n);
    FlattenMembership(bs, x);
    var k :| 0 <= k < |bs| && x in bs[k];
    RowBlocksIndex(t, widths, bounds, hScroll, vScroll, n, k);
    WalkBlock(t, widths, bounds, hScroll, vScroll, k);
    RowContentShape(t, widths, bounds, hScroll, FirstVisibleRow(vScroll) + k, x);
    VisitedRowsAreDrawnRows(t, bounds, vScroll, r);
  }

  lemma DrawnRowMember(t: Table, widths: seq<real>, bounds: Rect, hScroll: real, vScroll: real, r: nat, x: DrawCmd)
    requires |t.columns| <= |widths|
    requires RowDrawn(t, bounds, vScroll, r) && x in RowContent(t, widths, bounds, hScroll, r)
    ensures x in RowsCmds(t, widths, bounds, hScroll, vScroll)
  {
    var n := VisitedRowCount(t, bounds, vScroll);
    var k := r - FirstVisibleRow(vScroll);
    VisitedRowsAreDrawnRows(t, bounds, vScroll, r);
    var bs := RowBlocks(t, widths, bounds, hScroll, vScroll, n);
    WalkBlock(t, widths, bounds, hScroll, vScroll, k);
    assert FirstVisibleRow(vScroll) + k == r;
    assert x in bs[k];
    FlattenMembership(bs, x);
  }

  /** The body holds a command of row r exactly when r is drawn and the command is part of r's content. */
  lemma RowsMember(t: Table, widths: seq<real>, bounds: Rect, hScroll: real, vScroll: real, r: nat, x: DrawCmd)
    requires |t.columns| <= |widths|
    requires OfRow(x, r)
    ensures x in RowsCmds(t, widths, bounds, hScroll, vScroll) <==>
      RowDrawn(t, bounds, vScroll, r) && x in RowContent(t, widths, bounds, hScroll, r)
  {
    if x in RowsCmds(t, widths, bounds, hScroll, vScroll) {
      RowsMemberDrawn(t, widths, bounds, hScroll, vScroll, r, x);
    }
    if RowDrawn(t, bounds, vScroll, r) && x in RowContent(t, widths, bounds, hScroll, r) {
      DrawnRowMember(t, widths, bounds, hScroll, vScroll, r, x);
    }
  }

  lemma RowsShape(t: Table, widths: seq<real>, bounds: Rect, hScroll: real, vScroll: real, x: DrawCmd)
    requires |t.columns| <= |widths|
    ensures x in RowsCmds(t, widths, bounds, hScroll, vScroll) ==> x.RowBand? || x.CellDivider? || x.CellText?
  {
    var n := VisitedRowCount(t, bounds, vScroll);
    var bs := RowBlocks(t, widths, bounds, hScroll, vScroll, n);
    RowBlocksIndex(t, widths, bounds, hScroll, vScroll, n, 0);
    FlattenMembership(bs, x);
    if x in Flatten(bs) {
      var k :| 0 <= k < |bs| && x in bs[k];
      WalkBlock(t, widths, bounds, hScroll, vScroll, k);
      RowContentShape(t, widths, bounds, hScroll, FirstVisibleRow(vScroll) + k, x);
    }
  }

  lemma RowsBands(t: Table, widths: seq<real>, bounds: Rect, hScroll: real, vScroll: real, r: nat, st: Stripe)
    requires |t.columns| <= |widths|
    ensures RowBand(r, st) in RowsCmds(t, widths, bounds, hScroll, vScroll) <==>
      RowDrawn(t, bounds, vScroll, r) && st == StripeOf(t.rowOffset + r)
  {
    RowsMember(t, widths, bounds, hScroll, vScroll, r, RowBand(r, st));
    RowContentShape(t, widths, bounds, hScroll, r, RowBand(r, st));
    CellsShape(t, widths, bounds, hScroll, r, RowBand(r, st));
  }

  lemma RowsCellTexts(t: Table, widths: seq<real>, bounds: Rect, hScroll: real, vScroll: real, r: nat, c: nat, s: string)
    requires |t.columns| <= |widths|
    ensures CellText(r, c, s) in RowsCmds(t, widths, bounds, hScroll, vScroll) <==>
      RowDrawn(t, bounds, vScroll, r)
      && c < |t.columns| && ColumnShown(bounds, hScroll, widths, c) && r < |t.columns[c]| && s == t.columns[c][r]
  {
    RowsMember(t, widths, bounds, hScroll, vScroll, r, CellText(r, c, s));
    RowContentShape(t, widths, bounds, hScroll, r, CellText(r, c, s));
    CellTexts(t, widths, bounds, hScroll, r, c, s);
  }

  lemma RowsCellDividers(t: Table, widths: seq<real>, bounds: Rect, hScroll: real, vScroll: real, r: nat, c: nat)
    requires |t.columns| <= |widths|
    ensures CellDivider(r, c) in RowsCmds(t, widths, bounds, hScroll, vScroll) <==>
      RowDrawn(t, bounds, vScroll, r) && 0 < c < |t.columns| && ColumnShown(bounds, hScroll, widths, c)
  {
    RowsMember(t, widths, bounds, hScroll, vScroll, r, CellDivider(r, c));
    RowContentShape(t, widths, bounds, hScroll, r, CellDivider(r, c));
    CellDividers(t, widths, bounds, hScroll, r, c);
  }

  // ----- the whole frame -----

  /** Row r's band is drawn, with its absolute-index stripe, exactly when r is in the walk's window and loaded. */
  lemma DrawnRows(t: Table, widths: seq<real>, vScroll: real, hScroll: real, bounds: Rect, r: nat, st: Stripe)
    requires DrawableWidths(t, widths)
    ensures RowBand(r, st) in DrawSpec(t, widths, vScroll, hScroll, bounds) <==>
      |widths| > 0 && RowDrawn(t, bounds, vScroll, r) && st == StripeOf(t.rowOffset + r)
  {
    if |widths| > 0 {
      HeaderShape(t, widths, bounds, hScroll, RowBand(r, st));
      RowsBands(t, widths, bounds, hScroll, vScroll, r, st);
    }
  }

  /** Cell (r, c) shows exactly the loaded value of column c at row r, and only when the row is drawn and the column shown. */
  lemma DrawnCells(t: Table, widths: seq<real>, vScroll: real, hScroll: real, bounds: Rect, r: nat, c: nat, s: string)
    requires DrawableWidths(t, widths)
    ensures CellText(r, c, s) in DrawSpec(t, widths, vScroll, hScroll, bounds) <==>
      |widths| > 0 && RowDrawn(t, bounds, vScroll, r)
      && c < |t.columns| && ColumnShown(bounds, hScroll, widths, c) && r < |t.columns[c]| && s == t.columns[c][r]
  {
    if |widths| > 0 {
      HeaderShape(t, widths, bounds, hScroll, CellText(r, c, s));
      RowsCellTexts(t, widths, bounds, hScroll, vScroll, r, c, s);
    }
  }

  /** Every shown column but the first gets a divider in every drawn row. */
  lemma DrawnCellDividers(t: Table, widths: seq<real>, vScroll: real, hScroll: real, bounds: Rect, r: nat, c: nat)
    requires DrawableWidths(t, widths)
    ensures CellDivider(r, c) in DrawSpec(t, widths, vScroll, hScroll, bounds) <==>
      |widths| > 0 && RowDrawn(t, bounds, vScroll, r) && 0 < c < |t.columns| && ColumnShown(bounds, hScroll, widths, c)
  {
    if |widths| > 0 {
      HeaderShape(t, widths, bounds, hScroll, CellDivider(r, c));
      RowsCellDividers(t, widths, bounds, hScroll, vScroll, r, c);
    }
  }

  /** The header shows column c's name exactly when c is shown, and a divider before it unless it is the first. */
  lemma DrawnHeaders(t: Table, widths: seq<real>, vScroll: real, hScroll: real, bounds: Rect, c: nat, s: string)
    requires DrawableWidths(t, widths)
    ensures HeaderLabel(c, s) in DrawSpec(t, widths, vScroll, hScroll, bounds) <==>
      |widths| > 0 && c < |t.headers| && ColumnShown(bounds, hScroll, widths, c) && s == t.headers[c]
    ensures HeaderDivider(c) in DrawSpec(t, widths, vScroll, hScroll, bounds) <==>
      |widths| > 0 && 0 < c < |t.headers| && ColumnShown(bounds, hScroll, widths, c)
  {
    if |widths| > 0 {
      HeaderLabels(t, widths, bounds, hScroll, c, s);
      HeaderDividers(t, widths, bounds, hScroll, c);
      RowsShape(t, widths, bounds, hScroll, vScroll, HeaderLabel(c, s));
      RowsShape(t, widths, bounds, hScroll, vScroll, HeaderDivider(c));
    }
  }

  /** Bands of consecutive drawn rows alternate stripes. */
  lemma AdjacentRowsAlternate(t: Table, widths: seq<real>, vScroll: real, hScroll: real, bounds: Rect, r: nat, st: Stripe, st': Stripe)
    requires DrawableWidths(t, widths)
    ensures (RowBand(r, st) in DrawSpec(t, widths, vScroll, hScroll, bounds)
             && RowBand(r + 1, st') in DrawSpec(t, widths, vScroll, hScroll, bounds)) ==> st != st'
  {
    if RowBand(r, st) in DrawSpec(t, widths, vScroll, hScroll, bounds)
       && RowBand(r + 1, st') in DrawSpec(t, widths, vScroll, hScroll, bounds) {
      var n := t.rowOffset + r;
      BandStripe(t, widths, vScroll, hScroll, bounds, r, st);
      BandStripe(t, widths, vScroll, hScroll, bounds, r + 1, st');
      assert t.rowOffset + (r + 1) == n + 1;
      StripesAlternate(n);
    }
  }

  lemma BandStripe(t: Table, widths: seq<real>, vScroll: real, hScroll: real, bounds: Rect, r: nat, st: Stripe)
    requires DrawableWidths(t, widths) && RowBand(r, st) in DrawSpec(t, widths, vScroll, hScroll, bounds)
    ensures st == StripeOf(t.rowOffset + r)
  {
    DrawnRows(t, widths, vScroll, hScroll, bounds, r, st);
  }

  /** Consecutive absolute indices get different stripes, and every second one the same. */
  lemma StripesAlternate(i: nat)
    ensures StripeOf(i + 1) != StripeOf(i) && StripeOf(i + 2) == StripeOf(i)
  {
  }

  /**
   * The loaded rows are those of the first column: no row at or past its
   * length is drawn, and values of a longer column past it never show;
   * without columns no row is drawn.
   */
  lemma LoadedRowsFromFirstColumn(t: Table, widths: seq<real>, vScroll: real, hScroll: real, bounds: Rect,
                                  r: nat, st: Stripe, c: nat, s: string)
    requires DrawableWidths(t, widths)
    ensures RowBand(r, st) in DrawSpec(t, widths, vScroll, hScroll, bounds) ==> 0 < |t.columns| && r < |t.columns[0]|
    ensures CellText(r, c, s) in DrawSpec(t, widths, vScroll, hScroll, bounds) ==> 0 < |t.columns| && r < |t.columns[0]|
  {
    DrawnRows(t, widths, vScroll, hScroll, bounds, r, st);
    DrawnCells(t, widths, vScroll, hScroll, bounds, r, c, s);
  }

  /** The culling test in content coordinates: column c is shown iff its span meets the scrolled viewport's span. */
  lemma ColumnShownInContent(bounds: Rect, hScroll: real, widths: seq<real>, c: nat)
    requires c < |widths|
    ensures ColumnShown(bounds, hScroll, widths, c) <==>
      LeftEdge(widths, c) <= hScroll + ViewportWidth(bounds) && DividerX(widths, c) >= hScroll
  {
  }

  /** With non-negative widths the shown columns form one contiguous run. */
  lemma ShownColumnsContiguous(bounds: Rect, hScroll: real, widths: seq<real>, c1: nat, c2: nat, c3: nat)
    requires AllAtLeast(widths, 0.0) && c1 <= c2 <= c3 < |widths|
    requires ColumnShown(bounds, hScroll, widths, c1) && ColumnShown(bounds, hScroll, widths, c3)
    ensures ColumnShown(bounds, hScroll, widths, c2)
  {
    LeftEdgeMonotone(widths, c1 + 1, c2 + 1);
    LeftEdgeMonotone(widths, c2, c3);
    SumSnoc(widths, c1);
    SumSnoc(widths, c2);
  }

  /** Widths reconciled for a well-formed table are ones the renderer can index. */
  lemma ReconciledWidthsDrawable(t: Table, widths: seq<real>, viewportWidth: real)
    requires WellFormed(t)
    ensures DrawableWidths(t, ReconciledWidths(t, widths, viewportWidth))
  {
  }

  /** In the corrected frame a scrollbar thumb is drawn exactly when its axis can scroll. */
  lemma ThumbsExactlyWhenScrollable(t: Table, widths: seq<real>, vScroll: real, hScroll: real, bounds: Rect)
    requires DrawableWidths(t, widths) && |widths| > 0
    ensures VThumb(VScrollbarThumbRect(t, bounds, vScroll)) in DrawSpecCorrected(t, widths, vScroll, hScroll, bounds) <==>
      MaxVScroll(t, bounds) > 0.0
    ensures HThumb(HScrollbarThumbRect(bounds, hScroll, widths)) in DrawSpecCorrected(t, widths, vScroll, hScroll, bounds) <==>
      MaxHScroll(widths, bounds) > 0.0
  {
    var vt, ht := VThumb(VScrollbarThumbRect(t, bounds, vScroll)), HThumb(HScrollbarThumbRect(bounds, hScroll, widths));
    HeaderShape(t, widths, bounds, hScroll, vt);
    HeaderShape(t, widths, bounds, hScroll, ht);
    RowsShape(t, widths, bounds, hScroll, vScroll, vt);
    RowsShape(t, widths, bounds, hScroll, vScroll, ht);
  }

  /** The corrected frame is the widget's frame except where the content scrolls vertically but is no taller than the widget. */
  lemma CorrectedFrameAgrees(t: Table, widths: seq<real>, vScroll: real, hScroll: real, bounds: Rect)
    requires DrawableWidths(t, widths)
    ensures DrawSpecCorrected(t, widths, vScroll, hScroll, bounds) == DrawSpec(t, widths, vScroll, hScroll, bounds) <==>
      |widths| == 0 || !(ViewportHeight(bounds) < TotalContentHeight(t) <= bounds.height)
  {
    if |widths| > 0 && ViewportHeight(bounds) < TotalContentHeight(t) <= bounds.height {
      var body := FrameBody(t, widths, vScroll, hScroll, bounds);
      assert |DrawSpecCorrected(t, widths, vScroll, hScroll, bounds)| == |body| + |ThumbCmds(t, widths, vScroll, hScroll, bounds)|;
      assert |DrawSpec(t, widths, vScroll, hScroll, bounds)| == |body| + |ThumbCmdsAsWritten(t, widths, vScroll, hScroll, bounds)|;
    }
  }

  /** Any thumb in the frame sits where the layout puts it. */
  lemma ThumbsWhereLaidOut(t: Table, widths: seq<real>, vScroll: real, hScroll: real, bounds: Rect, x: DrawCmd)
    requires DrawableWidths(t, widths)
    ensures x in DrawSpec(t, widths, vScroll, hScroll, bounds) && x.VThumb? ==> x.rect == VScrollbarThumbRect(t, bounds, vScroll)
    ensures x in DrawSpec(t, widths, vScroll, hScroll, bounds) && x.HThumb? ==> x.rect == HScrollbarThumbRect(bounds, hScroll, widths)
  {
    if x in DrawSpec(t, widths, vScroll, hScroll, bounds) && (x.VThumb? || x.HThumb?) {
      HeaderShape(t, widths, bounds, hScroll, x);
      RowsShape(t, widths, bounds, hScroll, vScroll, x);
      assert x !in FrameBody(t, widths, vScroll, hScroll, bounds);
      assert x in ThumbCmdsAsWritten(t, widths, vScroll, hScroll, bounds);
    }
  }

  // ----- which rows the walk covers -----

  /** The first visible row is the one whose band holds the top of the rows area. */
  lemma FirstVisibleRowSpec(vScroll: real)
    ensures vScroll < 0.0 ==> FirstVisibleRow(vScroll) == 0
    ensures vScroll >= 0.0 ==>
      FirstVisibleRow(vScroll) as real * ROW_HEIGHT <= vScroll < FirstVisibleRow(vScroll) as real * ROW_HEIGHT + ROW_HEIGHT
  {
    var q := vScroll / 28.0;
    assert vScroll == q * 28.0;
    assert q.Floor as real <= q < q.Floor as real + 1.0;
  }

  /** The visible row count covers the rows area's height, with at most one row to spare. */
  lemma VisibleRowCountSpec(bounds: Rect)
    ensures (VisibleRowCount(bounds) - 1) as real * ROW_HEIGHT >= bounds.height - HEADER_HEIGHT
    ensures bounds.height > HEADER_HEIGHT ==>
      (VisibleRowCount(bounds) as real - 2.0) * ROW_HEIGHT < bounds.height - HEADER_HEIGHT
  {
    var q := (bounds.height - HEADER_HEIGHT) / 28.0;
    assert bounds.height - HEADER_HEIGHT == q * 28.0;
    var f := (-q).Floor;
    assert f as real <= -q < f as real + 1.0;
  }

  /** Every loaded row that overlaps the rows area of the viewport is drawn. */
  lemma VisibleRowsAreDrawn(t: Table, bounds: Rect, vScroll: real, r: nat)
    requires r < LoadedRowCount(t)
    requires HEADER_HEIGHT + r as real * ROW_HEIGHT - vScroll + ROW_HEIGHT > HEADER_HEIGHT
    requires HEADER_HEIGHT + r as real * ROW_HEIGHT - vScroll < bounds.height
    ensures RowDrawn(t, bounds, vScroll, r)
  {
    FirstVisibleRowSpec(vScroll);
    VisibleRowCountSpec(bounds);
  }

  /** A drawn row starts no lower than two rows below the bottom of the viewport. */
  lemma DrawnRowsNearViewport(t: Table, bounds: Rect, vScroll: real, r: nat)
    requires RowDrawn(t, bounds, vScroll, r)
    requires vScroll >= 0.0 && bounds.height > HEADER_HEIGHT
    ensures HEADER_HEIGHT + r as real * ROW_HEIGHT - vScroll + ROW_HEIGHT >= HEADER_HEIGHT
    ensures HEADER_HEIGHT + r as real * ROW_HEIGHT - vScroll < bounds.height + 2.0 * ROW_HEIGHT
  {
    FirstVisibleRowSpec(vScroll);
    VisibleRowCountSpec(bounds);
  }

  // ----- the vertical thumb condition as written -----

  /**
   * As written, the frame holds the vertical thumb when the content is
   * taller than the whole widget; the content can scroll as soon as it is
   * taller than the viewport, which is shorter by the horizontal bar, so
   * there is a band of heights that scroll without a thumb.
   */
  lemma VThumbAsWrittenGap(t: Table, widths: seq<real>, vScroll: real, hScroll: real, bounds: Rect)
    requires DrawableWidths(t, widths) && |widths| > 0
    ensures VThumb(VScrollbarThumbRect(t, bounds, vScroll)) in DrawSpec(t, widths, vScroll, hScroll, bounds) <==>
      TotalContentHeight(t) > bounds.height
    ensures MaxVScroll(t, bounds) > 0.0
        && VThumb(VScrollbarThumbRect(t, bounds, vScroll)) !in DrawSpec(t, widths, vScroll, hScroll, bounds)
      <==> ViewportHeight(bounds) < TotalContentHeight(t) <= bounds.height
  {
    var vt := VThumb(VScrollbarThumbRect(t, bounds, vScroll));
    HeaderShape(t, widths, bounds, hScroll, vt);
    RowsShape(t, widths, bounds, hScroll, vScroll, vt);
  }

  /** Twenty rows in a 600-pixel widget: 592 pixels of content, 4 pixels of scroll, and as written no thumb. */
  lemma VThumbMissingExample()
    ensures var t, b := Table(["a"], [seq(20, _ => "v")], 20, 0, None), Rect(0.0, 0.0, 800.0, 600.0);
      MaxVScroll(t, b) == 4.0
      && ThumbCmdsAsWritten(t, [80.0], 0.0, 0.0, b) == []
      && ThumbCmds(t, [80.0], 0.0, 0.0, b) == [VThumb(VScrollbarThumbRect(t, b, 0.0))]
  {
  }

  /**
   * The frame drawn with the widths and offsets the wheel scenario reaches
   * (three rows down over the paged table) shows loaded rows 3 to 9,
   * striped by absolute index.
   */
  lemma DrawAfterWheelScenario(t: Table, widths: seq<real>, vScroll: real, bounds: Rect, r: nat, st: Stripe)
    requires t == TableInteraction.PagedExampleTable() && bounds == TableInteraction.ExampleBounds()
    requires widths == [80.0, 80.0, 80.0, 80.0] && vScroll == 84.0
    ensures RowBand(r, st) in DrawSpec(t, widths, vScroll, 0.0, bounds) <==>
      3 <= r <= 9 && (st == EvenStripe <==> r % 2 == 0)
  {
    WheelWindow(t, vScroll, bounds, r);
    DrawnRows(t, widths, vScroll, 0.0, bounds, r, st);
  }

  /** The window the wheel scenario's offset opens on the paged table: rows 3 to 9, that is, the loaded rows from the third. */
  lemma WheelWindow(t: Table, vScroll: real, bounds: Rect, r: nat)
    requires t == TableInteraction.PagedExampleTable() && bounds == TableInteraction.ExampleBounds() && vScroll == 84.0
    ensures RowDrawn(t, bounds, vScroll, r) <==> 3 <= r <= 9
    ensures StripeOf(t.rowOffset + r) == EvenStripe <==> r % 2 == 0
  {
    assert FirstVisibleRow(vScroll) == 3;
    assert VisibleRowCount(bounds) == 22;
  }
}
