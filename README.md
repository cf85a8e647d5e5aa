# Virtualized data grid of polariton, modelled in Dafny

polariton's desktop GUI shows query results in a custom widget, `Table`
(`src/gui/table.rs`). It is a virtualized grid. Only a window of rows is
loaded, but the widget sizes itself to the logical row count of the whole
result. It keeps a state record between events:

- column widths;
- the two scroll offsets;
- the resize drag's anchor and the two thumb drags' anchors.

The widget draws only the rows and columns that meet the viewport. It
stripes rows by absolute index. The user can:

- resize a column by dragging the divider at its right edge in the header;
- drag either scrollbar thumb;
- scroll with the wheel;
- navigate with PageUp/PageDown, Home/End and the arrow keys.

The project models that widget in three modules.

- `TableLayout` (`table_layout.dfy`): the table value and the geometry
  helpers of `impl Table`. This covers the default width of a column,
  reconciling the width vector with the column count, the content size,
  column left edges, the divider hit test, and the two scrollbar thumb
  rectangles. The edge computation and the hit test are loops in the
  source, so they are methods, proved equal to the functions the rest of
  the model uses.
- `TableInteraction` (`table_interaction.dfy`): the state record. It is a
  class, `TableState`, whose fields are the record's fields. Its value is a
  `Snapshot`. `Step` states what the event handler does. The imperative
  `Update` changes a `TableState` in place and is proved to produce exactly
  `Step`'s outcome. The lemmas show that every event keeps an invariant:
  widths are at least the minimum and both offsets lie in [0, maxScroll].
  They also pin down every transition of the press, move, release, wheel
  and key handlers, and the cursor hint.
- `TableRender` (`table_render.dfy`): the draw pass, as a sequence of
  abstract draw commands. The commands are the panel, header cells and
  dividers, row bands, body cells and dividers, and the thumbs. The
  nested-loop renderer (`Draw` and the methods it calls) is proved equal to
  `DrawSpec`. Lemmas about `DrawSpec` say exactly which rows, cells, labels,
  dividers and thumbs a frame contains.

Pixels are reals. Rust's `as usize` of a floor or ceiling saturates
negative values to 0, and the model does the same (`SatFloor`, `SatCeil`).
The point-in-rectangle test of the framework is taken as half-open: left
and top edges inclusive.

Behaviours of the code worth noting, all of which the model keeps:

- a default column width is floored at 80 (`DEFAULT_COL_WIDTH`), not at the
  28-pixel resize minimum;
- a press is not gated on the widget being idle: it can start a thumb drag
  while another drag is active;
- a press, and the resize cursor, are gated on the cursor's height only:
  the divider test checks that the cursor is in the header band, not that
  it is inside the widget horizontally;
- a release during a resize ends only the resize;
- the wheel scrolls during a drag;
- a key press over the widget asks for a redraw even when the key is
  unhandled;
- the vertical thumb is drawn only when the content is taller than the
  whole widget, although the content scrolls as soon as it is taller than
  the viewport (see Findings);
- a press tests the vertical thumb's rectangle (table.rs:269) even when
  that thumb is not drawn, so a press in the right-hand strip below the
  header can start an invisible drag and ask for redraws; while the
  content does not scroll the offset stays clamped at 0, so nothing moves;
- the horizontal thumb is drawn only when the content is wider than the
  viewport, and when it is drawn (with a viewport at least 20 pixels wide)
  it fits its track; with nothing to scroll its computed width can exceed
  the viewport;
- the horizontal thumb is inset 2 pixels into its strip (`+ 2.0`,
  table.rs:143), but the vertical thumb is placed with `- 2.0`
  (table.rs:162), so it spans 14 to 6 pixels from the widget's right edge
  and its left 2 pixels lie over the rows area, evidently a slip in the
  sign (observed in the code; not executed);
- the offsets are clamped only when an event moves them, so an offset can
  be out of range after the widget grows (see Findings).

## Model

| member | source | states |
|---|---|---|
| TableLayout.DefaultColWidth | src/gui/table.rs:61-67 | the default width is at least 80 and at least the column's share: the fixed width if one is set, else the viewport width divided by the column count (1 when there are none); it equals one of the two |
| TableLayout.ReconciledWidths | src/gui/table.rs:69-76 | the result has one width per column; a vector of the right length is kept as it is, so manual resizes persist; any other vector is replaced by the default width for every column |
| TableLayout.ReconciledWidthsBounded | src/gui/table.rs:69-76 | if the old widths were all at least MIN_COL_WIDTH, so are the reconciled ones, and their total is at least one minimum width per column |
| TableLayout.ReconcileIdempotent | src/gui/table.rs:69-76 | reconciling again, for any viewport width, leaves reconciled widths unchanged |
| TableLayout.SumUpdate | src/gui/table.rs:82-84 | replacing one width changes the content width by exactly the change of that width |
| TableLayout.SumAtLeast | src/gui/table.rs:82-84 | widths each at least m sum to at least their count times m |
| TableLayout.TotalContentWidth | src/gui/table.rs:82-84 | the content is as wide as the widths together: it ends at the last column's divider, and is 0 wide without columns |
| TableLayout.TotalContentHeight | src/gui/table.rs:86-88 | the content is at least the header tall, and its height beyond the header is exactly one row height per logical row, loaded or not |
| TableRender.LoadedRowsFromFirstColumn | src/gui/table.rs:90-92 | the loaded rows are those of the first column: no row band at or past its length is drawn, no value of a longer column past it shows, and without columns no row is drawn |
| TableLayout.MaxHScroll | src/gui/table.rs:255 | the horizontal scroll range is the content width beyond the viewport, never negative |
| TableLayout.MaxVScroll | src/gui/table.rs:254 | the vertical scroll range is the content height beyond the viewport (widget height minus the horizontal bar), never negative |
| TableLayout.ColLeftEdges | src/gui/table.rs:94-102 | one edge per column; the first is 0 and each next one is a column width further; edge i is the sum of the widths before i |
| TableLayout.LeftEdgeMonotone | src/gui/table.rs:94-102 | with non-negative widths, a later edge never lies left of an earlier one |
| TableLayout.FirstNearDividerSpec | src/gui/table.rs:116-121 | the scan from a column returns none iff no later divider is within the grab zone; otherwise it returns the first one that is |
| TableLayout.DividerHitSpec | src/gui/table.rs:104-123 | no hit outside the header band; inside it, a hit iff some divider is within 4 pixels of the cursor in content coordinates, and then the leftmost such divider |
| TableLayout.DividerHit | src/gui/table.rs:104-123 | a hit names an existing column |
| TableLayout.DividerAtCursor | src/gui/table.rs:104-123 | the early-return scan over the computed edges returns exactly the hit-test result |
| TableLayout.Clamp | src/gui/table.rs:296-298 | the clamped value lies in [lo, hi], equals the value when it is in range, and equals the nearer bound otherwise |
| TableLayout.ThumbSize | src/gui/table.rs:133 | a thumb is never shorter than 20 pixels |
| TableLayout.ThumbTravel | src/gui/table.rs:135-140 | the thumb sits at the start of its track when nothing scrolls or the offset is 0, and at the end (track minus thumb) when the offset is the scroll range |
| TableLayout.ThumbTravelWithinTrack | src/gui/table.rs:154-160 | an offset within the range and a thumb no longer than its track keep the thumb's travel within the track |
| TableLayout.HScrollbarThumbRect | src/gui/table.rs:125-147 | the horizontal thumb is at least 20 wide and lies in the bottom strip; it starts at the left edge when nothing scrolls or the offset is 0, and ends at the viewport's right edge at the largest offset |
| TableLayout.VScrollbarThumbRect | src/gui/table.rs:149-167 | the vertical thumb is at least 20 tall and 8 wide, its left edge 14 pixels from the widget's right edge (2 pixels inside the rows area); it starts just below the header when nothing scrolls or the offset is 0, and ends at the bottom of the track at the largest offset |
| TableLayout.ThumbInsets | src/gui/table.rs:141-166 | the horizontal thumb starts 2 pixels below the top of its strip; the vertical thumb runs from 2 pixels left of its strip to 6 pixels from the widget's right edge, overlapping the rows area |
| TableLayout.ThumbFitsWhenScrollable | src/gui/table.rs:133 | when the content is longer than a track that holds a 20-pixel thumb, the thumb is no longer than the track |
| TableLayout.HThumbFitsWhenScrollable | src/gui/table.rs:131-133 | when the table scrolls horizontally and the viewport is at least 20 pixels wide, the horizontal thumb is no wider than the viewport |
| TableLayout.VThumbFitsWhenScrollable | src/gui/table.rs:149-167 | when the table scrolls vertically and the track is at least 20 pixels tall, the vertical thumb is no taller than its track |
| TableLayout.HThumbWithinTrack | src/gui/table.rs:125-147 | when the table scrolls horizontally and the viewport is at least 20 pixels wide, the horizontal thumb stays within the viewport width for every offset in range |
| TableLayout.VThumbWithinTrack | src/gui/table.rs:149-167 | when the table scrolls vertically and the track is at least 20 pixels tall, the vertical thumb stays between the header and the bottom of its track for every offset in range |
| TableLayout.HThumbOverflowsWhenNotScrollable | src/gui/table.rs:131-134 | with nothing to scroll the thumb can be far wider than the viewport (one 100-pixel column in an 800-pixel widget gives a thumb of about 6209 pixels) |
| TableInteraction.TableState.constructor | src/gui/table.rs:170-196 | a fresh state record has no widths, no resize, no drags and both offsets 0 |
| TableInteraction.Reconciled | src/gui/table.rs:244-249 | the update step first reconciles the widths and changes nothing else |
| TableInteraction.FrameOf | src/gui/table.rs:250-257 | both scroll ranges are at least 0, positive exactly when the content overflows the viewport on that axis, and large enough that viewport plus range covers the content; both thumbs are at least 20 long; the quantities agree with the layout helpers the draw pass uses |
| TableInteraction.Step | src/gui/table.rs:233-383 | after any event there is one width per column, and a resize index that named a column still does |
| TableInteraction.InitialStateValid | src/gui/table.rs:170-184 | the fresh state satisfies the invariant |
| TableInteraction.ChangeIsSignalled | src/gui/table.rs:259-382 | every change beyond reconciling the widths comes with a redraw request |
| TableInteraction.IgnoredEvents | src/gui/table.rs:321-381 | unhandled events, and wheel or key events away from the widget, only reconcile the widths and ask for no redraw |
| TableInteraction.PressPreserves | src/gui/table.rs:260-281 | a press never cancels an active mode and never changes a width or an offset; it asks for a redraw iff it is near a divider in the header or on a thumb; without a redraw nothing changes |
| TableInteraction.OnPress | src/gui/table.rs:260-281 | a press never changes a width or an offset, a column it starts resizing exists, and without a redraw it changes nothing |
| TableInteraction.PressTransitions | src/gui/table.rs:260-281 | the whole new record per branch: a divider in reach wins and the leftmost such column starts resizing, anchored at the cursor x and that width, with every other field kept; otherwise a press on the vertical, then the horizontal, thumb sets only that drag's flag and its two anchors (cursor and current offset); a miss changes nothing and asks for no redraw |
| TableInteraction.PressWithoutCursor | src/gui/table.rs:261 | a press without a cursor position changes nothing |
| TableInteraction.OnMove | src/gui/table.rs:282-310 | a cursor move never starts or ends a mode and keeps the column count; it acts, and asks for a redraw, exactly when some mode is active, and otherwise changes nothing |
| TableInteraction.ResizeMove | src/gui/table.rs:283-290 | during a resize the new record differs from the old only in the widths and the horizontal offset, so all anchors, flags and the vertical offset are kept; only the resized column changes, to the anchored width plus the cursor travel, floored at 28; the content width changes by that difference; the horizontal offset is kept when still in range and otherwise becomes the new maximum |
| TableInteraction.DraggedOffset | src/gui/table.rs:291-308 | a dragged offset always lies in [0, maxScroll] |
| TableInteraction.DraggedOffsetSpec | src/gui/table.rs:291-308 | a thumb drag lands in [0, maxScroll]; a drag by at least the travel denominator from an anchor in [0, maxScroll] lands on maxScroll one way and on 0 the other; no travel keeps the anchored offset |
| TableInteraction.VThumbDragMove | src/gui/table.rs:291-299 | during a vertical thumb drag only the vertical offset changes, to the dragged offset, within range |
| TableInteraction.HThumbDragMove | src/gui/table.rs:300-309 | during a horizontal thumb drag only the horizontal offset changes, to the dragged offset, within range |
| TableInteraction.IdleMove | src/gui/table.rs:282-310 | a cursor move with no mode active changes nothing and asks for no redraw |
| TableInteraction.OnRelease | src/gui/table.rs:311-320 | after a release no resize is active, no width or offset has changed, and a redraw is asked for exactly when some mode was active |
| TableInteraction.ReleaseTransitions | src/gui/table.rs:311-320 | a release ends a resize and nothing else, or else ends both thumb drags; it asks for a redraw iff some mode was active |
| TableInteraction.TwoReleasesIdle | src/gui/table.rs:311-320 | two releases in a row always leave the widget idle |
| TableInteraction.OnWheel | src/gui/table.rs:321-343 | the wheel changes at most one offset and nothing else, and a changed offset lies in [0, maxScroll] |
| TableInteraction.WheelDominantAxis | src/gui/table.rs:321-343 | the wheel scrolls only the axis with the strictly larger magnitude, vertical on ties; lines scale by 28 either way; the delta is subtracted and clamped to the range; a redraw is asked for |
| TableInteraction.OnKey | src/gui/table.rs:344-380 | a key changes at most one offset and nothing else, and a changed offset lies in [0, maxScroll] |
| TableInteraction.KeyNavigation | src/gui/table.rs:344-380 | Home and End jump to exactly 0 and maxScroll; page keys step by the viewport height minus the header and arrow keys by 28, landing on the stepped offset when it is in range, on exactly 0 when it undershoots and on exactly maxScroll when it overshoots; only the key's axis changes; every key asks for a redraw |
| TableInteraction.StepKeepsInvariant | src/gui/table.rs:233-383 | every event keeps all widths at least 28, any resize index valid and both offsets in [0, maxScroll] |
| TableInteraction.MoveKeepsInvariant | src/gui/table.rs:282-310 | cursor moves keep the invariant |
| TableInteraction.PressKeepsInvariant | src/gui/table.rs:260-281 | presses keep the invariant |
| TableInteraction.OtherKeepsInvariant | src/gui/table.rs:311-381 | releases, wheel, keys and other events keep the invariant |
| TableInteraction.Run | src/gui/table.rs:233-383 | for a fixed table and fixed bounds, a valid resize index stays valid over any sequence of events |
| TableInteraction.RunKeepsInvariant | src/gui/table.rs:233-383 | for a fixed table and fixed bounds, no sequence of events, however long, breaks the invariant |
| TableInteraction.StaleOffsetAfterBoundsChange | src/gui/table.rs:250-257 | as written, an offset in range in a widget 600 pixels high stays at 4 after an event in the same widget grown to 800 pixels, where the range is 0, so the invariant fails |
| TableInteraction.ClampedToFrame | src/gui/table.rs:250-257 | clamping changes only the two offsets, leaves them in [0, maxScroll] for the current bounds, and keeps an offset that is already in range |
| TableInteraction.ClampedStepKeepsInvariant | src/gui/table.rs:233-383 | with the offsets clamped to the current bounds before the event, any record with valid widths and resize index ends the event inside the invariant of the current bounds, whatever bounds it had before |
| TableInteraction.MouseInteraction | src/gui/table.rs:209-231 | the resize cursor always shows during a resize; otherwise it shows only in the header band, and there exactly when some divider is within 4 pixels of the cursor in content coordinates |
| TableInteraction.AffordanceMatchesPress | src/gui/table.rs:209-231 | the resize cursor shows exactly where a press would start a resize, and always while a resize is in progress |
| TableInteraction.WheelScenario | src/gui/table.rs:321-331 | three lines of wheel over a fresh, paged four-column table scroll down exactly 84 pixels, with widths 80 each |
| TableInteraction.ResizeScenario | src/gui/table.rs:260-320 | press 2 pixels right of the first divider, move 20 pixels right, release: the first column is 100 wide, the resize is over, and later events keep the width |
| TableInteraction.ResizeScenarioPress | src/gui/table.rs:262-267 | that press starts resizing column 0, anchored at x 82 and width 80 |
| TableInteraction.ResizeScenarioMove | src/gui/table.rs:283-290 | that move widens column 0 to 100 and changes nothing else |
| TableInteraction.ResizeScenarioKeep | src/gui/table.rs:311-314 | release and unhandled events keep reconciled widths, and a release ends the resize |
| TableInteraction.ColWidths | src/gui/table.rs:69-76 | in place: the record's widths become the reconciled widths and nothing else changes |
| TableInteraction.PressInPlace | src/gui/table.rs:260-281 | in place: the press handler's new record and redraw flag are the press transition's |
| TableInteraction.MoveInPlace | src/gui/table.rs:282-310 | in place: the move handler's new record and redraw flag are the move transition's |
| TableInteraction.ResizeDragInPlace | src/gui/table.rs:283-290 | in place: the resize branch of the move transition |
| TableInteraction.VThumbDragInPlace | src/gui/table.rs:291-299 | in place: the vertical drag branch of the move transition |
| TableInteraction.HThumbDragInPlace | src/gui/table.rs:300-309 | in place: the horizontal drag branch of the move transition |
| TableInteraction.ReleaseInPlace | src/gui/table.rs:311-320 | in place: the release transition |
| TableInteraction.WheelInPlace | src/gui/table.rs:321-343 | in place: the wheel transition |
| TableInteraction.KeyInPlace | src/gui/table.rs:344-380 | in place: the key transition |
| TableInteraction.Update | src/gui/table.rs:233-383 | the in-place update leaves exactly `Step`'s state and returns its redraw flag, so every lemma about `Step` holds of the widget's record |
| TableRender.StripesAlternate | src/gui/table.rs:494-499 | consecutive absolute row indices get different stripes and indices two apart the same one |
| TableRender.BandStripe | src/gui/table.rs:494-499 | a drawn band carries the stripe of its row's absolute index |
| TableRender.AdjacentRowsAlternate | src/gui/table.rs:494-499 | the bands of two consecutive drawn rows have different stripes |
| TableRender.FirstVisibleRowSpec | src/gui/table.rs:480 | for a non-negative offset the first visible row is the one whose band holds the offset; a negative offset gives row 0 |
| TableRender.VisibleRowCountSpec | src/gui/table.rs:481-482 | the visible count, less one, covers the rows area's height, with at most one row to spare |
| TableRender.RowNotAboveViewport | src/gui/table.rs:490-493 | no row from the first visible one on lies wholly above the rows area, so the walk's skip is never taken |
| TableRender.DrawHeaderCells | src/gui/table.rs:425-460 | the header loop with its running left edge emits exactly the header commands of the frame |
| TableRender.DrawRowCells | src/gui/table.rs:524-558 | the cell loop of one row emits exactly that row's cell commands |
| TableRender.DrawRow | src/gui/table.rs:494-558 | one row that reaches the rows area: its striped band, then its cells |
| TableRender.DrawNextRow | src/gui/table.rs:485-558 | one step of the row walk appends the next row's commands |
| TableRender.DrawRows | src/gui/table.rs:479-560 | the bounded row walk, with its break at the first unloaded row, emits exactly the body of the frame |
| TableRender.ThumbCmdsAsWritten | src/gui/table.rs:561-584 | the vertical thumb is among the thumbs iff the content is taller than the whole widget, and the horizontal one iff the content is wider than the viewport, that is iff it scrolls horizontally |
| TableRender.DrawThumbs | src/gui/table.rs:561-584 | the thumb pass emits exactly the thumbs as the widget draws them |
| TableRender.DrawSpec | src/gui/table.rs:385-586 | the frame is empty exactly when there are no widths, and otherwise starts with the panel and the header band; the lemmas below state which labels, dividers, rows, cells and thumbs it holds |
| TableRender.Draw | src/gui/table.rs:385-586 | the draw pass emits exactly `DrawSpec`: nothing without widths, else panel, header band, header cells, separator, rows and thumbs as the widget draws them |
| TableRender.VisitedRowsAreDrawnRows | src/gui/table.rs:485-489 | the walk visits exactly the loaded rows from the first visible one to the first visible plus the visible count |
| TableRender.HeaderLabels | src/gui/table.rs:428-457 | the header holds column c's name iff c has a header and its extent touches the viewport |
| TableRender.HeaderDividers | src/gui/table.rs:430-444 | the header holds a divider before column c iff c is shown and is not the first |
| TableRender.CellTexts | src/gui/table.rs:524-558 | a row holds cell (row, c) with text s iff column c is shown, has a value at that row, and s is that value |
| TableRender.CellDividers | src/gui/table.rs:527-541 | a row holds a divider before column c iff c is shown and is not the first |
| TableRender.RowsBands | src/gui/table.rs:485-511 | the body holds row r's band iff r is drawn, and its stripe is that of r's absolute index |
| TableRender.RowsCellTexts | src/gui/table.rs:485-558 | the body holds cell (r, c) with text s iff r is drawn, c is shown, and s is the loaded value |
| TableRender.RowsCellDividers | src/gui/table.rs:485-541 | the body holds a divider at (r, c) iff r is drawn and c is a shown column other than the first |
| TableRender.DrawnRows | src/gui/table.rs:479-523 | a frame draws row r's band iff there are widths, r is loaded and in the walk's window, and with the stripe of r's absolute index |
| TableRender.DrawnCells | src/gui/table.rs:524-558 | a frame shows text s in cell (r, c) iff r is drawn, column c is shown and s is the loaded value at row r; no other cell text appears |
| TableRender.DrawnCellDividers | src/gui/table.rs:527-541 | a frame draws a cell divider at (r, c) iff r is drawn and c is a shown column other than the first |
| TableRender.DrawnHeaders | src/gui/table.rs:428-459 | a frame shows header label s at column c iff c has header s and is shown, and a header divider before c iff c is shown and not the first |
| TableRender.ColumnShownInContent | src/gui/table.rs:430 | the culling test in content coordinates: a column is shown iff its span from left edge to divider meets the span from the horizontal offset to the offset plus the viewport width |
| TableRender.ShownColumnsContiguous | src/gui/table.rs:527 | with non-negative widths the shown columns form one contiguous run: a column between two shown ones is shown |
| TableRender.ReconciledWidthsDrawable | src/gui/table.rs:36-48 | for a table with one header per column, the widths the update step reconciles are widths the draw pass can index |
| TableRender.ThumbsExactlyWhenScrollable | src/gui/table.rs:561-584 | in the corrected frame each thumb is drawn iff its axis has a positive scroll range |
| TableRender.CorrectedFrameAgrees | src/gui/table.rs:561-562 | the corrected frame equals the widget's frame except exactly when there are widths and the content is taller than the viewport but not than the whole widget |
| TableRender.ThumbsWhereLaidOut | src/gui/table.rs:563-575 | any thumb in the frame has the rectangle the layout computes for it |
| TableRender.VisibleRowsAreDrawn | src/gui/table.rs:480-489 | every loaded row that overlaps the rows area of the viewport is drawn |
| TableRender.DrawnRowsNearViewport | src/gui/table.rs:480-493 | a drawn row reaches the rows area and starts less than two rows below the bottom of the widget |
| TableRender.VThumbAsWrittenGap | src/gui/table.rs:561-563 | as written, the frame holds the vertical thumb iff the content is taller than the whole widget; the content scrolls but the frame shows no thumb exactly when its height is above the viewport height and at most the widget height |
| TableRender.VThumbMissingExample | src/gui/table.rs:562 | 20 rows in a 600-pixel-high widget scroll by 4 pixels, yet as written no thumb is drawn; the corrected condition draws it |
| TableRender.DrawAfterWheelScenario | src/gui/table.rs:479-499 | after the wheel scenario's three-row scroll, the frame draws bands for exactly rows 3 to 9, even-striped on even rows (absolute offset 500000) |
| TableRender.WheelWindow | src/gui/table.rs:480-495 | at offset 84 in a 600-pixel widget with 10 loaded rows, the drawn rows are exactly 3 to 9 |

## Left out

- Rendering itself is not modelled: quads, colours, rounded borders, clip layers and `draw_text` (`src/gui/table.rs:589-625`). The font, padding and font size only affect text layout. Each draw command names what it draws (row, column, stripe, label, rectangle for thumbs), not its pixel rectangle.
- `RowBand` stands for both the row's background quad and its bottom border line (`src/gui/table.rs:500-523`), which are always drawn together.
- The `From<Table>` conversion into a framework element (`src/gui/table.rs:627-634`), `tag`, `state`, `size` and `layout` (`src/gui/table.rs:190-207`) are plumbing of the GUI framework.
- `Table::new` and `col_width` (`src/gui/table.rs:36-55`) are the `Table` datatype's constructor plus the `WellFormed` predicate. The header-count check is a debug-build assertion, not enforced. `col_widths_ref` (`src/gui/table.rs:78-80`) is the draw pass reading the record's widths, passed as a parameter.
- f32 rounding: pixel values are exact reals. Saturating casts of negative floats to `usize` are modelled. Very large floats are not, so neither is `usize` overflow of `row_offset + row_idx`.
- The framework's hit test (`Rectangle::contains`, `cursor.is_over`) is not in the source. It is assumed half-open.
- The rest of the GUI (`src/gui/components.rs`, `src/gui/state.rs`, `src/gui/messages.rs`) and the paging of rows into the loaded window are not part of this model.
- TableInteraction.Update: requires that a cursor move during a resize names an existing column. The source would panic on a stale index. The same holds for `Step`.
- TableRender.Draw: requires that the widths cover every header and column, or that there are none. Otherwise the source panics on an index. The draw pass reads the stored widths without reconciling them.
- TableInteraction.Run, TableInteraction.RunKeepsInvariant: the table and the bounds are fixed for the whole run. The source does not re-clamp the offsets when the bounds or the table change between events, and `StaleOffsetAfterBoundsChange` shows that the invariant can then fail.
- TableRender.DrawRows: the source's skip of rows above the viewport (`src/gui/table.rs:490-493`) is left out of the loop. `RowNotAboveViewport` proves that it can never fire, and `RowCmds` keeps the test.
- The corrected halves of the two findings, `DrawSpecCorrected` and `StepClamped`, are stated beside the model. `Draw` and `Update` do not use them: they follow the source.
- The source's single `draw` function is split into `DrawHeaderCells`, `DrawRowCells`, `DrawRow`, `DrawNextRow`, `DrawRows` and `DrawThumbs`. The order of the commands is the source's.
- The thumb drag during event handling reads the thumb rectangle of the offset before the event, as the source does. Nothing is proved about the thumb's on-screen position during a drag.

## Findings

| source | as written | input that shows it | evidently intended | confidence | as-written member | corrected member |
|---|---|---|---|---|---|---|
| src/gui/table.rs:562 | the vertical thumb is drawn when the content height exceeds the widget height | 20 logical rows in a widget 600 pixels high: the content is 32 + 20 × 28 = 592 pixels, the viewport is 588, so the content scrolls by 4 pixels, but 592 ≤ 600 and no thumb is drawn | draw the thumb when the content exceeds the viewport height (widget height minus the horizontal bar), the condition the scroll range and the horizontal thumb use | not executed | TableRender.VThumbAsWrittenGap | TableRender.ThumbsExactlyWhenScrollable |
| src/gui/table.rs:250-257 | the scroll ranges are recomputed from the current bounds on every event, but an offset is clamped only when the event moves it | a one-column table of 20 rows at offset 4 in a widget 800 × 600 (range 4), followed by any unhandled event after the widget grew to 800 × 800 (range 0): the offset stays 4, beyond the range | clamp both offsets to the current ranges before handling the event | not executed; visible only as a few pixels of blank space until the next scroll | TableInteraction.StaleOffsetAfterBoundsChange | TableInteraction.ClampedStepKeepsInvariant |
