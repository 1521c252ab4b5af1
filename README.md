# Walkontable scroll coordinator, modelled in Dafny

This project models the `Scroll` class of Handsontable's Walkontable engine
(`handsontable/src/3rdparty/walkontable/src/scroll.js`). The class scrolls the
grid's viewport so that a target row, column or cell becomes visible. For each
axis it decides whether the viewport must move and toward which edge. It then
hands the move to that axis's overlay (`scrollTo(target, towardFarEdge)`) and
remembers the last position reached (`lastScrolledColumnPos`,
`lastScrolledRowPos`, both -1 at first). When nothing on an axis is fully
visible, that history decides the snap direction. The class also corrects the
render state's "last visible row/column" when the table scrolls with the
browser window and does not yet fill it. The correction walks forward adding
cell sizes to the header size until the table overflows the window, and then
answers that step minus two.

Files:

- `wrappers.dfy` (`Wrappers`): `Option`.
- `scroll_dao.dfy` (`ScrollDao`): the data access object as a snapshot value.
  It holds the render state (`drawn`, totals, first/last visible indices,
  root element geometry), the overlays (`scrollsWindow`, the `scrollTo`
  oracle, per-index cell size), the viewport's header sizes, window geometry,
  the frozen band sizes, `rtlMode` and the two `onBeforeViewportScroll*` hooks
  as arbitrary `int -> int` functions. A snap hint is `Hint`: `Undefined` or
  `Defined(b)`.
- `visible_edge.dfy` (`VisibleEdge`): the first and last visible row and
  column. It also holds the overflow walk: a loop (`WalkLastVisible`) proved
  against a recursive reference (`FirstOverflowFrom`, `CorrectedLast`),
  with lemmas about it.
- `snap.dfy` (`Snap`): the snapping decision as pure functions. For each axis
  it gives the overlay call the coordinator makes, or none.
- `scroll.dfy` (`WalkontableScroll`): the class `Scroll` with its two history
  fields and the scroll methods. Each scroll method's `ensures` ties the new
  history, the overlay call log and the result to the decision functions. The
  log is a ghost field per overlay that records every `scrollTo` call, so
  "the overlay is not called" reads "the log is unchanged".

Modelling choices:

- The data access object's getters are live in the source, so each call takes
  the snapshot it reads as a parameter.
- The `scrollTo` oracle receives the hint exactly as the source passes it:
  with explicit snapping that is `snapToRight`/`snapToBottom`, possibly
  `undefined`.
- Pixel geometry is integer-valued.

## Model

| member | source | states |
|---|---|---|
| `WalkontableScroll.Scroll.constructor` | handsontable/src/3rdparty/walkontable/src/scroll.js:19-42 | both histories start at -1 and no overlay has been called |
| `WalkontableScroll.Scroll.ScrollViewport` | handsontable/src/3rdparty/walkontable/src/scroll.js:54-59 | the horizontal axis and then the vertical axis are both resolved unconditionally; the result is the OR of the two; each axis's overlay log and history evolve as that axis alone would make them |
| `WalkontableScroll.Scroll.ScrollViewportHorizontally` | handsontable/src/3rdparty/walkontable/src/scroll.js:69-116 | the inline-start overlay is called exactly as `HorizontalRequest` decides; the result is the overlay's answer (false with no call); `lastScrolledColumnPos` becomes the hook-adjusted target only on success; an index outside `0..totalColumns` or an undrawn table changes nothing; the row history and top overlay log never change |
| `WalkontableScroll.Scroll.ScrollViewportVertically` | handsontable/src/3rdparty/walkontable/src/scroll.js:126-172 | the vertical mirror: the top overlay is called exactly as `VerticalRequest` decides; `lastScrolledRowPos` takes the adjusted target only on success; the guard changes nothing; the column side never changes |
| `WalkontableScroll.Scroll.GetLastVisibleRow` | handsontable/src/3rdparty/walkontable/src/scroll.js:188-220 | the imperative walk answers exactly `LastVisibleRow` |
| `WalkontableScroll.Scroll.GetLastVisibleColumn` | handsontable/src/3rdparty/walkontable/src/scroll.js:236-285 | the imperative walk, with the right-to-left leading edge and the absolute horizontal scroll, answers exactly `LastVisibleColumn` |
| `Snap.SnapRequest` | handsontable/src/3rdparty/walkontable/src/scroll.js:98-109 | with nothing fully visible and automatic snapping, the direction is `target > lastScrolled`; explicit snapping always calls the overlay with the far-edge hint unchanged, whatever is visible; automatic snapping with something visible skips the call if and only if the target lies in `[first, last]`, and otherwise snaps toward the far edge exactly when `target > last` |
| `Snap.HorizontalRequest` | handsontable/src/3rdparty/walkontable/src/scroll.js:69-116 | no call if the table is undrawn or the column lies outside `0..totalColumns` (a column equal to the count passes); no automatic-snapping call for a column below `fixedColumnsStart`; explicit snapping always calls with `snapToRight` as given; a call happens if and only if the guard passes, the column is not frozen-exempt, and snapping is explicit, nothing is fully visible, or the adjusted target is outside the visible range; the call's target is the hook-adjusted column; its automatic direction compares with the history when nothing is visible, else with the last visible column |
| `Snap.VerticalRequest` | handsontable/src/3rdparty/walkontable/src/scroll.js:126-172 | the same for rows, with the frozen exemption `row < fixedRowsTop` or `row > totalRows - fixedRowsBottom - 1` and `snapToBottom` as the explicit direction |
| `Snap.FallbackFollowsHistory` | handsontable/src/3rdparty/walkontable/src/scroll.js:156-169 | with nothing fully visible, after a successful automatic scroll the next automatic scroll snaps toward the bottom exactly when its adjusted target lies beyond the previous one |
| `Snap.ColumnAtCountPassesGuard` | handsontable/src/3rdparty/walkontable/src/scroll.js:76-78 | a column equal to `totalColumns` passes the guard and, with nothing visible and outside the frozen band, reaches the overlay |
| `Snap.RowAtCountIsFrozenForAutoSnapping` | handsontable/src/3rdparty/walkontable/src/scroll.js:133-150 | a row equal to `totalRows` passes the guard but automatic snapping never scrolls to it when `fixedRowsBottom >= 0` |
| `VisibleEdge.FirstVisibleRow` | handsontable/src/3rdparty/walkontable/src/scroll.js:179-181 | the render state's first fully visible row, unchanged (-1 when none) |
| `VisibleEdge.FirstVisibleColumn` | handsontable/src/3rdparty/walkontable/src/scroll.js:227-229 | the render state's first fully visible column, unchanged (-1 when none) |
| `VisibleEdge.FirstOverflowFrom` | handsontable/src/3rdparty/walkontable/src/scroll.js:207-215 | the first step in `k..total` whose running size overflows the window, with no overflow before it; none if and only if no step in `k..total` overflows |
| `VisibleEdge.CorrectedLast` | handsontable/src/3rdparty/walkontable/src/scroll.js:205-216 | if some step in `1..total` overflows, the result plus two is the first such step and lies in `[-1, total - 2]`; if none does, the render state's value stands |
| `VisibleEdge.WalkLastVisible` | handsontable/src/3rdparty/walkontable/src/scroll.js:205-215 | the accumulation loop with its early break answers exactly `CorrectedLast` |
| `VisibleEdge.OverflowPersists` | handsontable/src/3rdparty/walkontable/src/scroll.js:207-210 | with no negative cell size, a step that overflows the window is followed only by steps that overflow |
| `VisibleEdge.CorrectedLastSplitsWalk` | handsontable/src/3rdparty/walkontable/src/scroll.js:207-213 | with no negative cell size and some overflow, step `k` overflows if and only if `k` is at least the corrected last visible index plus two |
| `VisibleEdge.LastVisibleRow` | handsontable/src/3rdparty/walkontable/src/scroll.js:188-220 | the render state's value when the table does not scroll with the window, or its top offset is at most the window's vertical scroll, or no step overflows; otherwise two less than the first overflowing step, within `[-1, totalRows - 2]` |
| `VisibleEdge.LastVisibleColumn` | handsontable/src/3rdparty/walkontable/src/scroll.js:236-285 | the same for columns, with the inline-start offset (right-to-left: the absolute distance from the table's right edge to the document width) compared to the absolute horizontal window scroll |
| `VisibleEdge.RtlMirrorsLtr` | handsontable/src/3rdparty/walkontable/src/scroll.js:249-268 | a right-to-left table mirrored from a left-to-right one has the same last visible column: its distance from the document's right edge equals the left offset, its window scroll is negated, and its other inputs are the same |

## Left out

- DOM geometry (`offset`, `getScrollTop`, `getScrollLeft`, `innerHeight`, `innerWidth`, `getBoundingClientRect`, `documentElement.offsetWidth`): their results are integer inputs of the snapshot; the browser's values are floating-point pixels.
- The physical scroll inside the overlays' `scrollTo` and the summing inside `sumCellSizes`: the first is an oracle returning whether the viewport moved, the second a per-index size function. Overlay internals are not part of this model.
- `wtSettings.getSetting` plumbing: the two hooks are arbitrary `int -> int` functions and `rtlMode` is a boolean.
- `Number.isInteger`: indices are Dafny integers, so the non-integer guard case does not arise.
- Snap hints other than `undefined` or a boolean (such as `null`) are not modelled.
- `WalkontableScroll.Scroll.ScrollViewport` reads one snapshot for both axes. Any re-layout that the horizontal scroll causes before the vertical axis reads its geometry is not captured.
- Trailing frozen columns: the source has no exemption for them, and the model has no input for them either.
- `handsontable/test/e2e/settings/renderAllColumns.spec.js` and `renderAllRows.spec.js`: browser tests of settings defaults, with no scroll logic.
