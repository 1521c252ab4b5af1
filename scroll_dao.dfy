/**
 * What the scroll coordinator reads from its data access object, taken as a
 * snapshot at call time. Each collaborator of the coordinator (render state,
 * axis overlays, viewport, window geometry, settings) is a value here, and
 * the effectful or layout-dependent queries become plain inputs.
 */
module ScrollDao {

  /** An optional snap argument: `undefined`, or the boolean the caller gave. */
  datatype Hint = Undefined | Defined(value: bool)

  /**
   * One axis overlay. `scrollsWindow` says whether its main scrollable element
   * is the browser window; `scrollTo(target, towardFarEdge)` performs the
   * physical scroll and reports whether it moved; `cellSize(i)` is the pixel
   * size of row or column `i` (the overlay's `sumCellSizes(i, i + 1)`).
   */
  datatype Overlay = Overlay(
    scrollsWindow: bool,
    scrollTo: (int, Hint) -> bool,
    cellSize: nat -> int)

  /** Render state: fully visible index ranges (-1 when none) and root element geometry. */
  datatype Table = Table(
    firstVisibleRow: int,
    lastVisibleRow: int,
    firstVisibleColumn: int,
    lastVisibleColumn: int,
    rootOffsetTop: int,
    rootOffsetLeft: int,
    tableRectRight: int)

  /** Header sizes reported by the viewport. */
  datatype Viewport = Viewport(columnHeaderHeight: int, rowHeaderWidth: int)

  /** The browser window: scroll position, inner size and the document's layout width. */
  datatype Window = Window(
    scrollTop: int,
    scrollLeft: int,
    innerHeight: int,
    innerWidth: int,
    documentOffsetWidth: int)

  /** The settings the coordinator consults: layout direction and the two pre-scroll hooks. */
  datatype Settings = Settings(
    rtlMode: bool,
    onBeforeViewportScrollHorizontally: int -> int,
    onBeforeViewportScrollVertically: int -> int)

  datatype DataAccessObject = DataAccessObject(
    drawn: bool,
    totalRows: nat,
    totalColumns: nat,
    fixedColumnsStart: int,
    fixedRowsTop: int,
    fixedRowsBottom: int,
    topOverlay: Overlay,
    inlineStartOverlay: Overlay,
    wtTable: Table,
    wtViewport: Viewport,
    rootWindow: Window,
    wtSettings: Settings)
}
