/**
 * The scroll coordinator: scrolls the viewport so that a row, a column or a
 * cell becomes visible, delegating each physical scroll to the axis overlay
 * and remembering the last position reached on each axis.
 */
module WalkontableScroll {
  import opened Wrappers
  import opened ScrollDao
  import opened VisibleEdge
  import opened Snap

  /** The calls an overlay received, in order, or the empty log. */
  function Logged(q: Option<Request>): seq<Request>
  {
    match q
    case Some(request) => [request]
    case None => []
  }

  class Scroll {
    /** The last column reached by a horizontal scroll (-1 before any), deciding the next snap direction. */
    var lastScrolledColumnPos: int
    /** The last row reached by a vertical scroll (-1 before any), deciding the next snap direction. */
    var lastScrolledRowPos: int
    /** Every `scrollTo` call handed to the inline-start overlay, in order. */
    ghost var inlineStartCalls: seq<Request>
    /** Every `scrollTo` call handed to the top overlay, in order. */
    ghost var topCalls: seq<Request>

    constructor ()
      ensures lastScrolledColumnPos == -1 && lastScrolledRowPos == -1
      ensures inlineStartCalls == [] && topCalls == []
    {
      lastScrolledColumnPos := -1;
      lastScrolledRowPos := -1;
      inlineStartCalls := [];
      topCalls := [];
    }

    /** The last visible row, corrected by the overflow walk when the table scrolls with the window. */
    method GetLastVisibleRow(dao: DataAccessObject) returns (lastVisibleRow: int)
      ensures lastVisibleRow == LastVisibleRow(dao)
    {
      lastVisibleRow := dao.wtTable.lastVisibleRow;
      if dao.topOverlay.scrollsWindow {
        var rootElementOffsetTop := dao.wtTable.rootOffsetTop;
        var windowScrollTop := dao.rootWindow.scrollTop;
        if rootElementOffsetTop > windowScrollTop {
          lastVisibleRow := WalkLastVisible(RowGeometry(dao), dao.totalRows, lastVisibleRow);
        }
      }
    }

    /** The last visible column, corrected by the overflow walk when the table scrolls with the window. */
    method GetLastVisibleColumn(dao: DataAccessObject) returns (lastVisibleColumn: int)
      ensures lastVisibleColumn == LastVisibleColumn(dao)
    {
      lastVisibleColumn := dao.wtTable.lastVisibleColumn;
      if dao.inlineStartOverlay.scrollsWindow {
        var inlineStartRootElementOffset := if dao.wtSettings.rtlMode
          then Abs(dao.wtTable.tableRectRight - dao.rootWindow.documentOffsetWidth)
          else dao.wtTable.rootOffsetLeft;
        var windowScrollLeft := Abs(dao.rootWindow.scrollLeft);
        if inlineStartRootElementOffset > windowScrollLeft {
          lastVisibleColumn := WalkLastVisible(ColumnGeometry(dao), dao.totalColumns, lastVisibleColumn);
        }
      }
    }

    /**
     * Scrolls the viewport to a column. The inline-start overlay is called
     * exactly when `HorizontalRequest` says so; the column history takes the
     * adjusted target only when the overlay reports a move; the row side is
     * untouched.
     */
    method ScrollViewportHorizontally(dao: DataAccessObject, column: int, snapToRight: Hint, snapToLeft: Hint)
      returns (result: bool)
      modifies this
      ensures var q := HorizontalRequest(dao, column, snapToRight, snapToLeft, old(lastScrolledColumnPos));
              && inlineStartCalls == old(inlineStartCalls) + Logged(q)
              && result == (q.Some? && dao.inlineStartOverlay.scrollTo(q.value.target, q.value.towardFarEdge))
              && lastScrolledColumnPos == (if result then q.value.target else old(lastScrolledColumnPos))
      ensures !InDataset(dao.drawn, column, dao.totalColumns) ==>
                !result && unchanged(this)
      ensures lastScrolledRowPos == old(lastScrolledRowPos) && topCalls == old(topCalls)
    {
      if !dao.drawn || column < 0 || column > dao.totalColumns {
        return false;
      }
      var firstVisibleColumn := FirstVisibleColumn(dao);
      var lastVisibleColumn := GetLastVisibleColumn(dao);
      var autoSnapping := snapToRight.Undefined? && snapToLeft.Undefined?;
      if autoSnapping && column < dao.fixedColumnsStart {
        return false;
      }
      result := false;
      var target := dao.wtSettings.onBeforeViewportScrollHorizontally(column);
      if firstVisibleColumn == -1 {
        var towardFarEdge := if autoSnapping then Defined(target > lastScrolledColumnPos) else snapToRight;
        inlineStartCalls := inlineStartCalls + [Request(target, towardFarEdge)];
        result := dao.inlineStartOverlay.scrollTo(target, towardFarEdge);
      } else if (autoSnapping && (target < firstVisibleColumn || target > lastVisibleColumn)) || !autoSnapping {
        var towardFarEdge := if autoSnapping then Defined(target > lastVisibleColumn) else snapToRight;
        inlineStartCalls := inlineStartCalls + [Request(target, towardFarEdge)];
        result := dao.inlineStartOverlay.scrollTo(target, towardFarEdge);
      }
      if result {
        lastScrolledColumnPos := target;
      }
    }

    /**
     * Scrolls the viewport to a row. The top overlay is called exactly when
     * `VerticalRequest` says so; the row history takes the adjusted target
     * only when the overlay reports a move; the column side is untouched.
     */
    method ScrollViewportVertically(dao: DataAccessObject, row: int, snapToTop: Hint, snapToBottom: Hint)
      returns (result: bool)
      modifies this
      ensures var q := VerticalRequest(dao, row, snapToTop, snapToBottom, old(lastScrolledRowPos));
              && topCalls == old(topCalls) + Logged(q)
              && result == (q.Some? && dao.topOverlay.scrollTo(q.value.target, q.value.towardFarEdge))
              && lastScrolledRowPos == (if result then q.value.target else old(lastScrolledRowPos))
      ensures !InDataset(dao.drawn, row, dao.totalRows) ==>
                !result && unchanged(this)
      ensures lastScrolledColumnPos == old(lastScrolledColumnPos) && inlineStartCalls == old(inlineStartCalls)
    {
      if !dao.drawn || row < 0 || row > dao.totalRows {
        return false;
      }
      var firstVisibleRow := FirstVisibleRow(dao);
      var lastVisibleRow := GetLastVisibleRow(dao);
      var autoSnapping := snapToTop.Undefined? && snapToBottom.Undefined?;
      if autoSnapping && (row < dao.fixedRowsTop || row > dao.totalRows - dao.fixedRowsBottom - 1) {
        return false;
      }
      result := false;
      var target := dao.wtSettings.onBeforeViewportScrollVertically(row);
      if firstVisibleRow == -1 {
        var towardFarEdge := if autoSnapping then Defined(target > lastScrolledRowPos) else snapToBottom;
        topCalls := topCalls + [Request(target, towardFarEdge)];
        result := dao.topOverlay.scrollTo(target, towardFarEdge);
      } else if (autoSnapping && (target < firstVisibleRow || target > lastVisibleRow)) || !autoSnapping {
        var towardFarEdge := if autoSnapping then Defined(target > lastVisibleRow) else snapToBottom;
        topCalls := topCalls + [Request(target, towardFarEdge)];
        result := dao.topOverlay.scrollTo(target, towardFarEdge);
      }
      if result {
        lastScrolledRowPos := target;
      }
    }

    /**
     * Scrolls the viewport to the cell `(row, column)`: the horizontal axis
     * first, then the vertical axis, both always, answering whether either
     * moved.
     */
    method ScrollViewport(dao: DataAccessObject, row: int, column: int,
                          snapToTop: Hint, snapToRight: Hint, snapToBottom: Hint, snapToLeft: Hint)
      returns (result: bool)
      modifies this
      ensures var h := HorizontalRequest(dao, column, snapToRight, snapToLeft, old(lastScrolledColumnPos));
              var v := VerticalRequest(dao, row, snapToTop, snapToBottom, old(lastScrolledRowPos));
              var movedH := h.Some? && dao.inlineStartOverlay.scrollTo(h.value.target, h.value.towardFarEdge);
              var movedV := v.Some? && dao.topOverlay.scrollTo(v.value.target, v.value.towardFarEdge);
              && result == (movedH || movedV)
              && inlineStartCalls == old(inlineStartCalls) + Logged(h)
              && topCalls == old(topCalls) + Logged(v)
              && lastScrolledColumnPos == (if movedH then h.value.target else old(lastScrolledColumnPos))
              && lastScrolledRowPos == (if movedV then v.value.target else old(lastScrolledRowPos))
    {
      var scrolledHorizontally := ScrollViewportHorizontally(dao, column, snapToRight, snapToLeft);
      var scrolledVertically := ScrollViewportVertically(dao, row, snapToTop, snapToBottom);
      result := scrolledHorizontally || scrolledVertically;
    }
  }

  /**
   * A client of the contracts above: 100 rows, no frozen rows and no row
   * fully visible. A first automatic scroll to row 5 leaves 5 in the history;
   * then a scroll to row 10 snaps toward the bottom and records 10, and a
   * following one to row 3 snaps toward the top and records 3.
   */
  method FallbackScenario()
  {
    var overlay := Overlay(false, (target: int, towardFarEdge: Hint) => true, (i: nat) => 20);
    var dao := DataAccessObject(
      true, 100, 10, 0, 0, 0, overlay, overlay,
      Table(-1, -1, 0, 9, 0, 0, 0),
      Viewport(25, 50),
      Window(0, 0, 600, 800, 800),
      Settings(false, (c: int) => c, (r: int) => r));
    var scroll := new Scroll();
    var moved := scroll.ScrollViewportVertically(dao, 5, Undefined, Undefined);
    assert moved && scroll.lastScrolledRowPos == 5;
    moved := scroll.ScrollViewportVertically(dao, 10, Undefined, Undefined);
    assert moved && scroll.topCalls == [Request(5, Defined(true)), Request(10, Defined(true))];
    assert scroll.lastScrolledRowPos == 10;
    moved := scroll.ScrollViewportVertically(dao, 3, Undefined, Undefined);
    assert moved && scroll.topCalls[2] == Request(3, Defined(false));
    assert scroll.lastScrolledRowPos == 3;
    // Column 2 inside three leading frozen columns: no automatic scroll, no overlay call.
    var movedColumn := scroll.ScrollViewportHorizontally(dao.(fixedColumnsStart := 3), 2, Undefined, Undefined);
    assert !movedColumn && scroll.inlineStartCalls == [] && scroll.lastScrolledColumnPos == -1;
  }
}
