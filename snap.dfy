/**
 * The snapping decision of the scroll coordinator as pure functions: for a
 * target row or column, the snap hints and the last scrolled position,
 * which call (if any) the axis overlay receives.
 */
module Snap {
  import opened Wrappers
  import opened ScrollDao
  import opened VisibleEdge

  /** One delegated scroll: `overlay.scrollTo(target, towardFarEdge)`. */
  datatype Request = Request(target: int, towardFarEdge: Hint)

  /** Snapping is automatic when the caller passes neither snap hint of the axis. */
  predicate AutoSnapping(hint1: Hint, hint2: Hint)
  {
    hint1.Undefined? && hint2.Undefined?
  }

  /** The guard shared by both axes: drawn at least once and the index within `0..total`. */
  predicate InDataset(drawn: bool, index: int, total: nat)
  {
    drawn && 0 <= index <= total
  }

  /**
   * The decision once the hook has adjusted the target. With nothing fully
   * visible (`first == -1`) the overlay is always called, toward the far edge
   * when automatic snapping finds the target beyond the last scrolled
   * position. With something fully visible, automatic snapping calls the
   * overlay only for a target outside `[first, last]`, toward the far edge
   * when it lies beyond `last`. Explicit snapping always calls it with the
   * far-edge hint unchanged.
   */
  function SnapRequest(target: int, first: int, last: int, auto: bool, farHint: Hint, lastScrolled: int): (r: Option<Request>)
    ensures first == -1 && auto ==> r == Some(Request(target, Defined(target > lastScrolled)))
    ensures !auto ==> r == Some(Request(target, farHint))
    ensures first != -1 && auto ==> (r.None? <==> first <= target <= last)
    ensures first != -1 && auto && r.Some? ==> r.value == Request(target, Defined(target > last))
  {
    if first == -1 then
      Some(Request(target, if auto then Defined(target > lastScrolled) else farHint))
    else if (auto && (target < first || target > last)) || !auto then
      Some(Request(target, if auto then Defined(target > last) else farHint))
    else
      None
  }

  /** The leading frozen columns are exempt from automatic snapping; trailing columns have no such band. */
  predicate FrozenColumn(dao: DataAccessObject, column: int)
  {
    column < dao.fixedColumnsStart
  }

  /** The top and bottom frozen rows are exempt from automatic snapping. */
  predicate FrozenRow(dao: DataAccessObject, row: int)
  {
    row < dao.fixedRowsTop || row > dao.totalRows - dao.fixedRowsBottom - 1
  }

  /** The call the inline-start overlay receives for a horizontal scroll to `column`, if any. */
  function HorizontalRequest(dao: DataAccessObject, column: int, snapToRight: Hint, snapToLeft: Hint, lastScrolledColumnPos: int): (r: Option<Request>)
    ensures !InDataset(dao.drawn, column, dao.totalColumns) ==> r.None?
    ensures AutoSnapping(snapToRight, snapToLeft) && FrozenColumn(dao, column) ==> r.None?
    ensures InDataset(dao.drawn, column, dao.totalColumns) && !AutoSnapping(snapToRight, snapToLeft) ==>
              r == Some(Request(dao.wtSettings.onBeforeViewportScrollHorizontally(column), snapToRight))
    ensures r.Some? <==>
              InDataset(dao.drawn, column, dao.totalColumns) &&
              !(AutoSnapping(snapToRight, snapToLeft) && FrozenColumn(dao, column)) &&
              (!AutoSnapping(snapToRight, snapToLeft) || FirstVisibleColumn(dao) == -1 ||
               !(FirstVisibleColumn(dao) <= dao.wtSettings.onBeforeViewportScrollHorizontally(column) <= LastVisibleColumn(dao)))
    ensures r.Some? ==> r.value.target == dao.wtSettings.onBeforeViewportScrollHorizontally(column)
    ensures r.Some? && AutoSnapping(snapToRight, snapToLeft) ==>
              r.value.towardFarEdge == Defined(r.value.target > if FirstVisibleColumn(dao) == -1 then lastScrolledColumnPos else LastVisibleColumn(dao))
  {
    if !InDataset(dao.drawn, column, dao.totalColumns) then None
    else
      var auto := AutoSnapping(snapToRight, snapToLeft);
      if auto && FrozenColumn(dao, column) then None
      else
        SnapRequest(dao.wtSettings.onBeforeViewportScrollHorizontally(column),
                    FirstVisibleColumn(dao), LastVisibleColumn(dao), auto, snapToRight, lastScrolledColumnPos)
  }

  /** The call the top overlay receives for a vertical scroll to `row`, if any. */
  function VerticalRequest(dao: DataAccessObject, row: int, snapToTop: Hint, snapToBottom: Hint, lastScrolledRowPos: int): (r: Option<Request>)
    ensures !InDataset(dao.drawn, row, dao.totalRows) ==> r.None?
    ensures AutoSnapping(snapToTop, snapToBottom) && FrozenRow(dao, row) ==> r.None?
    ensures InDataset(dao.drawn, row, dao.totalRows) && !AutoSnapping(snapToTop, snapToBottom) ==>
              r == Some(Request(dao.wtSettings.onBeforeViewportScrollVertically(row), snapToBottom))
    ensures r.Some? <==>
              InDataset(dao.drawn, row, dao.totalRows) &&
              !(AutoSnapping(snapToTop, snapToBottom) && FrozenRow(dao, row)) &&
              (!AutoSnapping(snapToTop, snapToBottom) || FirstVisibleRow(dao) == -1 ||
               !(FirstVisibleRow(dao) <= dao.wtSettings.onBeforeViewportScrollVertically(row) <= LastVisibleRow(dao)))
    ensures r.Some? ==> r.value.target == dao.wtSettings.onBeforeViewportScrollVertically(row)
    ensures r.Some? && AutoSnapping(snapToTop, snapToBottom) ==>
              r.value.towardFarEdge == Defined(r.value.target > if FirstVisibleRow(dao) == -1 then lastScrolledRowPos else LastVisibleRow(dao))
  {
    if !InDataset(dao.drawn, row, dao.totalRows) then None
    else
      var auto := AutoSnapping(snapToTop, snapToBottom);
      if auto && FrozenRow(dao, row) then None
      else
        SnapRequest(dao.wtSettings.onBeforeViewportScrollVertically(row),
                    FirstVisibleRow(dao), LastVisibleRow(dao), auto, snapToBottom, lastScrolledRowPos)
  }

  /**
   * With nothing fully visible, automatic snapping follows the scroll
   * history: after a successful vertical scroll to `row1` (the history now
   * holds its adjusted target), a scroll to `row2` snaps toward the bottom
   * exactly when `row2`'s adjusted target lies beyond `row1`'s.
   */
  lemma FallbackFollowsHistory(dao: DataAccessObject, row1: int, row2: int, history: int)
    requires dao.wtTable.firstVisibleRow == -1
    requires VerticalRequest(dao, row1, Undefined, Undefined, history).Some?
    requires InDataset(dao.drawn, row2, dao.totalRows) && !FrozenRow(dao, row2)
    ensures VerticalRequest(dao, row2, Undefined, Undefined, VerticalRequest(dao, row1, Undefined, Undefined, history).value.target)
            == Some(Request(dao.wtSettings.onBeforeViewportScrollVertically(row2),
                            Defined(dao.wtSettings.onBeforeViewportScrollVertically(row2) >
                                    dao.wtSettings.onBeforeViewportScrollVertically(row1))))
  {
  }

  /**
   * The guard lets a column equal to the column count through: when nothing
   * is fully visible, an automatic scroll to it past the frozen columns still
   * reaches the overlay.
   */
  lemma ColumnAtCountPassesGuard(dao: DataAccessObject, history: int)
    requires dao.drawn && dao.wtTable.firstVisibleColumn == -1
    requires dao.fixedColumnsStart <= dao.totalColumns
    ensures HorizontalRequest(dao, dao.totalColumns, Undefined, Undefined, history).Some?
  {
  }

  /**
   * A row equal to the row count also passes the guard, but with a
   * non-negative bottom band it lies beyond the last non-frozen row, so
   * automatic snapping never scrolls to it.
   */
  lemma RowAtCountIsFrozenForAutoSnapping(dao: DataAccessObject, history: int)
    requires dao.fixedRowsBottom >= 0
    ensures VerticalRequest(dao, dao.totalRows, Undefined, Undefined, history).None?
  {
  }
}
