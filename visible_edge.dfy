/**
 * The first and last visible row and column as the scroll coordinator sees
 * them. The first index is the render state's value. The last index is
 * corrected when the table scrolls with the browser window and has not yet
 * filled it: a walk adds row heights (or column widths) to the header size
 * until the table's far edge passes the window's far edge.
 */
module VisibleEdge {
  import opened Wrappers
  import opened ScrollDao

  function Abs(x: int): int { if x < 0 then -x else x }

  /**
   * The inputs of one overflow walk: the table's leading-edge offset in the
   * document, the window's scroll position and inner size along the axis, the
   * header size the walk starts from and the size of each row or column.
   */
  datatype WalkGeometry = WalkGeometry(
    leadingOffset: int,
    windowScroll: int,
    windowSize: int,
    headerSize: int,
    cellSize: nat -> int)

  /** Total size of the first `n` rows or columns. */
  function PrefixSize(size: nat -> int, n: nat): int
  {
    if n == 0 then 0 else PrefixSize(size, n - 1) + size(n - 1)
  }

  /** After adding the first `k` cells, the table's far edge reaches the window's far edge. */
  predicate Overflows(g: WalkGeometry, k: nat)
  {
    g.leadingOffset + g.headerSize + PrefixSize(g.cellSize, k) - g.windowScroll >= g.windowSize
  }

  /** `k` is the first step of the walk, among `1..total`, at which the table overflows the window. */
  predicate IsFirstOverflow(g: WalkGeometry, total: nat, k: int)
  {
    1 <= k <= total && Overflows(g, k) &&
    forall j: nat :: 1 <= j < k ==> !Overflows(g, j)
  }

  /** The walk is engaged only when the table scrolls with the window and starts below (or after) the window's scroll position. */
  predicate WalkEngaged(scrollsWindow: bool, g: WalkGeometry)
  {
    scrollsWindow && g.leadingOffset > g.windowScroll
  }

  /** The first index in `k..total` at which the table overflows the window, if any. */
  function FirstOverflowFrom(g: WalkGeometry, k: nat, total: nat): (r: Option<nat>)
    decreases total + 1 - k
    ensures r.Some? ==> k <= r.value <= total && Overflows(g, r.value)
    ensures r.Some? ==> forall j: nat :: k <= j < r.value ==> !Overflows(g, j)
    ensures r.None? <==> forall j: nat :: k <= j <= total ==> !Overflows(g, j)
  {
    if k > total then None
    else if Overflows(g, k) then Some(k)
    else FirstOverflowFrom(g, k + 1, total)
  }

  /**
   * The corrected last visible index: two less than the first overflowing
   * step, or the render state's value `reported` when the walk never
   * overflows.
   */
  function CorrectedLast(g: WalkGeometry, total: nat, reported: int): (r: int)
    ensures (exists k: nat :: 1 <= k <= total && Overflows(g, k)) ==>
              IsFirstOverflow(g, total, r + 2) && -1 <= r <= total - 2
    ensures (forall k: nat :: 1 <= k <= total ==> !Overflows(g, k)) ==> r == reported
  {
    match FirstOverflowFrom(g, 1, total)
    case Some(k) => k - 2
    case None => reported
  }

  /**
   * The overflow walk: step through indices `1..total`, add the size of the
   * previous cell, and stop at the first step whose running total reaches
   * the window's far edge, answering that step minus two.
   */
  method WalkLastVisible(g: WalkGeometry, total: nat, reported: int) returns (last: int)
    ensures last == CorrectedLast(g, total, reported)
  {
    last := reported;
    var size := g.headerSize;
    var k := 1;
    while k <= total
      invariant 1 <= k <= total + 1
      invariant size == g.headerSize + PrefixSize(g.cellSize, k - 1)
      invariant FirstOverflowFrom(g, k, total) == FirstOverflowFrom(g, 1, total)
      invariant last == reported
    {
      size := size + g.cellSize(k - 1);
      if g.leadingOffset + size - g.windowScroll >= g.windowSize {
        last := k - 2;
        break;
      }
      k := k + 1;
    }
  }

  /** With no negative cell size, once the table overflows the window it stays overflowed for every later step. */
  lemma {:induction false} OverflowPersists(g: WalkGeometry, i: nat, j: nat)
    requires forall n: nat :: g.cellSize(n) >= 0
    requires i <= j && Overflows(g, i)
    ensures Overflows(g, j)
    decreases j - i
  {
    if i < j {
      OverflowPersists(g, i, j - 1);
      assert PrefixSize(g.cellSize, j) == PrefixSize(g.cellSize, j - 1) + g.cellSize(j - 1);
    }
  }

  /**
   * With no negative cell size and an overflow somewhere in the walk, the
   * corrected value `r` splits the steps exactly: step `k` overflows if and
   * only if `k >= r + 2`.
   */
  lemma CorrectedLastSplitsWalk(g: WalkGeometry, total: nat, reported: int)
    requires forall n: nat :: g.cellSize(n) >= 0
    requires exists k: nat :: 1 <= k <= total && Overflows(g, k)
    ensures forall k: nat :: 1 <= k <= total ==>
              (Overflows(g, k) <==> k >= CorrectedLast(g, total, reported) + 2)
  {
    var r := CorrectedLast(g, total, reported);
    forall k: nat | 1 <= k <= total
      ensures Overflows(g, k) <==> k >= r + 2
    {
      if k >= r + 2 {
        OverflowPersists(g, r + 2, k);
      }
    }
  }

  /** Two walks over the same scalars and pointwise equal cell sizes accumulate the same totals. */
  lemma {:induction false} PrefixSizeExtensional(f: nat -> int, h: nat -> int, n: nat)
    requires forall i: nat :: f(i) == h(i)
    ensures PrefixSize(f, n) == PrefixSize(h, n)
  {
    if n > 0 {
      PrefixSizeExtensional(f, h, n - 1);
    }
  }

  /** Two walks over the same scalars and pointwise equal cell sizes overflow first at the same step. */
  lemma {:induction false} FirstOverflowExtensional(g: WalkGeometry, h: WalkGeometry, k: nat, total: nat)
    requires g.leadingOffset == h.leadingOffset && g.windowScroll == h.windowScroll
    requires g.windowSize == h.windowSize && g.headerSize == h.headerSize
    requires forall i: nat :: g.cellSize(i) == h.cellSize(i)
    ensures FirstOverflowFrom(g, k, total) == FirstOverflowFrom(h, k, total)
    decreases total + 1 - k
  {
    if k <= total {
      PrefixSizeExtensional(g.cellSize, h.cellSize, k);
      FirstOverflowExtensional(g, h, k + 1, total);
    }
  }

  // ---------------------------------------------------------------------------
  // The two axes

  /** The first fully visible row, taken from the render state unchanged (-1 when none). */
  function FirstVisibleRow(dao: DataAccessObject): (r: int)
    ensures r == dao.wtTable.firstVisibleRow
  {
    dao.wtTable.firstVisibleRow
  }

  /** The first fully visible column, taken from the render state unchanged (-1 when none). */
  function FirstVisibleColumn(dao: DataAccessObject): (r: int)
    ensures r == dao.wtTable.firstVisibleColumn
  {
    dao.wtTable.firstVisibleColumn
  }

  /** The vertical walk: the root element's top offset, the window's vertical scroll and height, the column header height. */
  function RowGeometry(dao: DataAccessObject): WalkGeometry
  {
    WalkGeometry(
      dao.wtTable.rootOffsetTop,
      dao.rootWindow.scrollTop,
      dao.rootWindow.innerHeight,
      dao.wtViewport.columnHeaderHeight,
      dao.topOverlay.cellSize)
  }

  /**
   * The table's inline-start edge: in right-to-left layout the distance
   * between the table's right edge and the document's layout width, otherwise
   * the root element's left offset.
   */
  function InlineStartOffset(dao: DataAccessObject): int
  {
    if dao.wtSettings.rtlMode then
      Abs(dao.wtTable.tableRectRight - dao.rootWindow.documentOffsetWidth)
    else
      dao.wtTable.rootOffsetLeft
  }

  /** The horizontal walk: the inline-start offset, the absolute horizontal window scroll, the window width, the row header width. */
  function ColumnGeometry(dao: DataAccessObject): WalkGeometry
  {
    WalkGeometry(
      InlineStartOffset(dao),
      Abs(dao.rootWindow.scrollLeft),
      dao.rootWindow.innerWidth,
      dao.wtViewport.rowHeaderWidth,
      dao.inlineStartOverlay.cellSize)
  }

  /** The last visible row: the render state's value, corrected by the overflow walk when the table scrolls with the window. */
  function LastVisibleRow(dao: DataAccessObject): (r: int)
    ensures !WalkEngaged(dao.topOverlay.scrollsWindow, RowGeometry(dao)) ==>
              r == dao.wtTable.lastVisibleRow
    ensures (forall k: nat :: 1 <= k <= dao.totalRows ==> !Overflows(RowGeometry(dao), k)) ==>
              r == dao.wtTable.lastVisibleRow
    ensures WalkEngaged(dao.topOverlay.scrollsWindow, RowGeometry(dao)) &&
            (exists k: nat :: 1 <= k <= dao.totalRows && Overflows(RowGeometry(dao), k)) ==>
              IsFirstOverflow(RowGeometry(dao), dao.totalRows, r + 2) && -1 <= r <= dao.totalRows - 2
  {
    var g := RowGeometry(dao);
    if WalkEngaged(dao.topOverlay.scrollsWindow, g) then
      CorrectedLast(g, dao.totalRows, dao.wtTable.lastVisibleRow)
    else
      dao.wtTable.lastVisibleRow
  }

  /** The last visible column: the render state's value, corrected by the overflow walk when the table scrolls with the window. */
  function LastVisibleColumn(dao: DataAccessObject): (r: int)
    ensures !WalkEngaged(dao.inlineStartOverlay.scrollsWindow, ColumnGeometry(dao)) ==>
              r == dao.wtTable.lastVisibleColumn
    ensures (forall k: nat :: 1 <= k <= dao.totalColumns ==> !Overflows(ColumnGeometry(dao), k)) ==>
              r == dao.wtTable.lastVisibleColumn
    ensures WalkEngaged(dao.inlineStartOverlay.scrollsWindow, ColumnGeometry(dao)) &&
            (exists k: nat :: 1 <= k <= dao.totalColumns && Overflows(ColumnGeometry(dao), k)) ==>
              IsFirstOverflow(ColumnGeometry(dao), dao.totalColumns, r + 2) && -1 <= r <= dao.totalColumns - 2
  {
    var g := ColumnGeometry(dao);
    if WalkEngaged(dao.inlineStartOverlay.scrollsWindow, g) then
      CorrectedLast(g, dao.totalColumns, dao.wtTable.lastVisibleColumn)
    else
      dao.wtTable.lastVisibleColumn
  }

  /**
   * Right-to-left layout mirrors left-to-right: when the right-to-left
   * table's distance from the document's right edge equals the
   * left-to-right table's left offset, the window is scrolled by the same
   * amount in the opposite direction, and every other horizontal input
   * agrees, both layouts give the same last visible column.
   */
  lemma RtlMirrorsLtr(ltr: DataAccessObject, rtl: DataAccessObject)
    requires !ltr.wtSettings.rtlMode && rtl.wtSettings.rtlMode
    requires 0 <= ltr.wtTable.rootOffsetLeft
    requires rtl.rootWindow.documentOffsetWidth - rtl.wtTable.tableRectRight == ltr.wtTable.rootOffsetLeft
    requires rtl.rootWindow.scrollLeft == -ltr.rootWindow.scrollLeft
    requires rtl.rootWindow.innerWidth == ltr.rootWindow.innerWidth
    requires rtl.wtViewport.rowHeaderWidth == ltr.wtViewport.rowHeaderWidth
    requires rtl.totalColumns == ltr.totalColumns
    requires rtl.wtTable.lastVisibleColumn == ltr.wtTable.lastVisibleColumn
    requires rtl.inlineStartOverlay.scrollsWindow == ltr.inlineStartOverlay.scrollsWindow
    requires forall i: nat :: rtl.inlineStartOverlay.cellSize(i) == ltr.inlineStartOverlay.cellSize(i)
    ensures LastVisibleColumn(rtl) == LastVisibleColumn(ltr)
  {
    FirstOverflowExtensional(ColumnGeometry(rtl), ColumnGeometry(ltr), 1, ltr.totalColumns);
  }
}
