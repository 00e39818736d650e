/** What the page shows for a given page state: the pagination buttons and
    page label (`updatePaginationButtons`), the statistics line
    (`updateStatistics`) and the table body (`renderTable`,
    `createTableRow`). */
module Views {
  import opened Rows
  import opened Datasets

  /** `itemsPerPage`. */
  const PageSize: nat := 100

  /** `totalRows`: a row count, or the string 'Unknown'. */
  datatype Total = Known(count: nat) | Unknown

  /** `canGoPrevious`. */
  predicate CanGoPrevious(offset: nat) {
    offset > 0
  }

  /** `canGoNext`: a number compared with 'Unknown' is false, and the
      second disjunct then enables the button. */
  predicate CanGoNext(offset: nat, total: Total) {
    match total
    case Known(n) => offset + PageSize < n
    case Unknown => true
  }

  /** The number in the page label, `Math.floor(offset / itemsPerPage) + 1`. */
  function PageLabel(offset: nat): (page: nat)
    ensures page >= 1
    ensures (page - 1) * PageSize <= offset < page * PageSize
  {
    offset / PageSize + 1
  }

  /** The state of both button pairs and of the page label. */
  datatype Pager = Pager(previousEnabled: bool, nextEnabled: bool, page: nat)

  function PaginationControls(offset: nat, total: Total): Pager {
    Pager(CanGoPrevious(offset), CanGoNext(offset, total), PageLabel(offset))
  }

  /** On a page boundary, the previous button is enabled exactly when
      `previousPage`'s guard `offset >= itemsPerPage` lets it move. */
  lemma PreviousEnabledIffItMoves(offset: nat)
    requires offset % PageSize == 0
    ensures CanGoPrevious(offset) <==> offset >= PageSize
  {
  }

  /** The page starting at row `k * 100` is labelled page `k + 1`. */
  lemma PageLabelOfPage(k: nat)
    ensures PageLabel(k * PageSize) == k + 1
  {
    assert k * PageSize / PageSize == k;
  }

  /** Moving one page forward or back moves the label by one. */
  lemma PageLabelSteps(offset: nat)
    ensures PageLabel(offset + PageSize) == PageLabel(offset) + 1
    ensures offset >= PageSize ==> PageLabel(offset - PageSize) == PageLabel(offset) - 1
  {
  }

  /** With an unknown total the next button is always enabled. */
  lemma UnknownTotalAlwaysHasNext(offset: nat)
    ensures PaginationControls(offset, Unknown).nextEnabled
  {
  }

  /** 250 rows, on the third page: next disabled, previous enabled, page 3. */
  lemma PagerOnLastPage()
    ensures PaginationControls(200, Known(250)) == Pager(true, false, 3)
  {
  }

  /** The first and last 1-based row positions the statistics line shows. */
  datatype Range = Range(first: nat, last: nat)

  predicate InRange(r: Range, p: nat) {
    r.first <= p <= r.last
  }

  /** `currentOffset + 1` and `Math.min(currentOffset + itemsPerPage, totalRows)`. */
  function ShownRange(offset: nat, total: nat): (r: Range)
    ensures r.first == offset + 1
    ensures r.last <= total && r.last <= offset + PageSize
    ensures r.last == total || r.last == offset + PageSize
  {
    Range(offset + 1, if offset + PageSize < total then offset + PageSize else total)
  }

  /** A 1-based row position `p` is on the page starting at `offset`. */
  predicate OnPage(offset: nat, p: nat) {
    offset < p <= offset + PageSize
  }

  /** The range shown lists exactly the positions of the rows that exist on
      the current page; when the page lies past the end, no position is
      listed and the range is inverted (last < first). */
  lemma ShownRangeIsPage(offset: nat, total: nat)
    ensures forall p: nat :: InRange(ShownRange(offset, total), p) <==> OnPage(offset, p) && p <= total
    ensures ShownRange(offset, total).last < ShownRange(offset, total).first <==> offset >= total
  {
  }

  /** For a known total, the next button is enabled exactly when the range
      shown stops short of the total. */
  lemma NextEnabledIffRowsRemain(offset: nat, total: nat)
    ensures CanGoNext(offset, Known(total)) <==> ShownRange(offset, total).last < total
  {
  }

  /** The statistics line: `Total entries: n | Showing a-b` for a known
      total, `Showing entries a-...` for an unknown one (whose end, NaN in the
      page, is not kept), the markup's own text before any update, and the
      placeholder written when the statistics request fails. */
  datatype StatsLine =
    | FromMarkup
    | TotalAndRange(total: nat, range: Range)
    | RangeOfUnknownTotal(first: nat)
    | StatsUnavailable

  /** `updateStatistics`. */
  function StatisticsLine(offset: nat, total: Total): StatsLine {
    match total
    case Known(n) => TotalAndRange(n, ShownRange(offset, n))
    case Unknown => RangeOfUnknownTotal(offset + 1)
  }

  /** A row of the table body: the empty-state placeholder spanning
      `colspan` columns, or a data row with its display index and the text
      of each configured column (inserted as text, never as markup). */
  datatype TableRow = EmptyPlaceholder(colspan: nat) | DataRow(index: nat, cells: seq<string>)

  /** The cells of one data row, one per configured column, in column order. */
  function RowCells(entry: Row, columns: seq<Column>): (cells: seq<string>)
    ensures |cells| == |columns|
    ensures forall j :: 0 <= j < |columns| ==> cells[j] == ColumnText(Unwrap(entry), columns[j].key)
  {
    if columns == [] then []
    else [ColumnText(Unwrap(entry), columns[0].key)] + RowCells(entry, columns[1..])
  }

  /** The data rows for `entries`, numbered from `first` on. */
  function DataRows(first: nat, entries: seq<Row>, columns: seq<Column>): (rows: seq<TableRow>)
    ensures |rows| == |entries|
    ensures forall i :: 0 <= i < |entries| ==> rows[i] == DataRow(first + i, RowCells(entries[i], columns))
    decreases entries
  {
    if entries == [] then []
    else [DataRow(first, RowCells(entries[0], columns))] + DataRows(first + 1, entries[1..], columns)
  }

  /** The table body `renderTable` builds: one placeholder row spanning the
      index column and every configured column when nothing is left to show,
      otherwise one data row per filtered row, in order, whose display index
      is the page offset plus its 1-based position in the filtered rows. */
  function Table(offset: nat, filtered: seq<Row>, columns: seq<Column>): (rows: seq<TableRow>)
    ensures filtered == [] <==> rows == [EmptyPlaceholder(|columns| + 1)]
    ensures filtered != [] ==> |rows| == |filtered|
    ensures forall i :: 0 <= i < |filtered| ==> rows[i] == DataRow(offset + i + 1, RowCells(filtered[i], columns))
  {
    if filtered == [] then [EmptyPlaceholder(|columns| + 1)] else DataRows(offset + 1, filtered, columns)
  }

  /** `createTableRow`: the display index, and each column's text in turn. */
  method CreateTableRow(entry: Row, index: nat, offset: nat, columns: seq<Column>) returns (row: TableRow)
    ensures row == DataRow(offset + index + 1, RowCells(entry, columns))
  {
    var fields := Unwrap(entry);
    var cells: seq<string> := [];
    for j := 0 to |columns|
      invariant |cells| == j
      invariant forall k :: 0 <= k < j ==> cells[k] == ColumnText(fields, columns[k].key)
    {
      cells := cells + [ColumnText(fields, columns[j].key)];
    }
    row := DataRow(offset + index + 1, cells);
  }

  /** `renderTable`: the placeholder when nothing is left to show, otherwise
      `createTableRow` for each filtered row in turn. */
  method RenderTable(offset: nat, filtered: seq<Row>, columns: seq<Column>) returns (rows: seq<TableRow>)
    ensures rows == Table(offset, filtered, columns)
  {
    if |filtered| == 0 {
      return [EmptyPlaceholder(|columns| + 1)];
    }
    rows := [];
    for i := 0 to |filtered|
      invariant |rows| == i
      invariant forall k :: 0 <= k < i ==> rows[k] == DataRow(offset + k + 1, RowCells(filtered[k], columns))
    {
      var row := CreateTableRow(filtered[i], i, offset, columns);
      rows := rows + [row];
    }
  }
}
