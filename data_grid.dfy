// The schema-driven data grid: the filter, sort and page state it keeps, the
// rows it shows (filtered, then sorted, then cut to one page), the page
// counters it displays, and its CSV export. Reflection is modelled by rows
// that map property names to the text of their values.

module DataGrids {
  import opened Common
  import opened Text
  import opened Linq

  /** A row as the grid reads it through reflection: each property the row's
    * type has, mapped to its value's `ToString()`, `None` for a null value. */
  type Row = map<string, Option<string>>

  /** The active filters: column to filter value, `None` for a null value. */
  type Filters = map<string, Option<string>>

  // ---------------------------------------------------------------- filtering

  /** One filter on one row: a property the row lacks and a null filter value
    * are skipped; otherwise the lower-cased filter text must occur in the
    * lower-cased value text (a null value reads as ""). */
  predicate FilterHolds(row: Row, column: string, filter: Option<string>)
    ensures column !in row || filter.None? ==> FilterHolds(row, column, filter)
    ensures column in row && row[column].None? && filter.Some? ==>
      (FilterHolds(row, column, filter) <==> ToLower(filter.value) == "")
  {
    column !in row || filter.None?
    || Contains(ToLower(row[column].GetOr("")), ToLower(filter.value))
  }

  /** A row passes when every active filter holds on it. */
  predicate Passes(row: Row, filters: Filters) {
    forall column :: column in filters ==> FilterHolds(row, column, filters[column])
  }

  /** The filter set as the predicate `Where` applies. */
  function PassesFilters(filters: Filters): Row -> bool {
    row => Passes(row, filters)
  }

  /** `ApplyFiltersToData`: with no active filter the rows as they are,
    * otherwise the rows that pass, in their order. */
  function Filtered(rows: seq<Row>, filters: Filters): (r: seq<Row>)
    ensures |r| <= |rows|
  {
    if |filters| == 0 then rows else Where(rows, PassesFilters(filters))
  }

  /** The filtered rows are the rows that pass every filter, taken in their
    * order and with their repetitions; with no filter every row is kept. */
  lemma FilteredRows(rows: seq<Row>, filters: Filters)
    ensures forall x :: x in Filtered(rows, filters) <==> x in rows && Passes(x, filters)
    ensures IsSelection(Filtered(rows, filters), rows, PassesFilters(filters))
    ensures |filters| == 0 ==> Filtered(rows, filters) == rows
  {
    if |filters| == 0 {
      WhereAllKept(rows, PassesFilters(filters));
    }
    WhereIsSelection(rows, PassesFilters(filters));
  }

  /** Lower-casing forgets an earlier upper-casing. */
  lemma {:induction false} LowerOfUpper(s: string)
    ensures ToLower(ToUpper(s)) == ToLower(s)
  {
    if s != [] {
      LowerOfUpper(s[1..]);
      assert ToUpper(s) == [UpperChar(s[0])] + ToUpper(s[1..]);
      assert ToLower(ToUpper(s)) == [LowerChar(UpperChar(s[0]))] + ToLower(ToUpper(s)[1..]);
    }
  }

  /** Filters compare without regard to case: the filter text can be given in
    * upper or lower case with the same effect. */
  lemma FilterIgnoresCase(row: Row, column: string, text: string)
    ensures FilterHolds(row, column, Some(ToUpper(text))) == FilterHolds(row, column, Some(text))
    ensures FilterHolds(row, column, Some(ToLower(text))) == FilterHolds(row, column, Some(text))
  {
    LowerOfUpper(text);
    CaseMappingsIdempotent(text);
  }

  /** Every row passes an empty filter text, and every row passes when no filter
    * is active. */
  lemma EmptyFilterKeepsAll(row: Row, column: string)
    ensures FilterHolds(row, column, Some(""))
    ensures Passes(row, map[])
  {
    assert ToLower("") == "";
  }

  /** Fewer filters never reject more: a row passing all of `filters` passes
    * every filter set whose entries are among them. */
  lemma FewerFiltersKeepMore(row: Row, filters: Filters, fewer: Filters)
    requires forall c :: c in fewer ==> c in filters && fewer[c] == filters[c]
    ensures Passes(row, filters) ==> Passes(row, fewer)
    ensures forall x :: x in Filtered([row], filters) ==> x in Filtered([row], fewer)
  {
    FilteredRows([row], filters);
    FilteredRows([row], fewer);
  }

  // ------------------------------------------------------------------ sorting

  /** The sort key of one column: `OrderBy(x => GetPropertyValue(x, column))`. */
  function ColumnKey(key: (string, Row) -> int, column: string): Row -> int {
    (x: Row) => key(column, x)
  }

  /** `ApplySortToData`: with no (or a blank) sort column the order is kept;
    * otherwise the rows are ordered by the column's key, ascending or
    * descending. The key stands for the reflected property value and the
    * default comparer. */
  function Sorted(rows: seq<Row>, column: Option<string>, ascending: bool, key: (string, Row) -> int): (r: seq<Row>)
    ensures |r| == |rows|
  {
    if IsNullOrBlank(column) then rows
    else
      ByKeyIsPreorder(ColumnKey(key, column.value));
      if ascending then SortBy(rows, ByKey(ColumnKey(key, column.value)))
      else SortBy(rows, ByKeyDescending(ColumnKey(key, column.value)))
  }

  /** Sorting keeps the rows and puts them in key order, ascending or
    * descending; with no sort column it keeps their order too. */
  lemma SortedOrder(rows: seq<Row>, column: Option<string>, ascending: bool, key: (string, Row) -> int)
    ensures multiset(Sorted(rows, column, ascending, key)) == multiset(rows)
    ensures IsNullOrBlank(column) ==> Sorted(rows, column, ascending, key) == rows
    ensures !IsNullOrBlank(column) && ascending ==> var r := Sorted(rows, column, ascending, key);
      forall i, j :: 0 <= i < j < |r| ==> key(column.value, r[i]) <= key(column.value, r[j])
    ensures !IsNullOrBlank(column) && !ascending ==> var r := Sorted(rows, column, ascending, key);
      forall i, j :: 0 <= i < j < |r| ==> key(column.value, r[i]) >= key(column.value, r[j])
    ensures !IsNullOrBlank(column) && ascending ==>
      KeepsTiesInOrder(Sorted(rows, column, ascending, key), rows, ByKey(ColumnKey(key, column.value)))
    ensures !IsNullOrBlank(column) && !ascending ==>
      KeepsTiesInOrder(Sorted(rows, column, ascending, key), rows, ByKeyDescending(ColumnKey(key, column.value)))
  {
    if !IsNullOrBlank(column) {
      ByKeyIsPreorder(ColumnKey(key, column.value));
    }
  }

  /** `ToggleSort`: the same column flips the direction; another column becomes
    * the sort column, ascending. */
  function Toggled(column: Option<string>, ascending: bool, columnId: string): (r: (Option<string>, bool))
    ensures r.0 == Some(columnId)
    ensures column == Some(columnId) ==> r.1 == !ascending
    ensures column != Some(columnId) ==> r.1
  {
    if column == Some(columnId) then (column, !ascending) else (Some(columnId), true)
  }

  /** Toggling the same column twice restores the direction it had. */
  lemma ToggleTwice(column: Option<string>, ascending: bool, columnId: string)
    ensures var once := Toggled(column, ascending, columnId);
      var twice := Toggled(once.0, once.1, columnId);
      twice.0 == Some(columnId) && (column == Some(columnId) ==> twice.1 == ascending) && (column != Some(columnId) ==> !twice.1)
  {
  }

  // ----------------------------------------------------------------- paging

  /** `Math.Ceiling(total / size)`: the number of pages `total` rows fill. */
  function PageCount(total: nat, size: int): nat
    requires size > 0
  {
    (total + size - 1) / size
  }

  /** The page count is the ceiling: enough pages for every row, and no page
    * more than needed; no rows make no pages. */
  lemma PageCountIsCeiling(total: nat, size: int)
    requires size > 0
    ensures PageCount(total, size) * size >= total
    ensures PageCount(total, size) > 0 ==> (PageCount(total, size) - 1) * size < total
    ensures PageCount(total, size) == 0 <==> total == 0
  {
    var q := (total + size - 1) / size;
    var rem := (total + size - 1) % size;
    assert total + size - 1 == q * size + rem && 0 <= rem < size;
    assert (q - 1) * size == q * size - size;
  }

  /** `a * size` grows with `a`. */
  lemma MulMonotone(a: int, b: int, size: int)
    requires a <= b && size >= 0
    ensures a * size <= b * size
  {
    assert b * size - a * size == (b - a) * size;
  }

  /** The rows of page `page` (counted from 1): skip the earlier pages, take one page. */
  function PageRows<T>(data: seq<T>, page: int, size: int): (r: seq<T>)
    ensures size >= 0 ==> |r| <= size
  {
    Take(Skip(data, (page - 1) * size), size)
  }

  /** Page `page` holds the rows from position `(page - 1) * size` on, in order,
    * as many as fit on a page or are left. */
  lemma PageRowsContents<T>(data: seq<T>, page: int, size: int)
    requires page >= 1 && size >= 0
    ensures var r := PageRows(data, page, size); var skip := (page - 1) * size;
      skip >= 0
      && |r| == (if skip >= |data| then 0 else if |data| - skip < size then |data| - skip else size)
      && forall i :: 0 <= i < |r| ==> skip + i < |data| && r[i] == data[skip + i]
  {
    var skip := (page - 1) * size;
    MulMonotone(0, page - 1, size);
    var r := Take(Skip(data, skip), size);
    forall i | 0 <= i < |r| ensures skip + i < |data| && r[i] == data[skip + i] {
      PageContents(data, skip, size, i);
    }
  }

  /** What a refresh leaves behind: the rows shown, the item and page totals, and the page. */
  datatype View<T> = View(rows: seq<T>, totalItems: nat, totalPages: int, page: int)

  /** `ApplyPaginationToData`: a page size of zero or less turns paging off and
    * leaves the counters alone; otherwise the totals are recomputed, a page past
    * the last (when there is a last) is pulled back to it, and that page's rows
    * are returned. */
  function Paginate<T>(data: seq<T>, page: int, size: int, totalItems: nat, totalPages: int): (v: View<T>)
    ensures size <= 0 ==> v.rows == data && v.totalItems == totalItems && v.totalPages == totalPages && v.page == page
    ensures size > 0 ==> v.totalItems == |data| && v.totalPages == PageCount(|data|, size)
    ensures size > 0 ==> |v.rows| <= size && v.rows == PageRows(data, v.page, size)
    ensures size > 0 ==> v.page == (if page > v.totalPages && v.totalPages > 0 then v.totalPages else page)
    ensures page >= 1 ==> v.page >= 1
  {
    if size <= 0 then View(data, totalItems, totalPages, page)
    else
      var pages := PageCount(|data|, size);
      var p := if page > pages && pages > 0 then pages else page;
      View(PageRows(data, p, size), |data|, pages, p)
  }

  /** Paging the same data again changes nothing: the page a refresh settles on
    * is already within range. */
  lemma PaginateIdempotent<T>(data: seq<T>, page: int, size: int, totalItems: nat, totalPages: int)
    ensures var v := Paginate(data, page, size, totalItems, totalPages);
      Paginate(data, v.page, size, v.totalItems, v.totalPages) == v
  {
  }

  /** A refresh of non-empty data settles on a page within `[1, TotalPages]`,
    * whose first row lies within the data. */
  lemma PageInRange<T>(data: seq<T>, page: int, size: int)
    requires size > 0 && page >= 1 && |data| > 0
    ensures var v := Paginate(data, page, size, 0, 0);
      1 <= v.page <= v.totalPages && 0 <= (v.page - 1) * size < |data|
  {
    var v := Paginate(data, page, size, 0, 0);
    var pages := PageCount(|data|, size);
    PageCountIsCeiling(|data|, size);
    MulMonotone(v.page - 1, pages - 1, size);
    MulMonotone(0, v.page - 1, size);
  }

  /** `UpdatePaginationInfo`'s first item number: 0 for no rows, else the
    * 1-based position of the page's first row. */
  function StartItem(totalItems: nat, page: int, size: int): (r: int)
    ensures totalItems == 0 ==> r == 0
    ensures totalItems > 0 && page >= 1 && size >= 0 ==> r >= 1
  {
    if totalItems == 0 then 0 else (page - 1) * size + 1
  }

  /** `UpdatePaginationInfo`'s last item number: `min(page * size, total)`. */
  function EndItem(totalItems: nat, page: int, size: int): (r: int)
    ensures r <= totalItems && r <= page * size
    ensures r == totalItems || r == page * size
  {
    if page * size < totalItems then page * size else totalItems
  }

  /** The "showing from .. to .. of .." text agrees with the rows a refresh
    * shows: the first and last numbers are the positions of the page's first and
    * last rows, and they span exactly the rows shown. */
  lemma PageInfoMatchesRows<T>(data: seq<T>, page: int, size: int)
    requires size > 0 && page >= 1 && |data| > 0
    ensures var v := Paginate(data, page, size, 0, 0);
      1 <= StartItem(v.totalItems, v.page, size) <= EndItem(v.totalItems, v.page, size) <= |data|
      && EndItem(v.totalItems, v.page, size) - StartItem(v.totalItems, v.page, size) + 1 == |v.rows|
      && v.rows[0] == data[StartItem(v.totalItems, v.page, size) - 1]
      && v.rows[|v.rows| - 1] == data[EndItem(v.totalItems, v.page, size) - 1]
  {
    var v := Paginate(data, page, size, 0, 0);
    PageInRange(data, page, size);
    PageRowsContents(data, v.page, size);
    var skip := (v.page - 1) * size;
    assert v.page * size == skip + size;
    assert StartItem(v.totalItems, v.page, size) == skip + 1;
  }

  /** The previous/first buttons are enabled past the first page, the next/last
    * buttons before the last. */
  function CanGoBack(page: int): bool { page > 1 }
  function CanGoForward(page: int, totalPages: int): bool { page < totalPages }

  // ------------------------------------------------------ the page as written

  /** The page number as the control keeps it: the bound `CurrentPage` property,
    * which the page commands move, and the private field the paging and the
    * page counters read, which only the filter commands and the clamp write. */
  datatype SplitPage = SplitPage(property: int, field: int)

  /** `NextPage` as written: the property moves forward, the field does not. */
  function NextPageAsWritten(p: SplitPage, totalPages: int): (r: SplitPage)
    ensures r.field == p.field
    ensures p.property < totalPages ==> r.property == p.property + 1
  {
    if p.property < totalPages then p.(property := p.property + 1) else p
  }

  /** The rows a refresh shows as written: the page of the field. */
  function ShownAsWritten<T>(data: seq<T>, p: SplitPage, size: int): (r: seq<T>)
    ensures size > 0 ==> r == PageRows(data, Paginate(data, p.field, size, 0, 0).page, size)
  {
    Paginate(data, p.field, size, 0, 0).rows
  }

  /** On more than one page of data, `NextPage` as written reports page 2 while
    * the grid still shows the rows of page 1. */
  lemma NextPageAsWrittenShowsOldRows<T>(data: seq<T>, size: int)
    requires 0 < size < |data| && data[0] != data[size]
    ensures var p := NextPageAsWritten(SplitPage(1, 1), PageCount(|data|, size));
      p.property == 2
      && ShownAsWritten(data, p, size) == PageRows(data, 1, size)
      && ShownAsWritten(data, p, size) != PageRows(data, p.property, size)
  {
    var pages := PageCount(|data|, size);
    PageCountIsCeiling(|data|, size);
    assert pages >= 2 by {
      assert (pages - 1) * size == pages * size - size;
      assert (pages - 1) * size > 0;
    }
    PageRowsContents(data, 1, size);
    PageRowsContents(data, 2, size);
  }

  // --------------------------------------------------------------- CSV export

  /** A column of the grid's schema, as far as the export reads it. */
  datatype GridColumn = GridColumn(id: string, headerFa: Option<string>, bindingPath: Option<string>, visible: bool)

  const NewLine: string := "\r\n"

  /** A field is quoted when it holds a comma, a double quote or a line feed. */
  predicate NeedsQuoting(s: string) {
    Contains(s, ",") || Contains(s, "\"") || Contains(s, "\n")
  }

  /** The CSV escape: a field needing quotes is wrapped in them with every
    * inner quote doubled; any other field is written as it is. */
  function CsvField(s: string): string {
    if NeedsQuoting(s) then "\"" + Replace(s, "\"", "\"\"") + "\"" else s
  }

  /** Reading back doubled quotes. */
  function UndoubleQuotes(t: string): string
    decreases |t|
  {
    if |t| >= 2 && t[0] == '"' && t[1] == '"' then "\"" + UndoubleQuotes(t[2..])
    else if t == [] then []
    else [t[0]] + UndoubleQuotes(t[1..])
  }

  /** Reading one CSV field back: a quoted field loses its quotes and has its
    * doubled quotes undone; any other field is taken as it is. */
  function ParseCsvField(r: string): string {
    if |r| >= 2 && r[0] == '"' && r[|r| - 1] == '"' then UndoubleQuotes(r[1..|r| - 1]) else r
  }

  lemma {:induction false} UndoubleDoubled(s: string)
    ensures UndoubleQuotes(Replace(s, "\"", "\"\"")) == s
    ensures |Replace(s, "\"", "\"\"")| >= |s|
  {
    if s != [] {
      UndoubleDoubled(s[1..]);
      var rest := Replace(s[1..], "\"", "\"\"");
      if s[0] == '"' {
        assert "\"" <= s;
        assert Replace(s, "\"", "\"\"") == "\"\"" + rest;
        assert ("\"\"" + rest)[2..] == rest;
      } else {
        assert !("\"" <= s);
        assert Replace(s, "\"", "\"\"") == [s[0]] + rest;
        assert ([s[0]] + rest)[1..] == rest;
      }
    }
  }

  /** The CSV escape round-trips: every field reads back as the text written.
    * A field left unquoted holds no comma, quote or line feed, and a quoted
    * one is longer than the text by at least its two quotes. */
  lemma CsvFieldRoundTrip(s: string)
    ensures ParseCsvField(CsvField(s)) == s
    ensures !NeedsQuoting(s) ==> CsvField(s) == s && ',' !in s && '"' !in s && '\n' !in s
    ensures NeedsQuoting(s) ==> |CsvField(s)| >= |s| + 2 && CsvField(s)[0] == '"'
  {
    ContainsCharIffIn(s, ',');
    ContainsCharIffIn(s, '"');
    ContainsCharIffIn(s, '\n');
    assert "," == [','] && "\"" == ['"'] && "\n" == ['\n'];
    UndoubleDoubled(s);
    if NeedsQuoting(s) {
      var inner := Replace(s, "\"", "\"\"");
      var r := "\"" + inner + "\"";
      assert r[1..|r| - 1] == inner;
    } else if |s| > 0 {
      assert s[0] in s;
    }
  }

  function IsVisibleColumn(c: GridColumn): bool {
    c.visible
  }

  /** `Where(c => c.Visible)`: the visible columns, in schema order and with
    * their repetitions. */
  function VisibleColumns(columns: seq<GridColumn>): (r: seq<GridColumn>)
    ensures |r| <= |columns|
    ensures forall c :: c in r <==> c in columns && c.visible
    ensures IsSelection(r, columns, IsVisibleColumn)
  {
    WhereIsSelection(columns, IsVisibleColumn);
    Where(columns, IsVisibleColumn)
  }

  /** A header cell: the Persian header, or the column id when there is none. */
  function HeaderText(c: GridColumn): string {
    c.headerFa.GetOr(c.id)
  }

  /** A cell: the value of the bound property (the column id when nothing is
    * bound); a missing property or a null value gives "". */
  function CellText(row: Row, c: GridColumn): (r: string)
    ensures c.bindingPath.GetOr(c.id) !in row ==> r == ""
    ensures c.bindingPath.GetOr(c.id) in row ==> r == row[c.bindingPath.GetOr(c.id)].GetOr("")
  {
    var name := c.bindingPath.GetOr(c.id);
    if name in row then row[name].GetOr("") else ""
  }

  /** The header cells, unescaped. */
  function HeaderCells(columns: seq<GridColumn>): (r: seq<string>)
    ensures |r| == |columns|
    ensures forall i :: 0 <= i < |r| ==> r[i] == HeaderText(columns[i])
  {
    if columns == [] then [] else [HeaderText(columns[0])] + HeaderCells(columns[1..])
  }

  /** One item's cells, each escaped. */
  function RowCells(row: Row, columns: seq<GridColumn>): (r: seq<string>)
    ensures |r| == |columns|
    ensures forall i :: 0 <= i < |r| ==> r[i] == CsvField(CellText(row, columns[i]))
  {
    if columns == [] then [] else [CsvField(CellText(row, columns[0]))] + RowCells(row, columns[1..])
  }

  /** The item lines, one per item, in the order given. */
  function ItemLines(items: seq<Row>, columns: seq<GridColumn>): string {
    if items == [] then ""
    else Join(RowCells(items[0], columns), ",") + NewLine + ItemLines(items[1..], columns)
  }

  /** `ExportToCsv`: "" without a schema or items; otherwise a header line of
    * the visible columns and a line per item of the whole item source. */
  function Csv(columns: Option<seq<GridColumn>>, items: Option<seq<Row>>): (r: string)
    ensures r == "" <==> columns.None? || items.None?
    ensures columns.Some? && items.Some? ==>
      r == Join(HeaderCells(VisibleColumns(columns.value)), ",") + NewLine + ItemLines(items.value, VisibleColumns(columns.value))
  {
    if columns.None? || items.None? then ""
    else
      var visible := VisibleColumns(columns.value);
      Join(HeaderCells(visible), ",") + NewLine + ItemLines(items.value, visible)
  }

  /** Every cell written for an item reads back as the item's value text. */
  lemma ExportCellsRoundTrip(row: Row, columns: seq<GridColumn>, i: int)
    requires 0 <= i < |VisibleColumns(columns)|
    ensures ParseCsvField(RowCells(row, VisibleColumns(columns))[i]) == CellText(row, VisibleColumns(columns)[i])
    ensures VisibleColumns(columns)[i].visible
  {
    var visible := VisibleColumns(columns);
    assert visible[i] in visible;
    CsvFieldRoundTrip(CellText(row, visible[i]));
  }

  // ----------------------------------------------------------------- the grid

  /** The control's state. The page number is one variable here: in the control
    * it is kept twice, as the `CurrentPage` property and a private field, which
    * the page commands do not keep in step (see `NextPageAsWritten`). */
  class DynamicDataGrid {
    var itemsSource: Option<seq<Row>>
    var schema: Option<seq<GridColumn>>
    var activeFilters: Filters
    var sortColumn: Option<string>
    var sortAscending: bool
    var currentPage: int
    var pageSize: int
    var totalItems: nat
    var totalPages: int
    var shown: seq<Row>
    /** The sort key of a column's property value. */
    const sortKey: (string, Row) -> int

    ghost predicate Valid()
      reads this`currentPage
    {
      currentPage >= 1
    }

    /** The items after filtering and sorting, before paging. */
    function Prepared(): seq<Row>
      reads this`itemsSource, this`activeFilters, this`sortColumn, this`sortAscending
      requires itemsSource.Some?
    {
      Sorted(Filtered(itemsSource.value, activeFilters), sortColumn, sortAscending, sortKey)
    }

    /** The rows shown and the counters are what a refresh of the present state gives. */
    ghost predicate Refreshed()
      reads this`itemsSource, this`activeFilters, this`sortColumn, this`sortAscending, this`pageSize
      reads this`shown, this`totalItems, this`totalPages, this`currentPage
    {
      if itemsSource.None? then shown == []
      else Shows(Paginate(Prepared(), currentPage, pageSize, totalItems, totalPages))
    }

    /** The rows shown and the counters are those of `v`. */
    ghost predicate Shows(v: View<Row>)
      reads this`shown, this`totalItems, this`totalPages, this`currentPage
    {
      shown == v.rows && totalItems == v.totalItems && totalPages == v.totalPages && currentPage == v.page
    }

    constructor(key: (string, Row) -> int)
      ensures Valid() && Refreshed()
      ensures itemsSource.None? && schema.None? && activeFilters == map[] && sortColumn.None? && sortAscending
      ensures currentPage == 1 && pageSize == 50 && totalItems == 0 && totalPages == 1 && shown == []
      ensures sortKey == key
    {
      itemsSource := None;
      schema := None;
      activeFilters := map[];
      sortColumn := None;
      sortAscending := true;
      currentPage := 1;
      pageSize := 50;
      totalItems := 0;
      totalPages := 1;
      shown := [];
      sortKey := key;
    }

    /** `RefreshData`: no items shows nothing; otherwise filter, sort, then page. */
    method RefreshData()
      requires Valid()
      modifies this`shown, this`totalItems, this`totalPages, this`currentPage
      ensures Valid() && Refreshed()
      ensures itemsSource.None? ==> (shown == [] && totalItems == old(totalItems)
        && totalPages == old(totalPages) && currentPage == old(currentPage))
      ensures itemsSource.Some? ==>
        Shows(Paginate(Prepared(), old(currentPage), pageSize, old(totalItems), old(totalPages)))
    {
      if itemsSource.None? {
        shown := [];
      } else {
        ShowPage(Prepared());
      }
    }

    /** `ApplyPaginationToData` on the prepared rows, storing the page and its counters. */
    method ShowPage(data: seq<Row>)
      requires Valid()
      modifies this`shown, this`totalItems, this`totalPages, this`currentPage
      ensures Valid()
      ensures Shows(Paginate(data, old(currentPage), pageSize, old(totalItems), old(totalPages)))
      ensures Shows(Paginate(data, currentPage, pageSize, totalItems, totalPages))
    {
      var v := Paginate(data, currentPage, pageSize, totalItems, totalPages);
      PaginateIdempotent(data, currentPage, pageSize, totalItems, totalPages);
      shown, totalItems, totalPages, currentPage := v.rows, v.totalItems, v.totalPages, v.page;
    }

    /** Setting `ItemsSource` refreshes the grid. */
    method SetItemsSource(items: Option<seq<Row>>)
      requires Valid()
      modifies this`itemsSource, this`shown, this`totalItems, this`totalPages, this`currentPage
      ensures Valid() && Refreshed() && itemsSource == items
    {
      itemsSource := items;
      RefreshData();
    }

    /** `SetSchema`: the columns and the page size are taken from the schema;
      * the rows are not refreshed. */
    method SetSchema(columns: seq<GridColumn>, schemaPageSize: int)
      modifies this`schema, this`pageSize
      ensures schema == Some(columns) && pageSize == schemaPageSize
    {
      schema := Some(columns);
      pageSize := schemaPageSize;
    }

    /** Setting `PageSize` stores it and refreshes. */
    method SetPageSize(size: int)
      requires Valid()
      modifies this`pageSize, this`shown, this`totalItems, this`totalPages, this`currentPage
      ensures Valid() && Refreshed() && pageSize == size
    {
      pageSize := size;
      RefreshData();
    }

    /** `ApplyFilter`: a blank column is ignored; otherwise the column's filter
      * is set, the grid returns to page 1 and refreshes. */
    method ApplyFilter(columnId: string, value: Option<string>)
      requires Valid()
      modifies this`activeFilters, this`shown, this`totalItems, this`totalPages, this`currentPage
      ensures Valid()
      ensures IsBlank(columnId) ==> activeFilters == old(activeFilters) && currentPage == old(currentPage) && shown == old(shown)
      ensures !IsBlank(columnId) ==> activeFilters == old(activeFilters)[columnId := value] && currentPage == 1 && Refreshed()
    {
      if IsBlank(columnId) {
        return;
      }
      activeFilters := activeFilters[columnId := value];
      currentPage := 1;
      RefreshData();
    }

    /** `RemoveFilter`: only an active filter is removed, which returns the grid
      * to page 1 and refreshes. */
    method RemoveFilter(columnId: string)
      requires Valid()
      modifies this`activeFilters, this`shown, this`totalItems, this`totalPages, this`currentPage
      ensures Valid()
      ensures columnId !in old(activeFilters) ==> activeFilters == old(activeFilters) && currentPage == old(currentPage) && shown == old(shown)
      ensures columnId in old(activeFilters) ==> activeFilters == old(activeFilters) - {columnId} && currentPage == 1 && Refreshed()
    {
      if columnId in activeFilters {
        activeFilters := activeFilters - {columnId};
        currentPage := 1;
        RefreshData();
      }
    }

    /** `ClearAllFilters`: no filters, page 1, refreshed. */
    method ClearAllFilters()
      requires Valid()
      modifies this`activeFilters, this`shown, this`totalItems, this`totalPages, this`currentPage
      ensures Valid() && Refreshed()
      ensures activeFilters == map[] && currentPage == 1
      ensures itemsSource.Some? ==> Prepared() == Sorted(itemsSource.value, sortColumn, sortAscending, sortKey)
    {
      activeFilters := map[];
      currentPage := 1;
      RefreshData();
    }

    /** `Sort`: the given column and direction, then a refresh (the page stays). */
    method Sort(columnId: string, ascending: bool)
      requires Valid()
      modifies this`sortColumn, this`sortAscending, this`shown, this`totalItems, this`totalPages, this`currentPage
      ensures Valid() && Refreshed()
      ensures sortColumn == Some(columnId) && sortAscending == ascending
    {
      sortColumn := Some(columnId);
      sortAscending := ascending;
      RefreshData();
    }

    /** `ToggleSort`, then a refresh. */
    method ToggleSort(columnId: string)
      requires Valid()
      modifies this`sortColumn, this`sortAscending, this`shown, this`totalItems, this`totalPages, this`currentPage
      ensures Valid() && Refreshed()
      ensures (sortColumn, sortAscending) == Toggled(old(sortColumn), old(sortAscending), columnId)
    {
      if sortColumn == Some(columnId) {
        sortAscending := !sortAscending;
      } else {
        sortColumn := Some(columnId);
        sortAscending := true;
      }
      RefreshData();
    }

    /** The grid refreshed to `page`, paged against the counters it had before. */
    twostate predicate TurnedTo(page: int)
      reads this`itemsSource, this`activeFilters, this`sortColumn, this`sortAscending, this`pageSize
      reads this`shown, this`totalItems, this`totalPages, this`currentPage
    {
      Refreshed() && (itemsSource.Some? ==>
        Shows(Paginate(Prepared(), page, pageSize, old(totalItems), old(totalPages))))
    }

    /** The page set to `page`, then a refresh. */
    method Turn(page: int)
      requires page >= 1
      modifies this`shown, this`totalItems, this`totalPages, this`currentPage
      ensures Valid() && TurnedTo(page)
    {
      currentPage := page;
      RefreshData();
    }

    /** `GoToPage`: a page in `[1, TotalPages]` becomes the page and the grid
      * refreshes to it; any other page is ignored. */
    method GoToPage(page: int)
      requires Valid()
      modifies this`shown, this`totalItems, this`totalPages, this`currentPage
      ensures Valid()
      ensures !(1 <= page <= old(totalPages)) ==> unchanged(this)
      ensures 1 <= page <= old(totalPages) ==> TurnedTo(page)
      ensures 1 <= page <= old(totalPages) && itemsSource.Some? && pageSize > 0 ==> shown == PageRows(Prepared(), currentPage, pageSize)
    {
      if 1 <= page <= totalPages {
        Turn(page);
      }
    }

    /** `NextPage`: one page on, when there is one. */
    method NextPage()
      requires Valid()
      modifies this`shown, this`totalItems, this`totalPages, this`currentPage
      ensures Valid()
      ensures old(currentPage) < old(totalPages) ==> TurnedTo(old(currentPage) + 1)
      ensures old(currentPage) >= old(totalPages) ==> unchanged(this)
    {
      if currentPage < totalPages {
        Turn(currentPage + 1);
      }
    }

    /** `PreviousPage`: one page back, when not on the first. */
    method PreviousPage()
      requires Valid()
      modifies this`shown, this`totalItems, this`totalPages, this`currentPage
      ensures Valid()
      ensures old(currentPage) <= 1 ==> unchanged(this)
      ensures old(currentPage) > 1 ==> TurnedTo(old(currentPage) - 1)
    {
      if currentPage > 1 {
        Turn(currentPage - 1);
      }
    }

    /** `GoToFirstPage`: page 1, when there is at least one page. */
    method GoToFirstPage()
      requires Valid()
      modifies this`shown, this`totalItems, this`totalPages, this`currentPage
      ensures Valid()
      ensures old(totalPages) >= 1 ==> TurnedTo(1)
      ensures old(totalPages) >= 1 && itemsSource.Some? ==> currentPage == 1
      ensures old(totalPages) < 1 ==> unchanged(this)
    {
      GoToPage(1);
    }

    /** `GoToLastPage`: the last page, when there is one. */
    method GoToLastPage()
      requires Valid()
      modifies this`shown, this`totalItems, this`totalPages, this`currentPage
      ensures Valid()
      ensures old(totalPages) >= 1 ==> TurnedTo(old(totalPages))
      ensures old(totalPages) < 1 ==> unchanged(this)
    {
      GoToPage(totalPages);
    }

    /** `ExportToCsv`: the export of the whole item source through the schema's
      * visible columns; filters, sort and page do not apply. */
    function ExportToCsv(): (r: string)
      reads this
      ensures r == "" <==> schema.None? || itemsSource.None?
      ensures r == Csv(schema, itemsSource)
    {
      Csv(schema, itemsSource)
    }
  }

  /** After any refresh with paging on, the grid shows exactly the page it
    * reports, and (with rows to show) that page is within `[1, TotalPages]`. */
  lemma RefreshedShowsPage(g: DynamicDataGrid)
    requires g.Valid() && g.Refreshed() && g.itemsSource.Some? && g.pageSize > 0
    ensures g.shown == PageRows(g.Prepared(), g.currentPage, g.pageSize)
    ensures g.totalItems == |g.Prepared()| && g.totalPages == PageCount(g.totalItems, g.pageSize)
    ensures g.totalItems > 0 ==> 1 <= g.currentPage <= g.totalPages
  {
    var data := g.Prepared();
    if |data| > 0 {
      PageInRange(data, g.currentPage, g.pageSize);
    }
  }
}
