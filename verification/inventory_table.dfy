/** The inventory table (src/components/inventory/InventoryTable.tsx): header
    clicks change the hook's sorting, the sort icon marks the sorted column,
    and the Previous/Next buttons move through the pages. */
module InventoryTable {
  import opened Wrappers
  import opened Model
  import opened InventoryQuery
  import Text

  /** The column headers, left to right. */
  const Headers: seq<string> := ["Ref Num", "Name", "Qty. in Stock", "View"]

  /** `handleSort`: the clicked column becomes the sort column; the direction
      flips to descending only when that column was already sorted ascending. */
  function HandleSort(current: SortState, column: string): (r: SortState)
    ensures r.column == column
    ensures r.direction == Desc <==> current.column == column && current.direction == Asc
  {
    var isAsc := current.column == column && current.direction == Asc;
    SortState(column, if isAsc then Desc else Asc)
  }

  /** Clicking the same header three times in a row returns to ascending order
      after two; the second click reverses the first. */
  lemma SortClicksAlternate(current: SortState, column: string)
    ensures HandleSort(current, column).direction == Asc ==> HandleSort(HandleSort(current, column), column).direction == Desc
    ensures HandleSort(HandleSort(current, column), column).direction != HandleSort(current, column).direction
    ensures HandleSort(HandleSort(HandleSort(current, column), column), column) == HandleSort(current, column)
  {
  }

  /** `SortIcon`: nothing on an unsorted column, otherwise up for ascending
      and down for descending. */
  function SortIcon(sorting: SortState, column: string): (r: Option<Direction>)
    ensures r.Some? <==> sorting.column == column
    ensures r.Some? ==> r.value == sorting.direction
  {
    if sorting.column != column then None else Some(sorting.direction)
  }

  /** After a click the icon is on the clicked header and on no other. */
  lemma IconFollowsClick(current: SortState, clicked: string, other: string)
    requires other != clicked
    ensures SortIcon(HandleSort(current, clicked), clicked).Some?
    ensures SortIcon(HandleSort(current, other), clicked).None?
  {
  }

  /** The column a header click asks for, as written: the header lower-cased. */
  function HeaderSortColumn(header: string): (r: string)
    ensures |r| == |header|
    ensures forall i :: 0 <= i < |header| ==> r[i] == Text.ToLower(header[i])
  {
    Text.Lower(header)
  }

  /** A header click, as written. */
  function ClickHeader(s: State, header: string): (r: State)
    ensures r.filters == s.filters && r.pagination == s.pagination
    ensures r.sorting == HandleSort(s.sorting, HeaderSortColumn(header))
  {
    s.(sorting := HandleSort(s.sorting, HeaderSortColumn(header)))
  }

  /** As written, only the Name header yields a column the items table has:
      "ref num", "qty. in stock" and "view" are no column, so the request fails
      and the table keeps the rows it showed, while the icon moves to the
      clicked header. */
  /** The columns the four headers ask for, as written. */
  lemma HeaderColumns()
    ensures HeaderSortColumn("Ref Num") == "ref num"
    ensures HeaderSortColumn("Qty. in Stock") == "qty. in stock"
    ensures HeaderSortColumn("View") == "view"
    ensures HeaderSortColumn("Name") == "name"
  {
    assert HeaderSortColumn("Ref Num") == "ref num";
    assert HeaderSortColumn("Qty. in Stock") == "qty. in stock";
    assert HeaderSortColumn("View") == "view";
    assert HeaderSortColumn("Name") == "name";
  }

  /** A header click fetches exactly when the column it asks for is known,
      given the same reply and search term. */
  lemma ClickedFetch(s: State, rows: seq<Item>, ok: bool, header: string)
    requires ValidPagination(s.pagination)
    ensures Fetch(rows, ClickHeader(s, header), ok).Some? <==>
              ok && ColumnOrder(HeaderSortColumn(header)).Some? && !BreaksOrFilter(s.filters.search)
  {
  }

  lemma OnlyNameHeaderSorts(s: State, rows: seq<Item>, ok: bool)
    requires ValidPagination(s.pagination)
    ensures HeaderSortColumn("Ref Num") == "ref num"
    ensures HeaderSortColumn("Qty. in Stock") == "qty. in stock"
    ensures Fetch(rows, ClickHeader(s, "Ref Num"), ok).None?
    ensures Fetch(rows, ClickHeader(s, "Qty. in Stock"), ok).None?
    ensures Fetch(rows, ClickHeader(s, "View"), ok).None?
    ensures Fetch(rows, ClickHeader(s, "Name"), ok).Some? <==> ok && !BreaksOrFilter(s.filters.search)
    ensures SortIcon(ClickHeader(s, "Ref Num").sorting, HeaderSortColumn("Ref Num")).Some?
  {
    HeaderColumns();
    ClickedFetch(s, rows, ok, "Ref Num");
    ClickedFetch(s, rows, ok, "Qty. in Stock");
    ClickedFetch(s, rows, ok, "View");
    ClickedFetch(s, rows, ok, "Name");
  }

  /** The column each header evidently names: the item field it displays; the
      View column shows a button and does not sort. */
  function IntendedSortColumn(header: string): (r: Option<string>)
    ensures r.Some? <==> header in Headers && header != "View"
    ensures r.Some? ==> ColumnOrder(r.value).Some?
  {
    if header == "Ref Num" then Some("ref_num")
    else if header == "Name" then Some("name")
    else if header == "Qty. in Stock" then Some("qty_in_stock")
    else None
  }

  /** A header click with the intended mapping: a sortable header re-sorts,
      any other leaves the state alone. */
  function ClickHeaderIntended(s: State, header: string): (r: State)
    ensures r.filters == s.filters && r.pagination == s.pagination
    ensures IntendedSortColumn(header).None? ==> r == s
    ensures IntendedSortColumn(header).Some? ==> r.sorting.column == IntendedSortColumn(header).value
  {
    match IntendedSortColumn(header)
    case None => s
    case Some(column) => s.(sorting := HandleSort(s.sorting, column))
  }

  /** With the intended mapping, a click never makes the request fail: from
      any state whose fetch succeeds, the same reply fetches the clicked
      state too. */
  lemma IntendedClicksKeepFetching(s: State, rows: seq<Item>, header: string, ok: bool)
    requires ValidPagination(s.pagination) && Fetch(rows, s, ok).Some?
    ensures Fetch(rows, ClickHeaderIntended(s, header), ok).Some?
  {
  }

  /** Previous is disabled on page 1. */
  predicate PrevEnabled(p: Pagination) {
    p.page != 1
  }

  /** Next is disabled when the shown page is not full. */
  predicate NextEnabled(shown: seq<Item>, p: Pagination) {
    |shown| >= p.pageSize
  }

  function ClickPrev(p: Pagination): (r: Pagination)
    requires PrevEnabled(p)
    ensures r.pageSize == p.pageSize && r.page == p.page - 1
    ensures ValidPagination(p) ==> ValidPagination(r)
  {
    p.(page := p.page - 1)
  }

  function ClickNext(shown: seq<Item>, p: Pagination): (r: Pagination)
    requires NextEnabled(shown, p)
    ensures r.pageSize == p.pageSize && r.page == p.page + 1
    ensures ValidPagination(p) ==> ValidPagination(r)
  {
    p.(page := p.page + 1)
  }

  /** A page that is not full is the last: the following page is empty, so
      disabling Next hides no rows. */
  lemma {:induction false} ShortPageIsLast<T>(rows: seq<T>, p: Pagination)
    requires ValidPagination(p)
    requires |Page(rows, p)| < p.pageSize
    ensures Page(rows, p.(page := p.page + 1)) == []
    ensures |rows| <= p.page * p.pageSize
  {
    var lo := (p.page - 1) * p.pageSize;
    assert p.page * p.pageSize == lo + p.pageSize;
    assert PageRange(p) == (lo, lo + p.pageSize - 1);
    assert PageRange(p.(page := p.page + 1)).0 == lo + p.pageSize;
  }
}
