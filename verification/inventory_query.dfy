/** The inventory hook (src/hooks/useInventory.ts): its default state, the
    query `fetchItems` composes from filters, sorting and pagination, and
    `updateItem`. The database evaluates the query; the model evaluates it
    over the table's rows in the same order (filter, order, range). */
module InventoryQuery {
  import opened Wrappers
  import opened Model
  import Search
  import Sorting
  import Text

  datatype Direction = Asc | Desc

  /** `SortingState` */
  datatype SortState = SortState(column: string, direction: Direction)

  /** `PaginationState`: `page` counts from 1. */
  datatype Pagination = Pagination(page: int, pageSize: int)

  /** `InventoryFilters`: an empty string is an unset filter. */
  datatype Filters = Filters(search: string, category: Id, brand: Id, location: Id)

  datatype State = State(filters: Filters, sorting: SortState, pagination: Pagination)

  /** The hook's initial state. */
  const Initial := State(Filters("", "", "", ""), SortState("name", Asc), Pagination(1, 10))

  /** A state the screens can reach: the page counts from 1 and holds rows. */
  predicate ValidPagination(p: Pagination) {
    p.page >= 1 && p.pageSize >= 1
  }

  // ---------------------------------------------------------------- range

  /** The inclusive row range `.range(from, to)` requested for a page. */
  function PageRange(p: Pagination): (r: (int, int))
    ensures r.1 - r.0 + 1 == p.pageSize
    ensures ValidPagination(p) ==> 0 <= r.0 <= r.1
  {
    ((p.page - 1) * p.pageSize, p.page * p.pageSize - 1)
  }

  /** Page 1 starts at row 0, and each page starts on the row after the
      previous page's last row. */
  lemma PagesAreAdjacent(page: int, size: int)
    ensures PageRange(Pagination(1, size)).0 == 0
    ensures PageRange(Pagination(page + 1, size)).0 == PageRange(Pagination(page, size)).1 + 1
  {
  }

  /** Distinct pages request disjoint rows. */
  lemma {:induction false} PagesAreDisjoint(p: int, q: int, size: int)
    requires 1 <= p < q && size >= 1
    ensures PageRange(Pagination(p, size)).1 < PageRange(Pagination(q, size)).0
    decreases q - p
  {
    PagesAreAdjacent(q - 1, size);
    if q > p + 1 {
      PagesAreDisjoint(p, q - 1, size);
    }
  }

  /** The rows a range returns: none when it starts past the last row. */
  function Window<T>(rows: seq<T>, from: nat, to: int): (r: seq<T>)
    ensures |r| <= |rows|
    ensures to + 1 - from >= 0 ==> |r| <= to + 1 - from
    ensures from < |rows| && to + 1 - from >= 0 ==>
              r == rows[from..if to + 1 < |rows| then to + 1 else |rows|]
  {
    if from >= |rows| || to + 1 <= from then []
    else rows[from..if to + 1 < |rows| then to + 1 else |rows|]
  }

  function Page<T>(rows: seq<T>, p: Pagination): (r: seq<T>)
    requires ValidPagination(p)
    ensures |r| <= p.pageSize
  {
    var (from, to) := PageRange(p);
    Window(rows, from, to)
  }

  /** Pages 1 through n, one after the other. */
  function Pages<T>(rows: seq<T>, size: int, n: nat): seq<T>
    requires size >= 1
  {
    if n == 0 then [] else Pages(rows, size, n - 1) + Page(rows, Pagination(n, size))
  }

  function Prefix<T>(rows: seq<T>, n: int): seq<T> {
    rows[..if n < 0 then 0 else if n < |rows| then n else |rows|]
  }

  /** Page n holds the rows after the first (n - 1) * size, up to n * size. */
  lemma PageFollowsPrefix<T>(rows: seq<T>, size: int, n: nat)
    requires size >= 1 && n >= 1
    ensures Prefix(rows, (n - 1) * size) + Page(rows, Pagination(n, size)) == Prefix(rows, n * size)
  {
    var lo := (n - 1) * size;
    var hi := n * size;
    assert PageRange(Pagination(n, size)) == (lo, hi - 1);
    assert hi == lo + size;
    assert 0 <= lo;
    if lo < |rows| {
      var end := if hi < |rows| then hi else |rows|;
      assert Page(rows, Pagination(n, size)) == rows[lo..end];
      assert rows[..lo] + rows[lo..end] == rows[..end];
    }
  }

  /** Reading pages 1..n in turn yields the first n * size rows, each once
      and in order: the pages tile the result. */
  lemma {:induction false} PagesTile<T>(rows: seq<T>, size: int, n: nat)
    requires size >= 1
    ensures Pages(rows, size, n) == Prefix(rows, n * size)
  {
    if n > 0 {
      PagesTile(rows, size, n - 1);
      PageFollowsPrefix(rows, size, n);
    }
  }

  // ---------------------------------------------------------------- filters

  datatype Condition =
    | NameOrRefLike(term: string)   // `.or('name.ilike.%t%,ref_num.ilike.%t%')`
    | CategoryIs(category: Id)      // `.eq('category_id', c)`
    | BrandIs(brand: Id)            // `.eq('brand_id', b)`
    | LocationIs(location: Id)      // `.eq('location_id', l)`

  /** One condition per non-empty filter, in the order the hook adds them. */
  function Conditions(f: Filters): (r: seq<Condition>)
    ensures |r| == SetFilters(f)
    ensures NameOrRefLike(f.search) in r <==> f.search != ""
    ensures CategoryIs(f.category) in r <==> f.category != ""
    ensures BrandIs(f.brand) in r <==> f.brand != ""
    ensures LocationIs(f.location) in r <==> f.location != ""
    ensures forall c :: c in r ==> c in [NameOrRefLike(f.search), CategoryIs(f.category), BrandIs(f.brand), LocationIs(f.location)]
  {
    (if f.search != "" then [NameOrRefLike(f.search)] else [])
    + (if f.category != "" then [CategoryIs(f.category)] else [])
    + (if f.brand != "" then [BrandIs(f.brand)] else [])
    + (if f.location != "" then [LocationIs(f.location)] else [])
  }

  /** How many filters are set. */
  function SetFilters(f: Filters): nat {
    (if f.search != "" then 1 else 0) + (if f.category != "" then 1 else 0)
    + (if f.brand != "" then 1 else 0) + (if f.location != "" then 1 else 0)
  }

  /** `ilike '%t%'` on name or reference number: the same case-insensitive
      substring test as the screens' search box. */
  predicate Holds(c: Condition, item: Item) {
    match c
    case NameOrRefLike(t) => Search.Matches(item, t)
    case CategoryIs(id) => item.categoryId == id
    case BrandIs(id) => item.brandId == id
    case LocationIs(id) => item.locationId == id
  }

  /** The filters' meaning, stated filter by filter: each set filter must
      hold of the row, and an unset one says nothing. */
  predicate PassesFilters(f: Filters, item: Item) {
    && (f.search == "" || Search.Matches(item, f.search))
    && (f.category == "" || item.categoryId == f.category)
    && (f.brand == "" || item.brandId == f.brand)
    && (f.location == "" || item.locationId == f.location)
  }

  /** The composed query selects exactly the rows the filters describe. */
  lemma ConditionsMeanFilters(f: Filters, item: Item)
    ensures (forall c :: c in Conditions(f) ==> Holds(c, item)) <==> PassesFilters(f, item)
  {
    var cs := Conditions(f);
    if PassesFilters(f, item) {
      forall c | c in cs ensures Holds(c, item) {
      }
    } else {
      if f.search != "" && !Search.Matches(item, f.search) {
        assert NameOrRefLike(f.search) in cs;
      } else if f.category != "" && item.categoryId != f.category {
        assert CategoryIs(f.category) in cs;
      } else if f.brand != "" && item.brandId != f.brand {
        assert BrandIs(f.brand) in cs;
      } else {
        assert LocationIs(f.location) in cs;
      }
    }
  }

  function Select(rows: seq<Item>, cs: seq<Condition>): (r: seq<Item>)
    ensures |r| <= |rows|
    ensures forall x :: x in r <==> x in rows && forall c :: c in cs ==> Holds(c, x)
  {
    if rows == [] then []
    else if forall c :: c in cs ==> Holds(c, rows[0]) then [rows[0]] + Select(rows[1..], cs)
    else Select(rows[1..], cs)
  }

  // ---------------------------------------------------------------- ordering

  /** The ascending order of a column the items table has; None for any other
      name, which the database answers with an error. */
  function ColumnOrder(column: string): Option<(Item, Item) -> bool> {
    if column == "name" then Some((a: Item, b: Item) => Text.LexLe(a.name, b.name))
    else if column == "ref_num" then Some((a: Item, b: Item) => Text.LexLe(a.refNum, b.refNum))
    else if column == "qty_in_stock" then Some((a: Item, b: Item) => a.qtyInStock <= b.qtyInStock)
    else None
  }

  function Directed(le: (Item, Item) -> bool, d: Direction): (Item, Item) -> bool {
    if d == Asc then le else (a: Item, b: Item) => le(b, a)
  }

  lemma ColumnOrderIsTotalOrder(column: string, d: Direction)
    requires ColumnOrder(column).Some?
    ensures Sorting.Total(Directed(ColumnOrder(column).value, d))
    ensures Sorting.Transitive(Directed(ColumnOrder(column).value, d))
  {
    forall a: string, b: string ensures Text.LexLe(a, b) || Text.LexLe(b, a) {
      Text.LexLeTotal(a, b);
    }
    forall a: string, b: string, c: string | Text.LexLe(a, b) && Text.LexLe(b, c)
      ensures Text.LexLe(a, c)
    {
      Text.LexLeTransitive(a, b, c);
    }
  }

  // ---------------------------------------------------------------- fetch

  /** The filtered rows in the requested order. */
  function Ordered(rows: seq<Item>, cs: seq<Condition>, column: string, d: Direction): (r: seq<Item>)
    requires ColumnOrder(column).Some?
    ensures multiset(r) == multiset(Select(rows, cs))
    ensures Sorting.SortedBy(r, Directed(ColumnOrder(column).value, d))
  {
    var order := Directed(ColumnOrder(column).value, d);
    ColumnOrderIsTotalOrder(column, d);
    Sorting.SortBySorted(Select(rows, cs), order);
    Sorting.SortBy(Select(rows, cs), order)
  }

  lemma PageOfSorted(rows: seq<Item>, p: Pagination, le: (Item, Item) -> bool)
    requires ValidPagination(p) && Sorting.SortedBy(rows, le)
    ensures Sorting.SortedBy(Page(rows, p), le)
    ensures forall x :: x in Page(rows, p) ==> x in rows
  {
  }

  /** The search term is spliced unquoted into the `.or()` filter, whose
      conditions are separated by commas and closed by a parenthesis: a term
      holding either makes a filter the database cannot parse. */
  predicate BreaksOrFilter(term: string) {
    ',' in term || ')' in term
  }

  /** `fetchItems` over the table's rows: filter, order, then range. None when
      the request fails: an unknown sort column, a search term that breaks
      the `.or()` filter, or an error reply `ok == false` (the network); the
      hook then keeps the items it had. */
  function Fetch(rows: seq<Item>, s: State, ok: bool): (r: Option<seq<Item>>)
    requires ValidPagination(s.pagination)
    ensures r.Some? <==> ok && ColumnOrder(s.sorting.column).Some? && !BreaksOrFilter(s.filters.search)
    ensures r.Some? ==> |r.value| <= s.pagination.pageSize
    ensures r.Some? ==> Sorting.SortedBy(r.value, Directed(ColumnOrder(s.sorting.column).value, s.sorting.direction))
    ensures r.Some? ==> forall x :: x in r.value ==> x in rows && PassesFilters(s.filters, x)
  {
    if !ok || ColumnOrder(s.sorting.column).None? || BreaksOrFilter(s.filters.search) then None
    else
      var cs := Conditions(s.filters);
      var sorted := Ordered(rows, cs, s.sorting.column, s.sorting.direction);
      var page := Page(sorted, s.pagination);
      PageOfSorted(sorted, s.pagination, Directed(ColumnOrder(s.sorting.column).value, s.sorting.direction));
      forall x | x in page ensures x in rows && PassesFilters(s.filters, x) {
        assert x in multiset(Select(rows, cs));
        ConditionsMeanFilters(s.filters, x);
      }
      Some(page)
  }

  /** The initial state asks for rows 0..9 by name, ascending, with no filter. */
  lemma InitialQuery()
    ensures Conditions(Initial.filters) == []
    ensures PageRange(Initial.pagination) == (0, 9)
    ensures ColumnOrder(Initial.sorting.column).Some? && Initial.sorting.direction == Asc
  {
  }

  // ---------------------------------------------------------------- screen lists

  /** What the discard, usage and stock-count screens list: they call the hook
      without touching its state, so the fetch is the initial one, and their
      search box then filters the ten rows it returned. When that first fetch
      fails the hook keeps its initial empty list. */
  function ScreenList(rows: seq<Item>, term: string, ok: bool): (r: seq<Item>)
    ensures |r| <= Initial.pagination.pageSize
    ensures forall x :: x in r ==> x in rows && Search.Matches(x, term)
    ensures !ok ==> r == []
  {
    match Fetch(rows, Initial, ok)
    case None => []
    case Some(page) => Search.FilterItems(page, term)
  }

  /** The rows of a sequence without repetition: distinct positions hold
      distinct rows. */
  predicate Distinct<T(==)>(s: seq<T>) {
    forall i, j :: 0 <= i < j < |s| ==> s[i] != s[j]
  }

  lemma {:induction false} DistinctElements<T>(s: seq<T>)
    requires Distinct(s)
    ensures |set x | x in s| == |s|
  {
    if s != [] {
      DistinctElements(s[1..]);
      assert (set x | x in s) == {s[0]} + (set x | x in s[1..]);
      assert s[0] !in (set x | x in s[1..]);
    }
  }

  lemma {:induction false} ElementsBound<T>(s: seq<T>)
    ensures |set x | x in s| <= |s|
  {
    if s != [] {
      ElementsBound(s[1..]);
      assert (set x | x in s) == {s[0]} + (set x | x in s[1..]);
    }
  }

  /** As written: with more than ten rows in the table, some row never appears
      on these screens, whatever is typed in their search box. */
  lemma ScreensMissRows(rows: seq<Item>)
    requires Distinct(rows) && |rows| > Initial.pagination.pageSize
    ensures exists x :: x in rows && forall term, ok :: x !in ScreenList(rows, term, ok)
  {
    var page := Fetch(rows, Initial, true).value;
    if forall x :: x in rows ==> x in page {
      DistinctElements(rows);
      ElementsBound(page);
      Sorting.SubsetBound(set x | x in rows, set x | x in page);
      assert false;
    }
    var x :| x in rows && x !in page;
    forall term, ok ensures x !in ScreenList(rows, term, ok) {
    }
  }

  /** The list these screens evidently mean to show: every row matching the
      search term, ordered by name as the hook orders them. */
  function ScreenListAllRows(rows: seq<Item>, term: string): (r: seq<Item>)
    ensures forall x :: x in r <==> x in rows && Search.Matches(x, term)
    ensures Sorting.SortedBy(r, Directed(ColumnOrder("name").value, Asc))
  {
    var ordered := Ordered(rows, [], "name", Asc);
    assert forall x :: x in ordered <==> x in multiset(Select(rows, []));
    Search.FilterKeepsOrder(ordered, term, Directed(ColumnOrder("name").value, Asc));
    Search.FilterItems(ordered, term)
  }

  // ---------------------------------------------------------------- update

  /** The fields the stock-count dialog writes through `updateItem`. */
  datatype CountPatch = CountPatch(
    qtyInStock: int,
    categoryId: Id,
    locationId: Id,
    expiryDate: Option<int>,
    packSize: Option<int>,
    reorderLevel: Option<int>,
    remarks: Option<string>)

  function ApplyPatch(item: Item, p: CountPatch): (r: Item)
    ensures r.qtyInStock == p.qtyInStock && r.categoryId == p.categoryId && r.locationId == p.locationId
    ensures r.expiryDate == p.expiryDate && r.packSize == p.packSize
    ensures r.reorderLevel == p.reorderLevel && r.remarks == p.remarks
    // every other column is left as it was
    ensures r.id == item.id && r.refNum == item.refNum && r.name == item.name
    ensures r.brandId == item.brandId && r.unit == item.unit && r.lotNum == item.lotNum
  {
    item.(qtyInStock := p.qtyInStock, categoryId := p.categoryId, locationId := p.locationId,
          expiryDate := p.expiryDate, packSize := p.packSize, reorderLevel := p.reorderLevel,
          remarks := p.remarks)
  }

  /** `updateItem`: throws on error without refetching; refetches on success. */
  datatype UpdateOutcome = Threw | Refetched

  function UpdateItem(st: Store, id: Id, p: CountPatch, ok: bool): (r: (Store, UpdateOutcome))
    ensures r.1 == Refetched <==> ok
    ensures !ok ==> r.0 == st
    ensures ok ==> r.0.orders == st.orders && r.0.updates == st.updates && r.0.items.Keys == st.items.Keys
    ensures ok && id in st.items ==> r.0.items[id] == ApplyPatch(st.items[id], p)
    ensures forall k :: k in st.items && k != id ==> r.0.items[k] == st.items[k]
    ensures WellKeyed(st) ==> WellKeyed(r.0)
  {
    if !ok then (st, Threw)
    else if id in st.items then (st.(items := st.items[id := ApplyPatch(st.items[id], p)]), Refetched)
    else (st, Refetched)
  }
}
