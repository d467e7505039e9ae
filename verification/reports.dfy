/** The report downloads (src/pages/Reports.tsx). Each report fetches its
    records, joined with their item and the item's category, brand and
    location, and groups the lines by category name into one sheet per
    category. The three stock reports select audit records of one update type
    within a date window; the orders report applies a placed-date range only
    when both ends are set. The grouping `reduce` throws, and no workbook is
    produced, when a record's category, brand or location cannot be read, or
    when a category's name is a key every plain object inherits. A failed
    fetch produces no workbook either. */
module Reports {
  import opened Wrappers
  import opened Model
  import opened Grouping

  datatype Kind = InventoryReport | OrdersReport | StockCountReport | UsageReport | DiscardReport

  /** One spreadsheet row, with the columns whose contents follow a rule. */
  datatype Line =
    | InventoryLine(refNum: string, name: string, qty: int, unit: string, packSize: Option<int>)
    | OrderLine(refNum: string, name: string, quantity: int, placed: int, received: Cell, status: string)
    | CountLine(refNum: string, name: string, previous: int, updated: int, date: int)
    | UsageLine(refNum: string, name: string, previous: int, updated: int, date: int)
    | DiscardLine(refNum: string, name: string, quantity: int, date: int)

  /** The rows of `s` that `keep` accepts, in order. */
  function Where<T(!new)>(s: seq<T>, keep: T -> bool): (r: seq<T>)
    ensures |r| <= |s|
    ensures forall x :: x in r <==> x in s && keep(x)
  {
    if s == [] then []
    else if keep(s[0]) then [s[0]] + Where(s[1..], keep)
    else Where(s[1..], keep)
  }

  /** When `keep` accepts no row, nothing is kept. */
  lemma {:induction false} WhereNone<T(!new)>(s: seq<T>, keep: T -> bool)
    requires forall x :: x in s ==> !keep(x)
    ensures Where(s, keep) == []
  {
    if s != [] {
      assert s[0] in s;
      WhereNone(s[1..], keep);
    }
  }

  // ---------------------------------------------------------------- selection

  /** The update type each stock report selects; the other reports read no
      audit records. */
  function SelectedType(k: Kind): (r: Option<UpdateType>)
    ensures r.Some? <==> k in {StockCountReport, UsageReport, DiscardReport}
    ensures k == StockCountReport ==> UpdateTypeText(r.value) == "adjusted"
    ensures k == UsageReport ==> UpdateTypeText(r.value) == "shipped"
    ensures k == DiscardReport ==> UpdateTypeText(r.value) == "discarded"
  {
    match k
    case StockCountReport => Some(Adjustment)
    case UsageReport => Some(Shipment)
    case DiscardReport => Some(Disposal)
    case _ => None
  }

  /** No two stock reports read the same records. */
  lemma StockReportsAreDisjoint(k1: Kind, k2: Kind)
    requires SelectedType(k1).Some? && SelectedType(k2).Some? && k1 != k2
    ensures SelectedType(k1) != SelectedType(k2)
  {
  }

  /** The date-range selector of the stock reports. */
  datatype DateRange = Weekly | Monthly | Custom

  /** The condition on `update_date`. */
  datatype Window = Since(day: int) | On(day: int) | Unbounded

  /** Weekly and monthly look back from today (the two starting days are
      computed from the clock and given here); a custom range uses the
      specific date when one is set and no condition otherwise. */
  function UpdateWindow(range: DateRange, weekAgo: int, monthAgo: int, specific: Option<int>): (r: Window)
    ensures range == Weekly ==> r == Since(weekAgo)
    ensures range == Monthly ==> r == Since(monthAgo)
    ensures range == Custom ==> (r.Unbounded? <==> specific.None?)
    ensures range == Custom && specific.Some? ==> r == On(specific.value)
  {
    match range
    case Weekly => Since(weekAgo)
    case Monthly => Since(monthAgo)
    case Custom => if specific.Some? then On(specific.value) else Unbounded
  }

  predicate InWindow(date: int, w: Window) {
    match w
    case Unbounded => true
    case Since(d) => date >= d
    case On(d) => date == d
  }

  /** The orders report's placed-date range: set only when both ends are. */
  function OrderBounds(start: Option<int>, end: Option<int>): (r: Option<(int, int)>)
    ensures r.Some? <==> start.Some? && end.Some?
    ensures r.Some? ==> r.value == (start.value, end.value)
  {
    if start.Some? && end.Some? then Some((start.value, end.value)) else None
  }

  predicate InBounds(o: Order, b: Option<(int, int)>) {
    b.None? || (b.value.0 <= o.placedAt && o.placedAt <= b.value.1)
  }

  /** With one end missing, no order is excluded by date. */
  lemma OneBoundFiltersNothing(o: Order, start: Option<int>, end: Option<int>)
    requires start.None? || end.None?
    ensures InBounds(o, OrderBounds(start, end))
  {
  }

  // ---------------------------------------------------------------- cells

  /** The 'Date Received' cell: '-' when the order has no received date. */
  function ReceivedCell(receivedAt: Option<int>): (c: Cell)
    ensures c == Literal("-") <==> receivedAt.None?
    ensures receivedAt.Some? ==> c == Day(receivedAt.value)
  {
    if receivedAt.Some? then Day(receivedAt.value) else Literal("-")
  }

  function ItemLine(item: Item): (l: Line)
    ensures l.InventoryLine? && l.qty == item.qtyInStock && l.refNum == item.refNum && l.name == item.name
  {
    InventoryLine(item.refNum, item.name, item.qtyInStock, item.unit, item.packSize)
  }

  function OrderRow(o: Order, item: Item): (l: Line)
    ensures l.OrderLine? && l.quantity == o.qtyOrdered && l.placed == o.placedAt
    ensures l.received == ReceivedCell(o.receivedAt) && l.status == StatusText(o.status)
  {
    OrderLine(item.refNum, item.name, o.qtyOrdered, o.placedAt, ReceivedCell(o.receivedAt), StatusText(o.status))
  }

  /** A stock report's row: the stock-count report copies `qty_change` into
      both quantity columns as it is; the usage report copies its magnitude
      into both; the discard report has one quantity, the magnitude. */
  function UpdateRow(k: Kind, u: StockUpdate, item: Item): (l: Line)
    requires SelectedType(k).Some?
    ensures k == StockCountReport ==> l.CountLine? && l.previous == l.updated == u.qtyChange
    ensures k == UsageReport ==> l.UsageLine? && l.previous == l.updated == Magnitude(u.qtyChange)
    ensures k == DiscardReport ==> l.DiscardLine? && l.quantity == Magnitude(u.qtyChange)
    ensures l.refNum == item.refNum && l.name == item.name
  {
    match k
    case StockCountReport => CountLine(item.refNum, item.name, u.qtyChange, u.qtyChange, u.updateDate)
    case UsageReport => UsageLine(item.refNum, item.name, Magnitude(u.qtyChange), Magnitude(u.qtyChange), u.updateDate)
    case DiscardReport => DiscardLine(item.refNum, item.name, Magnitude(u.qtyChange), u.updateDate)
  }

  // ---------------------------------------------------------------- records

  /** The names the joins read, by id: a missing id is a null join, whose
      `.name` the `reduce` cannot read. */
  datatype Lookups = Lookups(categories: map<Id, string>, brands: map<Id, string>, locations: map<Id, string>)

  /** The keys an object literal `{}` inherits from `Object.prototype`. For
      such a name `acc[categoryName]` is already set, to something without a
      `push`. */
  const InheritedKeys: set<string> := {
    "constructor", "__proto__", "toString", "toLocaleString", "valueOf",
    "hasOwnProperty", "isPrototypeOf", "propertyIsEnumerable",
    "__defineGetter__", "__defineSetter__", "__lookupGetter__", "__lookupSetter__"}

  /** The reports whose lines print the brand and location names: all but the
      orders report. */
  predicate ReadsBrandAndLocation(k: Kind) {
    k != OrdersReport
  }

  /** The `reduce` of report `k` files a row of this item without throwing. */
  predicate Fileable(look: Lookups, k: Kind, item: Item) {
    && item.categoryId in look.categories
    && look.categories[item.categoryId] !in InheritedKeys
    && (ReadsBrandAndLocation(k) ==> item.brandId in look.brands && item.locationId in look.locations)
  }

  /** Every row's category name can be read. */
  predicate AllHaveCategory<T>(rows: seq<T>, itemOf: T -> Item, cats: map<Id, string>) {
    forall i :: 0 <= i < |rows| ==> itemOf(rows[i]).categoryId in cats
  }

  /** Every row can be filed. */
  predicate AllFileable<T>(k: Kind, rows: seq<T>, itemOf: T -> Item, look: Lookups) {
    forall i :: 0 <= i < |rows| ==> Fileable(look, k, itemOf(rows[i]))
  }

  /** Each row paired with its item's category name and its line, in fetch
      order: what the `reduce` reads, one row at a time. */
  function Filed<T>(rows: seq<T>, itemOf: T -> Item, lineOf: T -> Line, cats: map<Id, string>): seq<(string, Line)>
    requires AllHaveCategory(rows, itemOf, cats)
  {
    seq(|rows|, i requires 0 <= i < |rows| => (cats[itemOf(rows[i]).categoryId], lineOf(rows[i])))
  }

  /** The names the filed rows carry are their items' category names. */
  lemma FiledCategories<T>(rows: seq<T>, itemOf: T -> Item, lineOf: T -> Line, cats: map<Id, string>)
    requires AllHaveCategory(rows, itemOf, cats)
    ensures Categories(Filed(rows, itemOf, lineOf, cats)) == set i | 0 <= i < |rows| :: cats[itemOf(rows[i]).categoryId]
  {
    var f := Filed(rows, itemOf, lineOf, cats);
    assert forall i :: 0 <= i < |f| ==> f[i].0 == cats[itemOf(rows[i]).categoryId];
  }

  /** Pair each row with its category name and line, front to back; None as
      soon as report `k` cannot file some row (the `reduce` throws). */
  function Label<T>(k: Kind, rows: seq<T>, itemOf: T -> Item, lineOf: T -> Line, look: Lookups)
    : (r: Option<seq<(string, Line)>>)
    ensures r.Some? <==> AllFileable(k, rows, itemOf, look)
    ensures r.Some? ==> r.value == Filed(rows, itemOf, lineOf, look.categories)
  {
    if rows == [] then Some([])
    else if !Fileable(look, k, itemOf(rows[0])) then None
    else
      match Label(k, rows[1..], itemOf, lineOf, look)
      case None =>
        assert !AllFileable(k, rows, itemOf, look) by {
          var j :| 0 <= j < |rows[1..]| && !Fileable(look, k, itemOf(rows[1..][j]));
          assert rows[1..][j] == rows[j + 1];
        }
        None
      case Some(rest) =>
        assert forall i :: 1 <= i < |rows| ==> rows[i] == rows[1..][i - 1];
        assert AllFileable(k, rows, itemOf, look);
        var r := [(look.categories[itemOf(rows[0]).categoryId], lineOf(rows[0]))] + rest;
        assert r == Filed(rows, itemOf, lineOf, look.categories);
        Some(r)
  }

  function ItemOf(x: Item): Item {
    x
  }

  /** The inventory report: every item, filed under its category. */
  function InventorySheets(items: Option<seq<Item>>, look: Lookups): (r: Option<seq<Sheet<Line>>>)
    ensures r.Some? <==> items.Some? && AllFileable(InventoryReport, items.value, ItemOf, look)
    ensures r.Some? ==> TotalLines(r.value) == |items.value| && DistinctNames(r.value)
    ensures r.Some? ==> Names(r.value) == set i | 0 <= i < |items.value| :: look.categories[items.value[i].categoryId]
    // each sheet lists exactly the items of its category, in fetch order
    ensures r.Some? ==> forall i :: 0 <= i < |r.value| ==>
              r.value[i].lines == LinesOf(Filed(items.value, ItemOf, ItemLine, look.categories), r.value[i].name)
  {
    if items.None? then None
    else
      var labelled := Label(InventoryReport, items.value, ItemOf, ItemLine, look);
      if labelled.None? then None
      else
        FiledCategories(items.value, ItemOf, ItemLine, look.categories);
        Some(GroupBy(labelled.value))
  }

  /** An order joined with its item (`items!inner`): orders whose item is gone
      are not fetched. */
  datatype OrderWithItem = OrderWithItem(order: Order, item: Item)

  function JoinOrders(orders: seq<Order>, items: map<Id, Item>): (r: seq<OrderWithItem>)
    ensures forall x :: x in r <==> x.order in orders && x.order.itemId in items && x.item == items[x.order.itemId]
  {
    if orders == [] then []
    else
      var rest := JoinOrders(orders[1..], items);
      if orders[0].itemId in items then [OrderWithItem(orders[0], items[orders[0].itemId])] + rest else rest
  }

  function InRange(b: Option<(int, int)>): OrderWithItem -> bool {
    (x: OrderWithItem) => InBounds(x.order, b)
  }

  /** The orders the report lists: joined, within the placed-date range. */
  function KeptOrders(orders: seq<Order>, items: map<Id, Item>, start: Option<int>, end: Option<int>): seq<OrderWithItem> {
    Where(JoinOrders(orders, items), InRange(OrderBounds(start, end)))
  }

  function OrderedItem(x: OrderWithItem): Item {
    x.item
  }

  function OrderLineOf(x: OrderWithItem): Line {
    OrderRow(x.order, x.item)
  }

  /** The orders report: joined orders within the placed-date range, filed
      under their item's category. */
  function OrderSheets(orders: Option<seq<Order>>, items: map<Id, Item>, look: Lookups,
                       start: Option<int>, end: Option<int>): (r: Option<seq<Sheet<Line>>>)
    ensures r.Some? <==> orders.Some? && AllFileable(OrdersReport, KeptOrders(orders.value, items, start, end), OrderedItem, look)
    ensures r.Some? ==>
              var kept := KeptOrders(orders.value, items, start, end);
              && TotalLines(r.value) == |kept| && DistinctNames(r.value)
              && Names(r.value) == (set i | 0 <= i < |kept| :: look.categories[kept[i].item.categoryId])
              // each sheet lists exactly the kept orders of its category, in fetch order
              && forall i :: 0 <= i < |r.value| ==>
                   r.value[i].lines == LinesOf(Filed(kept, OrderedItem, OrderLineOf, look.categories), r.value[i].name)
    ensures r.Some? ==> forall s, l :: s in r.value && l in s.lines ==>
              exists o :: o in orders.value && o.itemId in items && InBounds(o, OrderBounds(start, end))
                       && l == OrderRow(o, items[o.itemId])
  {
    if orders.None? then None
    else
      var b := OrderBounds(start, end);
      var kept := KeptOrders(orders.value, items, start, end);
      var labelled := Label(OrdersReport, kept, OrderedItem, OrderLineOf, look);
      if labelled.None? then None
      else
        FiledCategories(kept, OrderedItem, OrderLineOf, look.categories);
        assert forall i :: 0 <= i < |kept| ==> OrderedItem(kept[i]) == kept[i].item;
        var g := GroupBy(labelled.value);
        OrderLinesFromOrders(orders.value, items, look, start, end);
        Some(g)
  }

  /** A line on a sheet comes from a record filed under that sheet's name. */
  lemma {:induction false} LineHasRecord<L>(records: seq<(string, L)>, name: string, l: L) returns (j: nat)
    requires l in LinesOf(records, name)
    ensures j < |records| && records[j] == (name, l)
  {
    var n := |records| - 1;
    if l in LinesOf(records[..n], name) {
      j := LineHasRecord(records[..n], name, l);
      assert records[..n][j] == records[j];
    } else {
      j := n;
    }
  }

  /** Every line on a sheet of the grouped rows is the line of one of the rows. */
  lemma SheetLinesFromRows<T>(rows: seq<T>, itemOf: T -> Item, lineOf: T -> Line, cats: map<Id, string>)
    requires AllHaveCategory(rows, itemOf, cats)
    ensures forall s, l :: s in GroupBy(Filed(rows, itemOf, lineOf, cats)) && l in s.lines ==>
              exists j :: 0 <= j < |rows| && l == lineOf(rows[j])
  {
    var filed := Filed(rows, itemOf, lineOf, cats);
    forall s, l | s in GroupBy(filed) && l in s.lines
      ensures exists j :: 0 <= j < |rows| && l == lineOf(rows[j])
    {
      var g := GroupBy(filed);
      var i :| 0 <= i < |g| && g[i] == s;
      var j := LineHasRecord(filed, s.name, l);
      assert l == lineOf(rows[j]);
    }
  }

  /** Every line of the grouped orders is the line of an order of the range. */
  lemma OrderLinesFromOrders(orders: seq<Order>, items: map<Id, Item>, look: Lookups,
                             start: Option<int>, end: Option<int>)
    requires AllHaveCategory(KeptOrders(orders, items, start, end), OrderedItem, look.categories)
    ensures forall s, l ::
              s in GroupBy(Filed(KeptOrders(orders, items, start, end), OrderedItem, OrderLineOf, look.categories))
              && l in s.lines ==>
              exists o :: o in orders && o.itemId in items && InBounds(o, OrderBounds(start, end))
                       && l == OrderRow(o, items[o.itemId])
  {
    var kept := KeptOrders(orders, items, start, end);
    SheetLinesFromRows(kept, OrderedItem, OrderLineOf, look.categories);
    forall j | 0 <= j < |kept|
      ensures kept[j].order in orders && kept[j].order.itemId in items
              && InBounds(kept[j].order, OrderBounds(start, end))
              && OrderLineOf(kept[j]) == OrderRow(kept[j].order, items[kept[j].order.itemId])
    {
      assert kept[j] in kept;
    }
  }

  /** An audit record joined with its item. */
  datatype UpdateWithItem = UpdateWithItem(update: StockUpdate, item: Item)

  function JoinUpdates(updates: seq<StockUpdate>, items: map<Id, Item>): (r: seq<UpdateWithItem>)
    ensures forall x :: x in r <==> x.update in updates && x.update.itemId in items && x.item == items[x.update.itemId]
  {
    if updates == [] then []
    else
      var rest := JoinUpdates(updates[1..], items);
      if updates[0].itemId in items then [UpdateWithItem(updates[0], items[updates[0].itemId])] + rest else rest
  }

  predicate Selected(k: Kind, w: Window, x: UpdateWithItem)
    requires SelectedType(k).Some?
  {
    x.update.updateType == SelectedType(k).value && InWindow(x.update.updateDate, w)
  }

  function Selection(k: Kind, w: Window): UpdateWithItem -> bool
    requires SelectedType(k).Some?
  {
    (x: UpdateWithItem) => Selected(k, w, x)
  }

  /** The records a stock report lists: joined, of its type, in the window. */
  function KeptUpdates(k: Kind, w: Window, updates: seq<StockUpdate>, items: map<Id, Item>): seq<UpdateWithItem>
    requires SelectedType(k).Some?
  {
    Where(JoinUpdates(updates, items), Selection(k, w))
  }

  function UpdatedItem(x: UpdateWithItem): Item {
    x.item
  }

  function UpdateLineOf(k: Kind): UpdateWithItem -> Line
    requires SelectedType(k).Some?
  {
    (x: UpdateWithItem) => UpdateRow(k, x.update, x.item)
  }

  /** Every line of the grouped records is the line of a record the report
      selects. */
  lemma UpdateLinesFromRecords(k: Kind, updates: seq<StockUpdate>, items: map<Id, Item>, look: Lookups, w: Window)
    requires SelectedType(k).Some?
    requires AllHaveCategory(KeptUpdates(k, w, updates, items), UpdatedItem, look.categories)
    ensures forall s, l ::
              s in GroupBy(Filed(KeptUpdates(k, w, updates, items), UpdatedItem, UpdateLineOf(k), look.categories))
              && l in s.lines ==>
              exists u :: u in updates && u.itemId in items
                       && u.updateType == SelectedType(k).value && InWindow(u.updateDate, w)
                       && l == UpdateRow(k, u, items[u.itemId])
  {
    var kept := KeptUpdates(k, w, updates, items);
    SheetLinesFromRows(kept, UpdatedItem, UpdateLineOf(k), look.categories);
    forall j | 0 <= j < |kept|
      ensures kept[j].update in updates && kept[j].update.itemId in items
              && kept[j].update.updateType == SelectedType(k).value && InWindow(kept[j].update.updateDate, w)
              && UpdateLineOf(k)(kept[j]) == UpdateRow(k, kept[j].update, items[kept[j].update.itemId])
    {
      assert kept[j] in kept;
      assert Selection(k, w)(kept[j]);
    }
  }

  /** A stock report: joined audit records of the report's type within the
      window, filed under their item's category. */
  function UpdateSheets(k: Kind, updates: Option<seq<StockUpdate>>, items: map<Id, Item>,
                        look: Lookups, w: Window): (r: Option<seq<Sheet<Line>>>)
    requires SelectedType(k).Some?
    ensures r.Some? <==> updates.Some? && AllFileable(k, KeptUpdates(k, w, updates.value, items), UpdatedItem, look)
    ensures r.Some? ==>
              var kept := KeptUpdates(k, w, updates.value, items);
              && TotalLines(r.value) == |kept| && DistinctNames(r.value)
              && Names(r.value) == (set i | 0 <= i < |kept| :: look.categories[kept[i].item.categoryId])
              // each sheet lists exactly the kept records of its category, in fetch order
              && forall i :: 0 <= i < |r.value| ==>
                   r.value[i].lines == LinesOf(Filed(kept, UpdatedItem, UpdateLineOf(k), look.categories), r.value[i].name)
    ensures r.Some? ==> forall s, l :: s in r.value && l in s.lines ==>
              exists u :: u in updates.value && u.itemId in items
                       && u.updateType == SelectedType(k).value && InWindow(u.updateDate, w)
                       && l == UpdateRow(k, u, items[u.itemId])
  {
    if updates.None? then None
    else
      var kept := KeptUpdates(k, w, updates.value, items);
      var labelled := Label(k, kept, UpdatedItem, UpdateLineOf(k), look);
      if labelled.None? then None
      else
        FiledCategories(kept, UpdatedItem, UpdateLineOf(k), look.categories);
        assert forall i :: 0 <= i < |kept| ==> UpdatedItem(kept[i]) == kept[i].item;
        var g := GroupBy(labelled.value);
        UpdateLinesFromRecords(k, updates.value, items, look, w);
        Some(g)
  }

  /** The usage and discard reports never show a negative quantity. */
  lemma UsageAndDiscardQuantitiesNonNegative(k: Kind, updates: Option<seq<StockUpdate>>, items: map<Id, Item>,
                                             look: Lookups, w: Window)
    requires k == UsageReport || k == DiscardReport
    requires UpdateSheets(k, updates, items, look, w).Some?
    ensures forall s, l :: s in UpdateSheets(k, updates, items, look, w).value && l in s.lines ==>
              (l.UsageLine? && l.previous >= 0 && l.updated >= 0) || (l.DiscardLine? && l.quantity >= 0)
  {
  }

  /** The stock-count report's 'Previous Quantity' and 'Updated Quantity'
      columns always hold the same number: the change, not the before and
      after figures. */
  lemma CountReportRepeatsChange(updates: Option<seq<StockUpdate>>, items: map<Id, Item>,
                                 look: Lookups, w: Window)
    requires UpdateSheets(StockCountReport, updates, items, look, w).Some?
    ensures forall s, l :: s in UpdateSheets(StockCountReport, updates, items, look, w).value && l in s.lines ==>
              l.CountLine? && l.previous == l.updated
  {
  }

  /** The converse of the provenance clause: every record a stock report keeps
      is listed, by its line, on the sheet named after its item's category. */
  lemma KeptRecordIsListed(k: Kind, updates: seq<StockUpdate>, items: map<Id, Item>, look: Lookups,
                           w: Window, u: StockUpdate)
    requires SelectedType(k).Some?
    requires u in updates && u.itemId in items && u.updateType == SelectedType(k).value && InWindow(u.updateDate, w)
    requires UpdateSheets(k, Some(updates), items, look, w).Some?
    ensures items[u.itemId].categoryId in look.categories
    ensures exists s :: s in UpdateSheets(k, Some(updates), items, look, w).value
                     && s.name == look.categories[items[u.itemId].categoryId]
                     && UpdateRow(k, u, items[u.itemId]) in s.lines
  {
    var item := items[u.itemId];
    var sheets := UpdateSheets(k, Some(updates), items, look, w).value;
    var x := UpdateWithItem(u, item);
    assert Selection(k, w)(x);
    var kept := KeptUpdates(k, w, updates, items);
    assert x in kept;
    var j :| 0 <= j < |kept| && kept[j] == x;
    var filed := Filed(kept, UpdatedItem, UpdateLineOf(k), look.categories);
    assert Fileable(look, k, UpdatedItem(kept[j]));
    assert filed[j] == (look.categories[item.categoryId], UpdateRow(k, u, item));
    CategoryHasLines(filed, j);
    assert look.categories[item.categoryId] in Names(sheets);
    var i :| 0 <= i < |sheets| && sheets[i].name == look.categories[item.categoryId];
    assert sheets[i] in sheets;
  }

  /** A single record filed under a category named after an inherited key
      stops any report that keeps it, whatever the other records say. */
  lemma InheritedKeyStopsReport(k: Kind, updates: seq<StockUpdate>, items: map<Id, Item>, look: Lookups,
                                w: Window, u: StockUpdate)
    requires SelectedType(k).Some?
    requires u in updates && u.itemId in items && u.updateType == SelectedType(k).value && InWindow(u.updateDate, w)
    requires items[u.itemId].categoryId in look.categories
    requires look.categories[items[u.itemId].categoryId] in InheritedKeys
    ensures UpdateSheets(k, Some(updates), items, look, w).None?
  {
    var x := UpdateWithItem(u, items[u.itemId]);
    assert Selection(k, w)(x);
    var kept := KeptUpdates(k, w, updates, items);
    assert x in kept;
    var j :| 0 <= j < |kept| && kept[j] == x;
    assert !Fileable(look, k, UpdatedItem(kept[j]));
  }
}
