/** The records the screens read and write, and the abstract backend store
    they live in: a table of items keyed by id, a table of orders keyed by id,
    and the append-only `stock_updates` audit table. */
module Model {
  import opened Wrappers

  type Id = string

  /** An inventory item (`InventoryItem` in src/types/inventory.ts). The joined
      category, brand and location names are replaced by the foreign keys that
      the writes use; a report reads the names through a join of its own. */
  datatype Item = Item(
    id: Id,
    refNum: string,
    name: string,
    categoryId: Id,
    brandId: Id,
    locationId: Id,
    qtyInStock: int,
    unit: string,
    lotNum: Option<string>,
    expiryDate: Option<int>,
    packSize: Option<int>,
    reorderLevel: Option<int>,
    remarks: Option<string>)

  /** `Order.status`: a closed union of three strings. */
  datatype OrderStatus = Pending | Received | Cancelled

  /** A replenishment order. Timestamps are integers. */
  datatype Order = Order(
    id: Id,
    itemId: Id,
    qtyOrdered: int,
    placedAt: int,
    receivedAt: Option<int>,
    status: OrderStatus,
    createdBy: Option<Id>)

  /** `stock_updates.update_type`: 'received', 'shipped', 'discarded', 'adjusted'. */
  datatype UpdateType = Receipt | Shipment | Disposal | Adjustment

  /** One audit record of a quantity change. `updateDate` is the day the
      change is filed under: the date the insert gives, or the column default
      when the insert leaves `update_date` out; `createdAt` is the insertion
      time. */
  datatype StockUpdate = StockUpdate(
    id: nat,
    itemId: Id,
    qtyChange: int,
    updateType: UpdateType,
    updateDate: int,
    remarks: string,
    createdAt: int)

  datatype Store = Store(
    items: map<Id, Item>,
    orders: map<Id, Order>,
    updates: seq<StockUpdate>)

  function StatusText(s: OrderStatus): string {
    match s
    case Pending => "pending"
    case Received => "received"
    case Cancelled => "cancelled"
  }

  /** Reads a status column. Only the three literals of the union are statuses,
      and each reads back as the status it spells. */
  function ParseStatus(t: string): (r: Option<OrderStatus>)
    ensures r.Some? <==> (t == "pending" || t == "received" || t == "cancelled")
    ensures r.Some? ==> StatusText(r.value) == t
  {
    if t == "pending" then Some(Pending)
    else if t == "received" then Some(Received)
    else if t == "cancelled" then Some(Cancelled)
    else None
  }

  /** Writing a status and reading it back gives the same status. */
  lemma StatusRoundTrip(s: OrderStatus)
    ensures ParseStatus(StatusText(s)) == Some(s)
  {
  }

  function UpdateTypeText(t: UpdateType): string {
    match t
    case Receipt => "received"
    case Shipment => "shipped"
    case Disposal => "discarded"
    case Adjustment => "adjusted"
  }

  /** Reads an `update_type` column; the partner of UpdateTypeText. */
  function ParseUpdateType(t: string): (r: Option<UpdateType>)
    ensures r.Some? <==> (t == "received" || t == "shipped" || t == "discarded" || t == "adjusted")
    ensures r.Some? ==> UpdateTypeText(r.value) == t
  {
    if t == "received" then Some(Receipt)
    else if t == "shipped" then Some(Shipment)
    else if t == "discarded" then Some(Disposal)
    else if t == "adjusted" then Some(Adjustment)
    else None
  }

  lemma UpdateTypeRoundTrip(t: UpdateType)
    ensures ParseUpdateType(UpdateTypeText(t)) == Some(t)
  {
  }

  /** A displayed value: literal text, or a date the screen formats. */
  datatype Cell = Literal(text: string) | Day(date: int)

  /** Every row is stored under its own primary key. */
  predicate WellKeyed(st: Store) {
    && (forall id :: id in st.items ==> st.items[id].id == id)
    && (forall id :: id in st.orders ==> st.orders[id].id == id)
  }

  /** No item holds a negative quantity. */
  predicate StockNonNegative(st: Store) {
    forall id :: id in st.items ==> st.items[id].qtyInStock >= 0
  }

  /** `.from('items').update({ qty_in_stock: q }).eq('id', id)`. An update whose
      filter matches no row succeeds and changes nothing. */
  function SetQty(st: Store, id: Id, q: int): (r: Store)
    ensures r.orders == st.orders && r.updates == st.updates
    ensures r.items.Keys == st.items.Keys
    ensures id in st.items ==> r.items[id] == st.items[id].(qtyInStock := q)
    ensures forall k :: k in st.items && k != id ==> r.items[k] == st.items[k]
    ensures WellKeyed(st) ==> WellKeyed(r)
  {
    if id in st.items then st.(items := st.items[id := st.items[id].(qtyInStock := q)]) else st
  }

  /** The `update_date` a record is stored with: the one the insert gives, or
      else the column default, the insertion time (as `order_placed_date`
      defaults to it). */
  function ColumnDate(date: Option<int>, now: int): (d: int)
    ensures date.Some? ==> d == date.value
    ensures date.None? ==> d == now
  {
    if date.Some? then date.value else now
  }

  /** `.from('stock_updates').insert(...)`: the record gets the next serial id
      and the insertion time `now`; `date` is None when the insert leaves
      `update_date` out. */
  function AppendUpdate(st: Store, itemId: Id, qtyChange: int, t: UpdateType,
                        date: Option<int>, remarks: string, now: int): (r: Store)
    ensures r.items == st.items && r.orders == st.orders
    ensures |r.updates| == |st.updates| + 1 && r.updates[..|st.updates|] == st.updates
    // the new record holds exactly the inserted fields
    ensures Last(r.updates) == StockUpdate(|st.updates|, itemId, qtyChange, t, ColumnDate(date, now), remarks, now)
    ensures WellKeyed(st) ==> WellKeyed(r)
  {
    st.(updates := st.updates + [StockUpdate(|st.updates|, itemId, qtyChange, t, ColumnDate(date, now), remarks, now)])
  }

  function Last<T>(s: seq<T>): T
    requires |s| > 0
  {
    s[|s| - 1]
  }

  /** Net quantity the audit trail records for one item: the sum of its
      records' `qty_change`. */
  function Net(updates: seq<StockUpdate>, id: Id): int
    decreases |updates|
  {
    if updates == [] then 0
    else Net(updates[..|updates| - 1], id) + Contribution(Last(updates), id)
  }

  /** `Math.abs(qty_change)`: how the screens print the size of a change. */
  function Magnitude(change: int): (m: nat)
    ensures m == change || m == -change
  {
    if change < 0 then -change else change
  }

  function Contribution(u: StockUpdate, id: Id): int {
    if u.itemId == id then u.qtyChange else 0
  }

  /** Appending a record moves the item's net by that record's change alone. */
  lemma NetAppend(updates: seq<StockUpdate>, u: StockUpdate, id: Id)
    ensures Net(updates + [u], id) == Net(updates, id) + Contribution(u, id)
  {
    assert (updates + [u])[..|updates|] == updates;
  }

  /** Between two stores, the item's stock moved by exactly what the records
      appended in between account for. */
  predicate LedgerBalanced(before: Store, after: Store, id: Id)
    requires id in before.items && id in after.items
  {
    after.items[id].qtyInStock - before.items[id].qtyInStock
      == Net(after.updates, id) - Net(before.updates, id)
  }

  /** Balances compose: two accounted-for stretches make one. */
  lemma LedgerBalancedTrans(a: Store, b: Store, c: Store, id: Id)
    requires id in a.items && id in b.items && id in c.items
    requires LedgerBalanced(a, b, id) && LedgerBalanced(b, c, id)
    ensures LedgerBalanced(a, c, id)
  {
  }
}
