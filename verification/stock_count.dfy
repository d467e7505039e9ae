/** The stock-count screen (src/pages/StockCount.tsx): pick a listed row, edit
    its count and six other fields in a dialog, and `handleUpdateItem` writes
    them through the inventory hook's `updateItem`. The dialog closes only when
    the write succeeded. No audit record is written. */
module StockCount {
  import opened Wrappers
  import opened Model
  import opened InventoryQuery
  import StockMovement

  /** The expiry date input: a day, or left empty. */
  datatype DateField = Filled(day: int) | Blank

  /** The dialog's fields as submitted. The count is required and at least 0
      (the browser enforces `required min="0"`); an empty number field is
      None. */
  datatype Form = Form(
    qty: nat,
    categoryId: Id,
    locationId: Id,
    expiryDate: DateField,
    packSize: Option<int>,
    reorderLevel: Option<int>,
    remarks: string)

  /** The list as last fetched, and the row whose dialog is open. */
  datatype Screen = Screen(shown: seq<Item>, editing: Option<Item>)

  /** The update object as the database takes it. `parseInt` of an empty
      number field is NaN, which reaches the database as null, and the remarks
      are sent as typed. An empty date input is sent as the empty string, not
      null, and a date column does not accept that: None, an update the
      database refuses. */
  function FormPatch(f: Form): (p: Option<CountPatch>)
    ensures p.None? <==> f.expiryDate.Blank?
    ensures p.Some? ==> p.value.qtyInStock == f.qty >= 0 && p.value.expiryDate == Some(f.expiryDate.day)
    ensures p.Some? ==> p.value.categoryId == f.categoryId && p.value.locationId == f.locationId
    ensures p.Some? ==> p.value.packSize == f.packSize && p.value.reorderLevel == f.reorderLevel
    ensures p.Some? ==> p.value.remarks == Some(f.remarks)
  {
    match f.expiryDate
    case Blank => None
    case Filled(d) => Some(CountPatch(f.qty, f.categoryId, f.locationId, Some(d), f.packSize, f.reorderLevel, Some(f.remarks)))
  }

  /** The date input starts from the item's expiry date, and empty for an
      item without one. */
  function OpenedDate(item: Item): (d: DateField)
    ensures d.Blank? <==> item.expiryDate.None?
    ensures d.Filled? ==> item.expiryDate == Some(d.day)
  {
    if item.expiryDate.Some? then Filled(item.expiryDate.value) else Blank
  }

  /** The dialog opens for any listed row, whatever its stock. */
  function Open(s: Screen, item: Item): (r: Option<Screen>)
    ensures r.Some? <==> item in s.shown
    ensures r.Some? ==> r.value == Screen(s.shown, Some(item))
  {
    if item in s.shown then Some(Screen(s.shown, Some(item))) else None
  }

  /** `handleUpdateItem`. `ok` is the reply to the update and `refetchOk` the
      reply to the `fetchItems()` that `updateItem` awaits after it; a failed
      fetch returns no data and the list stays as it was. */
  function HandleUpdateItem(st: Store, s: Screen, f: Form, ok: bool, refetchOk: bool): (r: (Store, Screen))
    requires WellKeyed(st)
    ensures r.0.items.Keys == st.items.Keys && r.0.orders == st.orders && r.0.updates == st.updates
    // with no open dialog nothing happens
    ensures s.editing.None? ==> r == (st, s)
    // an error, or a refused empty date, is logged; the store and the open dialog stay as they were
    ensures !ok || f.expiryDate.Blank? ==> r == (st, s)
    // success closes the dialog, and a successful refetch shows the stored rows
    ensures s.editing.Some? && ok && f.expiryDate.Filled? ==> r.1.editing.None?
    ensures s.editing.Some? && ok && f.expiryDate.Filled? && refetchOk ==> StockMovement.Fresh(r.1.shown, r.0)
    // otherwise the list is the one shown before
    ensures !(s.editing.Some? && ok && f.expiryDate.Filled? && refetchOk) ==> r.1.shown == s.shown
    // the edited row takes the counted quantity and the six edited fields
    ensures s.editing.Some? && ok && f.expiryDate.Filled? && s.editing.value.id in st.items ==>
              r.0.items[s.editing.value.id] == ApplyPatch(st.items[s.editing.value.id], FormPatch(f).value)
    // every other row is untouched
    ensures forall k :: k in st.items && (s.editing.None? || k != s.editing.value.id) ==> r.0.items[k] == st.items[k]
    ensures WellKeyed(r.0)
  {
    match s.editing
    case None => (st, s)
    case Some(item) =>
      match FormPatch(f)
      case None => (st, s)
      case Some(p) =>
        var (st', outcome) := UpdateItem(st, item.id, p, ok);
        if outcome == Refetched then (st', Screen(StockMovement.Refetch(s.shown, st', refetchOk), None))
        else (st', s)
  }

  /** A count cannot make stock negative. */
  lemma CountKeepsStockNonNegative(st: Store, s: Screen, f: Form, ok: bool, refetchOk: bool)
    requires WellKeyed(st) && StockNonNegative(st)
    ensures StockNonNegative(HandleUpdateItem(st, s, f, ok, refetchOk).0)
  {
  }

  /** A count sets the stock to the counted figure whatever it was before,
      so counting twice leaves what the second count says. */
  lemma {:induction false} LaterCountWins(st: Store, item: Item, f1: Form, f2: Form)
    requires WellKeyed(st) && item.id in st.items
    requires f2.expiryDate.Filled?
    ensures
      var (st1, _) := HandleUpdateItem(st, Screen([item], Some(item)), f1, true, true);
      var (st2, _) := HandleUpdateItem(st1, Screen([item], Some(item)), f2, true, true);
      && st2.items[item.id].qtyInStock == f2.qty
      && st2.items[item.id] == ApplyPatch(st.items[item.id], FormPatch(f2).value)
  {
    var (st1, _) := HandleUpdateItem(st, Screen([item], Some(item)), f1, true, true);
    if f1.expiryDate.Filled? {
      assert st1.items[item.id] == ApplyPatch(st.items[item.id], FormPatch(f1).value);
    }
  }

  /** The count is not recorded: a count that changes the quantity leaves the
      audit trail out of step with the stock. */
  lemma CountBypassesLedger(st: Store, s: Screen, f: Form)
    requires WellKeyed(st) && s.editing.Some? && s.editing.value.id in st.items
    requires f.qty != st.items[s.editing.value.id].qtyInStock && f.expiryDate.Filled?
    ensures !LedgerBalanced(st, HandleUpdateItem(st, s, f, true, true).0, s.editing.value.id)
  {
  }

  /** For an item without an expiry date the dialog opens with the date
      empty, so submitting it without typing a date writes nothing: the
      dialog stays open whatever the other fields say. */
  lemma UndatedItemNeedsDate(st: Store, s: Screen, f: Form, ok: bool, refetchOk: bool)
    requires WellKeyed(st) && s.editing.Some? && s.editing.value.expiryDate.None?
    requires f.expiryDate == OpenedDate(s.editing.value)
    ensures HandleUpdateItem(st, s, f, ok, refetchOk) == (st, s)
  {
  }
}
