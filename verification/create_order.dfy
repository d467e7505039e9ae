/** The order form (src/components/orders/CreateOrderForm.tsx). For an item
    not yet in inventory it first inserts the item with no stock, then inserts
    the order for the new item's id; otherwise it orders the selected item.
    Every order starts pending. An error at either insert is logged and ends
    the submit; only a successful order insert notifies the page and closes
    the form. */
module CreateOrder {
  import opened Wrappers
  import opened Model

  /** The fields of the "new item" half of the form. */
  datatype NewItemFields = NewItemFields(name: string, refNum: string, categoryId: Id,
                                         brandId: Id, locationId: Id, unit: string)

  datatype Form = Form(isNewItem: bool, selectedItem: Id, quantity: int, fields: NewItemFields)

  /** Backend replies: the key generated for the new item and for the order;
      None where the insert returned an error. */
  datatype Replies = Replies(newItemId: Option<Id>, newOrderId: Option<Id>)

  /** The store after the submit, and whether `onOrderCreated` and `onClose` ran. */
  datatype Result = Result(store: Store, notified: bool)

  /** The item row the form inserts: its fields as typed and no stock. */
  function NewItem(id: Id, f: NewItemFields): (item: Item)
    ensures item.id == id && item.qtyInStock == 0
    ensures item.name == f.name && item.refNum == f.refNum && item.unit == f.unit
    ensures item.categoryId == f.categoryId && item.brandId == f.brandId && item.locationId == f.locationId
  {
    Item(id, f.refNum, f.name, f.categoryId, f.brandId, f.locationId, 0, f.unit, None, None, None, None, None)
  }

  /** The item the order refers to, once the first step is done. */
  function OrderedItem(f: Form, rep: Replies): Id
    requires !f.isNewItem || rep.newItemId.Some?
  {
    if f.isNewItem then rep.newItemId.value else f.selectedItem
  }

  /** The order row: placed `now` (the column default), not received, pending. */
  function NewOrder(id: Id, itemId: Id, quantity: int, user: Option<Id>, now: int): (o: Order)
    ensures o.id == id && o.itemId == itemId && o.qtyOrdered == quantity
    ensures o.status == Pending && o.receivedAt.None? && o.createdBy == user
  {
    Order(id, itemId, quantity, now, None, Pending, user)
  }

  function HandleSubmit(st: Store, f: Form, user: Option<Id>, rep: Replies, now: int): (r: Result)
    // the page hears of the order exactly when both needed inserts succeeded
    ensures r.notified <==> (!f.isNewItem || rep.newItemId.Some?) && rep.newOrderId.Some?
    // a failed item insert stops the submit: no order is inserted
    ensures f.isNewItem && rep.newItemId.None? ==> r.store == st
    // the only item ever written is the new one, with no stock
    ensures !f.isNewItem ==> r.store.items == st.items
    ensures f.isNewItem && rep.newItemId.Some? ==>
              r.store.items == st.items[rep.newItemId.value := NewItem(rep.newItemId.value, f.fields)]
    // the only order ever written is a pending order for the right item
    ensures !r.notified ==> r.store.orders == st.orders
    ensures r.notified ==>
              r.store.orders == st.orders[rep.newOrderId.value :=
                NewOrder(rep.newOrderId.value, OrderedItem(f, rep), f.quantity, user, now)]
    // the order refers to the item just created, or else to the selected one
    ensures r.notified && f.isNewItem ==> r.store.orders[rep.newOrderId.value].itemId == rep.newItemId.value
    ensures r.notified && !f.isNewItem ==> r.store.orders[rep.newOrderId.value].itemId == f.selectedItem
    ensures r.store.updates == st.updates
  {
    if f.isNewItem && rep.newItemId.None? then
      Result(st, false)
    else
      var st1 :=
        if f.isNewItem then
          var id := rep.newItemId.value;
          st.(items := st.items[id := NewItem(id, f.fields)])
        else st;
      if rep.newOrderId.None? then
        Result(st1, false)
      else
        var oid := rep.newOrderId.value;
        Result(st1.(orders := st1.orders[oid := NewOrder(oid, OrderedItem(f, rep), f.quantity, user, now)]), true)
  }

  /** With fresh keys from the database, a submit adds rows and changes none:
      every existing item and order is kept as it was. */
  lemma SubmitOnlyAdds(st: Store, f: Form, user: Option<Id>, rep: Replies, now: int)
    requires rep.newItemId.Some? ==> rep.newItemId.value !in st.items
    requires rep.newOrderId.Some? ==> rep.newOrderId.value !in st.orders
    ensures
      var r := HandleSubmit(st, f, user, rep, now);
      && (forall k :: k in st.items ==> k in r.store.items && r.store.items[k] == st.items[k])
      && (forall k :: k in st.orders ==> k in r.store.orders && r.store.orders[k] == st.orders[k])
  {
  }

  /** When the item insert succeeds and the order insert fails, the new item
      is left in the inventory with no order for it. */
  lemma OrderFailureLeavesOrphanItem(st: Store, f: Form, user: Option<Id>, rep: Replies, now: int)
    requires f.isNewItem && rep.newItemId.Some? && rep.newOrderId.None?
    ensures
      var r := HandleSubmit(st, f, user, rep, now);
      && !r.notified
      && rep.newItemId.value in r.store.items
      && r.store.items[rep.newItemId.value].qtyInStock == 0
      && r.store.orders == st.orders
  {
  }

  /** A submit keeps the store's invariants: rows under their own keys, no
      negative stock, and, for a form whose quantity field passed its `min="1"`
      check, only orders for at least one unit. */
  lemma SubmitKeepsInvariants(st: Store, f: Form, user: Option<Id>, rep: Replies, now: int)
    requires WellKeyed(st) && StockNonNegative(st)
    requires forall k :: k in st.orders ==> st.orders[k].qtyOrdered >= 1
    requires f.quantity >= 1
    ensures
      var r := HandleSubmit(st, f, user, rep, now);
      && WellKeyed(r.store) && StockNonNegative(r.store)
      && forall k :: k in r.store.orders ==> r.store.orders[k].qtyOrdered >= 1
  {
  }
}
