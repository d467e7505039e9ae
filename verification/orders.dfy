/** Orders (src/hooks/useOrders.ts): the fetched list, newest first, and
    `markOrderAsReceived`, which looks the order up, increments the item's
    stock through the `increment_stock` procedure, marks the order received
    and appends a 'received' audit record. Each failing step throws and stops
    the sequence. The hook does not look at the order's status. */
module Orders {
  import opened Wrappers
  import opened Model
  import Sorting
  import Text

  /** The step of `markOrderAsReceived` whose error was rethrown. */
  datatype Step = IncrementStock | UpdateStatus | InsertRecord

  /** How a call ends: normally, by the silent return when the lookup gives
      no order, or by rethrowing a step's error. */
  datatype Outcome = Done | NotFound | Threw(step: Step)

  /** Backend replies: whether the `.single()` lookup returned the row (it
      returns no row for an unknown id, and none when the query fails), and
      whether each later step went through. */
  datatype Replies = Replies(lookupOk: bool, incrementOk: bool, statusOk: bool, insertOk: bool)

  const AllOk := Replies(true, true, true, true)

  function PlacedAt(o: Order): int {
    o.placedAt
  }

  /** `fetchOrders`: the rows ordered by `order_placed_date`, newest first.
      `rows` is None when the query returns no data, and the hook then keeps
      the list it showed. */
  function FetchOrders(shown: seq<Order>, rows: Option<seq<Order>>): (r: seq<Order>)
    ensures rows.None? ==> r == shown
    ensures rows.Some? ==> multiset(r) == multiset(rows.value)
    ensures rows.Some? ==> Sorting.SortedBy(r, Sorting.Descending(PlacedAt))
    ensures rows.Some? ==> forall i :: 0 < i < |r| ==> r[i - 1].placedAt >= r[i].placedAt
  {
    if rows.None? then shown
    else
      Sorting.DescendingIsTotalOrder(PlacedAt);
      Sorting.SortBySorted(rows.value, Sorting.Descending(PlacedAt));
      var r := Sorting.SortBy(rows.value, Sorting.Descending(PlacedAt));
      forall i | 0 < i < |r|
        ensures r[i - 1].placedAt >= r[i].placedAt
      {
        assert Sorting.Descending(PlacedAt)(r[i - 1], r[i]);
        assert PlacedAt(r[i - 1]) >= PlacedAt(r[i]);
      }
      r
  }

  /** The `increment_stock` procedure, taken to add `amount` to the row with
      that id; like any update, it changes nothing when no row has the id. */
  function RunIncrementStock(st: Store, itemId: Id, amount: int): (r: Store)
    ensures r.orders == st.orders && r.updates == st.updates && r.items.Keys == st.items.Keys
    // the row's stock grows by the amount and its other columns stay
    ensures itemId in st.items ==>
              r.items[itemId] == st.items[itemId].(qtyInStock := st.items[itemId].qtyInStock + amount)
    // every other row stays, and an unknown id changes nothing
    ensures forall k :: k in st.items && k != itemId ==> r.items[k] == st.items[k]
    ensures itemId !in st.items ==> r == st
    ensures WellKeyed(st) ==> WellKeyed(r)
  {
    if itemId in st.items then SetQty(st, itemId, st.items[itemId].qtyInStock + amount) else st
  }

  function ReceivedRemarks(orderId: Id): string {
    "Order " + orderId + " received"
  }

  /** The lookup gave the order: the id is known and the query went through. */
  predicate Found(st: Store, orderId: Id, rep: Replies) {
    orderId in st.orders && rep.lookupOk
  }

  function MarkReceived(st: Store, orderId: Id, rep: Replies, now: int): (r: (Store, Outcome))
    // no order from the lookup: return without a write and without an error
    ensures !Found(st, orderId, rep) ==> r == (st, NotFound)
    ensures r.1 == NotFound <==> !Found(st, orderId, rep)
    // the steps run in order and each error stops the rest
    ensures Found(st, orderId, rep) && !rep.incrementOk ==> r == (st, Threw(IncrementStock))
    ensures Found(st, orderId, rep) && rep.incrementOk && !rep.statusOk ==>
              r.1 == Threw(UpdateStatus) && r.0.orders == st.orders && r.0.updates == st.updates
    ensures Found(st, orderId, rep) && rep.incrementOk && rep.statusOk && !rep.insertOk ==>
              r.1 == Threw(InsertRecord) && r.0.updates == st.updates
    ensures r.1 == Done <==> Found(st, orderId, rep) && rep.incrementOk && rep.statusOk && rep.insertOk
    // stock: the ordered quantity is added once the increment went through
    ensures r.0.items.Keys == st.items.Keys
    ensures !(Found(st, orderId, rep) && rep.incrementOk) ==> r.0.items == st.items
    ensures Found(st, orderId, rep) && rep.incrementOk ==>
              var o := st.orders[orderId];
              && (o.itemId in st.items ==>
                    r.0.items[o.itemId] == st.items[o.itemId].(qtyInStock := st.items[o.itemId].qtyInStock + o.qtyOrdered))
              && (forall k :: k in st.items && k != o.itemId ==> r.0.items[k] == st.items[k])
    // status: received, stamped, nothing else about the order changes
    ensures r.0.orders.Keys == st.orders.Keys
    ensures forall k :: k in st.orders && k != orderId ==> r.0.orders[k] == st.orders[k]
    ensures Found(st, orderId, rep) && rep.incrementOk && rep.statusOk ==>
              r.0.orders[orderId] == st.orders[orderId].(status := Received, receivedAt := Some(now))
    // audit: one 'received' record of +qty_ordered, dated by the column default
    ensures r.1 == Done ==>
              var o := st.orders[orderId];
              r.0.updates == st.updates + [StockUpdate(|st.updates|, o.itemId, o.qtyOrdered, Receipt,
                                                        now, ReceivedRemarks(o.id), now)]
    ensures WellKeyed(st) ==> WellKeyed(r.0)
  {
    if !Found(st, orderId, rep) then
      (st, NotFound)
    else
      var o := st.orders[orderId];
      if !rep.incrementOk then
        (st, Threw(IncrementStock))
      else
        var st1 := RunIncrementStock(st, o.itemId, o.qtyOrdered);
        if !rep.statusOk then
          (st1, Threw(UpdateStatus))
        else
          var st2 := st1.(orders := st1.orders[orderId := o.(status := Received, receivedAt := Some(now))]);
          if !rep.insertOk then
            (st2, Threw(InsertRecord))
          else
            (AppendUpdate(st2, o.itemId, o.qtyOrdered, Receipt, None, ReceivedRemarks(o.id), now), Done)
  }

  /** The remarks name the order: "Order <id> received". */
  lemma ReceivedRemarksNamesOrder(orderId: Id)
    ensures Text.Includes(ReceivedRemarks(orderId), orderId)
    ensures ReceivedRemarks(orderId)[..6] == "Order "
  {
    assert Text.OccursAt(orderId, ReceivedRemarks(orderId), 6);
  }

  /** A completed receipt is accounted for by its record. */
  lemma ReceiveBalances(st: Store, orderId: Id, rep: Replies, now: int)
    requires orderId in st.orders && st.orders[orderId].itemId in st.items
    requires MarkReceived(st, orderId, rep, now).1 == Done
    ensures LedgerBalanced(st, MarkReceived(st, orderId, rep, now).0, st.orders[orderId].itemId)
  {
    var r := MarkReceived(st, orderId, rep, now).0;
    NetAppend(st.updates, Last(r.updates), st.orders[orderId].itemId);
  }

  /** Receiving keeps stock non-negative as long as orders are for a
      non-negative quantity. */
  lemma ReceiveKeepsStockNonNegative(st: Store, orderId: Id, rep: Replies, now: int)
    requires StockNonNegative(st)
    requires orderId in st.orders ==> st.orders[orderId].qtyOrdered >= 0
    ensures StockNonNegative(MarkReceived(st, orderId, rep, now).0)
  {
  }

  /** The hook does not check the status: calling it twice for the same order
      adds the quantity twice and writes two records. */
  lemma {:induction false} ReceiveTwiceAddsTwice(st: Store, orderId: Id, now1: int, now2: int)
    requires orderId in st.orders && st.orders[orderId].itemId in st.items
    ensures
      var ok := AllOk;
      var once := MarkReceived(st, orderId, ok, now1);
      var twice := MarkReceived(once.0, orderId, ok, now2);
      var o := st.orders[orderId];
      && twice.1 == Done
      && twice.0.items[o.itemId].qtyInStock == st.items[o.itemId].qtyInStock + 2 * o.qtyOrdered
      && |twice.0.updates| == |st.updates| + 2
  {
    var ok := AllOk;
    var once := MarkReceived(st, orderId, ok, now1);
    assert once.0.orders[orderId].itemId == st.orders[orderId].itemId;
    assert once.0.orders[orderId].qtyOrdered == st.orders[orderId].qtyOrdered;
  }

  /** Nor does it refuse a cancelled order: the hook receives it all the same. */
  lemma HookReceivesCancelledOrder(st: Store, orderId: Id, now: int)
    requires orderId in st.orders && st.orders[orderId].status == Cancelled
    ensures MarkReceived(st, orderId, AllOk, now).0.orders[orderId].status == Received
  {
  }
}
