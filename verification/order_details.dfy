/** The order details dialog (src/components/orders/OrderDetailsModal.tsx):
    which fields and actions it shows for each status, and the receive action
    it guards. The guard lives here, not in the hook, and it reads the order
    as the list row it was opened from (Orders.tsx:25-26). The click closes
    the dialog before the hook runs, so any later look at the order is a
    dialog reopened from the list. The list is refetched only after all three
    steps of a receipt succeed, so after a step throws the reopened dialog
    still offers the receive from the stale pending row: for an order the
    store holds as received when the record insert failed, and as pending,
    with its stock already raised, when the status update failed. */
module OrderDetails {
  import opened Wrappers
  import opened Model
  import Orders

  /** "Mark Received" is rendered only for a pending order. */
  predicate OffersMarkReceived(o: Order) {
    o.status == Pending
  }

  /** "Date Received" is rendered only for a received order. */
  predicate ShowsDateReceived(o: Order) {
    o.status == Received
  }

  /** The "Date Received" value: the empty string when no date is set. */
  function ReceivedDateCell(o: Order): (c: Cell)
    ensures c == Literal("") <==> o.receivedAt.None?
    ensures o.receivedAt.Some? ==> c == Day(o.receivedAt.value)
  {
    match o.receivedAt
    case None => Literal("")
    case Some(d) => Day(d)
  }

  /** The status changes the dialog can bring about: none, or pending to received. */
  predicate AllowedTransition(before: OrderStatus, after: OrderStatus) {
    before == after || (before == Pending && after == Received)
  }

  /** Clicking "Mark Received" for the order the dialog shows. Without the
      button, nothing is called; with it, the hook runs for that order's id. */
  function ClickMarkReceived(st: Store, shown: Order, rep: Orders.Replies, now: int): (r: (Store, Option<Orders.Outcome>))
    ensures !OffersMarkReceived(shown) ==> r == (st, None)
    ensures OffersMarkReceived(shown) ==> r.1.Some? && (r.0, r.1.value) == Orders.MarkReceived(st, shown.id, rep, now)
  {
    if OffersMarkReceived(shown) then
      var (st', out) := Orders.MarkReceived(st, shown.id, rep, now);
      (st', Some(out))
    else
      (st, None)
  }

  /** A cancelled or received order is offered no receive action. */
  lemma OnlyPendingIsReceivable(o: Order)
    ensures OffersMarkReceived(o) <==> o.status != Cancelled && o.status != Received
  {
  }

  /** Through the dialog, showing the stored order, every order's status moves
      at most from pending to received; a received or cancelled order stays as
      it is. */
  lemma ClickRespectsStatusMachine(st: Store, shown: Order, rep: Orders.Replies, now: int)
    requires shown.id in st.orders && st.orders[shown.id] == shown
    ensures
      var st' := ClickMarkReceived(st, shown, rep, now).0;
      && st'.orders.Keys == st.orders.Keys
      && forall k :: k in st.orders ==> AllowedTransition(st.orders[k].status, st'.orders[k].status)
  {
  }

  /** After a completed receive the list is refetched, and a dialog reopened
      from the refetched row shows the received date, the day the receive
      ran, in place of the action. */
  lemma CompletedClickShowsDate(st: Store, shown: Order, rep: Orders.Replies, now: int)
    requires shown.id in st.orders && st.orders[shown.id] == shown
    requires ClickMarkReceived(st, shown, rep, now).1 == Some(Orders.Done)
    ensures shown.id in ClickMarkReceived(st, shown, rep, now).0.orders
    ensures var o := ClickMarkReceived(st, shown, rep, now).0.orders[shown.id];
      && ShowsDateReceived(o) && !OffersMarkReceived(o)
      && ReceivedDateCell(o) == Day(now)
  {
  }

  /** After a completed receive, a dialog reopened from the refetched row
      offers no second receive, so two clicks add the ordered quantity once. */
  lemma {:induction false} SecondClickDoesNothing(st: Store, shown: Order, rep: Orders.Replies, rep2: Orders.Replies,
                                                  now: int, now2: int)
    requires shown.id in st.orders && st.orders[shown.id] == shown
    requires ClickMarkReceived(st, shown, rep, now).1 == Some(Orders.Done)
    ensures
      var st1 := ClickMarkReceived(st, shown, rep, now).0;
      && shown.id in st1.orders
      && ClickMarkReceived(st1, st1.orders[shown.id], rep2, now2) == (st1, None)
  {
    var st1 := ClickMarkReceived(st, shown, rep, now).0;
    assert st1.orders[shown.id].status == Received;
  }

  /** After a step past the increment throws, the list is not refetched and
      the dialog reopens from the same pending row, whether the store holds
      the order as pending (the status update failed) or as received (the
      record insert failed). A second click then runs the hook again: the
      stock grows by twice the ordered quantity, while the audit trail
      records one receipt at most. */
  lemma {:induction false} StaleDialogReceivesTwice(st: Store, shown: Order, rep: Orders.Replies, now: int, now2: int)
    requires shown.id in st.orders && st.orders[shown.id] == shown && OffersMarkReceived(shown)
    requires shown.itemId in st.items && shown.qtyOrdered != 0
    requires rep.lookupOk && rep.incrementOk && !(rep.statusOk && rep.insertOk)
    ensures
      var (st1, out1) := ClickMarkReceived(st, shown, rep, now);
      var (st2, out2) := ClickMarkReceived(st1, shown, Orders.AllOk, now2);
      && out1.Some? && out1.value.Threw?
      && out2 == Some(Orders.Done)
      && st2.items[shown.itemId].qtyInStock == st.items[shown.itemId].qtyInStock + 2 * shown.qtyOrdered
      && st2.orders[shown.id].status == Received
      && !LedgerBalanced(st, st2, shown.itemId)
  {
    var (st1, out1) := ClickMarkReceived(st, shown, rep, now);
    assert st1.updates == st.updates;
    assert st1.orders[shown.id].itemId == shown.itemId && st1.orders[shown.id].qtyOrdered == shown.qtyOrdered;
    var (st2, out2) := ClickMarkReceived(st1, shown, Orders.AllOk, now2);
    NetAppend(st1.updates, Last(st2.updates), shown.itemId);
  }
}
