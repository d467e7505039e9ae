/** The stock-changing operations together, as steps of one machine over the
    store: discard and usage withdrawals, receiving an order through the
    order dialog, creating an order, and a stock count. Any run of steps keeps
    the store's invariants: rows under their own keys, no negative stock,
    orders for at least one unit, audit records numbered in order, and no
    'adjusted' record, which none of these operations writes. */
module StoreMachine {
  import opened Wrappers
  import opened Model
  import StockMovement
  import StockUsage
  import Orders
  import OrderDetails
  import CreateOrder
  import StockCount
  import Reports
  import Grouping

  datatype Action =
    | Discard(shown: Item, amount: int, reason: string, rep: StockMovement.Replies)
    | Usage(shown: Item, amount: int, period: StockUsage.Period, date: int, rep: StockMovement.Replies)
    | Receive(order: Order, steps: Orders.Replies)
    | Create(orderForm: CreateOrder.Form, user: Option<Id>, ids: CreateOrder.Replies)
    | Count(item: Item, count: StockCount.Form, ok: bool)

  /** What the environment guarantees of an action: the order form's quantity
      passed its `min="1"` check, and keys the database generates are new. */
  predicate ValidAction(st: Store, a: Action) {
    a.Create? ==>
      && a.orderForm.quantity >= 1
      && (a.ids.newItemId.Some? ==> a.ids.newItemId.value !in st.items)
      && (a.ids.newOrderId.Some? ==> a.ids.newOrderId.value !in st.orders)
  }

  predicate Invariant(st: Store) {
    && WellKeyed(st)
    && StockNonNegative(st)
    && (forall k :: k in st.orders ==> st.orders[k].qtyOrdered >= 1)
    && (forall i :: 0 <= i < |st.updates| ==> st.updates[i].id == i)
    && (forall i :: 0 <= i < |st.updates| ==> st.updates[i].updateType != Adjustment)
  }

  function Step(st: Store, a: Action, now: int): (r: Store)
    requires WellKeyed(st)
    ensures WellKeyed(r)
    // only a created order adds rows; no step removes one
    ensures st.items.Keys <= r.items.Keys && st.orders.Keys <= r.orders.Keys
    ensures !a.Create? ==> r.items.Keys == st.items.Keys && r.orders.Keys == st.orders.Keys
    // the audit trail only grows, by at most one record
    ensures |st.updates| <= |r.updates| <= |st.updates| + 1 && r.updates[..|st.updates|] == st.updates
  {
    match a
    case Discard(shown, amount, reason, rep) =>
      StockMovement.Withdraw(st, shown, amount, Disposal, None, reason, rep, now).0
    case Usage(shown, amount, period, date, rep) =>
      StockMovement.Withdraw(st, shown, amount, Shipment, Some(date), StockUsage.UsageRemarks(period), rep, now).0
    case Receive(shown, rep) =>
      OrderDetails.ClickMarkReceived(st, shown, rep, now).0
    case Create(form, user, ids) =>
      CreateOrder.HandleSubmit(st, form, user, ids, now).store
    case Count(item, form, ok) =>
      // the refetch that follows the update reads the store and leaves it as it is
      StockCount.HandleUpdateItem(st, StockCount.Screen([item], Some(item)), form, ok, true).0
  }

  /** Appended records are numbered and typed as the invariant demands. */
  lemma AppendedRecordIsNumbered(st: Store, a: Action, now: int)
    requires Invariant(st)
    ensures var r := Step(st, a, now);
      forall i :: |st.updates| <= i < |r.updates| ==> r.updates[i].id == i && r.updates[i].updateType != Adjustment
  {
    var r := Step(st, a, now);
    if |r.updates| > |st.updates| {
      match a
      case Discard(shown, amount, reason, rep) =>
      case Usage(shown, amount, period, date, rep) =>
      case Receive(shown, rep) =>
        assert OrderDetails.OffersMarkReceived(shown);
        var out := Orders.MarkReceived(st, shown.id, rep, now);
        assert out.1 == Orders.Done;
      case Create(form, user, ids) =>
      case Count(item, form, ok) =>
    }
  }

  lemma StepPreservesInvariant(st: Store, a: Action, now: int)
    requires Invariant(st) && ValidAction(st, a)
    ensures Invariant(Step(st, a, now))
  {
    var r := Step(st, a, now);
    AppendedRecordIsNumbered(st, a, now);
    forall i | 0 <= i < |st.updates| ensures r.updates[i] == st.updates[i] {
      assert r.updates[..|st.updates|][i] == r.updates[i];
    }
    match a
    case Discard(shown, amount, reason, rep) =>
      StockMovement.WithdrawKeepsStockNonNegative(st, shown, amount, Disposal, None, reason, rep, now);
    case Usage(shown, amount, period, date, rep) =>
      StockMovement.WithdrawKeepsStockNonNegative(st, shown, amount, Shipment, Some(date),
                                                  StockUsage.UsageRemarks(period), rep, now);
    case Receive(shown, rep) =>
      Orders.ReceiveKeepsStockNonNegative(st, shown.id, rep, now);
    case Create(form, user, ids) =>
      CreateOrder.SubmitKeepsInvariants(st, form, user, ids, now);
    case Count(item, form, ok) =>
      StockCount.CountKeepsStockNonNegative(st, StockCount.Screen([item], Some(item)), form, ok, true);
  }

  /** Steps one after another, with the clock reading `now + i` at step i. */
  function Run(st: Store, actions: seq<Action>, now: int): (r: Store)
    requires WellKeyed(st)
    ensures WellKeyed(r)
    ensures st.items.Keys <= r.items.Keys && st.orders.Keys <= r.orders.Keys
    decreases |actions|
  {
    if actions == [] then st
    else Run(Step(st, actions[0], now), actions[1..], now + 1)
  }

  /** Each action valid in the store it meets. */
  predicate ValidRun(st: Store, actions: seq<Action>, now: int)
    requires WellKeyed(st)
    decreases |actions|
  {
    actions == [] || (ValidAction(st, actions[0]) && ValidRun(Step(st, actions[0], now), actions[1..], now + 1))
  }

  /** The invariant holds after any run of valid actions. */
  lemma {:induction false} RunPreservesInvariant(st: Store, actions: seq<Action>, now: int)
    requires Invariant(st) && ValidRun(st, actions, now)
    ensures Invariant(Run(st, actions, now))
    decreases |actions|
  {
    if actions != [] {
      StepPreservesInvariant(st, actions[0], now);
      RunPreservesInvariant(Step(st, actions[0], now), actions[1..], now + 1);
    }
  }

  /** The empty store satisfies the invariant, so every store these
      operations build from it does. */
  lemma EmptyStoreSatisfiesInvariant()
    ensures Invariant(Store(map[], map[], []))
  {
  }

  /** A completed withdrawal picked from the stored row is accounted for by
      its record: the item's stock and its audit trail move together. */
  lemma CompletedStepBalances(st: Store, a: Action, now: int)
    requires Invariant(st)
    requires a.Discard? || a.Usage?
    requires a.shown.id in st.items && st.items[a.shown.id] == a.shown
    requires StockMovement.AmountAccepted(a.shown, a.amount) && a.rep.updateOk && a.rep.insertOk
    ensures LedgerBalanced(st, Step(st, a, now), a.shown.id)
  {
    match a
    case Discard(shown, amount, reason, rep) =>
      StockMovement.CompletedWithdrawBalances(st, shown, amount, Disposal, None, reason, rep, now);
    case Usage(shown, amount, period, date, rep) =>
      StockMovement.CompletedWithdrawBalances(st, shown, amount, Shipment, Some(date),
                                              StockUsage.UsageRemarks(period), rep, now);
  }

  /** Since no step writes an 'adjusted' record, the stock-count report, which
      selects only those, has no line for any store these operations reach. */
  lemma CountReportIsEmpty(st: Store, look: Reports.Lookups, w: Reports.Window)
    requires Invariant(st)
    requires Reports.UpdateSheets(Reports.StockCountReport, Some(st.updates), st.items, look, w).Some?
    ensures Grouping.TotalLines(Reports.UpdateSheets(Reports.StockCountReport, Some(st.updates), st.items, look, w).value) == 0
  {
    var k := Reports.StockCountReport;
    var joined := Reports.JoinUpdates(st.updates, st.items);
    forall x | x in joined ensures !Reports.Selected(k, w, x) {
      var i :| 0 <= i < |st.updates| && st.updates[i] == x.update;
    }
    Reports.WhereNone(joined, Reports.Selection(k, w));
  }

  /** A discard record is filed under the day it was written (the
      `update_date` default), so the weekly discard report run that day lists
      it, with the discarded amount, on its item's category sheet. */
  lemma CompletedDiscardIsReported(st: Store, shown: Item, amount: int, reason: string,
                                    rep: StockMovement.Replies, now: int, look: Reports.Lookups, weekAgo: int)
    requires WellKeyed(st) && shown.id in st.items
    requires StockMovement.Withdraw(st, shown, amount, Disposal, None, reason, rep, now).1 == StockMovement.Completed
    requires weekAgo <= now
    requires var st' := StockMovement.Withdraw(st, shown, amount, Disposal, None, reason, rep, now).0;
      Reports.UpdateSheets(Reports.DiscardReport, Some(st'.updates), st'.items, look, Reports.Since(weekAgo)).Some?
    ensures var st' := StockMovement.Withdraw(st, shown, amount, Disposal, None, reason, rep, now).0;
      var item := st'.items[shown.id];
      && item.categoryId in look.categories
      && exists s :: s in Reports.UpdateSheets(Reports.DiscardReport, Some(st'.updates), st'.items, look, Reports.Since(weekAgo)).value
                     && s.name == look.categories[item.categoryId]
                     && Reports.DiscardLine(item.refNum, item.name, amount, now) in s.lines
  {
    var st' := StockMovement.Withdraw(st, shown, amount, Disposal, None, reason, rep, now).0;
    var u := Last(st'.updates);
    assert u == StockUpdate(|st.updates|, shown.id, -amount, Disposal, now, reason, now);
    assert u in st'.updates;
    Reports.KeptRecordIsListed(Reports.DiscardReport, st'.updates, st'.items, look, Reports.Since(weekAgo), u);
  }
}
