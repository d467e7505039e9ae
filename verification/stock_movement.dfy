/** The withdrawal sequence shared by the discard and usage screens: an amount
    guard against the quantity the screen shows, an absolute write of the new
    quantity, then one audit record. Each failing step stops the sequence, so a
    write without its audit record is an observable outcome. */
module StockMovement {
  import opened Wrappers
  import opened Model

  /** Backend replies to the two writes and to the refetch of the list that
      follows them: error or no error. */
  datatype Replies = Replies(updateOk: bool, insertOk: bool, refetchOk: bool)

  /** How far a withdrawal got. */
  datatype Progress = Rejected | UpdateFailed | InsertFailed | Completed

  /** The guard: at least one unit and no more than the shown quantity. */
  predicate AmountAccepted(shown: Item, amount: int) {
    0 < amount <= shown.qtyInStock
  }

  /** The row button is disabled exactly for items with zero stock. */
  predicate Selectable(item: Item) {
    item.qtyInStock != 0
  }

  /** Picking a row (`setDiscardingItem(item)`, `setSelectedItem(item)`): only
      a listed row whose button is enabled can be picked, and the screen's
      dialog then holds that row as shown. */
  function Pick(shown: seq<Item>, item: Item): (r: Option<Item>)
    ensures r.Some? <==> item in shown && Selectable(item)
    ensures r.Some? ==> r.value == item
  {
    if item in shown && Selectable(item) then Some(item) else None
  }

  /** For a non-negative quantity, the rows that can be picked are exactly the
      rows for which some amount passes the guard. */
  lemma SelectableIffSomeAmountAccepted(item: Item)
    requires item.qtyInStock >= 0
    ensures Selectable(item) <==> exists a :: AmountAccepted(item, a)
  {
    if Selectable(item) {
      assert AmountAccepted(item, 1);
    }
  }

  /** The shared sequence. `shown` is the row as the screen last fetched it: the
      new quantity is computed from it, not from the store. */
  function Withdraw(st: Store, shown: Item, amount: int, t: UpdateType, date: Option<int>,
                    remarks: string, rep: Replies, now: int): (r: (Store, Progress))
    ensures r.1 == Rejected <==> !AmountAccepted(shown, amount)
    ensures r.1 == UpdateFailed <==> AmountAccepted(shown, amount) && !rep.updateOk
    ensures r.1 == Completed <==> AmountAccepted(shown, amount) && rep.updateOk && rep.insertOk
    ensures r.1 == Rejected || r.1 == UpdateFailed ==> r.0 == st
    ensures WellKeyed(st) ==> WellKeyed(r.0)
    // nothing but the withdrawn item and the audit table changes
    ensures r.0.orders == st.orders && r.0.items.Keys == st.items.Keys
    ensures forall k :: k in st.items && k != shown.id ==> r.0.items[k] == st.items[k]
    // once the write went through, the item holds the shown quantity minus the amount
    ensures (r.1 == InsertFailed || r.1 == Completed) && shown.id in st.items ==>
              r.0.items[shown.id] == st.items[shown.id].(qtyInStock := shown.qtyInStock - amount)
              && r.0.items[shown.id].qtyInStock >= 0
    // exactly one record is appended, and only on completion
    ensures r.1 != Completed ==> r.0.updates == st.updates
    ensures r.1 == Completed ==>
              r.0.updates == st.updates + [StockUpdate(|st.updates|, shown.id, -amount, t, ColumnDate(date, now), remarks, now)]
  {
    if !AmountAccepted(shown, amount) then
      (st, Rejected)
    else if !rep.updateOk then
      (st, UpdateFailed)
    else
      var written := SetQty(st, shown.id, shown.qtyInStock - amount);
      if !rep.insertOk then
        (written, InsertFailed)
      else
        (AppendUpdate(written, shown.id, -amount, t, date, remarks, now), Completed)
  }

  /** Whatever the shown row says, a withdrawal never leaves a negative stock. */
  lemma WithdrawKeepsStockNonNegative(st: Store, shown: Item, amount: int, t: UpdateType,
                                      date: Option<int>, remarks: string, rep: Replies, now: int)
    requires StockNonNegative(st)
    ensures StockNonNegative(Withdraw(st, shown, amount, t, date, remarks, rep, now).0)
  {
  }

  /** When the shown row is the stored row, a completed withdrawal is fully
      accounted for by its audit record. */
  lemma CompletedWithdrawBalances(st: Store, shown: Item, amount: int, t: UpdateType,
                                  date: Option<int>, remarks: string, rep: Replies, now: int)
    requires shown.id in st.items && st.items[shown.id] == shown
    requires Withdraw(st, shown, amount, t, date, remarks, rep, now).1 == Completed
    ensures LedgerBalanced(st, Withdraw(st, shown, amount, t, date, remarks, rep, now).0, shown.id)
  {
    var r := Withdraw(st, shown, amount, t, date, remarks, rep, now).0;
    NetAppend(st.updates, Last(r.updates), shown.id);
  }

  /** When the quantity write succeeds and the audit insert fails, the stock has
      moved with no record to account for it. */
  lemma InsertFailureUnbalances(st: Store, shown: Item, amount: int, t: UpdateType,
                                date: Option<int>, remarks: string, rep: Replies, now: int)
    requires shown.id in st.items && st.items[shown.id] == shown
    requires Withdraw(st, shown, amount, t, date, remarks, rep, now).1 == InsertFailed
    ensures !LedgerBalanced(st, Withdraw(st, shown, amount, t, date, remarks, rep, now).0, shown.id)
  {
  }

  /** The list a screen shows after `refetchItems()`: every listed row is replaced
      by the stored row with the same id, rows whose id is gone are dropped. The
      flows here change only quantities, which neither the filter nor the name
      ordering of the query reads, so the list keeps its membership and order. */
  function Refresh(shown: seq<Item>, st: Store): (r: seq<Item>)
    requires WellKeyed(st)
    ensures |r| <= |shown|
    ensures Fresh(r, st)
    ensures forall x :: x in shown && x.id in st.items ==> st.items[x.id] in r
    decreases |shown|
  {
    if shown == [] then []
    else if shown[0].id in st.items then [st.items[shown[0].id]] + Refresh(shown[1..], st)
    else Refresh(shown[1..], st)
  }

  /** Refetching a list that already shows the stored rows returns it
      unchanged: the refetch only ever brings the list up to date. */
  lemma {:induction false} RefreshKeepsFreshList(shown: seq<Item>, st: Store)
    requires WellKeyed(st) && Fresh(shown, st)
    ensures Refresh(shown, st) == shown
    decreases |shown|
  {
    if shown != [] {
      assert shown[0] in shown;
      assert Fresh(shown[1..], st) by {
        forall x | x in shown[1..] ensures x in shown { }
      }
      RefreshKeepsFreshList(shown[1..], st);
      assert shown == [shown[0]] + shown[1..];
    }
  }

  /** `refetchItems()` with its reply: a failed request returns no data and the
      hook keeps the rows it had, so the screen goes on showing `shown`. */
  function Refetch(shown: seq<Item>, st: Store, ok: bool): (r: seq<Item>)
    requires WellKeyed(st)
    ensures ok ==> Fresh(r, st) && |r| <= |shown|
    ensures !ok ==> r == shown
  {
    if ok then Refresh(shown, st) else shown
  }

  /** A sample row for the worked examples of both screens. */
  const Gauze := Item("g1", "R-100", "Gauze", "c1", "b1", "l1", 10, "box",
                      None, None, None, None, None)

  /** Every listed row is the row the store holds. */
  predicate Fresh(shown: seq<Item>, st: Store) {
    forall x :: x in shown ==> x.id in st.items && st.items[x.id] == x
  }
}
