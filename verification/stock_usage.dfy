/** The usage screen (src/pages/StockUsage.tsx): pick a listed item with stock,
    enter an amount, a date and a period, and `handleUpdateUsage` withdraws the
    amount with a 'shipped' audit record dated by the chosen date. Unlike the
    discard screen it does not refetch the list afterwards; `HandleUsage` models
    that as written and `HandleUsageRefetching` the refetching variant that the
    rest of the model uses. */
module StockUsage {
  import opened Wrappers
  import opened Model
  import opened StockMovement
  import Text

  datatype Period = Daily | Weekly | Monthly

  function PeriodText(p: Period): string {
    match p
    case Daily => "daily"
    case Weekly => "weekly"
    case Monthly => "monthly"
  }

  /** The audit remarks: the period with its first letter capitalised,
      followed by " usage update". */
  function UsageRemarks(p: Period): (r: string)
    ensures p == Daily ==> r == "Daily usage update"
    ensures p == Weekly ==> r == "Weekly usage update"
    ensures p == Monthly ==> r == "Monthly usage update"
  {
    var t := PeriodText(p);
    assert Text.Capitalize(t) == [Text.ToUpper(t[0])] + t[1..];
    var r := Text.Capitalize(t) + " usage update";
    match p
    case Daily => assert Text.Capitalize(t) == "Daily"; r
    case Weekly => assert Text.Capitalize(t) == "Weekly"; r
    case Monthly => assert Text.Capitalize(t) == "Monthly"; r
  }

  /** The dialog: picked row, amount field (None while empty), and the period
      selector and date field, which belong to the page rather than the dialog. */
  datatype Form = Form(item: Option<Item>, amount: Option<int>, period: Period, date: int)

  datatype Screen = Screen(shown: seq<Item>, form: Form)

  predicate Submittable(f: Form) {
    f.item.Some? && f.amount.Some? && AmountAccepted(f.item.value, f.amount.value)
  }

  /** The withdrawal itself, shared by both variants. */
  function Submit(st: Store, f: Form, rep: Replies, now: int): (r: (Store, Progress))
    requires f.item.Some? && f.amount.Some?
  {
    Withdraw(st, f.item.value, f.amount.value, Shipment, Some(f.date), UsageRemarks(f.period), rep, now)
  }

  /** `handleUpdateUsage` as written: on success the picked row and the amount
      are cleared, the period and date stay, and the list is left as it was. */
  function HandleUsage(st: Store, s: Screen, rep: Replies, now: int): (r: (Store, Screen))
    ensures r.0.orders == st.orders && r.0.items.Keys == st.items.Keys
    ensures s.form.item.None? || s.form.amount.None? ==> r == (st, s)
    ensures !Submittable(s.form) ==> r == (st, s)
    ensures Submittable(s.form) && !rep.updateOk ==> r == (st, s)
    ensures !(Submittable(s.form) && rep.updateOk && rep.insertOk) ==> r.1 == s
    ensures !(Submittable(s.form) && rep.updateOk && rep.insertOk) ==> r.0.updates == st.updates
    ensures Submittable(s.form) && rep.updateOk && rep.insertOk ==>
              && r.1 == Screen(s.shown, Form(None, None, s.form.period, s.form.date))
              && r.0.updates == st.updates + [StockUpdate(|st.updates|, s.form.item.value.id,
                   -s.form.amount.value, Shipment, s.form.date, UsageRemarks(s.form.period), now)]
    ensures Submittable(s.form) && rep.updateOk && s.form.item.value.id in st.items ==>
              r.0.items[s.form.item.value.id].qtyInStock
                == s.form.item.value.qtyInStock - s.form.amount.value >= 0
    ensures forall k :: k in st.items && (s.form.item.None? || k != s.form.item.value.id) ==>
              r.0.items[k] == st.items[k]
    ensures StockNonNegative(st) ==> StockNonNegative(r.0)
  {
    if s.form.item.None? || s.form.amount.None? then
      (st, s)
    else
      var w := Submit(st, s.form, rep, now);
      if w.1 == Completed then
        (w.0, Screen(s.shown, Form(None, None, s.form.period, s.form.date)))
      else
        (w.0, s)
  }

  /** The usage handler with the list refetched after a completed withdrawal,
      as the discard screen does. It differs from HandleUsage in the list only. */
  function HandleUsageRefetching(st: Store, s: Screen, rep: Replies, now: int): (r: (Store, Screen))
    requires WellKeyed(st)
    ensures r.0 == HandleUsage(st, s, rep, now).0
    ensures r.1.form == HandleUsage(st, s, rep, now).1.form
    ensures WellKeyed(r.0)
    ensures Submittable(s.form) && rep.updateOk && rep.insertOk && rep.refetchOk ==>
              Fresh(r.1.shown, r.0)
    ensures !(Submittable(s.form) && rep.updateOk && rep.insertOk && rep.refetchOk) ==>
              r.1.shown == s.shown
  {
    var (st', s') := HandleUsage(st, s, rep, now);
    if Submittable(s.form) && rep.updateOk && rep.insertOk then
      (st', s'.(shown := Refetch(s.shown, st', rep.refetchOk)))
    else
      (st', s')
  }

  /** With the refetch, a completed usage picked from a list that shows the
      stored rows is fully accounted for, and when the refetch succeeds the
      list shows the stored rows again, ready for the next usage. */
  lemma RefetchingUsageBalances(st: Store, s: Screen, rep: Replies, now: int)
    requires WellKeyed(st) && Fresh(s.shown, st)
    requires s.form.item.Some? && s.form.item.value in s.shown
    requires Submittable(s.form) && rep.updateOk && rep.insertOk
    ensures LedgerBalanced(st, HandleUsageRefetching(st, s, rep, now).0, s.form.item.value.id)
    ensures rep.refetchOk ==>
              Fresh(HandleUsageRefetching(st, s, rep, now).1.shown, HandleUsageRefetching(st, s, rep, now).0)
  {
    var f := s.form;
    CompletedWithdrawBalances(st, f.item.value, f.amount.value, Shipment, Some(f.date),
                              UsageRemarks(f.period), rep, now);
  }

  /** As written: ten in stock, use five, then pick the same (unrefreshed) row
      and use eight. The guard checks eight against the ten still shown, the
      write sets 10 - 8 = 2, and the audit trail records -13 for a change of -8:
      the first withdrawal is overwritten. */
  lemma StaleListOverwritesUsage()
    ensures
      var st0 := Store(map["g1" := Gauze], map[], []);
      var ok := Replies(true, true, true);
      var s0 := Screen([Gauze], Form(Some(Gauze), Some(5), Daily, 20250101));
      var (st1, s1) := HandleUsage(st0, s0, ok, 1);
      var s2 := s1.(form := s1.form.(item := Some(s1.shown[0]), amount := Some(8)));
      var (st2, _) := HandleUsage(st1, s2, ok, 2);
      && st2.items["g1"].qtyInStock == 2
      && Net(st2.updates, "g1") == -13
      && !LedgerBalanced(st0, st2, "g1")
  {
    var st0 := Store(map["g1" := Gauze], map[], []);
    var ok := Replies(true, true, true);
    var s0 := Screen([Gauze], Form(Some(Gauze), Some(5), Daily, 20250101));
    var (st1, s1) := HandleUsage(st0, s0, ok, 1);
    var s2 := s1.(form := s1.form.(item := Some(s1.shown[0]), amount := Some(8)));
    var (st2, _) := HandleUsage(st1, s2, ok, 2);
    NetAppend([], st1.updates[0], "g1");
    NetAppend(st1.updates, st2.updates[1], "g1");
    assert st2.updates == st1.updates + [st2.updates[1]];
  }

  /** With the refetch, the same two steps leave five in stock after the first
      usage and the guard turns down the second (eight exceeds five). */
  lemma RefreshedListRejectsOverdraw()
    ensures
      var st0 := Store(map["g1" := Gauze], map[], []);
      var ok := Replies(true, true, true);
      var s0 := Screen([Gauze], Form(Some(Gauze), Some(5), Daily, 20250101));
      var (st1, s1) := HandleUsageRefetching(st0, s0, ok, 1);
      var s2 := s1.(form := s1.form.(item := Some(s1.shown[0]), amount := Some(8)));
      && st1.items["g1"].qtyInStock == 5
      && HandleUsageRefetching(st1, s2, ok, 2) == (st1, s2)
  {
  }
}
