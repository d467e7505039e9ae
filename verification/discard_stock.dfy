/** The discard screen (src/pages/DiscardStock.tsx): pick a listed item with
    stock, enter an amount and a reason, and `handleDiscard` withdraws the
    amount with a 'discarded' audit record, refetches the list and clears the
    dialog. A failed refetch returns no data and the list stays as it was. */
module DiscardStock {
  import opened Wrappers
  import opened Model
  import opened StockMovement

  /** The dialog: the picked row, the amount field (None while empty) and the
      reason text. */
  datatype Form = Form(item: Option<Item>, amount: Option<int>, reason: string)

  /** The screen: the list as last fetched, and the dialog. */
  datatype Screen = Screen(shown: seq<Item>, form: Form)

  const Cleared := Form(None, None, "")

  /** The form passes both guards. */
  predicate Submittable(f: Form) {
    f.item.Some? && f.amount.Some? && AmountAccepted(f.item.value, f.amount.value)
  }

  function HandleDiscard(st: Store, s: Screen, rep: Replies, now: int): (r: (Store, Screen))
    requires WellKeyed(st)
    ensures r.0.orders == st.orders && r.0.items.Keys == st.items.Keys
    // no item or an empty amount field: nothing happens
    ensures s.form.item.None? || s.form.amount.None? ==> r == (st, s)
    // an amount outside 1..shown stock: nothing is written
    ensures !Submittable(s.form) ==> r == (st, s)
    // a failed quantity write changes nothing at all
    ensures Submittable(s.form) && !rep.updateOk ==> r == (st, s)
    // the dialog is kept unless both writes succeeded, and then it is cleared
    ensures !(Submittable(s.form) && rep.updateOk && rep.insertOk) ==> r.1 == s
    ensures Submittable(s.form) && rep.updateOk && rep.insertOk ==>
              && r.1.form == Cleared
              && (rep.refetchOk ==> Fresh(r.1.shown, r.0))
              && r.0.updates == st.updates + [StockUpdate(|st.updates|, s.form.item.value.id,
                   -s.form.amount.value, Disposal, now, s.form.reason, now)]
    // unless the writes and the refetch all succeeded, the list is the one shown before
    ensures !(Submittable(s.form) && rep.updateOk && rep.insertOk && rep.refetchOk) ==>
              r.1.shown == s.shown
    // an accepted write leaves the shown stock minus the amount, never below zero
    ensures Submittable(s.form) && rep.updateOk && s.form.item.value.id in st.items ==>
              r.0.items[s.form.item.value.id].qtyInStock
                == s.form.item.value.qtyInStock - s.form.amount.value >= 0
    // the write reaches the audit table only on completion
    ensures !(Submittable(s.form) && rep.updateOk && rep.insertOk) ==> r.0.updates == st.updates
    ensures forall k :: k in st.items && (s.form.item.None? || k != s.form.item.value.id) ==>
              r.0.items[k] == st.items[k]
    ensures StockNonNegative(st) ==> StockNonNegative(r.0)
    ensures WellKeyed(r.0)
  {
    if s.form.item.None? || s.form.amount.None? then
      (st, s)
    else
      var f := s.form;
      var w := Withdraw(st, f.item.value, f.amount.value, Disposal, None, f.reason, rep, now);
      if w.1 == Completed then
        (w.0, Screen(Refetch(s.shown, w.0, rep.refetchOk), Cleared))
      else
        (w.0, s)
  }

  /** Discarding from a list that shows the stored rows accounts for the whole
      change in the audit trail; the list shows the stored rows again when the
      refetch succeeds and is left stale when it fails. */
  lemma DiscardFromFreshListBalances(st: Store, s: Screen, rep: Replies, now: int)
    requires WellKeyed(st) && Fresh(s.shown, st)
    requires s.form.item.Some? && s.form.item.value in s.shown
    requires Submittable(s.form) && rep.updateOk && rep.insertOk
    ensures LedgerBalanced(st, HandleDiscard(st, s, rep, now).0, s.form.item.value.id)
    ensures rep.refetchOk ==>
              Fresh(HandleDiscard(st, s, rep, now).1.shown, HandleDiscard(st, s, rep, now).0)
    ensures !rep.refetchOk ==>
              && HandleDiscard(st, s, rep, now).1.shown == s.shown
              && !Fresh(s.shown, HandleDiscard(st, s, rep, now).0)
  {
    var f := s.form;
    CompletedWithdrawBalances(st, f.item.value, f.amount.value, Disposal, None, f.reason, rep, now);
    var st' := HandleDiscard(st, s, rep, now).0;
    assert st'.items[f.item.value.id].qtyInStock == f.item.value.qtyInStock - f.amount.value;
  }

  /** When the refetch after a discard fails, the dialog is cleared over a
      stale list. Ten in stock: discard five, then pick the same row again and
      discard eight. The guard checks eight against the ten still shown, the
      write sets 10 - 8 = 2, and the audit trail records -13 for a change of
      -8, as on the usage screen. */
  lemma FailedRefetchOverwritesDiscard()
    ensures
      var st0 := Store(map["g1" := Gauze], map[], []);
      var s0 := Screen([Gauze], Form(Some(Gauze), Some(5), "expired"));
      var (st1, s1) := HandleDiscard(st0, s0, Replies(true, true, false), 1);
      var s2 := s1.(form := Form(Some(s1.shown[0]), Some(8), "damaged"));
      var (st2, _) := HandleDiscard(st1, s2, Replies(true, true, true), 2);
      && s1.form == Cleared
      && st2.items["g1"].qtyInStock == 2
      && Net(st2.updates, "g1") == -13
      && !LedgerBalanced(st0, st2, "g1")
  {
    var st0 := Store(map["g1" := Gauze], map[], []);
    var s0 := Screen([Gauze], Form(Some(Gauze), Some(5), "expired"));
    var (st1, s1) := HandleDiscard(st0, s0, Replies(true, true, false), 1);
    var s2 := s1.(form := Form(Some(s1.shown[0]), Some(8), "damaged"));
    var (st2, _) := HandleDiscard(st1, s2, Replies(true, true, true), 2);
    NetAppend([], st1.updates[0], "g1");
    NetAppend(st1.updates, st2.updates[1], "g1");
    assert st2.updates == st1.updates + [st2.updates[1]];
  }
}
