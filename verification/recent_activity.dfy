/** The recent-activity feed (src/hooks/useRecentActivity.ts): the five newest
    audit records by creation time, each described as
    "<type> of <|change|> units for <item name>". */
module RecentActivity {
  import opened Wrappers
  import opened Model
  import Sorting
  import Text

  const Limit := 5

  datatype Activity = Activity(id: nat, description: string, date: int)

  function CreatedAt(u: StockUpdate): int {
    u.createdAt
  }

  /** The description of one record: its type as stored, the size of the
      change in unsigned decimal digits, and the item's name. */
  function Describe(u: StockUpdate, itemName: string): (d: string)
    ensures exists q ::
              && d == UpdateTypeText(u.updateType) + " of " + q + " units for " + itemName
              && |q| >= 1 && (forall i :: 0 <= i < |q| ==> Text.IsDigit(q[i]))
              && Text.ParseDecimal(q) == Magnitude(u.qtyChange)
  {
    var q := Text.DecimalText(Magnitude(u.qtyChange));
    Text.ParseDecimalText(Magnitude(u.qtyChange));
    UpdateTypeText(u.updateType) + " of " + q + " units for " + itemName
  }

  /** The quantity in a description is written in decimal digits, with no
      sign, and reads back as the size of the change. */
  lemma DescribedQuantityReadsBack(u: StockUpdate, itemName: string)
    ensures var q := Text.DecimalText(Magnitude(u.qtyChange));
      && (forall i :: 0 <= i < |q| ==> Text.IsDigit(q[i]))
      && Text.ParseDecimal(q) == Magnitude(u.qtyChange)
      && (u.qtyChange >= 0 ==> Text.ParseDecimal(q) == u.qtyChange)
      && (u.qtyChange < 0 ==> Text.ParseDecimal(q) == -u.qtyChange)
  {
    Text.ParseDecimalText(Magnitude(u.qtyChange));
  }

  /** A prefix of a newest-first list is newest first, and nothing after it
      is newer than anything in it. */
  lemma PrefixOfNewestFirst(sorted: seq<StockUpdate>, n: nat)
    requires n <= |sorted| && Sorting.SortedBy(sorted, Sorting.Descending(CreatedAt))
    ensures forall i :: 0 < i < n ==> sorted[i - 1].createdAt >= sorted[i].createdAt
    ensures forall u :: u in sorted && u !in sorted[..n] ==> forall i :: 0 <= i < n ==> u.createdAt <= sorted[i].createdAt
  {
    var order := Sorting.Descending(CreatedAt);
    forall i | 0 < i < n ensures sorted[i - 1].createdAt >= sorted[i].createdAt {
      assert order(sorted[i - 1], sorted[i]);
      assert CreatedAt(sorted[i - 1]) >= CreatedAt(sorted[i]);
    }
    forall u, i | u in sorted && u !in sorted[..n] && 0 <= i < n ensures u.createdAt <= sorted[i].createdAt {
      var j :| 0 <= j < |sorted| && sorted[j] == u;
      assert j >= n;
      assert order(sorted[i], sorted[j]);
      assert CreatedAt(sorted[i]) >= CreatedAt(sorted[j]);
    }
  }

  function NewestFirst(updates: seq<StockUpdate>): (r: seq<StockUpdate>)
    ensures multiset(r) == multiset(updates)
    ensures Sorting.SortedBy(r, Sorting.Descending(CreatedAt))
  {
    Sorting.DescendingIsTotalOrder(CreatedAt);
    Sorting.SortBySorted(updates, Sorting.Descending(CreatedAt));
    Sorting.SortBy(updates, Sorting.Descending(CreatedAt))
  }

  lemma TakeNewest(updates: seq<StockUpdate>, r: seq<StockUpdate>)
    requires r == Sorting.Take(NewestFirst(updates), Limit)
    ensures multiset(r) <= multiset(updates)
    ensures forall i :: 0 < i < |r| ==> r[i - 1].createdAt >= r[i].createdAt
    ensures forall u :: u in updates && u !in r ==> forall i :: 0 <= i < |r| ==> u.createdAt <= r[i].createdAt
  {
    var sorted := NewestFirst(updates);
    PrefixOfNewestFirst(sorted, |r|);
    assert sorted == r + sorted[|r|..];
    forall u | u in updates ensures u in sorted {
      assert u in multiset(updates);
    }
  }

  /** `.order('created_at', { ascending: false }).limit(5)` */
  function Newest(updates: seq<StockUpdate>): (r: seq<StockUpdate>)
    ensures |r| <= Limit
    ensures |r| == Limit || |r| == |updates|
    ensures multiset(r) <= multiset(updates)
    ensures forall i :: 0 < i < |r| ==> r[i - 1].createdAt >= r[i].createdAt
    // no record left out is newer than the oldest one shown
    ensures forall u :: u in updates && u !in r ==> forall i :: 0 <= i < |r| ==> u.createdAt <= r[i].createdAt
  {
    var r := Sorting.Take(NewestFirst(updates), Limit);
    assert |NewestFirst(updates)| == |updates| by {
      assert |multiset(NewestFirst(updates))| == |multiset(updates)|;
    }
    TakeNewest(updates, r);
    r
  }

  /** `stockUpdates.map(...)`: one activity per record, id kept. The item's
      name comes from the join; a record whose item is gone makes the mapping
      throw, and the feed keeps what it showed. */
  function Activities(updates: seq<StockUpdate>, items: map<Id, Item>): (r: Option<seq<Activity>>)
    ensures r.Some? <==> forall i :: 0 <= i < |updates| ==> updates[i].itemId in items
    ensures r.Some? ==> |r.value| == |updates|
    ensures r.Some? ==> forall i :: 0 <= i < |updates| ==>
              r.value[i].id == updates[i].id && r.value[i].date == updates[i].updateDate
              && r.value[i].description == Describe(updates[i], items[updates[i].itemId].name)
  {
    if forall i :: 0 <= i < |updates| ==> updates[i].itemId in items then
      Some(seq(|updates|, i requires 0 <= i < |updates| =>
        Activity(updates[i].id, Describe(updates[i], items[updates[i].itemId].name), updates[i].updateDate)))
    else None
  }

  /** The feed: at most five activities, newest first, for records of the
      store. A failed query, or a shown record whose item is gone, leaves the
      feed as it was. */
  function Feed(shown: seq<Activity>, updates: Option<seq<StockUpdate>>, items: map<Id, Item>): (r: seq<Activity>)
    ensures updates.None? ==> r == shown
    ensures updates.Some? && (exists i :: 0 <= i < |Newest(updates.value)| && Newest(updates.value)[i].itemId !in items) ==>
              r == shown
    // otherwise one activity per record shown, in the records' order
    ensures updates.Some? && (forall i :: 0 <= i < |Newest(updates.value)| ==> Newest(updates.value)[i].itemId in items) ==>
              && |r| <= Limit && |r| == |Newest(updates.value)|
              && forall i :: 0 <= i < |r| ==>
                   var u := Newest(updates.value)[i];
                   && r[i].id == u.id && r[i].date == u.updateDate
                   && r[i].description == Describe(u, items[u.itemId].name)
  {
    if updates.None? then shown
    else
      match Activities(Newest(updates.value), items)
      case None => shown
      case Some(a) => a
  }

  /** Every activity in a successful feed comes from a record of the store. */
  lemma FeedComesFromStore(shown: seq<Activity>, updates: seq<StockUpdate>, items: map<Id, Item>)
    requires Activities(Newest(updates), items).Some?
    ensures forall a :: a in Feed(shown, Some(updates), items) ==>
              exists u :: u in updates && a.id == u.id
  {
    var n := Newest(updates);
    forall a | a in Feed(shown, Some(updates), items) ensures exists u :: u in updates && a.id == u.id {
      var i :| 0 <= i < |n| && Feed(shown, Some(updates), items)[i] == a;
      assert n[i] in multiset(n);
    }
  }
}
