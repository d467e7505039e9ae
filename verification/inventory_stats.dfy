/** The dashboard counters (src/hooks/useInventoryStats.ts): the number of
    items, and the number at or below their reorder level, a missing level
    counting as 0. The total value counter is declared but never set. A failed
    fetch leaves the counters at their initial zeros. */
module InventoryStats {
  import opened Wrappers
  import opened Model
  import Sorting

  datatype Stats = Stats(totalItems: nat, totalValue: int, lowStockItems: nat)

  const Initial := Stats(0, 0, 0)

  /** `item.qty_in_stock <= (item.reorder_level || 0)`: null and 0 both read
      as 0. */
  predicate IsLow(item: Item) {
    item.qtyInStock <= item.reorderLevel.GetOr(0)
  }

  /** The positions of the low-stock items. */
  function LowPositions(items: seq<Item>): set<nat> {
    set i: nat | i < |items| && IsLow(items[i])
  }

  /** `items.filter(IsLow).length`, counted one item at a time. */
  function CountLow(items: seq<Item>): (r: nat)
    ensures r <= |items|
    ensures r == |LowPositions(items)|
  {
    if items == [] then 0
    else
      var n := |items| - 1;
      var rest := CountLow(items[..n]);
      assert LowPositions(items) == LowPositions(items[..n]) + (if IsLow(items[n]) then {n} else {}) by {
        forall i: nat | i < n ensures items[..n][i] == items[i] {}
      }
      assert n !in LowPositions(items[..n]);
      rest + (if IsLow(items[n]) then 1 else 0)
  }

  function FetchStats(items: Option<seq<Item>>): (r: Stats)
    ensures items.None? ==> r == Initial
    ensures items.Some? ==> r.totalItems == |items.value|
    ensures items.Some? ==> r.lowStockItems == |LowPositions(items.value)|
    ensures r.lowStockItems <= r.totalItems
    ensures r.totalValue == 0
  {
    match items
    case None => Initial
    case Some(rows) => Stats(|rows|, 0, CountLow(rows))
  }

  /** An item with no stock and no reorder level is counted as low. */
  lemma EmptyUnlevelledIsLow(item: Item)
    requires item.qtyInStock == 0 && item.reorderLevel.None?
    ensures IsLow(item)
  {
  }

  /** Restocking one item above its level can only lower the count. */
  lemma {:induction false} RestockLowersCount(items: seq<Item>, k: nat, q: int)
    requires k < |items| && q > items[k].reorderLevel.GetOr(0)
    ensures CountLow(items[k := items[k].(qtyInStock := q)]) <= CountLow(items)
  {
    var after := items[k := items[k].(qtyInStock := q)];
    assert LowPositions(after) <= LowPositions(items);
    Sorting.SubsetBound(LowPositions(after), LowPositions(items));
  }
}
