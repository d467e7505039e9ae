/** The search box shared by the stock-count, discard and usage screens
    (`filteredItems`): an item is listed when its lower-cased name or reference
    number includes the lower-cased search term. */
module Search {
  import opened Model
  import Text
  import Sorting

  predicate Matches(item: Item, term: string) {
    || Text.Includes(Text.Lower(item.name), Text.Lower(term))
    || Text.Includes(Text.Lower(item.refNum), Text.Lower(term))
  }

  /** `items.filter(...)`: exactly the matching rows, in their original order. */
  function FilterItems(items: seq<Item>, term: string): (r: seq<Item>)
    ensures |r| <= |items|
    ensures forall x :: x in r <==> x in items && Matches(x, term)
    ensures Sorting.IsSublist(r, items)
    decreases |items|
  {
    if items == [] then
      []
    else if Matches(items[0], term) then
      [items[0]] + FilterItems(items[1..], term)
    else
      FilterItems(items[1..], term)
  }

  /** Every item includes the empty term, so an empty search box lists everything. */
  lemma {:induction false} EmptyTermKeepsAll(items: seq<Item>)
    ensures FilterItems(items, "") == items
    decreases |items|
  {
    if items != [] {
      assert Text.Lower("") == "";
      assert Text.OccursAt("", Text.Lower(items[0].name), 0);
      EmptyTermKeepsAll(items[1..]);
    }
  }

  /** Two terms that lower-case alike list the same items. */
  lemma SearchIgnoresCase(items: seq<Item>, t1: string, t2: string)
    requires Text.Lower(t1) == Text.Lower(t2)
    ensures FilterItems(items, t1) == FilterItems(items, t2)
  {
  }

  /** Filtering an already filtered list changes nothing. */
  lemma {:induction false} FilterIdempotent(items: seq<Item>, term: string)
    ensures FilterItems(FilterItems(items, term), term) == FilterItems(items, term)
    decreases |items|
  {
    if items != [] {
      FilterIdempotent(items[1..], term);
    }
  }

  /** Filtering keeps the order of the rows it keeps. */
  lemma {:induction false} FilterKeepsOrder(items: seq<Item>, term: string, le: (Item, Item) -> bool)
    requires Sorting.SortedBy(items, le)
    ensures Sorting.SortedBy(FilterItems(items, term), le)
    decreases |items|
  {
    if items != [] {
      FilterKeepsOrder(items[1..], term, le);
      var rest := FilterItems(items[1..], term);
      forall x | x in rest ensures le(items[0], x) {
        var k :| 0 <= k < |items[1..]| && items[1..][k] == x;
        assert items[k + 1] == x;
      }
    }
  }
}
