/** The lookup tables behind the settings pages — categories, brands and
    locations — through `useSettingsData` (src/hooks/settings/useSettingsData.ts).
    The hook fetches the table ordered by name and then keeps its copy in step
    with each successful add, update and delete, without refetching. Each
    operation returns whether it succeeded; a failure leaves the copy alone. */
module SettingsData {
  import opened Wrappers
  import Sorting
  import Text

  datatype Row = Row(id: string, name: string)

  function NameOrder(): (Row, Row) -> bool {
    (a: Row, b: Row) => Text.LexLe(a.name, b.name)
  }

  lemma NameOrderIsTotalOrder()
    ensures Sorting.Total(NameOrder()) && Sorting.Transitive(NameOrder())
  {
    forall a: string, b: string ensures Text.LexLe(a, b) || Text.LexLe(b, a) {
      Text.LexLeTotal(a, b);
    }
    forall a: string, b: string, c: string | Text.LexLe(a, b) && Text.LexLe(b, c)
      ensures Text.LexLe(a, c)
    {
      Text.LexLeTransitive(a, b, c);
    }
  }

  /** `fetchData`: the table's rows ordered by name; None (a failed request)
      keeps the copy the hook had. */
  function FetchData(copy: seq<Row>, table: Option<seq<Row>>): (r: seq<Row>)
    ensures table.None? ==> r == copy
    ensures table.Some? ==> multiset(r) == multiset(table.value) && Sorting.SortedBy(r, NameOrder())
  {
    match table
    case None => copy
    case Some(rows) =>
      NameOrderIsTotalOrder();
      Sorting.SortBySorted(rows, NameOrder());
      Sorting.SortBy(rows, NameOrder())
  }

  /** `addItem`: the inserted row as the database returned it goes at the end. */
  function AddRow(copy: seq<Row>, inserted: Option<Row>): (r: (seq<Row>, bool))
    ensures r.1 <==> inserted.Some?
    ensures !r.1 ==> r.0 == copy
    ensures r.1 ==> |r.0| == |copy| + 1 && r.0[..|copy|] == copy && r.0[|copy|] == inserted.value
  {
    match inserted
    case None => (copy, false)
    case Some(row) => (copy + [row], true)
  }

  /** `updateItem`: the returned row replaces every row with that id. */
  function UpdateRow(copy: seq<Row>, id: string, updated: Option<Row>): (r: (seq<Row>, bool))
    ensures r.1 <==> updated.Some?
    ensures |r.0| == |copy|
    ensures forall i :: 0 <= i < |copy| ==>
              r.0[i] == (if r.1 && copy[i].id == id then updated.value else copy[i])
  {
    match updated
    case None => (copy, false)
    case Some(row) => (seq(|copy|, i requires 0 <= i < |copy| => if copy[i].id == id then row else copy[i]), true)
  }

  /** `data.filter(item => item.id !== id)` */
  function WithoutId(copy: seq<Row>, id: string): (r: seq<Row>)
    ensures |r| <= |copy|
    ensures forall x :: x in r <==> x in copy && x.id != id
    ensures Sorting.IsSublist(r, copy)
  {
    if copy == [] then []
    else if copy[0].id != id then [copy[0]] + WithoutId(copy[1..], id)
    else WithoutId(copy[1..], id)
  }

  /** `deleteItem`: on success every row with that id leaves the copy. */
  function DeleteRow(copy: seq<Row>, id: string, ok: bool): (r: (seq<Row>, bool))
    ensures r.1 == ok
    ensures !ok ==> r.0 == copy
    ensures ok ==> forall x :: x in r.0 <==> x in copy && x.id != id
    ensures ok ==> Sorting.IsSublist(r.0, copy)
  {
    if ok then (WithoutId(copy, id), true) else (copy, false)
  }

  /** Removing rows keeps the rest in order: a copy sorted by name stays sorted. */
  lemma {:induction false} DeleteKeepsNameOrder(copy: seq<Row>, id: string)
    requires Sorting.SortedBy(copy, NameOrder())
    ensures Sorting.SortedBy(WithoutId(copy, id), NameOrder())
  {
    if copy != [] {
      DeleteKeepsNameOrder(copy[1..], id);
      forall x | x in WithoutId(copy[1..], id) ensures NameOrder()(copy[0], x) {
        var k :| 0 <= k < |copy[1..]| && copy[1..][k] == x;
        assert copy[k + 1] == x;
      }
    }
  }

  /** Appending does not: a new row whose name sorts first ends up last, until
      the next fetch. */
  lemma AddCanBreakNameOrder()
    ensures Sorting.SortedBy([Row("1", "b")], NameOrder())
    ensures !Sorting.SortedBy(AddRow([Row("1", "b")], Some(Row("2", "a"))).0, NameOrder())
  {
    var r := AddRow([Row("1", "b")], Some(Row("2", "a"))).0;
    assert r[0] == Row("1", "b") && r[1] == Row("2", "a");
    assert !NameOrder()(r[0], r[1]);
  }

  /** Deleting the id of a row just added, when no other row had it, gives
      back the copy as it was. */
  lemma {:induction false} DeleteUndoesAdd(copy: seq<Row>, row: Row)
    requires forall x :: x in copy ==> x.id != row.id
    ensures DeleteRow(AddRow(copy, Some(row)).0, row.id, true).0 == copy
  {
    WithoutIdAppend(copy, row);
  }

  lemma {:induction false} WithoutIdAppend(copy: seq<Row>, row: Row)
    requires forall x :: x in copy ==> x.id != row.id
    ensures WithoutId(copy + [row], row.id) == copy
  {
    if copy == [] {
      assert [row][1..] == [];
    } else {
      assert (copy + [row])[1..] == copy[1..] + [row];
      WithoutIdAppend(copy[1..], row);
    }
  }

  /** Deleting the same id twice deletes nothing more. */
  lemma {:induction false} DeleteIdempotent(copy: seq<Row>, id: string)
    ensures WithoutId(WithoutId(copy, id), id) == WithoutId(copy, id)
  {
    if copy != [] {
      DeleteIdempotent(copy[1..], id);
    }
  }

  /** Applying the same successful update twice is the same as once. */
  lemma UpdateIdempotent(copy: seq<Row>, id: string, row: Row)
    requires row.id == id
    ensures UpdateRow(UpdateRow(copy, id, Some(row)).0, id, Some(row)).0 == UpdateRow(copy, id, Some(row)).0
  {
  }
}
