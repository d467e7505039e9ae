/** The group-by-category `reduce` every report in src/pages/Reports.tsx runs
    over its fetched records: each record's line is pushed onto the list kept
    under its category name, a list being started the first time a name is
    seen; each list then becomes one sheet of the workbook. */
module Grouping {

  /** One workbook sheet: a category name and its lines. */
  datatype Sheet<L> = Sheet(name: string, lines: seq<L>)

  /** The lines of the records filed under `name`, in fetch order. */
  function LinesOf<L>(records: seq<(string, L)>, name: string): seq<L> {
    if records == [] then []
    else
      var last := records[|records| - 1];
      LinesOf(records[..|records| - 1], name) + (if last.0 == name then [last.1] else [])
  }

  function Names<L>(sheets: seq<Sheet<L>>): set<string> {
    set i | 0 <= i < |sheets| :: sheets[i].name
  }

  function Categories<L>(records: seq<(string, L)>): set<string> {
    set i | 0 <= i < |records| :: records[i].0
  }

  /** No two sheets share a name. */
  predicate DistinctNames<L>(sheets: seq<Sheet<L>>) {
    forall i, j :: 0 <= i < j < |sheets| ==> sheets[i].name != sheets[j].name
  }

  function TotalLines<L>(sheets: seq<Sheet<L>>): nat {
    if sheets == [] then 0 else TotalLines(sheets[..|sheets| - 1]) + |sheets[|sheets| - 1].lines|
  }

  /** The position of the sheet with that name, if there is one. */
  function IndexOf<L>(sheets: seq<Sheet<L>>, name: string): (r: int)
    ensures -1 <= r < |sheets|
    ensures r >= 0 ==> sheets[r].name == name
    ensures r < 0 ==> forall i :: 0 <= i < |sheets| ==> sheets[i].name != name
  {
    if sheets == [] then -1
    else if sheets[|sheets| - 1].name == name then |sheets| - 1
    else IndexOf(sheets[..|sheets| - 1], name)
  }

  /** One step of the `reduce`: push the line onto its category's list,
      starting the list if the name is new. */
  function Push<L>(acc: seq<Sheet<L>>, name: string, line: L): (r: seq<Sheet<L>>)
    ensures IndexOf(acc, name) < 0 ==> r == acc + [Sheet(name, [line])]
    ensures IndexOf(acc, name) >= 0 ==>
              var i := IndexOf(acc, name);
              r == acc[i := Sheet(name, acc[i].lines + [line])]
  {
    var i := IndexOf(acc, name);
    if i < 0 then acc + [Sheet(name, [line])]
    else acc[i := Sheet(name, acc[i].lines + [line])]
  }

  lemma {:induction false} TotalLinesUpdate<L>(sheets: seq<Sheet<L>>, i: nat, s: Sheet<L>)
    requires i < |sheets|
    ensures TotalLines(sheets[i := s]) + |sheets[i].lines| == TotalLines(sheets) + |s.lines|
  {
    var n := |sheets| - 1;
    if i < n {
      TotalLinesUpdate(sheets[..n], i, s);
      assert sheets[i := s][..n] == sheets[..n][i := s];
    } else {
      assert sheets[i := s][..n] == sheets[..n];
    }
  }

  /** `acc` is the grouping of `records`: one sheet per distinct category
      name, each holding exactly that category's lines in fetch order, and
      every record on exactly one sheet. */
  ghost predicate Grouped<L>(acc: seq<Sheet<L>>, records: seq<(string, L)>) {
    && DistinctNames(acc)
    && Names(acc) == Categories(records)
    && (forall i :: 0 <= i < |acc| ==> acc[i].lines == LinesOf(records, acc[i].name))
    && TotalLines(acc) == |records|
  }

  lemma CategoriesAppend<L>(records: seq<(string, L)>, name: string, line: L)
    ensures Categories(records + [(name, line)]) == Categories(records) + {name}
  {
    var all := records + [(name, line)];
    forall c | c in Categories(all) ensures c in Categories(records) + {name} {
      var k :| 0 <= k < |all| && all[k].0 == c;
      if k < |records| { assert all[k] == records[k]; }
    }
    forall c | c in Categories(records) ensures c in Categories(all) {
      var k :| 0 <= k < |records| && records[k].0 == c;
      assert all[k] == records[k];
    }
    assert all[|records|].0 == name;
  }

  lemma LinesOfAppend<L>(records: seq<(string, L)>, name: string, line: L, c: string)
    ensures LinesOf(records + [(name, line)], c) == LinesOf(records, c) + (if c == name then [line] else [])
  {
    assert (records + [(name, line)])[..|records|] == records;
  }

  /** A new name starts a sheet with the record's line alone. */
  lemma PushNewName<L>(acc: seq<Sheet<L>>, records: seq<(string, L)>, name: string, line: L)
    requires Grouped(acc, records) && IndexOf(acc, name) < 0
    ensures Grouped(Push(acc, name, line), records + [(name, line)])
  {
    var r := Push(acc, name, line);
    var all := records + [(name, line)];
    CategoriesAppend(records, name, line);
    assert name !in Names(acc);
    assert LinesOf(records, name) == [] by {
      if LinesOf(records, name) != [] {
        LinesNonEmptyIsCategory(records, name);
      }
    }
    forall i | 0 <= i < |r| ensures r[i].lines == LinesOf(all, r[i].name) {
      LinesOfAppend(records, name, line, r[i].name);
    }
    assert Names(r) == Names(acc) + {name} by {
      assert forall k :: 0 <= k < |acc| ==> r[k] == acc[k];
      assert r[|acc|].name == name;
    }
    assert r[..|acc|] == acc;
  }

  /** A known name gets the line pushed onto its sheet. */
  lemma PushKnownName<L>(acc: seq<Sheet<L>>, records: seq<(string, L)>, name: string, line: L)
    requires Grouped(acc, records) && IndexOf(acc, name) >= 0
    ensures Grouped(Push(acc, name, line), records + [(name, line)])
  {
    var i := IndexOf(acc, name);
    var r := Push(acc, name, line);
    var all := records + [(name, line)];
    CategoriesAppend(records, name, line);
    TotalLinesUpdate(acc, i, Sheet(name, acc[i].lines + [line]));
    forall k | 0 <= k < |r| ensures r[k].lines == LinesOf(all, r[k].name) {
      LinesOfAppend(records, name, line, r[k].name);
    }
    assert Names(r) == Names(acc) by {
      forall c | c in Names(r) ensures c in Names(acc) {
        var k :| 0 <= k < |r| && r[k].name == c;
        assert acc[k].name == c;
      }
      forall c | c in Names(acc) ensures c in Names(r) {
        var k :| 0 <= k < |acc| && acc[k].name == c;
        assert r[k].name == c;
      }
    }
  }

  /** `records.reduce(...)` followed by `Object.entries`: the sheets in the
      order their names first appear. */
  function GroupBy<L>(records: seq<(string, L)>): (r: seq<Sheet<L>>)
    // one sheet per distinct category name
    ensures DistinctNames(r)
    ensures Names(r) == Categories(records)
    // each sheet holds exactly its category's lines, in fetch order
    ensures forall i :: 0 <= i < |r| ==> r[i].lines == LinesOf(records, r[i].name)
    // every record lands on exactly one sheet
    ensures TotalLines(r) == |records|
  {
    if records == [] then []
    else
      var n := |records| - 1;
      var acc := GroupBy(records[..n]);
      var (name, line) := records[n];
      assert records[..n] + [(name, line)] == records;
      if IndexOf(acc, name) < 0 then
        PushNewName(acc, records[..n], name, line);
        Push(acc, name, line)
      else
        PushKnownName(acc, records[..n], name, line);
        Push(acc, name, line)
  }

  /** A name with lines is the category of some record. */
  lemma {:induction false} LinesNonEmptyIsCategory<L>(records: seq<(string, L)>, name: string)
    requires LinesOf(records, name) != []
    ensures name in Categories(records)
  {
    var n := |records| - 1;
    if records[n].0 != name {
      LinesNonEmptyIsCategory(records[..n], name);
      var k :| 0 <= k < n && records[..n][k].0 == name;
      assert records[k].0 == name;
    }
  }

  /** No sheet is empty: a sheet is only started for a record. */
  lemma SheetsAreNonEmpty<L>(records: seq<(string, L)>)
    ensures forall s :: s in GroupBy(records) ==> |s.lines| > 0
  {
    var r := GroupBy(records);
    forall s | s in r ensures |s.lines| > 0 {
      assert s.name in Categories(records);
      var k :| 0 <= k < |records| && records[k].0 == s.name;
      CategoryHasLines(records, k);
    }
  }

  lemma {:induction false} CategoryHasLines<L>(records: seq<(string, L)>, k: nat)
    requires k < |records|
    ensures records[k].1 in LinesOf(records, records[k].0)
  {
    var n := |records| - 1;
    if k < n {
      assert records[..n][k] == records[k];
      CategoryHasLines(records[..n], k);
    }
  }
}
