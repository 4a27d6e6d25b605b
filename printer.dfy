/** The column and grouping decisions `print` makes before it renders
    anything (ux/grid/Printer.js:18-69). */
module Printer {
  import opened Wrappers
  import opened Columns
  import opened Features

  /** The grid properties `print` reads for its layout. */
  datatype Grid = Grid(
    storeGrouped: bool,                  // grid.store.isGrouped(), false when the store has no such method
    view: View,
    columnManager: bool,                 // whether grid.columnManager is set
    visibleColumns: seq<Option<Column>>, // grid.view.headerCt.getVisibleGridColumns()
    columns: seq<Column>)                // grid.columns

  /** The layout `print` settles on: grouped mode, the group field and the
      printed columns. */
  datatype Layout = Layout(isGrouped: bool, groupField: Option<string>, columns: seq<Column>)

  /** Wrapping columns as the entries of a list that may hold `null`. */
  function Entries(cols: seq<Column>): (r: seq<Option<Column>>)
    ensures |r| == |cols| && forall i :: 0 <= i < |cols| ==> r[i] == Some(cols[i])
  {
    seq(|cols|, i requires 0 <= i < |cols| => Some(cols[i]))
  }

  /** The column list the filter runs over (lines 31-45). */
  function SourceColumns(grid: Grid): (r: seq<Option<Column>>)
    ensures grid.columnManager ==> r == grid.visibleColumns
    // the flattened list holds no null entry, and only columns flattening yields
    ensures !grid.columnManager ==> forall e | e in r :: e.Some? && e.value in Flatten(grid.columns)
  {
    if grid.columnManager then grid.visibleColumns else Entries(Flatten(grid.columns))
  }

  /** The layout, or the error raised while looking up the grouping
      feature. */
  function PrintLayout(grid: Grid): (r: Result<Layout>)
    // only a grouped store consults the features, so only it can fail
    ensures r.Failure? <==> grid.storeGrouped && ViewFeatures(grid.view).Failure?
    // grouped mode needs a grouped store and a feature serving 'grouping'
    ensures r.Success? ==>
      (r.value.isGrouped <==> grid.storeGrouped && Lookup(grid.view, "grouping").value.Some?)
    ensures r.Success? && r.value.isGrouped ==>
      var f := Lookup(grid.view, "grouping").value.value;
      (f.ftype == "grouping" || f.ftype == "groupingsummary") && r.value.groupField == f.groupField
    ensures r.Success? ==>
      r.value.columns == Cleared(SourceColumns(grid), r.value.isGrouped, r.value.groupField)
  {
    var grouping: Result<(bool, Option<string>)> :=
      if !grid.storeGrouped then Success((false, None))
      else match Lookup(grid.view, "grouping")
        case Failure(e) => Failure(e)
        case Success(None) => Success((false, None))
        case Success(Some(f)) => Success((true, f.groupField));
    match grouping
    case Failure(e) => Failure(e)
    case Success((isGrouped, groupField)) =>
      Success(Layout(isGrouped, groupField, Cleared(SourceColumns(grid), isGrouped, groupField)))
  }

  /** Lines 18-69 of `print`, step by step. */
  method PrintColumns(grid: Grid) returns (r: Result<Layout>)
    ensures r == PrintLayout(grid)
  {
    var isGrouped := grid.storeGrouped;
    var groupField: Option<string> := None;
    if isGrouped {
      var feature := GetFeature(grid.view, "grouping");
      if feature.Failure? {
        return Failure(feature.error);
      }
      if feature.value.Some? {
        groupField := feature.value.value.groupField;
      } else {
        isGrouped := false;   // no grouping feature: print ungrouped
      }
    }
    var columns: seq<Option<Column>>;
    if grid.columnManager {
      columns := grid.visibleColumns;
    } else {
      var flat := FlattenColumns(grid.columns);
      columns := Entries(flat);
    }
    var clearColumns := ClearColumns(columns, isGrouped, groupField);
    return Success(Layout(isGrouped, groupField, clearColumns));
  }

  /** Nothing is lost in flattening: every plain column, and every child of
      a grouped header, reaches the flattened list. */
  lemma {:induction false} FlattenKeepsEntries(cols: seq<Column>, h: nat, c: Column)
    requires h < |cols| && c in Expand(cols[h])
    ensures c in Flatten(cols)
    decreases |cols|
  {
    var n := |cols| - 1;
    if h < n {
      FlattenKeepsEntries(cols[..n], h, c);
    }
  }

  /** Without a column manager the filter sees every plain grid column and
      every child of a grouped header. */
  lemma SourceColumnsCover(grid: Grid, h: nat, c: Column)
    requires !grid.columnManager && h < |grid.columns| && c in Expand(grid.columns[h])
    ensures Some(c) in SourceColumns(grid)
  {
    FlattenKeepsEntries(grid.columns, h, c);
    var flat := Flatten(grid.columns);
    var i :| 0 <= i < |flat| && flat[i] == c;
    assert Entries(flat)[i] == Some(c);
  }

  /** End to end: without a column manager and with an ungrouped store, a
      visible data column under a grouped header is printed unchanged. */
  lemma PrintsChildOfHeader(grid: Grid, h: nat, c: Column)
    requires !grid.columnManager && !grid.storeGrouped
    requires h < |grid.columns| && c in grid.columns[h].items
    requires !IsEmpty(c.dataIndex) && !c.hidden
    ensures PrintLayout(grid).Success? && c in PrintLayout(grid).value.columns
  {
    FlattenKeepsEntries(grid.columns, h, c);
    var flat := Flatten(grid.columns);
    var i :| 0 <= i < |flat| && flat[i] == c;
    var entries := Entries(flat);
    assert entries[i] == Some(c);
    var idx := ClearedIsSubsequence(entries, false, None);
    assert i in idx;
    var k :| 0 <= k < |idx| && idx[k] == i;
    assert Cleared(entries, false, None)[k] == Printed(c, false) == c;
  }
}
