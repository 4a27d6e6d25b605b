/** The printer's column projection (`print`, ux/grid/Printer.js:36-69):
    grouped headers are flattened one level, then a fixed decision list picks
    the columns that are printed. */
module Columns {
  import opened Wrappers

  /** A grid column, as far as the projection reads it.  A property the
      source leaves unset reads as the empty string, `false` or `[]`;
      `dataIndex` keeps `undefined` apart from `""` because the grouped branch
      compares it with `===`. */
  datatype Column = Column(
    dataIndex: Option<string>,
    hidden: bool,
    xtype: string,
    text: string,
    align: string,
    items: seq<Column>)   // the children of a grouped header

  /** `Ext.isEmpty` on a `dataIndex`: `undefined`, `null` and `""` are empty. */
  predicate IsEmpty(dataIndex: Option<string>)
  {
    dataIndex == None || dataIndex == Some("")
  }

  predicate IsGroupHeader(c: Column) { |c.items| > 0 }

  // ---------------------------------------------------------------- flatten

  /** What one column contributes to the flattened list: its children when
      it is a grouped header, itself otherwise. */
  function Expand(c: Column): seq<Column>
  {
    if IsGroupHeader(c) then c.items else [c]
  }

  /** The flattened column list, built from the left as the source's loop
      builds it. */
  function Flatten(cols: seq<Column>): seq<Column>
    decreases |cols|
  {
    if cols == [] then []
    else Flatten(cols[..|cols| - 1]) + Expand(cols[|cols| - 1])
  }

  /** The loop at lines 37-44: `concat` of the children of a grouped header,
      `push` of any other column. */
  method FlattenColumns(gridColumns: seq<Column>) returns (columns: seq<Column>)
    ensures columns == Flatten(gridColumns)
  {
    columns := [];
    for i := 0 to |gridColumns|
      invariant columns == Flatten(gridColumns[..i])
    {
      var c := gridColumns[i];
      if |c.items| > 0 {
        columns := columns + c.items;
      } else {
        columns := columns + [c];
      }
      assert gridColumns[..i + 1][..i] == gridColumns[..i];
    }
    assert gridColumns[..|gridColumns|] == gridColumns;
  }

  /** Flattening distributes over concatenation: each column is expanded
      in place, independently of its neighbours. */
  lemma {:induction false} FlattenAppend(a: seq<Column>, b: seq<Column>)
    ensures Flatten(a + b) == Flatten(a) + Flatten(b)
    decreases |b|
  {
    if b == [] {
      assert a + b == a;
    } else {
      var b' := b[..|b| - 1];
      assert (a + b)[..|a + b| - 1] == a + b';
      assert (a + b)[|a + b| - 1] == b[|b| - 1];
      FlattenAppend(a, b');
      assert Flatten(a + b) == Flatten(a + b') + Expand(b[|b| - 1]);
      assert Flatten(b) == Flatten(b') + Expand(b[|b| - 1]);
    }
  }

  /** The flattened list is the columns' expansions in order: a column that
      is not a grouped header is kept where it stands, a grouped header is
      replaced by exactly its children. */
  lemma {:induction false} FlattenCons(c: Column, rest: seq<Column>)
    ensures Flatten([c] + rest) == (if IsGroupHeader(c) then c.items else [c]) + Flatten(rest)
  {
    FlattenAppend([c], rest);
    assert Flatten([c]) == Flatten([]) + Expand(c);
  }

  /** A list without grouped headers is left unchanged. */
  lemma {:induction false} FlattenNoGroups(cols: seq<Column>)
    requires forall i :: 0 <= i < |cols| ==> !IsGroupHeader(cols[i])
    ensures Flatten(cols) == cols
    decreases |cols|
  {
    if cols != [] {
      FlattenNoGroups(cols[..|cols| - 1]);
    }
  }

  /** Flattening goes one level deep only: a grouped header nested inside a
      grouped header reaches the filter unflattened. */
  lemma NestedGroupSurvives(inner: Column, outer: Column)
    requires IsGroupHeader(inner) && outer.items == [inner]
    ensures Flatten([outer]) == [inner] && IsGroupHeader(Flatten([outer])[0])
  {
    assert Flatten([outer]) == Flatten([]) + Expand(outer);
  }

  // ----------------------------------------------------------------- filter

  /** The first branch of the decision list (lines 53-56). */
  predicate PlainColumn(c: Column, isGrouped: bool)
  {
    !IsEmpty(c.dataIndex) && !c.hidden && !isGrouped
  }

  /** Whether the decision list at lines 53-66 keeps a (non-null) column. */
  predicate Keeps(c: Column, isGrouped: bool, groupField: Option<string>)
    // rownumberer and template columns are always printed
    ensures c.xtype == "rownumberer" || c.xtype == "templatecolumn" ==> Keeps(c, isGrouped, groupField)
    // any other column in ungrouped mode: a data index and not hidden
    ensures c.xtype != "rownumberer" && c.xtype != "templatecolumn" && !isGrouped ==>
      (Keeps(c, isGrouped, groupField) <==> !IsEmpty(c.dataIndex) && !c.hidden)
    // any other column in grouped mode: not the group field, not an action column; `hidden` is not read
    ensures c.xtype != "rownumberer" && c.xtype != "templatecolumn" && isGrouped ==>
      (Keeps(c, isGrouped, groupField) <==> c.dataIndex != groupField && c.xtype != "actioncolumn")
  {
    if PlainColumn(c, isGrouped) then true
    else if c.xtype == "rownumberer" then true
    else if c.xtype == "templatecolumn" then true
    else isGrouped && c.dataIndex != groupField && c.xtype != "actioncolumn"
  }

  /** A column as it is pushed into `clearColumns`: a rownumberer reached by
      the second branch gets the heading 'Row' when it has none (line 58). */
  function Printed(c: Column, isGrouped: bool): (p: Column)
    ensures p == c.(text := p.text)
    ensures p.text != c.text <==> !PlainColumn(c, isGrouped) && c.xtype == "rownumberer" && c.text == ""
    ensures p.text != c.text ==> p.text == "Row"
  {
    if !PlainColumn(c, isGrouped) && c.xtype == "rownumberer" && c.text == "" then c.(text := "Row")
    else c
  }

  /** What one entry of the column list contributes to `clearColumns`
      (`null` and `undefined` entries contribute nothing). */
  function Step(entry: Option<Column>, isGrouped: bool, groupField: Option<string>): seq<Column>
  {
    match entry
    case None => []
    case Some(c) => if Keeps(c, isGrouped, groupField) then [Printed(c, isGrouped)] else []
  }

  /** The `clearColumns` list the filter builds. */
  function Cleared(cols: seq<Option<Column>>, isGrouped: bool, groupField: Option<string>): seq<Column>
    decreases |cols|
  {
    if cols == [] then []
    else Cleared(cols[..|cols| - 1], isGrouped, groupField) + Step(cols[|cols| - 1], isGrouped, groupField)
  }

  /** The loop at lines 50-68. */
  method ClearColumns(columns: seq<Option<Column>>, isGrouped: bool, groupField: Option<string>)
    returns (clearColumns: seq<Column>)
    ensures clearColumns == Cleared(columns, isGrouped, groupField)
  {
    clearColumns := [];
    for i := 0 to |columns|
      invariant clearColumns == Cleared(columns[..i], isGrouped, groupField)
    {
      ClearedStep(columns, i, isGrouped, groupField);
      var entry := columns[i];
      if entry.Some? {
        var column := entry.value;
        if !IsEmpty(column.dataIndex) && !column.hidden && !isGrouped {
          clearColumns := clearColumns + [column];
        } else if column.xtype == "rownumberer" {
          if column.text == "" {
            column := column.(text := "Row");
          }
          clearColumns := clearColumns + [column];
        } else if column.xtype == "templatecolumn" {
          clearColumns := clearColumns + [column];
        } else if isGrouped && column.dataIndex != groupField && column.xtype != "actioncolumn" {
          clearColumns := clearColumns + [column];
        }
      }
    }
    assert columns[..|columns|] == columns;
  }

  /** The positions of the non-null entries the decision list keeps, in
      increasing order. */
  function KeptPositions(cols: seq<Option<Column>>, isGrouped: bool, groupField: Option<string>): (idx: seq<nat>)
    ensures forall k :: 0 <= k < |idx| ==> idx[k] < |cols|
    decreases |cols|
  {
    if cols == [] then []
    else
      var n := |cols| - 1;
      KeptPositions(cols[..n], isGrouped, groupField)
      + (if cols[n].Some? && Keeps(cols[n].value, isGrouped, groupField) then [n] else [])
  }

  /** Each printed column is the entry at the matching kept position,
      renamed only as `Printed` says. */
  lemma {:induction false} KeptPositionsMatch(cols: seq<Option<Column>>, isGrouped: bool, groupField: Option<string>)
    ensures var idx := KeptPositions(cols, isGrouped, groupField);
      |idx| == |Cleared(cols, isGrouped, groupField)| &&
      forall k :: 0 <= k < |idx| ==>
        cols[idx[k]].Some? && Keeps(cols[idx[k]].value, isGrouped, groupField) &&
        Cleared(cols, isGrouped, groupField)[k] == Printed(cols[idx[k]].value, isGrouped)
    decreases |cols|
  {
    if cols != [] {
      var n := |cols| - 1;
      var front := cols[..n];
      KeptPositionsMatch(front, isGrouped, groupField);
      var idx, prev := KeptPositions(cols, isGrouped, groupField), KeptPositions(front, isGrouped, groupField);
      var out, outFront := Cleared(cols, isGrouped, groupField), Cleared(front, isGrouped, groupField);
      assert out == outFront + Step(cols[n], isGrouped, groupField);
      assert forall k :: 0 <= k < |prev| ==> idx[k] == prev[k] && out[k] == outFront[k] && front[prev[k]] == cols[prev[k]];
    }
  }

  /** The kept positions increase strictly. */
  lemma {:induction false} KeptPositionsIncrease(cols: seq<Option<Column>>, isGrouped: bool, groupField: Option<string>)
    ensures forall k, l :: 0 <= k < l < |KeptPositions(cols, isGrouped, groupField)| ==>
      KeptPositions(cols, isGrouped, groupField)[k] < KeptPositions(cols, isGrouped, groupField)[l]
    decreases |cols|
  {
    if cols != [] {
      var n := |cols| - 1;
      KeptPositionsIncrease(cols[..n], isGrouped, groupField);
      var prev := KeptPositions(cols[..n], isGrouped, groupField);
      var idx := KeptPositions(cols, isGrouped, groupField);
      assert forall k :: 0 <= k < |prev| ==> prev[k] < n;
      if cols[n].Some? && Keeps(cols[n].value, isGrouped, groupField) {
        assert idx == prev + [n];
        forall k, l | 0 <= k < l < |idx| ensures idx[k] < idx[l] {
          if l == |prev| { assert idx[k] == prev[k]; } else { assert idx[k] == prev[k] && idx[l] == prev[l]; }
        }
      } else {
        assert idx == prev;
      }
    }
  }

  /** Every position of a kept entry is listed. */
  lemma {:induction false} KeptPositionsComplete(cols: seq<Option<Column>>, isGrouped: bool, groupField: Option<string>, i: nat)
    requires i < |cols| && cols[i].Some? && Keeps(cols[i].value, isGrouped, groupField)
    ensures i in KeptPositions(cols, isGrouped, groupField)
    decreases |cols|
  {
    var n := |cols| - 1;
    if i < n {
      assert cols[..n][i] == cols[i];
      KeptPositionsComplete(cols[..n], isGrouped, groupField, i);
    }
  }

  /** Filtering one more entry appends that entry's contribution. */
  lemma ClearedStep(cols: seq<Option<Column>>, i: nat, isGrouped: bool, groupField: Option<string>)
    requires i < |cols|
    ensures Cleared(cols[..i + 1], isGrouped, groupField)
      == Cleared(cols[..i], isGrouped, groupField) + Step(cols[i], isGrouped, groupField)
  {
    assert cols[..i + 1][..i] == cols[..i];
  }

  /** `Cleared` is an order-preserving selection of the list: `idx` lists, in
      increasing order, exactly the positions of the non-null entries the
      decision list keeps, and each output column is the input column at that
      position, renamed only as `Printed` says. */
  lemma ClearedIsSubsequence(cols: seq<Option<Column>>, isGrouped: bool, groupField: Option<string>)
    returns (idx: seq<nat>)
    ensures |idx| == |Cleared(cols, isGrouped, groupField)|
    ensures forall k :: 0 <= k < |idx| ==>
      idx[k] < |cols| && cols[idx[k]].Some? && Keeps(cols[idx[k]].value, isGrouped, groupField) &&
      Cleared(cols, isGrouped, groupField)[k] == Printed(cols[idx[k]].value, isGrouped)
    ensures forall k, l :: 0 <= k < l < |idx| ==> idx[k] < idx[l]
    ensures forall i :: 0 <= i < |cols| && cols[i].Some? && Keeps(cols[i].value, isGrouped, groupField) ==> i in idx
  {
    idx := KeptPositions(cols, isGrouped, groupField);
    KeptPositionsMatch(cols, isGrouped, groupField);
    KeptPositionsIncrease(cols, isGrouped, groupField);
    forall i | 0 <= i < |cols| && cols[i].Some? && Keeps(cols[i].value, isGrouped, groupField)
      ensures i in idx
    {
      KeptPositionsComplete(cols, isGrouped, groupField, i);
    }
  }

  /** A non-null rownumberer or template column always reaches the printed
      list. */
  lemma {:induction false} ClearedKeepsSpecialColumns(cols: seq<Option<Column>>, isGrouped: bool, groupField: Option<string>, i: nat)
    requires i < |cols| && cols[i].Some?
    requires cols[i].value.xtype == "rownumberer" || cols[i].value.xtype == "templatecolumn"
    ensures Printed(cols[i].value, isGrouped) in Cleared(cols, isGrouped, groupField)
  {
    var idx := ClearedIsSubsequence(cols, isGrouped, groupField);
    assert i in idx;
    var k :| 0 <= k < |idx| && idx[k] == i;
    assert Cleared(cols, isGrouped, groupField)[k] == Printed(cols[i].value, isGrouped);
  }

  /** Every printed column comes from some non-null entry of the list and
      differs from it at most in its heading. */
  lemma {:induction false} ClearedDropsOnlyNulls(cols: seq<Option<Column>>, isGrouped: bool, groupField: Option<string>, p: Column)
    requires p in Cleared(cols, isGrouped, groupField)
    ensures exists i :: 0 <= i < |cols| && cols[i].Some? && p == cols[i].value.(text := p.text)
  {
    var idx := ClearedIsSubsequence(cols, isGrouped, groupField);
    var k :| 0 <= k < |Cleared(cols, isGrouped, groupField)| && Cleared(cols, isGrouped, groupField)[k] == p;
    assert cols[idx[k]].Some? && p == cols[idx[k]].value.(text := p.text);
  }

  /** In ungrouped mode a rownumberer that has a data index and is visible is
      taken by the first branch and keeps an empty heading; only the other
      rownumberers are renamed. */
  lemma RownumbererHeading(c: Column, groupField: Option<string>)
    requires c.xtype == "rownumberer" && c.text == ""
    ensures Cleared([Some(c)], false, groupField) ==
      [if !IsEmpty(c.dataIndex) && !c.hidden then c else c.(text := "Row")]
  {
    assert [Some(c)][..0] == [];
  }
}
