/** Summary dispatch `getSummary` (ux/grid/Printer.js:374-396, and the copy
    in the grouped body template at lines 722-743): the column's summary type
    selects which store reducer is called.  The reducers themselves belong to
    the store; `count`, `min`, `max` and `sum` are modelled below over the
    integer values of the summed field. */
module Summaries {
  import opened Wrappers

  /** A column's `summaryType`: unset, a function (identified by a number),
      or a string.  The empty string is falsy and counts as unset. */
  datatype SummaryType = Unset | Function(id: nat) | Named(name: string)

  /** A call of one of the store's reducers, with the arguments the printer
      passes. */
  datatype StoreCall =
    | Aggregate(fn: nat, group: bool, fields: seq<string>)   // store.aggregate(fn, null, group, [field])
    | Count(group: bool)
    | Min(field: string, group: bool)
    | Max(field: string, group: bool)
    | Sum(field: string, group: bool)
    | Average(field: string, group: bool)

  /** What `getSummary` returns: the result of a store call, or one of its
      own constants. */
  datatype Summary =
    | Delegated(call: StoreCall)
    | NullValue
    | UndefinedValue
    | EmptyString
    | EmptyObject

  /** The type tag a named reducer call answers to. */
  function CallName(call: StoreCall): string
  {
    match call
    case Aggregate(_, _, _) => ""
    case Count(_) => "count"
    case Min(_, _) => "min"
    case Max(_, _) => "max"
    case Sum(_, _) => "sum"
    case Average(_, _) => "average"
  }

  function CallGroup(call: StoreCall): bool { call.group }

  predicate IsReducerName(name: string)
  {
    name == "count" || name == "min" || name == "max" || name == "sum" || name == "average"
  }

  predicate IsSet(t: SummaryType) { t.Function? || (t.Named? && t.name != "") }

  /** The `if (type) { ... }` block common to both copies; `None` when the
      type is unset and the copies fall through to their own answer. */
  function Dispatch(t: SummaryType, field: string, group: bool): (r: Option<Summary>)
    ensures r.None? <==> !IsSet(t)
  {
    match t
    case Unset => None
    case Function(fn) => Some(Delegated(Aggregate(fn, group, [field])))
    case Named(name) =>
      if name == "" then None
      else if name == "count" then Some(Delegated(Count(group)))
      else if name == "min" then Some(Delegated(Min(field, group)))
      else if name == "max" then Some(Delegated(Max(field, group)))
      else if name == "sum" then Some(Delegated(Sum(field, group)))
      else if name == "average" then Some(Delegated(Average(field, group)))
      else Some(if group then EmptyObject else EmptyString)
  }

  /** The properties both copies share, for a set type. */
  predicate DispatchSpec(t: SummaryType, field: string, group: bool, r: Summary)
  {
    // a function is handed to the store's aggregate with the field
    (t.Function? ==> r == Delegated(Aggregate(t.id, group, [field])))
    // a reducer name calls the reducer of that name, on this field and mode
    && (t.Named? && IsReducerName(t.name) ==>
          r.Delegated? && CallName(r.call) == t.name && CallGroup(r.call) == group
          && (!r.call.Count? ==> r.call.field == field))
    // any other string: an empty object in grouped mode, else an empty string
    && (t.Named? && t.name != "" && !IsReducerName(t.name) ==> r == (if group then EmptyObject else EmptyString))
  }

  /** `getSummary` of the ungrouped layout (lines 374-396): `null` when no
      type is set. */
  function GetSummary(t: SummaryType, field: string, group: bool): (r: Summary)
    ensures !IsSet(t) ==> r == NullValue
    ensures IsSet(t) ==> DispatchSpec(t, field, group, r)
  {
    Dispatch(t, field, group).GetOr(NullValue)
  }

  /** `getSummary` of the grouped body template (lines 722-743): it has no
      final `return`, so an unset type yields `undefined`. */
  function GetGroupSummary(t: SummaryType, field: string, group: bool): (r: Summary)
    ensures !IsSet(t) ==> r == UndefinedValue
    ensures IsSet(t) ==> DispatchSpec(t, field, group, r)
  {
    Dispatch(t, field, group).GetOr(UndefinedValue)
  }

  /** The two copies differ only when no type is set. */
  lemma CopiesAgree(t: SummaryType, field: string, group: bool)
    ensures GetSummary(t, field, group) == GetGroupSummary(t, field, group) <==> IsSet(t)
  {
  }

  /** The fallback constants are never store calls, and every store call
      made for a string type is one of the five named reducers. */
  lemma DispatchCalls(t: SummaryType, field: string, group: bool)
    ensures GetSummary(t, field, group).Delegated? <==> t.Function? || (t.Named? && IsReducerName(t.name))
  {
  }

  // ------------------------------------------------ the integer reducers

  /** The sum of the values (`store.sum`); 0 for no records. */
  function SumOf(values: seq<int>): (r: int)
    ensures |values| == 1 ==> r == values[0]
    ensures (forall i :: 0 <= i < |values| ==> values[i] >= 0) ==> r >= 0
    decreases |values|
  {
    if values == [] then 0 else SumOf(values[..|values| - 1]) + values[|values| - 1]
  }

  /** The smallest value (`store.min`); `undefined` for no records. */
  function MinOf(values: seq<int>): (r: Option<int>)
    ensures r.None? <==> values == []
    ensures r.Some? ==> r.value in values && forall i :: 0 <= i < |values| ==> r.value <= values[i]
    decreases |values|
  {
    if values == [] then None
    else
      var rest := MinOf(values[1..]);
      if rest.None? || values[0] <= rest.value then Some(values[0]) else rest
  }

  /** The largest value (`store.max`); `undefined` for no records. */
  function MaxOf(values: seq<int>): (r: Option<int>)
    ensures r.None? <==> values == []
    ensures r.Some? ==> r.value in values && forall i :: 0 <= i < |values| ==> values[i] <= r.value
    decreases |values|
  {
    if values == [] then None
    else
      var rest := MaxOf(values[1..]);
      if rest.None? || values[0] >= rest.value then Some(values[0]) else rest
  }

  /** The sum is additive over the records. */
  lemma {:induction false} SumOfAppend(a: seq<int>, b: seq<int>)
    ensures SumOf(a + b) == SumOf(a) + SumOf(b)
    decreases |b|
  {
    if b == [] {
      assert a + b == a;
    } else {
      assert (a + b)[..|a + b| - 1] == a + b[..|b| - 1];
      SumOfAppend(a, b[..|b| - 1]);
    }
  }

  /** A lower bound of every value bounds the sum from below, times the
      number of records. */
  lemma {:induction false} SumAtLeast(values: seq<int>, lo: int)
    requires forall i :: 0 <= i < |values| ==> lo <= values[i]
    ensures |values| * lo <= SumOf(values)
    decreases |values|
  {
    if values != [] {
      var n := |values| - 1;
      SumAtLeast(values[..n], lo);
      assert |values| * lo == n * lo + lo;
    }
  }

  /** An upper bound of every value bounds the sum from above, times the
      number of records. */
  lemma {:induction false} SumAtMost(values: seq<int>, hi: int)
    requires forall i :: 0 <= i < |values| ==> values[i] <= hi
    ensures SumOf(values) <= |values| * hi
    decreases |values|
  {
    if values != [] {
      var n := |values| - 1;
      SumAtMost(values[..n], hi);
      assert |values| * hi == n * hi + hi;
    }
  }

  /** The sum lies between count times the minimum and count times the
      maximum. */
  lemma SumBounds(values: seq<int>)
    requires values != []
    ensures |values| * MinOf(values).value <= SumOf(values) <= |values| * MaxOf(values).value
  {
    SumAtLeast(values, MinOf(values).value);
    SumAtMost(values, MaxOf(values).value);
  }

  /** The result of a store call over the values of the summed field, one
      per record, in ungrouped mode.  `average` (a floating-point division)
      and custom aggregate functions are not modelled. */
  datatype Reduced = Value(n: int) | NoValue | NotModelled

  function Reduce(call: StoreCall, values: seq<int>): (r: Reduced)
    ensures call.Count? ==> r == Value(|values|)
    ensures call.Sum? ==> r == Value(SumOf(values))
    ensures (call.Min? || call.Max?) ==> (r == NoValue <==> values == [])
    ensures call.Min? && r.Value? ==> r.n in values && forall i :: 0 <= i < |values| ==> r.n <= values[i]
    ensures call.Max? && r.Value? ==> r.n in values && forall i :: 0 <= i < |values| ==> values[i] <= r.n
  {
    match call
    case Count(_) => Value(|values|)
    case Sum(_, _) => Value(SumOf(values))
    case Min(_, _) => if values == [] then NoValue else Value(MinOf(values).value)
    case Max(_, _) => if values == [] then NoValue else Value(MaxOf(values).value)
    case Average(_, _) => NotModelled
    case Aggregate(_, _, _) => NotModelled
  }
}
