/** `getSummaryRcd` (ux/grid/Printer.js:746-755): pick, from a remote
    summary payload, the row that belongs to a group. */
module RawData {
  import opened Wrappers
  import opened Js

  /** The payload read from the reader's raw data: an array of rows, or a
      single object whose `data` property holds the field values. */
  datatype Payload =
    | RowArray(rows: seq<Row>)
    | Single(obj: Row, data: Option<Row>)

  /** The test applied to each row of an array (line 749): the field is
      truthy and loosely equal to the group value. */
  predicate RowMatches(row: Row, fieldName: string, value: JsValue)
  {
    Truthy(Get(row, fieldName)) && LooseEquals(Get(row, fieldName), value)
  }

  /** `getSummaryRcd`.  In the array case the answer is the first matching
      row, or `undefined`; a single object is returned itself when its
      `data[fieldName]` is truthy, and reading `data` on an object without
      it raises a `TypeError`. */
  method GetSummaryRcd(payload: Payload, fieldName: string, value: JsValue) returns (r: Result<Option<Row>>)
    ensures payload.RowArray? ==> r.Success?
    ensures payload.RowArray? && r.value.Some? ==>
      exists i :: 0 <= i < |payload.rows| && payload.rows[i] == r.value.value &&
                  RowMatches(payload.rows[i], fieldName, value) &&
                  forall j :: 0 <= j < i ==> !RowMatches(payload.rows[j], fieldName, value)
    ensures payload.RowArray? && r.value.None? ==>
      forall j :: 0 <= j < |payload.rows| ==> !RowMatches(payload.rows[j], fieldName, value)
    ensures payload.Single? ==> (r.Failure? <==> payload.data.None?)
    ensures payload.Single? && r.Success? ==>
      r.value == (if Truthy(Get(payload.data.value, fieldName)) then Some(payload.obj) else None)
  {
    if payload.RowArray? {
      var rows := payload.rows;
      for i := 0 to |rows|
        invariant forall j :: 0 <= j < i ==> !RowMatches(rows[j], fieldName, value)
      {
        var v := Get(rows[i], fieldName);
        if Truthy(v) && LooseEquals(v, value) {
          return Success(Some(rows[i]));
        }
      }
      return Success(None);
    }
    if payload.data.None? {
      return Failure(TypeError("data"));
    }
    if Truthy(Get(payload.data.value, fieldName)) {
      return Success(Some(payload.obj));
    }
    return Success(None);
  }

  /** An `undefined`, `null` or empty group value never finds a row: the
      row's field must be truthy, and no truthy value is loosely equal to
      those. */
  lemma {:induction false} NoRowForEmptyValue(row: Row, fieldName: string, value: JsValue)
    requires value.Undefined? || value.Null? || value == Str("")
    ensures !RowMatches(row, fieldName, value)
  {
    var v := Get(row, fieldName);
    if Truthy(v) && value == Str("") {
      match v
      case Num(n) =>
        assert ToNumber(value) == Some(0);
      case Bool(b) =>
        assert ToNumber(value) == Some(0);
      case Str(s) =>
      case Undefined =>
      case Null =>
    }
  }

  /** The test is JavaScript's loose one: a group value `0` finds a row whose
      field holds the (truthy) string "0". */
  lemma ZeroFindsStringZero(fieldName: string)
    ensures RowMatches(map[fieldName := Str("0")], fieldName, Num(0))
  {
    assert DigitsValue("0") == 0 by { assert "0"[..0] == ""; }
  }

  /** The truthiness guard comes first: a row whose group field is falsy
      (`0`, `false`, `''`, `null` or missing) is never found, even for a
      value it is loosely equal to, such as `0` for a field holding `0`. */
  lemma FalsyKeyNotFound(row: Row, fieldName: string, value: JsValue)
    requires !Truthy(Get(row, fieldName))
    ensures !RowMatches(row, fieldName, value)
    ensures Get(row, fieldName) == Num(0) ==> LooseEquals(Get(row, fieldName), Num(0))
  {
  }
}
