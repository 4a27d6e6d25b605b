/** The small part of JavaScript's value semantics that the printer's
    conditions depend on: truthiness and the loose equality `==`. */
module Js {
  import opened Wrappers

  /** A primitive JavaScript value.  Numbers are modelled as integers:
      fractional numbers, NaN and the infinities are not part of this model. */
  datatype JsValue =
    | Undefined
    | Null
    | Bool(b: bool)
    | Num(n: int)
    | Str(s: string)

  /** A plain object (a raw data row), as a map from property names to values;
      a property that is not in the map reads as `undefined`. */
  type Row = map<string, JsValue>

  function Get(row: Row, key: string): (v: JsValue)
    ensures key !in row ==> v == Undefined
    ensures key in row ==> v == row[key]
  {
    if key in row then row[key] else Undefined
  }

  /** JavaScript's truthiness: `undefined`, `null`, `false`, `0` and `""`
      are falsy, everything else is truthy. */
  predicate Truthy(v: JsValue)
  {
    match v
    case Undefined => false
    case Null => false
    case Bool(b) => b
    case Num(n) => n != 0
    case Str(s) => s != ""
  }

  predicate IsDigit(c: char) { '0' <= c <= '9' }

  /** The value of a string of decimal digits. */
  function DigitsValue(s: string): (n: nat)
    requires forall i :: 0 <= i < |s| ==> IsDigit(s[i])
    ensures s == "0" ==> n == 0
    decreases |s|
  {
    if s == [] then 0
    else
      assert IsDigit(s[|s| - 1]);
      DigitsValue(s[..|s| - 1]) * 10 + (s[|s| - 1] as int - '0' as int)
  }

  /** `Number(s)` for the strings whose conversion this model covers: the
      empty string (which converts to 0) and an optional sign followed by
      decimal digits.  Every other string converts to NaN here (`None`),
      which equals no number. */
  function StringToNumber(s: string): (r: Option<int>)
    ensures s == "" ==> r == Some(0)
    ensures r.Some? && s != "" ==> exists i :: 0 <= i < |s| && IsDigit(s[i])
  {
    if s == "" then Some(0)
    else if (s[0] == '-' || s[0] == '+') && |s| > 1 && forall i :: 1 <= i < |s| ==> IsDigit(s[i]) then
      assert IsDigit(s[1]);
      var magnitude: int := DigitsValue(s[1..]);
      Some(if s[0] == '-' then -magnitude else magnitude)
    else if forall i :: 0 <= i < |s| ==> IsDigit(s[i]) then
      assert IsDigit(s[0]);
      Some(DigitsValue(s))
    else None
  }

  /** The primitive a value becomes when `==` compares it with a value of
      another type: booleans become 0 or 1, strings are converted. */
  function ToNumber(v: JsValue): (r: Option<int>)
    ensures v.Num? ==> r == Some(v.n)
    ensures v.Bool? ==> r == Some(if v.b then 1 else 0)
  {
    match v
    case Undefined => None
    case Null => Some(0)
    case Bool(b) => Some(if b then 1 else 0)
    case Num(n) => Some(n)
    case Str(s) => StringToNumber(s)
  }

  /** JavaScript's abstract equality `a == b` over the modelled values. */
  predicate LooseEquals(a: JsValue, b: JsValue)
  {
    if (a.Undefined? || a.Null?) || (b.Undefined? || b.Null?) then
      (a.Undefined? || a.Null?) && (b.Undefined? || b.Null?)
    else if a.Str? && b.Str? then a.s == b.s
    else if a.Bool? && b.Bool? then a.b == b.b
    else
      // number against number, boolean or string: compare as numbers
      var x, y := ToNumber(a), ToNumber(b);
      x.Some? && y.Some? && x.value == y.value
  }

  /** `==` is symmetric, and on two values of the same type it is `===`. */
  lemma LooseEqualsProperties(a: JsValue, b: JsValue)
    ensures LooseEquals(a, b) == LooseEquals(b, a)
    ensures a.Str? && b.Str? ==> (LooseEquals(a, b) <==> a == b)
    ensures a.Num? && b.Num? ==> (LooseEquals(a, b) <==> a == b)
    ensures LooseEquals(a, a) <==> true
  {
  }

  /** `==` between a string and a number compares the string's numeric
      value: a digit string equals its value, a negated one the negated value,
      and a string that converts to no number equals no number. */
  lemma {:induction false} NumericStrings(s: string, n: int)
    ensures s != "" && (forall i :: 0 <= i < |s| ==> IsDigit(s[i])) ==>
      LooseEquals(Str(s), Num(DigitsValue(s)))
    ensures |s| > 1 && s[0] == '-' && (forall i :: 1 <= i < |s| ==> IsDigit(s[i])) ==>
      (forall i :: 0 <= i < |s[1..]| ==> IsDigit(s[1..][i])) &&
      LooseEquals(Str(s), Num(-(DigitsValue(s[1..]) as int)))
    ensures LooseEquals(Str(s), Num(n)) <==> StringToNumber(s) == Some(n)
    ensures StringToNumber(s).None? ==> !LooseEquals(Str(s), Num(n))
  {
    if s != "" && forall i :: 0 <= i < |s| ==> IsDigit(s[i]) {
      assert IsDigit(s[0]);
    }
  }

  /** Three instances: `"42" == 42`, `"-7" == -7` and `"abc" != 0`. */
  lemma NumericStringExamples()
    ensures LooseEquals(Str("42"), Num(42))
    ensures LooseEquals(Str("-7"), Num(-7))
    ensures !LooseEquals(Str("abc"), Num(0))
  {
    assert DigitsValue("4") == 4 by { assert "4"[..0] == ""; }
    assert DigitsValue("42") == 42 by { assert "42"[..1] == "4"; }
    assert DigitsValue("7") == 7 by { assert "7"[..0] == ""; }
    assert "-7"[1..] == "7";
  }

  /** The empty string equals 0, `true` equals "1", and `null` equals only
      `undefined` (and itself). */
  lemma OtherCoercions()
    ensures LooseEquals(Str(""), Num(0))
    ensures LooseEquals(Bool(true), Str("1"))
    ensures LooseEquals(Null, Undefined)
    ensures !LooseEquals(Null, Num(0))
  {
    assert DigitsValue("1") == 1 by { assert "1"[..0] == ""; }
  }
}
