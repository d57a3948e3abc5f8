/** The JavaScript values the remote functions receive from a form or a command body, and
    the `Number(value)` conversion they apply. How `Number` reads a string (decimal,
    hexadecimal, exponent, surrounding whitespace) is left to a parameter `parse`. */
module Js {
  import opened Wrappers

  /** A JavaScript number: finite, one of the infinities, or NaN. */
  datatype JsNumber = Finite(value: real) | PosInfinity | NegInfinity | NaN {
    /** `Number.isFinite(n)`. */
    predicate IsFinite() { Finite? }

    /** `Number.isNaN(n)`. */
    predicate IsNaN() { NaN? }
  }

  /** An untyped field of a request body: missing, `null`, a string or a number. */
  datatype FormValue = Undefined | Null | Str(s: string) | Num(n: JsNumber)

  /** `value === undefined || value === null || value === ''`. */
  predicate IsEmptyValue(v: FormValue) {
    v.Undefined? || v.Null? || v == Str("")
  }

  /** `Number(value)`: `undefined` is NaN, `null` is 0, a number is itself, and a string is
      whatever `parse` reads from it. */
  function ToJsNumber(v: FormValue, parse: string -> JsNumber): (n: JsNumber)
    ensures v.Num? ==> n == v.n
    ensures v.Str? ==> n == parse(v.s)
    ensures v.Undefined? ==> n.NaN?
    ensures v.Null? ==> n == Finite(0.0)
  {
    match v
    case Undefined => NaN
    case Null => Finite(0.0)
    case Str(s) => parse(s)
    case Num(n) => n
  }

  /** The integer a number equals, if it equals one. */
  function IntegralValue(n: JsNumber): (r: Option<int>)
    ensures r.Some? <==> n.Finite? && n.value == n.value.Floor as real
    ensures r.Some? ==> r.value as real == n.value
  {
    if n.Finite? && n.value == n.value.Floor as real then Some(n.value.Floor) else None
  }

  /** The key an `eq(table.id, n)` filter compares with. Row ids start at 1, so a number that
      is not a positive integer (NaN, a fraction, zero or less) matches no row, and is
      represented by 0. */
  function RowKey(n: JsNumber): (k: int)
    ensures k >= 0
    ensures k >= 1 <==> IntegralValue(n).Some? && IntegralValue(n).value >= 1
    ensures k >= 1 ==> k as real == n.value
  {
    match IntegralValue(n)
    case Some(i) => if i >= 1 then i else 0
    case None => 0
  }
}
