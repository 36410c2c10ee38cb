/** JavaScript values as the call-transcript back end and the dashboards
    see them: numbers (finite or not), null/undefined, booleans and strings,
    with JavaScript's `Number(...)` conversion and truthiness. */
module Js {

  datatype Option<+T> = None | Some(value: T) {
    function GetOr(default: T): T {
      match this
      case Some(v) => v
      case None => default
    }
  }

  /** A JavaScript number: a finite value, NaN, or an infinity. */
  datatype Num = Finite(v: real) | NaN | Infinity(positive: bool)

  /** A JavaScript value handed to `Number(...)` or tested for truthiness.
      JavaScript's string-to-number parsing is not modelled: a string carries
      the number JavaScript reads from it (`reading`), which is used only
      when the string is non-empty (`Number("")` is 0). */
  datatype Value =
    | Undefined
    | Null
    | Bool(b: bool)
    | Number(n: Num)
    | Text(s: string, reading: Num)

  /** `Number.MAX_SAFE_INTEGER` */
  const MaxSafeInteger: int := 9007199254740991

  /** A finite integer as a JavaScript number. */
  function Int(i: int): Value {
    Number(Finite(i as real))
  }

  /** `Number(x)` */
  function ToNumber(x: Value): (n: Num)
    ensures x.Null? ==> n == Finite(0.0)
    ensures x.Undefined? ==> n.NaN?
  {
    match x
    case Undefined => NaN
    case Null => Finite(0.0)
    case Bool(b) => if b then Finite(1.0) else Finite(0.0)
    case Number(n) => n
    case Text(s, reading) => if s == "" then Finite(0.0) else reading
  }

  /** JavaScript truthiness: `!!x` */
  predicate Truthy(x: Value) {
    match x
    case Undefined => false
    case Null => false
    case Bool(b) => b
    case Number(n) => n.Infinity? || (n.Finite? && n.v != 0.0)
    case Text(s, _) => s != ""
  }

  /** `x || fallback` */
  function Or(x: Value, fallback: Value): Value {
    if Truthy(x) then x else fallback
  }

  /** A string field of a JSON payload read with `field || null`: absent and
      the empty string both become None. */
  function NonEmpty(s: Option<string>): (r: Option<string>)
    ensures r.Some? <==> s.Some? && s.value != ""
    ensures r.Some? ==> r == s
  {
    if s.Some? && s.value != "" then s else None
  }
}
