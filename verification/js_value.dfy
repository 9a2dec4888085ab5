/**
 * The JSON values a route reads from its request body, with the two JavaScript
 * notions the routes apply to them: truthiness (`!x`, `x || d`) and template
 * interpolation (`${x}`).
 */
module JsValue {
  import JsText

  /**
   * A field of a parsed request body. `Undefined` is a field that is absent.
   * Numbers are exact reals: NaN, the infinities and -0 are not modelled.
   * Objects are opaque, since no route looks inside one.
   */
  datatype Value =
    | Undefined
    | Null
    | Bool(b: bool)
    | Number(n: real)
    | Str(s: string)
    | Array(items: seq<Value>)
    | Object

  /** JavaScript truthiness: `undefined`, `null`, `false`, `0` and `""` are falsy. */
  predicate Truthy(v: Value) {
    match v
    case Undefined => false
    case Null => false
    case Bool(b) => b
    case Number(n) => n != 0.0
    case Str(s) => |s| > 0
    case Array(_) => true
    case Object => true
  }

  /** `a || b`: the first operand when it is truthy, otherwise the second. */
  function Or(a: Value, b: Value): (r: Value)
    ensures Truthy(a) ==> r == a
    ensures !Truthy(a) ==> r == b
  {
    if Truthy(a) then a else b
  }

  /**
   * `${v}` in a template literal, i.e. `String(v)`. The conversion of a number to
   * its shortest round-tripping decimal is left abstract as `show`.
   */
  function Interp(v: Value, show: real -> string): string
    decreases v, 1
  {
    match v
    case Undefined => "undefined"
    case Null => "null"
    case Bool(b) => if b then "true" else "false"
    case Number(n) => show(n)
    case Str(s) => s
    case Array(items) => JoinItems(items, show)
    case Object => "[object Object]"
  }

  /** `String(array)`: the elements joined by commas, `null` and `undefined` as empty. */
  function JoinItems(items: seq<Value>, show: real -> string): string
    decreases items, 0
  {
    if |items| == 0 then ""
    else
      var first := if items[0].Undefined? || items[0].Null? then "" else Interp(items[0], show);
      if |items| == 1 then first else first + "," + JoinItems(items[1..], show)
  }
}
