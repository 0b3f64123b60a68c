/**
 * The JavaScript values that the support helpers inspect: JSON data read
 * back from local storage or from a response body, and the RegExp objects
 * that a route matcher holds. Numbers are modelled as integers.
 */
module JsValue {
  import opened Wrappers

  /** A path pattern handed to `pathToRegexp`: its source string and its `start` option. */
  datatype PathPattern = PathPattern(source: string, start: bool)

  datatype Value =
    | Undefined
    | Null
    | Bool(b: bool)
    | Num(n: int)
    | Str(s: string)
    | Arr(items: seq<Value>)
    | Obj(fields: map<string, Value>)
    | RegExp(pattern: PathPattern)

  /** JavaScript truthiness: `undefined`, `null`, `false`, `0` and `""` are falsy. */
  predicate Truthy(v: Value)
  {
    match v
    case Undefined => false
    case Null => false
    case Bool(b) => b
    case Num(n) => n != 0
    case Str(s) => s != ""
    case _ => true
  }

  /** The `typeof` operator. Note that `typeof null` is "object". */
  function TypeOf(v: Value): (t: string)
    ensures t == "object" <==> (v.Null? || v.Arr? || v.Obj? || v.RegExp?)
    ensures t == "string" <==> v.Str?
  {
    match v
    case Undefined => "undefined"
    case Null => "object"
    case Bool(_) => "boolean"
    case Num(_) => "number"
    case Str(_) => "string"
    case Arr(_) => "object"
    case Obj(_) => "object"
    case RegExp(_) => "object"
  }

  /**
   * Property access `v[key]`. `None` stands for the TypeError thrown when
   * `v` is `null` or `undefined`; a missing property reads as `undefined`.
   * The property names used by the model are not built-in properties of
   * primitives or arrays, so those read as `undefined` too.
   */
  function GetProp(v: Value, key: string): (r: Option<Value>)
    ensures r.None? <==> (v.Null? || v.Undefined?)
    ensures v.Obj? && key in v.fields ==> r == Some(v.fields[key])
    ensures !(v.Obj? && key in v.fields) && r.Some? ==> r == Some(Undefined)
  {
    match v
    case Undefined => None
    case Null => None
    case Obj(fields) => if key in fields then Some(fields[key]) else Some(Undefined)
    case _ => Some(Undefined)
  }

  /**
   * Numeric conversion as `x * 1000` performs it. `None` stands for NaN.
   * Strings and arrays are not converted by the model (see the README).
   */
  function ToNumber(v: Value): (r: Option<int>)
    ensures v.Num? ==> r == Some(v.n)
    ensures r.Some? ==> v.Num? || v.Null? || v.Bool?
  {
    match v
    case Num(n) => Some(n)
    case Null => Some(0)
    case Bool(b) => Some(if b then 1 else 0)
    case _ => None
  }

  /** The decimal digits of `n`. */
  function NatText(n: nat): (r: string)
    decreases n
    ensures |r| >= 1 && forall i :: 0 <= i < |r| ==> '0' <= r[i] <= '9'
  {
    if n < 10 then ["0123456789"[n]] else NatText(n / 10) + ["0123456789"[n % 10]]
  }

  /**
   * A scalar interpolated into a template literal, `${v}`. `None` for
   * arrays, objects and regular expressions, whose rendering the model
   * does not cover.
   */
  function ScalarText(v: Value): (r: Option<string>)
    ensures v.Str? ==> r == Some(v.s)
    ensures r.None? <==> (v.Arr? || v.Obj? || v.RegExp?)
  {
    match v
    case Undefined => Some("undefined")
    case Null => Some("null")
    case Bool(b) => Some(if b then "true" else "false")
    case Num(n) => Some(if n < 0 then "-" + NatText(-n) else NatText(n))
    case Str(s) => Some(s)
    case _ => None
  }
}
