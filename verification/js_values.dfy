/**
 * JavaScript values as they occur in a card configuration and in the
 * dashboard's entity store, with the coercions the card relies on.
 */
module JsValues {

  /** Numbers are exact reals plus NaN; objects and arrays are compared by contents. */
  datatype Value =
    | Undefined
    | Null
    | Bool(b: bool)
    | Num(x: real)
    | NaN
    | Str(s: string)
    | Arr(elems: seq<Value>)
    | Obj(props: map<string, Value>)

  /** ECMAScript ToBoolean: `undefined`, `null`, `false`, `0`, `NaN` and `''` are falsy. */
  predicate Truthy(v: Value) {
    match v
    case Undefined => false
    case Null => false
    case Bool(b) => b
    case Num(x) => x != 0.0
    case NaN => false
    case Str(s) => s != ""
    case Arr(_) => true
    case Obj(_) => true
  }

  /** The expression `v || d`. */
  function Or(v: Value, d: Value): (r: Value)
    ensures r == v || r == d
    ensures Truthy(r) <==> Truthy(v) || Truthy(d)
    ensures Truthy(v) ==> r == v
  {
    if Truthy(v) then v else d
  }

  predicate Nullish(v: Value) {
    v.Undefined? || v.Null?
  }

  /** The expression `v ?? d`. */
  function Coalesce(v: Value, d: Value): (r: Value)
    ensures r == v || r == d
    ensures Nullish(r) <==> Nullish(v) && Nullish(d)
    ensures !Nullish(v) ==> r == v
  {
    if Nullish(v) then d else v
  }

  /** Reading property `k` of a plain object: a missing property reads as `undefined`. */
  function Get(props: map<string, Value>, k: string): Value {
    if k in props then props[k] else Undefined
  }

  /**
   * ECMAScript ToString, as `String.prototype.replace` applies it to the
   * replacer's result. Formatting a number is the engine's business and is
   * passed in as `show`.
   */
  function ToText(show: real -> string, v: Value): (r: string)
    ensures v.Str? ==> r == v.s
    ensures v == Arr([]) ==> r == ""
    ensures r == "" ==> v == Str("") || v.Num? || v.Arr?
    decreases v, 1
  {
    match v
    case Undefined => "undefined"
    case Null => "null"
    case Bool(b) => if b then "true" else "false"
    case Num(x) => show(x)
    case NaN => "NaN"
    case Str(s) => s
    case Arr(_) => JoinFrom(show, v, 0)
    case Obj(_) => "[object Object]"
  }

  /** `Array.prototype.join(",")` on the elements of `v` from index `i`; nullish elements give ''. */
  function JoinFrom(show: real -> string, v: Value, i: nat): string
    requires v.Arr? && i <= |v.elems|
    decreases v, 0, |v.elems| - i
  {
    if i == |v.elems| then ""
    else
      var e := v.elems[i];
      var head := if Nullish(e) then "" else ToText(show, e);
      if i + 1 == |v.elems| then head else head + "," + JoinFrom(show, v, i + 1)
  }
}
