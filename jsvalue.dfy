/** JavaScript values as far as the application inspects them: truthiness
    (`if (!x)`, `x || y`), nullish defaulting (`x ?? y`) and `String(x)`.
    Numbers are the integer-valued ones; the object form stands for any
    object or function, which are all truthy. */
module JsValue {
  import opened JsString

  datatype Value = Undefined | Null | Bool(b: bool) | Num(n: int) | Str(s: string) | Obj(ref: nat)

  /** ToBoolean: false, 0, "", null and undefined are falsy. */
  predicate Truthy(v: Value) {
    match v
    case Undefined => false
    case Null => false
    case Bool(b) => b
    case Num(n) => n != 0
    case Str(s) => s != ""
    case Obj(_) => true
  }

  /** `v ?? d`. */
  function Nullish(v: Value, d: Value): (r: Value)
    ensures (v.Undefined? || v.Null?) ==> r == d
    ensures !(v.Undefined? || v.Null?) ==> r == v
  {
    if v.Undefined? || v.Null? then d else v
  }

  /** `String(v)` for a primitive; an object prints as "[object Object]". */
  function ToStr(v: Value): (r: string)
    ensures v.Str? ==> r == v.s
  {
    match v
    case Undefined => "undefined"
    case Null => "null"
    case Bool(b) => if b then "true" else "false"
    case Num(n) => IntToString(n)
    case Str(s) => s
    case Obj(_) => "[object Object]"
  }

  /** `Math.round(x)`: the nearest integer, halves rounded up. */
  function Round(x: real): (r: int)
    ensures r as real - 0.5 <= x < r as real + 0.5
  {
    (x + 0.5).Floor
  }
}
