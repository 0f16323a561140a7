/** JavaScript values as the dashboard's code sees them: plain objects read with optional
    chaining, combined with `||` and object spread. Numbers are reals (no floating point);
    `NaN` is kept apart because the validation schemas treat it specially. */
module Js {

  datatype Value =
    | Undefined
    | Null
    | Bool(b: bool)
    | Num(n: real)
    | NaN
    | Str(s: string)
    | Arr(items: seq<Value>)
    | Obj(fields: map<string, Value>)

  /** `undefined` as an absent optional value (a missing parameter, a missing router locale). */
  datatype Option<T> = None | Some(value: T) {
    /** `x ?? default` for a value that is either present or `undefined`. */
    function GetOr(default: T): T {
      if Some? then value else default
    }
  }

  /** A plain object: the keys it owns and their values. */
  type Record = map<string, Value>

  /** `v?.[key]`: the property of an object, `undefined` for a missing key or a non-object. */
  function Get(v: Value, key: string): (r: Value)
    ensures !v.Obj? ==> r == Undefined
    ensures v.Obj? && key !in v.fields ==> r == Undefined
  {
    if v.Obj? && key in v.fields then v.fields[key] else Undefined
  }

  /** `r[key]` on a plain object. */
  function Field(r: Record, key: string): Value {
    Get(Obj(r), key)
  }

  /** JavaScript truthiness (`Boolean(v)`). */
  predicate Truthy(v: Value) {
    match v
    case Undefined => false
    case Null => false
    case NaN => false
    case Bool(b) => b
    case Num(n) => n != 0.0
    case Str(s) => s != ""
    case Arr(_) => true
    case Obj(_) => true
  }

  /** `a || b`: the first operand when it is truthy, otherwise the second. */
  function Or(a: Value, b: Value): (r: Value)
    ensures Truthy(a) ==> r == a
    ensures !Truthy(a) ==> r == b
  {
    if Truthy(a) then a else b
  }

  /** `{...r, ...v}`: the own entries of `v`, when it is an object, override those of `r`;
      spreading `undefined`, `null` or a primitive adds nothing. */
  function Spread(r: Record, v: Value): (m: Record)
    ensures v.Obj? ==> m.Keys == r.Keys + v.fields.Keys
    ensures !v.Obj? ==> m == r
    ensures forall k :: k in m ==> Field(m, k) == (if v.Obj? && k in v.fields then v.fields[k] else r[k])
  {
    if v.Obj? then r + v.fields else r
  }
}
