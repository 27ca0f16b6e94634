/** JavaScript values as they reach the event pipeline: the fields of a parsed
    JSON request body, and the keys of the JS `Map`/`Set` collections that the
    stats store uses. */
module JsValues {

  /** A value that may be absent: the `null` a lookup function returns. */
  datatype Option<T> = None | Some(value: T)

  /** A JavaScript value. Numbers are kept as exact decimals; objects and
      arrays are compared by reference, so they are represented by an
      identity only. */
  datatype Value =
    | Undefined
    | Null
    | Bool(b: bool)
    | Num(n: real)
    | Str(s: string)
    | Ref(id: nat)

  /** JavaScript truthiness: `undefined`, `null`, `false`, `0` and `""` are
      falsy, everything else is truthy. */
  predicate Truthy(v: Value) {
    match v
    case Undefined => false
    case Null => false
    case Bool(b) => b
    case Num(n) => n != 0.0
    case Str(s) => s != ""
    case Ref(_) => true
  }

  /** Whether converting the value to a string, as a template literal does,
      can throw. Primitives never throw. An object can, for instance when its
      `toString` and `valueOf` properties are not functions. Whether a given
      object actually throws is left to the caller's oracle. */
  predicate ToStringMayThrow(v: Value) {
    v.Ref?
  }

  /** A plain object: its own enumerable properties. */
  type Object = map<string, Value>

  /** Property read `o.key`: a missing property reads as `undefined`. */
  function Get(o: Object, key: string): Value {
    if key in o then o[key] else Undefined
  }
}
