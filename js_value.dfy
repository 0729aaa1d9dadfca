/**
 * JavaScript values as the action sees them: the parsed spec document and
 * the platform's JSON responses.
 */
module JsValue {
  import opened Wrappers

  /** Numbers are integers here; NaN and fractions are not modelled. */
  datatype Value =
    | Undefined
    | Null
    | Bool(b: bool)
    | Num(n: int)
    | Str(s: string)
    | Arr(items: seq<Value>)
    | Obj(fields: map<string, Value>)

  /** JavaScript truthiness: undefined, null, false, 0 and "" are falsy. */
  predicate Truthy(v: Value) {
    match v
    case Undefined => false
    case Null => false
    case Bool(b) => b
    case Num(n) => n != 0
    case Str(s) => s != ""
    case Arr(_) => true
    case Obj(_) => true
  }

  /** `o.key` on a plain object: a missing key reads as `undefined`. */
  function Get(m: map<string, Value>, key: string): Value {
    if key in m then m[key] else Undefined
  }

  /**
   * `v.key` on any value; None when JavaScript throws a TypeError, which it
   * does for a property read on null or undefined. Built-in properties of
   * primitives and arrays (`length` and the like) are not modelled.
   */
  function Member(v: Value, key: string): Option<Value> {
    match v
    case Undefined => None
    case Null => None
    case Obj(m) => Some(Get(m, key))
    case _ => Some(Undefined)
  }

  /**
   * `key in v`; None when JavaScript throws a TypeError, which it does when
   * the right operand is not an object. Array index keys are not modelled.
   */
  function HasProperty(v: Value, key: string): Option<bool> {
    match v
    case Obj(m) => Some(key in m)
    case Arr(_) => Some(false)
    case _ => None
  }
}
