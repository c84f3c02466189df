/** The few JavaScript value kinds the package descriptor and its driver
    distinguish, with JavaScript's truthiness. */
module JsValues {

  /** A JavaScript value. Numbers are integers here (no NaN, no fractions);
      `Pending` is a promise that has not settled yet. */
  datatype Value =
    | Undefined
    | Null
    | Bool(b: bool)
    | Num(n: int)
    | Str(s: string)
    | Arr(elems: seq<Value>)
    | Obj(props: map<string, Value>)
    | Pending

  /** ToBoolean: what an `if (v)` or a `!v` tests. */
  predicate Truthy(v: Value)
  {
    match v
    case Undefined => false
    case Null => false
    case Bool(b) => b
    case Num(n) => n != 0
    case Str(s) => s != ""
    case Arr(_) => true
    case Obj(_) => true
    case Pending => true
  }

  /** `isObject`: a plain key-value object. Arrays, promises and primitives
      are not. */
  predicate IsObject(v: Value)
  {
    v.Obj?
  }

  /** The property read `o.key` on an object: a missing key reads as
      `undefined`. */
  function Get(o: Value, key: string): Value
    requires o.Obj?
  {
    if key in o.props then o.props[key] else Undefined
  }
}
