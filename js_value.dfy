/**
 * JavaScript values as the pipeline sees them after `JSON.parse`, with the
 * three pieces of JavaScript semantics the scripts rely on: truthiness,
 * property access (which throws a TypeError on `null`/`undefined`) and the
 * `typeof x === "string"` test.
 */
module JsValue {

  datatype Option<+T> = None | Some(value: T)

  /** The completion of a JavaScript evaluation: a value, or a thrown exception. */
  datatype Completion<+T> = Normal(value: T) | Thrown {
    predicate IsFailure() { Thrown? }

    function PropagateFailure<U>(): Completion<U>
      requires Thrown?
    {
      Thrown
    }

    function Extract(): T
      requires Normal?
    {
      value
    }
  }

  /**
   * A JSON value, plus `undefined` (what reading an absent property gives).
   * Numbers are reals: `JSON.parse` never yields NaN or an infinity.
   */
  datatype Value =
    | Undefined
    | Null
    | Bool(b: bool)
    | Num(x: real)
    | Str(s: string)
    | Arr(items: seq<Value>)
    | Obj(fields: map<string, Value>)

  /** ECMAScript ToBoolean. */
  predicate Truthy(v: Value) {
    match v
    case Undefined => false
    case Null => false
    case Bool(b) => b
    case Num(x) => x != 0.0
    case Str(s) => s != ""
    case Arr(_) => true
    case Obj(_) => true
  }

  /**
   * `v.key` for the keys the pipeline reads (none of them is a built-in
   * property of strings, numbers, booleans or arrays).
   */
  function Field(v: Value, key: string): (r: Completion<Value>)
    ensures r.Thrown? <==> v.Null? || v.Undefined?
    ensures v.Obj? && key in v.fields ==> r == Normal(v.fields[key])
    ensures !v.Obj? && r.Normal? ==> r.value == Undefined
  {
    match v
    case Undefined => Thrown
    case Null => Thrown
    case Obj(fields) => Normal(Prop(fields, key))
    case _ => Normal(Undefined)
  }

  /** A property of an object: `undefined` when absent. */
  function Prop(fields: map<string, Value>, key: string): Value {
    if key in fields then fields[key] else Undefined
  }

  /** `typeof v === "object" && v !== null && !Array.isArray(v)`. */
  predicate IsPlainObject(v: Value) {
    v.Obj?
  }

  /** `Math.min` on integers. */
  function Min(a: int, b: int): (r: int)
    ensures r <= a && r <= b
    ensures r == a || r == b
  {
    if a <= b then a else b
  }
}
