/** The JavaScript values a JSON request body can carry, and how `if (x)` reads them. */
module JsValues {

  /**
   * A value taken out of a parsed JSON body. `Undefined` is a key the body
   * does not have: it stands only for an absent top-level field of the body
   * and never occurs inside an `Arr`, since JSON text cannot denote it.
   * `Null` is an explicit JSON null and also stands for SQL NULL once stored.
   * JSON numbers are modelled as integers.
   */
  datatype Value =
    | Undefined
    | Null
    | Bool(b: bool)
    | Num(n: int)
    | Str(s: string)
    | Arr(items: seq<Value>)
    | Obj

  /** JavaScript truthiness: `undefined`, `null`, `false`, `0` and `""` are falsy, every array and object is truthy. */
  predicate Truthy(v: Value) {
    match v
    case Undefined => false
    case Null => false
    case Bool(b) => b
    case Num(n) => n != 0
    case Str(s) => s != ""
    case Arr(_) => true
    case Obj => true
  }
}
