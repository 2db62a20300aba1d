/** The Python values that flow through the decoded JSON of the search API and through the
    request parameters: `None`, booleans, integers, floats, strings, lists and
    string-keyed dicts. */
module PyValue {

  datatype Value =
    | None
    | Bool(b: bool)
    | Int(i: int)
    | Float(f: real)
    | Str(s: string)
    | List(items: seq<Value>)
    | Dict(entries: seq<(string, Value)>)

  /** Python's truth test `bool(v)`. */
  predicate Truthy(v: Value) {
    match v
    case None => false
    case Bool(b) => b
    case Int(i) => i != 0
    case Float(f) => f != 0.0
    case Str(s) => s != []
    case List(items) => items != []
    case Dict(entries) => entries != []
  }

  /** `x or default` */
  function Or(x: Value, default: Value): (r: Value)
    ensures Truthy(x) ==> r == x
    ensures !Truthy(x) ==> r == default
  {
    if Truthy(x) then x else default
  }
}
