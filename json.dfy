/** JSON values as they arrive in a request body or leave in a response body,
    with JavaScript's truthiness and property access. */
module Json {
  import opened Wrappers

  datatype Value =
    | Undefined
    | Null
    | Bool(b: bool)
    | Num(n: int)
    | Str(s: string)
    | Arr(items: seq<Value>)
    | Obj(fields: map<string, Value>)

  /** JavaScript's `!!v`. */
  predicate Truthy(v: Value) {
    match v
    case Undefined => false
    case Null => false
    case Bool(b) => b
    case Num(n) => n != 0
    case Str(s) => s != ""
    case Arr(_) => true
    case Obj(_) => true
  }

  /** `v.key` on a value that is not null or undefined: the property of an
      object, `undefined` when it is missing or `v` is a primitive. */
  function Get(v: Value, key: string): Value {
    if v.Obj? && key in v.fields then v.fields[key] else Undefined
  }

  /** `v ?? fallback`. */
  function Coalesce(v: Value, fallback: Value): Value {
    if v.Undefined? || v.Null? then fallback else v
  }

  /** The `{ message }` body that every handler uses for a failure. */
  function Message(text: string): Value {
    Obj(map["message" := Str(text)])
  }

  /** An optional string column as JSON: the string, or `null`. */
  function OptStr(o: Option<string>): Value {
    match o
    case Some(s) => Str(s)
    case None => Null
  }
}
