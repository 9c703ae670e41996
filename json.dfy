/** Decoded JSON values, as `JSON.parse` hands them to the page script. */
module Json {

  /** A decoded JSON value. Numbers are kept exact (no floating point);
      an object maps member names to values. */
  datatype Value =
    | Null
    | Bool(b: bool)
    | Num(n: real)
    | Str(s: string)
    | Arr(items: seq<Value>)
    | Obj(members: map<string, Value>)

  /** The outcome of `JSON.parse` on a document: it throws on malformed text. */
  datatype Parsed = Malformed | Document(value: Value)

  /** JavaScript truthiness of a decoded value: `null`, `false`, `0` and the
      empty string are falsy; every array and object is truthy. */
  predicate Truthy(v: Value) {
    match v
    case Null => false
    case Bool(b) => b
    case Num(n) => n != 0.0
    case Str(s) => s != []
    case Arr(_) => true
    case Obj(_) => true
  }
}
