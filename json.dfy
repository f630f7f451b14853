/** The JSON value both engines move around: Python's `dict`/`list`/scalars and
    Rust's `serde_json::Value`. An object's key order is not part of its value. */
module Json {

  /** Numbers are kept as exact reals: integers and floats both fit, and nothing here
      does arithmetic on them. */
  datatype Value =
    | Null
    | Bool(b: bool)
    | Number(n: real)
    | Str(s: string)
    | Array(items: seq<Value>)
    | Object(fields: map<string, Value>)

}
