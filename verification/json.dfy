/**
 Values of the request bodies the object service accepts. A stored object is an
 open-ended JSON object: any field name, any JSON value, no schema.
 */
module Json {

  /** A JSON value. Numbers are kept as reals; integers and floats are not told apart. */
  datatype Json =
    | JNull
    | JBool(b: bool)
    | JNumber(n: real)
    | JString(s: string)
    | JArray(items: seq<Json>)
    | JObject(fields: map<string, Json>)

  /** A stored object: a JSON object at the top level, field name to value. */
  type Record = map<string, Json>

  datatype Option<+T> = None | Some(value: T)

  /** Python's `dict.get(key)`: the value under `key`, or None when the key is absent. */
  function Get(r: Record, key: string): Option<Json>
  {
    if key in r then Some(r[key]) else None
  }
}
