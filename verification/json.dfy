/** The part of a JSON value (serde_json::Value) that a subscription document can hold. */
module Json {

  /** A JSON value. Numbers are kept as integers: no handler looks inside them. */
  datatype Value =
    | Null
    | Bool(b: bool)
    | Num(n: int)
    | Str(s: string)
    | Arr(items: seq<Value>)
    | Obj(fields: map<string, Value>)

  /** `v.as_str().unwrap_or_default()`: the text of a string, "" for any other value. */
  function AsStrOrDefault(v: Value): string
  {
    if v.Str? then v.s else ""
  }
}
