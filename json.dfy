/** The part of `serde_json::Value` the canisters read: objects, arrays,
    strings, and the accessors `get`, indexing with `[..]`, `as_str` and
    `as_array`. Parsing JSON text is not modelled; interpretation starts
    from a parsed value. */
module Json {
  import opened Wrappers

  datatype Value =
    | Null
    | Bool(b: bool)
    | Number(n: int)
    | Str(s: string)
    | Array(items: seq<Value>)
    | Object(fields: map<string, Value>)

  /** `value.get(key)`: the member of an object, and `None` for a missing
      key or for a value that is not an object. */
  function Get(v: Value, key: string): Option<Value> {
    if v.Object? && key in v.fields then Some(v.fields[key]) else None
  }

  /** `value[key]`: like `get`, but `Null` where `get` has nothing. */
  function Index(v: Value, key: string): Value {
    Get(v, key).GetOr(Null)
  }

  /** `value.as_str()`. */
  function AsStr(v: Value): Option<string> {
    if v.Str? then Some(v.s) else None
  }

  /** `value.as_array()`. */
  function AsArray(v: Value): Option<seq<Value>> {
    if v.Array? then Some(v.items) else None
  }

  /** `value.get(key).and_then(|x| x.as_str())`. */
  function GetStr(v: Value, key: string): Option<string> {
    match Get(v, key)
    case Some(x) => AsStr(x)
    case None => None
  }

  /** `value.get(key).and_then(|x| x.as_array())`. */
  function GetArray(v: Value, key: string): Option<seq<Value>> {
    match Get(v, key)
    case Some(x) => AsArray(x)
    case None => None
  }
}
