/** An already-parsed JSON document, the shape of `serde_json::Value`, and
    the accessors the decoders use on it. */
module JsonValue {
  import opened Wrappers

  /** `Num` keeps only integers: every place that reads a number here rejects
      it anyway, so floating point never matters. An object maps each key to
      one value, as `serde_json::Map` does. */
  datatype Json =
    | Null
    | Bool(b: bool)
    | Num(n: int)
    | Str(s: string)
    | Arr(items: seq<Json>)
    | Obj(fields: map<string, Json>)

  /** `Value::get(key)`: the member `key` of an object, `None` for a missing
      key and for every value that is not an object. */
  function Get(v: Json, key: string): (r: Option<Json>)
    ensures r.Some? <==> v.Obj? && key in v.fields
    ensures r.Some? ==> r.value == v.fields[key]
  {
    if v.Obj? && key in v.fields then Some(v.fields[key]) else None
  }

  /** `Value::get(i)`: the `i`-th element of an array, `None` out of range
      and for every value that is not an array. */
  function At(v: Json, i: nat): (r: Option<Json>)
    ensures r.Some? <==> v.Arr? && i < |v.items|
    ensures r.Some? ==> r.value == v.items[i]
  {
    if v.Arr? && i < |v.items| then Some(v.items[i]) else None
  }

  /** `Value::as_str`. */
  function AsStr(v: Json): (r: Option<string>)
    ensures r.Some? <==> v.Str?
    ensures r.Some? ==> r.value == v.s
  {
    if v.Str? then Some(v.s) else None
  }

  /** `Value::as_array`. */
  function AsArray(v: Json): (r: Option<seq<Json>>)
    ensures r.Some? <==> v.Arr?
    ensures r.Some? ==> r.value == v.items
  {
    if v.Arr? then Some(v.items) else None
  }

  /** `v.get(key).and_then(|x| x.as_str())`: the string member `key` of `v`. */
  function GetStr(v: Json, key: string): (r: Option<string>)
    ensures r.Some? <==> v.Obj? && key in v.fields && v.fields[key].Str?
    ensures r.Some? ==> r.value == v.fields[key].s
  {
    match Get(v, key)
    case None => None
    case Some(x) => AsStr(x)
  }
}
