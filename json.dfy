/**
 * The part of serde_json's `Value` that the pairing reply is read through:
 * indexing an array by position, looking up a key of an object, and decoding
 * a value as a `String`.
 */
module Json {
  import opened Wrappers

  datatype Json =
    | JNull
    | JBool(b: bool)
    | JNumber(n: int)
    | JString(s: string)
    | JArray(items: seq<Json>)
    | JObject(fields: map<string, Json>)

  /** `value[i]` with a `usize` index: indexing never fails, a missing element reads as `Null`. */
  function At(v: Json, i: nat): (r: Json)
    ensures v.JArray? && i < |v.items| ==> r == v.items[i]
    ensures !(v.JArray? && i < |v.items|) ==> r == JNull
  {
    match v
    case JArray(items) => if i < |items| then items[i] else JNull
    case _ => JNull
  }

  /** `value.get(key)`: present only when `value` is an object holding `key`. */
  function Get(v: Json, key: string): (r: Option<Json>)
    ensures r.Some? <==> v.JObject? && key in v.fields
    ensures r.Some? ==> r.value == v.fields[key]
  {
    match v
    case JObject(fields) => if key in fields then Some(fields[key]) else None
    case _ => None
  }

  /** `serde_json::from_value::<String>(value)`: succeeds exactly on a JSON string. */
  function AsString(v: Json): (r: Option<string>)
    ensures r.Some? <==> v.JString?
    ensures r.Some? ==> r.value == v.s
  {
    match v
    case JString(s) => Some(s)
    case _ => None
  }
}
