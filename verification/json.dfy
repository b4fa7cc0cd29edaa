/**
 * An abstract JSON value: what `JSON.parse` produces. Numbers are reals
 * (JSON numbers are decimal; the double rounding of the runtime is not
 * modelled). An object is a map from keys to values, since `JSON.parse`
 * keeps the last of duplicated keys.
 */
module Json {
  import opened Optional

  datatype Json =
    | JNull
    | JBool(b: bool)
    | JNumber(n: real)
    | JString(s: string)
    | JArray(items: seq<Json>)
    | JObject(fields: map<string, Json>)

  /** `value[key]` on a parsed value: present only on objects that hold the key. */
  function Get(value: Json, key: string): (r: Option<Json>)
    ensures r.Some? <==> value.JObject? && key in value.fields
    ensures r.Some? ==> r.value == value.fields[key]
  {
    match value
    case JObject(fields) => if key in fields then Some(fields[key]) else None
    case _ => None
  }
}
