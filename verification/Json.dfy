/** JSON values and the accessors the compatibility code reads them with. */
module Json {
  import opened Prelude

  datatype Json =
    | JNull
    | JBool(boolean: bool)
    | JInteger(integer: int)
    | JReal(number: real)
    | JString(text: string)
    | JArray(items: seq<Json>)
    | JObject(fields: map<string, Json>)

  function Get(v: Json, field: string): Option<Json> {
    if v.JObject? && field in v.fields then Some(v.fields[field]) else None
  }

  /** Follows a path of field names. */
  function At(v: Json, path: seq<string>): Option<Json>
    decreases |path|
  {
    if path == [] then Some(v)
    else
      match Get(v, path[0])
      case None => None
      case Some(child) => At(child, path[1..])
  }

  function AsText(v: Option<Json>): Option<string> {
    if v.Some? && v.value.JString? then Some(v.value.text) else None
  }

  function AsBool(v: Option<Json>): Option<bool> {
    if v.Some? && v.value.JBool? then Some(v.value.boolean) else None
  }

  function AsU64(v: Option<Json>): Option<nat> {
    if v.Some? && v.value.JInteger? && 0 <= v.value.integer <= U64_MAX then Some(v.value.integer) else None
  }

  function AsNumber(v: Option<Json>): Option<real> {
    if v.Some? && v.value.JInteger? then Some(v.value.integer as real)
    else if v.Some? && v.value.JReal? then Some(v.value.number)
    else None
  }

  predicate AbsentOrNull(v: Option<Json>) {
    v.None? || v.value.JNull?
  }

  function TextAt(v: Json, path: seq<string>): Option<string> {
    AsText(At(v, path))
  }

  function BoolAt(v: Json, path: seq<string>): Option<bool> {
    AsBool(At(v, path))
  }
}
