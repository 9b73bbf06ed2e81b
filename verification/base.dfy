/** Shared value types: optional values, results with typed errors, raw bytes
    and the JSON values that cross the HTTP boundaries between the services. */
module Base {

  datatype Option<+T> = None | Some(value: T) {
    function GetOr(default: T): T {
      match this
      case Some(v) => v
      case None => default
    }
  }

  datatype Result<+T, +E> = Ok(value: T) | Err(error: E)

  newtype byte = x: int | 0 <= x < 256

  /** An uninterpreted byte payload (an uploaded or downloaded image). */
  type Bytes = seq<byte>

  /** A decoded JSON document, as `json.load` or `response.json()` yields it. */
  datatype Json =
    | JNull
    | JBool(b: bool)
    | JInt(i: int)
    | JNum(r: real)
    | JStr(s: string)
    | JArr(items: seq<Json>)
    | JObj(fields: map<string, Json>)

  /** Python's `obj[key]` on a decoded JSON value: defined only on an object
      holding the key (a list, scalar or missing key raises). */
  function Field(j: Json, key: string): (r: Option<Json>)
    ensures r.Some? <==> j.JObj? && key in j.fields
    ensures r.Some? ==> r.value == j.fields[key]
  {
    if j.JObj? && key in j.fields then Some(j.fields[key]) else None
  }
}
