/** Decoded JSON values as the request handler sees them, with Python's view of them. */
module Json {
  import opened Common

  datatype JsonValue =
    | JNull
    | JBool(b: bool)
    | JNum(x: real)
    | JStr(s: string)
    | JArray(items: seq<JsonValue>)
    | JObject(fields: map<string, JsonValue>)

  /** Python truthiness of a decoded value: `None`, `False`, `0`, `""`, `[]` and `{}` are falsy. */
  predicate Truthy(v: JsonValue): (r: bool)
    ensures !r <==> (v == JNull || v == JBool(false) || v == JNum(0.0)
                     || v == JStr("") || v == JArray([]) || v == JObject(map[]))
  {
    match v
    case JNull => false
    case JBool(b) => b
    case JNum(x) => x != 0.0
    case JStr(s) => |s| > 0
    case JArray(items) => |items| > 0
    case JObject(fields) => |fields| > 0
  }

  /** Whether the value can be a dict key (`list` and `dict` are unhashable). */
  predicate Hashable(v: JsonValue) {
    !v.JArray? && !v.JObject?
  }

  /**
   * Python's `float(v)`: numbers convert, booleans convert to 1.0/0.0, strings
   * are parsed by `parseFloat`, and `None`, lists and dicts raise (`None`).
   */
  function ToFloat(v: JsonValue, parseFloat: string -> Option<real>): (r: Option<real>)
    ensures r.Some? <==> v.JNum? || v.JBool? || (v.JStr? && parseFloat(v.s).Some?)
    ensures v.JNum? ==> r == Some(v.x)
    ensures v.JBool? ==> r == Some(if v.b then 1.0 else 0.0)
    ensures v.JStr? ==> r == parseFloat(v.s)
  {
    match v
    case JNum(x) => Some(x)
    case JBool(b) => Some(if b then 1.0 else 0.0)
    case JStr(s) => parseFloat(s)
    case _ => None
  }

  /** `d.get(key)` on a JSON object: an absent key reads as `None`. */
  function Field(fields: map<string, JsonValue>, key: string): JsonValue {
    if key in fields then fields[key] else JNull
  }
}
