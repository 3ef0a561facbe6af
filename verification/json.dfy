/** The untyped `[String: Any]` mappings that the login API hands back after
    JSON parsing, and the `as? String` downcast the decoders apply to them. */
module Json {
  import opened Wrappers

  /** One value of a parsed JSON document. Numbers are kept as integers: no
      decoder in this model reads a number. */
  datatype JsonValue =
    | JStr(str: string)
    | JNum(num: int)
    | JBool(flag: bool)
    | JNull
    | JArr(items: seq<JsonValue>)
    | JObj(fields: map<string, JsonValue>)

  /** A JSON object: Swift's `[String: Any]`. */
  type JsonObject = map<string, JsonValue>

  /** `json[key] as? String`: the string stored under `key`, or nothing when the
      key is missing or holds a value of another kind. */
  function StringField(json: JsonObject, key: string): (r: Option<string>)
    ensures r.Some? <==> key in json && json[key].JStr?
    ensures r.Some? ==> json[key] == JStr(r.value)
  {
    if key in json then
      match json[key]
      case JStr(s) => Some(s)
      case _ => None
    else None
  }

  /** Two objects agree on `key` when both lack it or both bind it to the same value. */
  predicate AgreeOn(a: JsonObject, b: JsonObject, key: string)
  {
    (key !in a && key !in b) || (key in a && key in b && a[key] == b[key])
  }
}
