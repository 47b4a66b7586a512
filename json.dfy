/**
  The dynamically typed values that Foundation's JSON serialisation hands to
  Swift as `Any` (`[String: Any]`, `[Any]`, `String`, `NSNumber`, `NSNull`).
  Numbers are limited to integers here.
*/
module Json {

  datatype JsonValue =
    | JNull
    | JBool(b: bool)
    | JNumber(n: int)
    | JString(s: string)
    | JArray(items: seq<JsonValue>)
    | JObject(fields: map<string, JsonValue>)

  /** `value[key] as? String`: the string under `key` of an object, if any. */
  function StringField(fields: map<string, JsonValue>, key: string): (r: string)
    requires key in fields && fields[key].JString?
  {
    fields[key].s
  }

  predicate HasString(fields: map<string, JsonValue>, key: string) {
    key in fields && fields[key].JString?
  }
}
