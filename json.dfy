/** JSON values as the Flask handlers see them after `request.get_json()`,
    with the few pieces of Python behaviour the handlers rely on: `dict.get`
    with a default, truthiness, type names in error messages and `str()`. */
module Json {
  import opened Util

  /** A decoded JSON value. A float carries the text Python's `repr` gives it. */
  datatype Json =
    | JNull
    | JBool(b: bool)
    | JInt(i: int)
    | JFloat(repr: string)
    | JStr(s: string)
    | JArray(items: seq<Json>)
    | JObject(fields: map<string, Json>)

  /** A request body as a handler reads it: decoded JSON, or the message of
      the exception Flask raises when the body is not JSON. */
  datatype Request = Body(data: Json) | Unreadable(message: string)

  /** `obj.get(key, default)` on a dict. */
  function Get(fields: map<string, Json>, key: string, default: Json): (v: Json)
    ensures key in fields ==> v == fields[key]
    ensures key !in fields ==> v == default
  {
    if key in fields then fields[key] else default
  }

  /** Python's `bool(v)`. */
  predicate Truthy(v: Json) {
    match v
    case JNull => false
    case JBool(b) => b
    case JInt(i) => i != 0
    case JFloat(r) => r != "0.0" && r != "-0.0"
    case JStr(s) => s != ""
    case JArray(items) => items != []
    case JObject(fields) => fields != map[]
  }

  /** `type(v).__name__`. */
  function TypeName(v: Json): string {
    match v
    case JNull => "NoneType"
    case JBool(_) => "bool"
    case JInt(_) => "int"
    case JFloat(_) => "float"
    case JStr(_) => "str"
    case JArray(_) => "list"
    case JObject(_) => "dict"
  }

  /** The message of the `AttributeError` raised by `v.get(...)` on a non-dict. */
  function NoGetMessage(v: Json): string {
    "'" + TypeName(v) + "' object has no attribute 'get'"
  }

  /** Lists and dicts cannot be dictionary keys. */
  predicate Hashable(v: Json) {
    !v.JArray? && !v.JObject?
  }

  /** The message of the `TypeError` raised when an unhashable value is looked up. */
  function UnhashableMessage(v: Json): string {
    "unhashable type: '" + TypeName(v) + "'"
  }

  /** `str(v)` for the hashable values. */
  function PyStr(v: Json): string
    requires Hashable(v)
  {
    match v
    case JNull => "None"
    case JBool(b) => if b then "True" else "False"
    case JInt(i) => IntToString(i)
    case JFloat(r) => r
    case JStr(s) => s
  }
}
