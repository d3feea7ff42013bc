/** The values `json.loads` produces, with the Python behaviour the agent relies
    on: truthiness (`if json_data:`), `dict.get` and the error raised when
    `.get` is called on something that is not a dict. */
module JsonData {

  /** `JNull` is Python's `None`; `JObj` is a dict (key order is not modelled). */
  datatype Json =
    | JNull
    | JBool(b: bool)
    | JInt(i: int)
    | JFloat(f: real)
    | JStr(s: string)
    | JArr(items: seq<Json>)
    | JObj(fields: map<string, Json>)

  /** Python's `bool(v)`: `None`, `False`, zero and empty containers are false. */
  predicate Truthy(j: Json) {
    match j
    case JNull => false
    case JBool(b) => b
    case JInt(i) => i != 0
    case JFloat(f) => f != 0.0
    case JStr(s) => |s| > 0
    case JArr(items) => |items| > 0
    case JObj(fields) => |fields| > 0
  }

  /** `d.get(key)`: the value under `key`, or `None` when it is absent. */
  function Get(j: Json, key: string): (v: Json)
    requires j.JObj?
    ensures key in j.fields ==> v == j.fields[key]
    ensures key !in j.fields ==> v == JNull
  {
    if key in j.fields then j.fields[key] else JNull
  }

  /** Python's `type(v).__name__`. */
  function TypeName(j: Json): string {
    match j
    case JNull => "NoneType"
    case JBool(_) => "bool"
    case JInt(_) => "int"
    case JFloat(_) => "float"
    case JStr(_) => "str"
    case JArr(_) => "list"
    case JObj(_) => "dict"
  }

  /** The text of the `AttributeError` raised by `v.get(...)` on a non-dict. */
  function NoGetError(j: Json): string {
    "'" + TypeName(j) + "' object has no attribute 'get'"
  }
}
