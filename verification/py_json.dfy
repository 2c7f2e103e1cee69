/**
 * Parsed JSON values as Python's `json` module hands them over. Parsing and
 * printing are not modelled: wherever the system parses text, the model is
 * given the parse outcome.
 */
module PyJson {

  datatype Json =
    | JNull
    | JBool(b: bool)
    | JNum(n: real)
    | JStr(s: string)
    | JList(items: seq<Json>)
    | JObj(fields: map<string, Json>)

  /** Python truthiness of a JSON value. */
  predicate Truthy(j: Json) {
    match j
    case JNull => false
    case JBool(b) => b
    case JNum(n) => n != 0.0
    case JStr(s) => s != ""
    case JList(items) => items != []
    case JObj(fields) => fields != map[]
  }

  /** `d.get(key, default)` */
  function Get(d: map<string, Json>, key: string, default: Json): Json {
    if key in d then d[key] else default
  }

  /** `str(v)` (or `f"{v}"`): strings as they are; any other value through
      `show`, which stands for Python's `str()` on it. */
  function Show(v: Json, show: Json -> string): string {
    if v.JStr? then v.s else show(v)
  }
}
