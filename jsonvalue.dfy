/** A JSON document as `json.loads` hands it to the clients, and the Python
    notions they apply to it: truthiness (`if x:`) and `dict.get`. Parsing
    itself is not modelled: a message arrives already classified as one of
    the `Raw` cases. */
module JsonValue {

  datatype Option<T> = None | Some(value: T)

  /** One element of a Python `bytes` object. */
  type byte = x: int | 0 <= x < 256

  /** A parsed JSON value: `null`, booleans, integers, non-integral numbers
      (Python floats), strings, arrays and objects. */
  datatype Json =
    | JNull
    | JBool(b: bool)
    | JInt(i: int)
    | JFloat(r: real)
    | JStr(s: string)
    | JArr(items: seq<Json>)
    | JObj(fields: map<string, Json>)

  /** An inbound text frame: valid JSON, text that `json.loads` rejects with
      `JSONDecodeError`, or bytes that are not UTF-8 (which `json.loads`
      rejects with `UnicodeDecodeError`, a different exception). */
  datatype Raw = Parsed(value: Json) | BadJson | BadEncoding

  /** Python truthiness of the value `json.loads` produced. */
  predicate Truthy(j: Json) {
    match j
    case JNull => false
    case JBool(b) => b
    case JInt(i) => i != 0
    case JFloat(r) => r != 0.0
    case JStr(s) => s != ""
    case JArr(items) => items != []
    case JObj(fields) => fields != map[]
  }

  /** `obj.get(key, default)` on a JSON object. */
  function Get(fields: map<string, Json>, key: string, default: Json): Json {
    if key in fields then fields[key] else default
  }
}
