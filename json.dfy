/**
 * Decoded JSON values, as Python's json module hands them to the script:
 * objects become dicts, arrays become lists.
 */
module JsonValue {

  /** A decoded JSON document. Numbers are kept as integers (see README). */
  datatype Json =
    | JNull
    | JBool(b: bool)
    | JNum(n: int)
    | JStr(s: string)
    | JList(items: seq<Json>)
    | JObj(fields: map<string, Json>)

  /** Python truthiness of the decoded value (`if data:` in main). */
  predicate Truthy(j: Json)
    // the falsy values are exactly None, False, 0, "", [] and {}
    ensures !Truthy(j) <==> j in {JNull, JBool(false), JNum(0), JStr(""), JList([]), JObj(map[])}
  {
    match j
    case JNull => false
    case JBool(b) => b
    case JNum(n) => n != 0
    case JStr(s) => s != ""
    case JList(items) => items != []
    case JObj(fields) => fields != map[]
  }
}
