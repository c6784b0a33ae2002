/** Decoded JSON as the Python scripts see it, with Python's truthiness. */
module JsonValue {

  datatype Json =
    | JNull
    | JBool(b: bool)
    | JInt(i: int)
    | JNum(r: real)
    | JStr(s: string)
    | JList(items: seq<Json>)
    | JObj(fields: map<string, Json>)

  /** `bool(v)`: None, False, 0, 0.0, "", [] and {} are falsy, everything else is truthy. */
  predicate Truthy(v: Json)
  {
    match v
    case JNull => false
    case JBool(b) => b
    case JInt(i) => i != 0
    case JNum(r) => r != 0.0
    case JStr(s) => s != ""
    case JList(xs) => xs != []
    case JObj(m) => m != map[]
  }

  /** `d.get(key, default)` on a dict `d`. */
  function Get(m: map<string, Json>, key: string, default: Json): Json
  {
    if key in m then m[key] else default
  }

  /** Python's `x or y`: `x` when it is truthy, otherwise `y`. */
  function Or(x: Json, y: Json): Json
  {
    if Truthy(x) then x else y
  }

  const EmptyObject: Json := JObj(map[])
}
