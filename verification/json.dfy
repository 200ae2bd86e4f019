/** JSON values as `json.loads` produces them, with Python's `dict.get` and
    truthiness over them. */
module Json {

  /** A decoded JSON value. Objects are Python dicts: one value per key, the
      last duplicate key winning inside the decoder. Integers and floats are
      both numbers here, since only their truthiness matters to the model. */
  datatype Json =
    | JNull
    | JBool(b: bool)
    | JNumber(n: real)
    | JString(s: string)
    | JArray(items: seq<Json>)
    | JObject(fields: map<string, Json>)

  /** Python truthiness of a decoded value: `None`, `False`, zero and empty
      containers are false, everything else is true. */
  predicate Truthy(v: Json) {
    match v
    case JNull => false
    case JBool(b) => b
    case JNumber(n) => n != 0.0
    case JString(s) => |s| > 0
    case JArray(items) => |items| > 0
    case JObject(fields) => |fields| > 0
  }

  /** `d.get(key, default)` on a dict. */
  function GetOr(fields: map<string, Json>, key: string, default: Json): (r: Json)
    ensures key in fields ==> r == fields[key]
    ensures key !in fields ==> r == default
  {
    if key in fields then fields[key] else default
  }

  /** `d.get(key)` on a dict: a missing key reads as `None`, which is the
      same Python value as a JSON `null`. */
  function Get(fields: map<string, Json>, key: string): (r: Json)
    ensures r != JNull ==> key in fields && fields[key] == r
    ensures key in fields ==> r == fields[key]
  {
    GetOr(fields, key, JNull)
  }

  /** Python's `a or b`: the first operand when it is truthy, else the second. */
  function Or(a: Json, b: Json): (r: Json)
    ensures Truthy(r) <==> Truthy(a) || Truthy(b)
    ensures Truthy(a) ==> r == a
    ensures !Truthy(a) ==> r == b
  {
    if Truthy(a) then a else b
  }
}
