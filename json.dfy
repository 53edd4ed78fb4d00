/** JSON values as the Flask handlers see them after `request.get_json()`,
    and Python's truthiness test on them. */
module Json {
  import opened Wrappers

  /** A JSON value; numbers are integers here. */
  datatype Json =
    | JNull
    | JBool(b: bool)
    | JNum(n: int)
    | JStr(s: string)
    | JArr(items: seq<Json>)
    | JObj(fields: map<string, Json>)

  /** A JSON object body. */
  type Object = map<string, Json>

  /** Python's `bool(v)`: None, False, 0 and empty strings, lists and dicts
      are false; everything else is true. */
  predicate Truthy(v: Json)
  {
    match v
    case JNull => false
    case JBool(b) => b
    case JNum(n) => n != 0
    case JStr(s) => s != []
    case JArr(items) => items != []
    case JObj(fields) => fields != map[]
  }

  /** `data.get(key)`: the value, or none when the key is absent. */
  function Get(data: Object, key: string): (r: Option<Json>)
    ensures r.Some? <==> key in data
    ensures r.Some? ==> r.value == data[key]
  {
    if key in data then Some(data[key]) else None
  }

  /** `not data.get(key)`: the key is absent, or its value is falsy. */
  predicate Missing(data: Object, key: string)
  {
    key !in data || !Truthy(data[key])
  }

  /** The sub-map of the keys in `allowed`: the whitelist both PUT handlers
      apply to the request body. */
  function Whitelist(data: Object, allowed: set<string>): (r: Object)
    ensures r.Keys == data.Keys * allowed
    ensures forall k :: k in r ==> r[k] == data[k]
  {
    map k | k in data.Keys && k in allowed :: data[k]
  }
}
