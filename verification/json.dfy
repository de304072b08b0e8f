/** JSON values as the Node proxy and the Python service see them, with the
    JavaScript truthiness the proxy's `||` and `&&` tests use. */
module Json {
  import opened Common

  datatype Json =
    | JNull
    | JBool(b: bool)
    | JNum(n: real)
    | JStr(s: string)
    | JArr(items: seq<Json>)
    | JObj(fields: map<string, Json>)

  /** JavaScript truthiness of a parsed JSON value (JSON has no NaN). */
  predicate Truthy(v: Json)
  {
    match v
    case JNull => false
    case JBool(b) => b
    case JNum(n) => n != 0.0
    case JStr(s) => s != ""
    case JArr(_) => true
    case JObj(_) => true
  }

  /** Property read `v.key`: `None` stands for `undefined`. */
  function Get(v: Json, key: string): (r: Option<Json>)
    ensures r.Some? <==> v.JObj? && key in v.fields
    ensures r.Some? ==> r.value == v.fields[key]
  {
    if v.JObj? && key in v.fields then Some(v.fields[key]) else None
  }

  /** `v.key || null` */
  function OrNull(v: Json, key: string): (r: Json)
    ensures Truthy(r) || r == JNull
    ensures Truthy(r) ==> Get(v, key) == Some(r)
  {
    var x := Get(v, key);
    if x.Some? && Truthy(x.value) then x.value else JNull
  }
}
