/** The JSON values a request body can carry, and JavaScript truthiness on them. */
module Json {
  import opened Wrappers

  datatype Json =
    | JNull
    | JBool(b: bool)
    | JNumber(n: real)
    | JString(s: string)
    | JArray(items: seq<Json>)
    | JObject(members: seq<(string, Json)>)

  /** JavaScript truthiness of a body field; `None` is `undefined`. JSON has no NaN. */
  predicate Truthy(v: Option<Json>) {
    match v
    case None => false
    case Some(JNull) => false
    case Some(JBool(b)) => b
    case Some(JNumber(n)) => n != 0.0
    case Some(JString(s)) => s != ""
    case Some(JArray(_)) => true
    case Some(JObject(_)) => true
  }

  /** `x || null`: a falsy value is replaced by `null` (here `None`). */
  function OrNull(v: Option<Json>): (r: Option<Json>)
    ensures r == None || (Truthy(r) && r == v)
  {
    if Truthy(v) then v else None
  }

  /** `!v || typeof v !== 'string'` rejects: a non-empty string is accepted. */
  function RequiredString(v: Option<Json>): (r: Option<string>)
    ensures r.Some? <==> v.Some? && v.value.JString? && v.value.s != ""
    ensures r.Some? ==> v == Some(JString(r.value))
  {
    match v
    case Some(JString(s)) => if s != "" then Some(s) else None
    case _ => None
  }
}
