/** The values `JSON.parse` can produce, JavaScript property access on them and
    JavaScript truthiness. `JSON.parse` itself is not modelled: the decoder is
    given it as a function `string -> Option<Json>` (None = it throws). */
module Json {
  import opened Wrappers

  /** A parsed JSON value. Objects are maps because `JSON.parse` keeps the last
      of several members with the same name. JSON numbers are finite, so no NaN. */
  datatype Json =
    | JNull
    | JBool(b: bool)
    | JNumber(n: real)
    | JString(s: string)
    | JArray(items: seq<Json>)
    | JObject(members: map<string, Json>)

  /** `v[key]` for a parsed value: None stands for `undefined`. Arrays have no
      member named by the keys the chat core reads, so only objects yield one. */
  function Get(v: Json, key: string): (r: Option<Json>)
    ensures r.Some? <==> v.JObject? && key in v.members
    ensures r.Some? ==> r.value == v.members[key]
  {
    match v
    case JObject(m) => if key in m then Some(m[key]) else None
    case _ => None
  }

  /** `!!x` for a property value: `undefined`, `null`, `false`, `0` and `""`
      are falsy, everything else (arrays and objects included) is truthy. */
  predicate Truthy(x: Option<Json>)
  {
    match x
    case None => false
    case Some(JNull) => false
    case Some(JBool(b)) => b
    case Some(JNumber(n)) => n != 0.0
    case Some(JString(s)) => s != ""
    case Some(JArray(_)) => true
    case Some(JObject(_)) => true
  }

  /** `typeof x === 'object'`: true of `null`, arrays and objects. */
  predicate IsObjectType(v: Json)
  {
    v.JNull? || v.JArray? || v.JObject?
  }

  /** `typeof x === 'string'` for a property value. */
  predicate IsString(x: Option<Json>)
  {
    x.Some? && x.value.JString?
  }
}
