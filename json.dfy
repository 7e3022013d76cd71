/** The JSON values that travel in queue messages and request bodies.
    Numbers are integers (timestamps in milliseconds, prices, counts). */
module Json {
  import opened Wrappers

  datatype Json =
    | JNull
    | JBool(b: bool)
    | JNum(n: int)
    | JStr(s: string)
    | JObj(fields: map<string, Json>)

  /** Property access `value.key` on a value that is not null:
      `None` stands for JavaScript's `undefined`. */
  function Get(value: Json, key: string): (r: Option<Json>)
    ensures r.Some? <==> value.JObj? && key in value.fields
    ensures r.Some? ==> r.value == value.fields[key]
  {
    match value
    case JObj(fields) => if key in fields then Some(fields[key]) else None
    case _ => None
  }

  /** JavaScript truthiness of a possibly undefined value. */
  predicate Truthy(v: Option<Json>)
  {
    match v
    case None => false
    case Some(JNull) => false
    case Some(JBool(b)) => b
    case Some(JNum(n)) => n != 0
    case Some(JStr(s)) => s != ""
    case Some(JObj(_)) => true
  }

  /** Strict equality `v === "<literal>"`. */
  predicate IsString(v: Option<Json>, literal: string)
  {
    v == Some(JStr(literal))
  }
}
