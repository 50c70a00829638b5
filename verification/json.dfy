/** JSON values as they arrive in request bodies and as they sit in JSONB columns. */
module JsonValues {
  import opened Wrappers

  /** A JSON value; numbers are exact reals (no NaN or infinities). */
  datatype Json =
    | JNull
    | JBool(b: bool)
    | JNum(n: real)
    | JStr(s: string)
    | JArr(items: seq<Json>)
    | JObj(members: map<string, Json>)

  /** Property access `o[key]`: `None` is `undefined`, and a non-object has no properties. */
  function Member(j: Json, key: string): Option<Json>
  {
    if j.JObj? && key in j.members then Some(j.members[key]) else None
  }
}
