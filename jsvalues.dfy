/** The JSON values a request body can carry, and how JavaScript tests them. */
module JsValues {
  import opened Wrappers

  /** A parsed JSON value; objects and arrays are never looked into. */
  datatype Json =
    | JNull
    | JBool(b: bool)
    | JNum(n: int)
    | JStr(s: string)
    | JComposite

  /** A destructured body field: `None` is `undefined` (the key was absent). */
  type Field = Option<Json>

  /** JavaScript truthiness: `undefined`, `null`, `false`, `0` and `""` are falsy. */
  predicate Truthy(f: Field)
  {
    match f
    case None => false
    case Some(v) =>
      match v
      case JNull => false
      case JBool(b) => b
      case JNum(n) => n != 0
      case JStr(s) => s != ""
      case JComposite => true
  }

  /** JavaScript truthiness of an optional string (a header or a cache value). */
  predicate Present(s: Option<string>)
  {
    s.Some? && s.value != ""
  }

  /** A destructuring default `{ x = d } = body`: `d` replaces only `undefined`. */
  function OrDefault(f: Field, d: Json): Json
  {
    match f
    case None => d
    case Some(x) => x
  }

  /**
   * Unlike `x || d`, the default is not applied to a falsy value that was
   * sent: the result is `d` only when the field is undefined or is `d`.
   */
  lemma DefaultOnlyWhenUndefined(f: Field, d: Json)
    ensures OrDefault(f, d) == d <==> f.None? || f.value == d
    ensures f.Some? && !Truthy(f) ==> OrDefault(f, d) == f.value
  {
  }

  /** The falsy values are exactly `undefined`, `null`, `false`, `0` and `""`. */
  lemma FalsyValues(f: Field)
    ensures !Truthy(f) <==> f == None || f == Some(JNull) || f == Some(JBool(false)) || f == Some(JNum(0)) || f == Some(JStr(""))
  {
  }
}
