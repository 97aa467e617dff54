/**
 * JSON values as both halves of the program see them: Python's `request.get_json()`
 * and `response.json()` on the backend, `response.json()` in the browser.
 */
module Json {
  import opened Wrappers

  /**
   * A parsed JSON document. `JNull` is JSON `null` (Python `None`, JavaScript `null`).
   * Numbers are integers; fractional numbers are not part of this model.
   */
  datatype Json =
    | JNull
    | JBool(b: bool)
    | JNum(n: int)
    | JStr(s: string)
    | JArr(items: seq<Json>)
    | JObj(fields: map<string, Json>)

  /** Python truthiness: `None`, `False`, `0`, `""`, `[]` and `{}` are false. */
  predicate PyTruthy(v: Json) {
    match v
    case JNull => false
    case JBool(b) => b
    case JNum(n) => n != 0
    case JStr(s) => s != ""
    case JArr(items) => items != []
    case JObj(fields) => fields != map[]
  }

  /** JavaScript truthiness of a parsed JSON value: every array and every object is true. */
  predicate JsTruthy(v: Json) {
    match v
    case JNull => false
    case JBool(b) => b
    case JNum(n) => n != 0
    case JStr(s) => s != ""
    case JArr(_) => true
    case JObj(_) => true
  }

  /**
   * The two truthiness rules disagree exactly on the empty list and the empty object, which
   * only JavaScript counts as true; so a value Python counts as true JavaScript does too.
   */
  lemma TruthinessDiffersOnEmptyContainers(v: Json)
    ensures PyTruthy(v) != JsTruthy(v) <==> v == JArr([]) || v == JObj(map[])
    ensures PyTruthy(v) ==> JsTruthy(v)
  {
  }

  /** Python `d.get(key, default)` on a dict. */
  function PyGet(fields: map<string, Json>, key: string, default: Json): Json {
    if key in fields then fields[key] else default
  }

  /** Python `a or b`: `a` when it is truthy, otherwise `b`. */
  function PyOr(a: Json, b: Json): Json {
    if PyTruthy(a) then a else b
  }

  /**
   * JavaScript `v.key` on a value that is not `null`: the field of an object, and
   * `undefined` (here `None`) for a missing field or for any other kind of value.
   */
  function JsProp(v: Json, key: string): Option<Json> {
    match v
    case JObj(fields) => if key in fields then Some(fields[key]) else None
    case _ => None
  }

  /** JavaScript `a || b` where `a` may be `undefined`. */
  function JsOr(a: Option<Json>, b: Json): Json {
    if a.Some? && JsTruthy(a.value) then a.value else b
  }
}
