/**
 * Values produced by `json.loads`. Only the distinctions the classifier makes
 * are kept: objects (Python dicts, in key order), strings, and every other
 * value with its truthiness.
 */
module Json {
  import opened Wrappers
  import opened Assoc

  datatype Json =
    | JObject(fields: Pairs<string, Json>)
    | JString(s: string)
    | JArray(items: seq<Json>)
    /** A number, `true`, `false` or `null`, with its Python truthiness. */
    | JScalar(truthy: bool)

  /** Python's truth value of a decoded JSON value. */
  predicate Truthy(j: Json) {
    match j
    case JObject(fields) => fields != []
    case JString(s) => s != []
    case JArray(items) => items != []
    case JScalar(t) => t
  }

  /**
   * `str(j)`: a string is its own text; the rendering of any other value is
   * Python's and is supplied by `show`.
   */
  function Str(j: Json, show: Json -> string): (r: string)
    ensures j.JString? ==> r == j.s
  {
    if j.JString? then j.s else show(j)
  }
}
