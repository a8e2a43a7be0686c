/**
 * The JavaScript values that reach the viewer from the capsules service: the
 * parsed JSON body of a response and the records it holds.
 */
module JsValues {

  /** A JavaScript value as produced by parsing JSON (numbers as integers). */
  datatype JsValue =
    | JsUndefined
    | JsNull
    | JsBool(b: bool)
    | JsNumber(n: int)
    | JsString(s: string)
    | JsArray(elems: seq<JsValue>)
    | JsObject(fields: map<string, JsValue>)

  /** The own enumerable properties of a plain object, by key. */
  type Record = map<string, JsValue>

  /** `null` and `undefined`: reading a property of either throws a TypeError. */
  predicate Nullish(v: JsValue)
  {
    v.JsUndefined? || v.JsNull?
  }
}
