/**
 * JavaScript values as they reach the modelled code from JSON columns and
 * from repository calls whose result is read with property access.
 */
module Js {
  import opened Common

  datatype JsValue =
    | JsNull
    | JsBool(b: bool)
    | JsNum(n: real)
    | JsStr(s: string)
    | JsArray(items: seq<JsValue>)
    | JsObject(fields: map<string, JsValue>)

  /**
   * Property read `v[key]` on a JSON-shaped value; `None` is `undefined`.
   * Only plain objects carry named properties here.
   */
  function Get(v: JsValue, key: string): (r: Option<JsValue>)
    ensures r.Some? <==> v.JsObject? && key in v.fields
    ensures r.Some? ==> r.value == v.fields[key]
  {
    match v
    case JsObject(fields) => if key in fields then Some(fields[key]) else None
    case _ => None
  }

  /** JavaScript truthiness of a JSON-shaped value. */
  predicate Truthy(v: JsValue) {
    match v
    case JsNull => false
    case JsBool(b) => b
    case JsNum(n) => n != 0.0
    case JsStr(s) => s != ""
    case JsArray(_) => true
    case JsObject(_) => true
  }
}
