/** JavaScript values as the core sees them: request payload fields and the objects
    `JSON.parse` returns for the container tool's output. */
module JsValues {
  import opened Wrappers
  import opened JsText

  datatype JsValue =
    | JsUndefined
    | JsNull
    | JsBool(b: bool)
    | JsNumber(n: real)
    | JsString(s: string)
    | JsArray(items: seq<JsValue>)
    | JsObject(props: map<string, JsValue>)

  /** `v == null` in JavaScript (loose equality): null or undefined. */
  predicate IsNullish(v: JsValue) { v.JsUndefined? || v.JsNull? }

  /** JavaScript truthiness (no NaN arises from JSON or from the core's own values). */
  predicate Truthy(v: JsValue) {
    match v
    case JsUndefined => false
    case JsNull => false
    case JsBool(b) => b
    case JsNumber(n) => n != 0.0
    case JsString(s) => s != ""
    case JsArray(_) => true
    case JsObject(_) => true
  }

  /** `a ?? b`. */
  function Coalesce(a: JsValue, b: JsValue): (r: JsValue)
    ensures !IsNullish(a) ==> r == a
    ensures IsNullish(a) ==> r == b
  {
    if IsNullish(a) then b else a
  }

  /** `v?.key`: the property of an object, `undefined` for anything else or a missing key. */
  function Get(v: JsValue, key: string): (r: JsValue)
    ensures !v.JsObject? ==> r == JsUndefined
    ensures v.JsObject? ==> r == (if key in v.props then v.props[key] else JsUndefined)
  {
    if v.JsObject? && key in v.props then v.props[key] else JsUndefined
  }

  /** `Number(v)` for the values a request body can carry. An array converts through its
      string form: `[]` like the empty string, one element like that element's string form
      (`null` and `undefined` as the empty string, a nested array recursively, a boolean or an
      object as a non-numeric word), and two or more elements, joined by a comma, as NaN.
      Objects are NaN. */
  function ToNumber(v: JsValue): Numeric {
    match v
    case JsUndefined => NonFinite
    case JsNull => Finite(0.0)
    case JsBool(b) => Finite(if b then 1.0 else 0.0)
    case JsNumber(n) => Finite(n)
    case JsString(s) => StringToNumber(s)
    case JsArray(items) =>
      if items == [] then Finite(0.0)
      else if |items| > 1 then NonFinite
      else
        (match items[0]
         case JsNumber(n) => Finite(n)
         case JsString(s) => StringToNumber(s)
         case JsNull => Finite(0.0)
         case JsUndefined => Finite(0.0)
         case JsArray(_) => ToNumber(items[0])
         case _ => NonFinite)
    case JsObject(_) => NonFinite
  }
}
