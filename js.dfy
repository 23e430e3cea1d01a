/**
  The fragment of JavaScript's value semantics that the two request
  handlers depend on: strings as UTF-16 code units, the values that
  `JSON.parse` can produce, truthiness (`!x`, `x || y`) and reading a
  property off a parsed value.
 */
module Js {

  /** One UTF-16 code unit, the value `String.prototype.charCodeAt` returns. */
  newtype CodeUnit = x: int | 0 <= x < 0x1_0000

  /** A JavaScript string: a sequence of code units (lone surrogates allowed). */
  type JsString = seq<CodeUnit>

  /** A value `JSON.parse` can return. Numbers are kept as reals: parsing never yields NaN. */
  datatype Json =
    | JNull
    | JBool(b: bool)
    | JNumber(n: real)
    | JString(s: JsString)
    | JArray(items: seq<Json>)
    | JObject(fields: map<JsString, Json>)

  /** JavaScript truthiness: `null`, `false`, `0`, `-0` and `""` are falsy, everything else is truthy. */
  predicate Truthy(v: Json)
    ensures v.JArray? || v.JObject? ==> Truthy(v)
    ensures v == JNull ==> !Truthy(v)
  {
    match v
    case JNull => false
    case JBool(b) => b
    case JNumber(n) => n != 0.0
    case JString(s) => s != []
    case JArray(_) => true
    case JObject(_) => true
  }

  /** The result of reading a property: `undefined`, or a value. */
  datatype Prop = Undefined | Defined(value: Json)

  /**
    `v[key]` for a value that is neither `null` nor `undefined` (reading a
    property of those throws, which callers handle themselves). Only the own
    properties of a parsed object are seen; this is exact for every key that
    is not the name of a built-in property of strings, arrays or objects
    (`length`, `constructor`, ...), which holds for the keys the handlers read.
   */
  function GetProperty(v: Json, key: JsString): Prop
  {
    match v
    case JObject(fields) => if key in fields then Defined(fields[key]) else Undefined
    case _ => Undefined
  }

  /**
    `p || fallback` where `p` is the result of a property read: the read value
    is kept only when it is truthy, so a truthy fallback makes the result truthy.
   */
  function OrElse(p: Prop, fallback: Json): (r: Json)
    ensures p.Defined? && Truthy(p.value) ==> r == p.value
    ensures r == fallback || (p.Defined? && r == p.value)
    ensures r != fallback ==> Truthy(r)
    ensures Truthy(fallback) ==> Truthy(r)
  {
    match p
    case Defined(v) => if Truthy(v) then v else fallback
    case Undefined => fallback
  }
}
