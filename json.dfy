/**
 * Values produced by `JSON.parse`, with the two JavaScript operations the
 * client applies to them: reading a property (`v.key`, `v?.key`) and
 * truthiness (`if (v)`, `v || w`). Numbers are exact reals.
 */
module Json {
  import opened Wrappers
  import opened Text
  import opened Numbers

  datatype Json =
    | JNull
    | JBool(b: bool)
    | JNumber(n: real)
    | JString(s: string)
    | JArray(items: seq<Json>)
    | JObject(fields: map<string, Json>)

  /** `v?.key`: only an object has the claim; `None` is `undefined`. */
  function Get(v: Json, key: string): (r: Option<Json>)
    ensures r.Some? <==> v.JObject? && key in v.fields
    ensures r.Some? ==> r.value == v.fields[key]
  {
    match v
    case JObject(fields) => if key in fields then Some(fields[key]) else None
    case _ => None
  }

  /**
   * The message of the `TypeError` thrown by reading the property `key` of
   * `null` (`null.key`), in V8's wording.
   */
  function NullReadError(key: string): (m: string)
    ensures m != ""
  {
    "Cannot read properties of null (reading '" + key + "')"
  }

  /** JavaScript's ToBoolean on a parsed value: `null`, `false`, `0` and `""` are falsy. */
  predicate Truthy(v: Json) {
    match v
    case JNull => false
    case JBool(b) => b
    case JNumber(n) => n != 0.0
    case JString(s) => s != ""
    case JArray(_) => true
    case JObject(_) => true
  }

  /** A property that is present and truthy (`undefined` is falsy). */
  predicate Present(v: Option<Json>) {
    v.Some? && Truthy(v.value)
  }

  /**
   * JavaScript's ToNumber on a parsed value, as `<` applies it; `None` is `NaN`.
   * Strings are read by `NumberOf`; an array goes through its string form,
   * which is numeric only when it has at most one element.
   */
  function ToNumber(v: Json): Option<real> {
    match v
    case JNull => Some(0.0)
    case JBool(b) => Some(if b then 1.0 else 0.0)
    case JNumber(n) => Some(n)
    case JString(s) => NumberOf(s)
    case JArray(items) =>
      if |items| == 0 then Some(0.0)
      else if |items| == 1 then ElementNumber(items[0])
      else None
    case JObject(_) => None
  }

  /** ToNumber of the string form of an array's only element. */
  function ElementNumber(v: Json): Option<real> {
    match v
    case JNull => Some(0.0)
    case JBool(_) => None
    case JNumber(n) => Some(n)
    case JString(s) => NumberOf(s)
    case JArray(items) =>
      if |items| == 0 then Some(0.0)
      else if |items| == 1 then ElementNumber(items[0])
      else None
    case JObject(_) => None
  }

  /** `a < b` with `b` a number: false whenever `a` converts to `NaN`. */
  predicate LessThan(a: Json, b: real) {
    var x := ToNumber(a);
    x.Some? && x.value < b
  }

  /**
   * `parseFloat(v)`, which reads `String(v)`. A number reads as itself; the
   * text of `null`, a boolean or an object is not numeric. An array's text
   * is its elements' texts joined by commas (`null` and `[]` giving ""),
   * and a comma ends the literal (`ParseFloatStopsAtComma`), so an array
   * reads as its first element and an empty one as `NaN`.
   */
  function ParseFloatOf(v: Json): Option<real> {
    match v
    case JNumber(n) => Some(n)
    case JString(s) => ParseFloat(s)
    case JArray(items) => if items == [] then None else ParseFloatOf(items[0])
    case _ => None
  }

  /** `parseFloat(obj?.key || 0)`: a missing object, or a missing or falsy property, reads as 0. */
  function AmountOrZero(obj: Option<Json>, key: string): (r: Option<real>)
    ensures obj.None? ==> r == Some(0.0)
    ensures obj.Some? && !Present(Get(obj.value, key)) ==> r == Some(0.0)
    ensures obj.Some? && Get(obj.value, key).Some? && Get(obj.value, key).value.JNumber? ==>
      r == Some(Get(obj.value, key).value.n)
    ensures obj.Some? && Get(obj.value, key).Some? && Get(obj.value, key).value.JString? && Get(obj.value, key).value.s != "" ==>
      r == ParseFloat(Get(obj.value, key).value.s)
    ensures obj.Some? && Get(obj.value, key).Some? && Get(obj.value, key).value.JArray? && Get(obj.value, key).value.items != [] ==>
      r == ParseFloatOf(Get(obj.value, key).value.items[0])
    ensures r.None? ==> obj.Some? && Get(obj.value, key).Some? && !Get(obj.value, key).value.JNumber?
  {
    var v := if obj.Some? then Get(obj.value, key) else None;
    if Present(v) then ParseFloatOf(v.value) else Some(0.0)
  }
}
