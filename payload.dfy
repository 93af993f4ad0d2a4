/**
 * The JSON body the detection service answers with, and the few JavaScript
 * operations the component applies to it: truthiness (`if (x)`, `x && ...`),
 * property access (`result.detected`), nullish coalescing (`?? 0`), numeric
 * coercion and `Math.round`.
 */
module Payload {
  import opened Wrappers

  /** A parsed JSON value; number literals are modelled as exact reals. */
  datatype Value =
    | JNull
    | JBool(b: bool)
    | JNumber(n: real)
    | JString(s: string)
    | JArray(items: seq<Value>)
    | JObject(fields: map<string, Value>)

  /** JavaScript truthiness of a JSON value: null, false, 0 and "" are falsy, everything else truthy. */
  predicate Truthy(v: Value)
  {
    match v
    case JNull => false
    case JBool(b) => b
    case JNumber(n) => n != 0.0
    case JString(s) => s != ""
    case JArray(_) => true
    case JObject(_) => true
  }

  /** Truthiness of a property read, where `None` stands for `undefined`. */
  predicate TruthyMember(m: Option<Value>)
  {
    m.Some? && Truthy(m.value)
  }

  /**
   * `v.key` on a parsed JSON value, for the keys the page reads (`detected`,
   * `confidence`, `label`): no JSON value inherits those, so only an object
   * that has the key yields a value. Inherited properties such as `length` or
   * `constructor` are not modelled.
   */
  function Member(v: Value, key: string): Option<Value>
  {
    if v.JObject? && key in v.fields then Some(v.fields[key]) else None
  }

  /** `m ?? d`: the default replaces exactly `undefined` and `null`, and nothing else. */
  function Coalesce(m: Option<Value>, d: Value): Value
  {
    match m
    case None => d
    case Some(JNull) => d
    case Some(v) => v
  }

  /**
   * JavaScript's `Number(v)` for the values whose coercion the model covers:
   * numbers, booleans and null. Strings, arrays and objects give `None`.
   */
  function ToNumber(v: Value): Option<real>
  {
    match v
    case JNull => Some(0.0)
    case JBool(b) => Some(if b then 1.0 else 0.0)
    case JNumber(n) => Some(n)
    case _ => None
  }

  /** `Math.round(x)`: the integer nearest to `x`, halves rounded towards positive infinity. */
  function Round(x: real): (r: int)
    ensures x - 0.5 < r as real <= x + 0.5
  {
    (x + 0.5).Floor
  }

  /** `Math.round(c * 100)`: a confidence in [0, 1] always gives a whole percentage in [0, 100]. */
  function RoundedPercent(c: real): (p: int)
    ensures 100.0 * c - 0.5 < p as real <= 100.0 * c + 0.5
    ensures 0.0 <= c <= 1.0 ==> 0 <= p <= 100
  {
    Round(c * 100.0)
  }
}
