/** The JavaScript values that flow through the visualizer: schema option
    values, projected field records and JSON payloads. `undefined` is not a
    value here; it is the `None` of an `Option<JsValue>`. */
module Js {
  import opened Wrappers

  datatype JsValue =
    | JNull
    | JBool(b: bool)
    | JNum(n: int)
    | JStr(s: string)
    | JArray(items: seq<JsValue>)
    | JRegExp(source: string, flags: string)
    | JObject(props: map<string, JsValue>)

  /** JavaScript truthiness: `null`, `false`, `0` and `""` are falsy. */
  predicate Truthy(v: JsValue) {
    match v
    case JNull => false
    case JBool(b) => b
    case JNum(n) => n != 0
    case JStr(s) => s != ""
    case _ => true
  }

  /** Truthiness of a possibly-undefined value (`undefined` is falsy). */
  predicate OptTruthy(v: Option<JsValue>) {
    v.Some? && Truthy(v.value)
  }

  /** `Array.isArray`: only arrays, and never `undefined`. */
  predicate IsArray(v: Option<JsValue>) {
    v.Some? && v.value.JArray?
  }

  /** Property read `o?.key`: `undefined` when the object itself is missing or
      lacks the key. */
  function Get(o: Option<map<string, JsValue>>, key: string): (r: Option<JsValue>)
    ensures r.Some? <==> o.Some? && key in o.value
    ensures r.Some? ==> r.value == o.value[key]
  {
    if o.Some? && key in o.value then Some(o.value[key]) else None
  }

  function DigitChar(d: nat): (c: char)
    requires d < 10
    ensures '0' <= c <= '9'
  {
    ['0', '1', '2', '3', '4', '5', '6', '7', '8', '9'][d]
  }

  /** Decimal digits of a natural number, most significant first. */
  function NatToDecimal(n: nat): (r: string)
    ensures |r| >= 1
    ensures forall i :: 0 <= i < |r| ==> '0' <= r[i] <= '9'
    decreases n
  {
    if n < 10 then [DigitChar(n)] else NatToDecimal(n / 10) + [DigitChar(n % 10)]
  }

  /** `Number.prototype.toString()` on an integral number. */
  function IntToString(n: int): (r: string)
    ensures r != ""
    ensures n < 0 <==> r[0] == '-'
  {
    if n < 0 then "-" + NatToDecimal(-n) else NatToDecimal(n)
  }

  /** Joins strings with a separator, as `Array.prototype.join` does. */
  function Join(parts: seq<string>, sep: string): string {
    if |parts| == 0 then ""
    else if |parts| == 1 then parts[0]
    else parts[0] + sep + Join(parts[1..], sep)
  }

  /** `String(v)` / `v.toString()`: arrays join their elements' strings with
      commas (a `null` element becomes the empty string), a regular
      expression prints as `/source/flags`, a plain object as
      `[object Object]`. */
  function ToJsString(v: JsValue): string
    decreases v
  {
    match v
    case JNull => "null"
    case JBool(b) => if b then "true" else "false"
    case JNum(n) => IntToString(n)
    case JStr(s) => s
    case JArray(items) =>
      Join(seq(|items|, i requires 0 <= i < |items| =>
        if items[i].JNull? then "" else ToJsString(items[i])), ",")
    case JRegExp(source, flags) => "/" + source + "/" + flags
    case JObject(_) => "[object Object]"
  }
}
