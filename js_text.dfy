/**
 * How JavaScript turns a value into text: `String(v)`, the property key an
 * object lookup uses, and the pieces `Array.prototype.join` glues together.
 * Printing a number is left to a parameter.
 */
module JsText {
  import opened Common
  import opened Strings

  /** The text `join` uses for one element: nothing for `null` and `undefined`. */
  function ElementText(v: JsValue, numText: real -> string): (r: string)
    ensures v.JUndefined? || v.JNull? ==> r == ""
    ensures v.JStr? ==> r == v.s
    decreases v, 1
  {
    if v.JUndefined? || v.JNull? then "" else JsToString(v, numText)
  }

  /**
   * `String(v)`: strings as they are, `undefined`/`null`/booleans by name,
   * arrays as their elements joined with commas, plain objects as
   * "[object Object]".
   */
  function JsToString(v: JsValue, numText: real -> string): (r: string)
    ensures v.JStr? ==> r == v.s
    decreases v, 0
  {
    match v
    case JUndefined => "undefined"
    case JNull => "null"
    case JBool(b) => if b then "true" else "false"
    case JNum(n) => numText(n)
    case JStr(s) => s
    case JArray(items) => Join(seq(|items|, i requires 0 <= i < |items| => ElementText(items[i], numText)), ",")
    case JObject(_) => "[object Object]"
  }

  /** `values.join(sep)`. */
  function JoinValues(values: seq<JsValue>, sep: string, numText: real -> string): string
  {
    Join(seq(|values|, i requires 0 <= i < |values| => ElementText(values[i], numText)), sep)
  }
}
