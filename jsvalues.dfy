/**
 * JavaScript values as they arrive in a parsed JSON request body or a parsed
 * JSON cell, with the two conversions the handlers apply to them:
 * truthiness (`if (!x)`) and `String(x)`.
 */
module JsValues {
  import opened JsStrings

  /** A JSON-compatible JavaScript value; numbers are restricted to integers. */
  datatype Value =
    | Undefined
    | Null
    | Bool(b: bool)
    | Number(n: int)
    | Str(s: string)
    | Arr(elems: seq<Value>)
    | Obj(fields: map<string, Value>)

  /** The value of `{}`. */
  const EmptyObject: Value := Obj(map[])

  /** JavaScript truthiness: `undefined`, `null`, `false`, `0` and `''` are falsy. */
  predicate Truthy(v: Value)
  {
    match v
    case Undefined => false
    case Null => false
    case Bool(b) => b
    case Number(n) => n != 0
    case Str(s) => s != ""
    case Arr(_) => true
    case Obj(_) => true
  }

  /** `String(v)`; an array joins its elements with `,`, writing `undefined` and `null` as empty. */
  function ToString(v: Value): string
    decreases v, 0
  {
    match v
    case Undefined => "undefined"
    case Null => "null"
    case Bool(b) => if b then "true" else "false"
    case Number(n) => IntToString(n)
    case Str(s) => s
    case Arr(es) => Join(seq(|es|, i requires 0 <= i < |es| => ElementString(es[i])), ",")
    case Obj(_) => "[object Object]"
  }

  function ElementString(v: Value): string
    decreases v, 1
  {
    if v.Undefined? || v.Null? then "" else ToString(v)
  }
}
