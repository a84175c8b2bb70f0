/** The dynamically typed values that flow through forms and responses:
    what a form field holds, what a response map stores, what an event
    payload carries. Objects other than arrays do not occur in these
    places and are not modelled. */
module JsValue {
  import JsString

  datatype Value =
    | Undefined
    | Null
    | Bool(b: bool)
    | Num(n: int)
    | Str(s: string)
    | Arr(items: seq<Value>)

  /** JavaScript truthiness: `undefined`, `null`, `false`, `0` and `''`
      are falsy; everything else, the empty array included, is truthy. */
  predicate Truthy(v: Value) {
    match v
    case Undefined => false
    case Null => false
    case Bool(b) => b
    case Num(n) => n != 0
    case Str(s) => s != ""
    case Arr(_) => true
  }

  /** `obj[key]` on a plain object: `undefined` when the key is absent. */
  function Get(m: map<string, Value>, key: string): Value {
    if key in m then m[key] else Undefined
  }

  /** `{ ...m, [key]: v }`: the key holds the new value and every other
      key is as it was. */
  function With(m: map<string, Value>, key: string, v: Value): (r: map<string, Value>)
    ensures key in r && r[key] == v
    ensures forall k :: k != key ==> (k in r <==> k in m)
    ensures forall k | k in m && k != key :: r[k] == m[k]
  {
    m[key := v]
  }

  function DigitChar(d: nat): char
    requires d < 10
  {
    "0123456789"[d]
  }

  function NatToString(n: nat): (r: string)
    ensures |r| >= 1
    decreases n
  {
    if n < 10 then [DigitChar(n)] else NatToString(n / 10) + [DigitChar(n % 10)]
  }

  function IntToString(n: int): string {
    if n < 0 then "-" + NatToString(-n) else NatToString(n)
  }

  /** `String(v)`. An array converts element-wise, with `null` and
      `undefined` elements as empty strings, joined by commas. */
  function ToString(v: Value): string
    decreases v, 1
  {
    match v
    case Undefined => "undefined"
    case Null => "null"
    case Bool(b) => if b then "true" else "false"
    case Num(n) => IntToString(n)
    case Str(s) => s
    case Arr(items) => JsString.Join(ElementStrings(v, items), ",")
  }

  function ElementStrings(whole: Value, items: seq<Value>): seq<string>
    requires forall i :: 0 <= i < |items| ==> items[i] < whole
    decreases whole, 0, |items|
  {
    if items == [] then []
    else
      var first := if items[0].Undefined? || items[0].Null? then "" else ToString(items[0]);
      [first] + ElementStrings(whole, items[1..])
  }
}
