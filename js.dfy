/** JSON values as the data layer handles them after `JSON.parse`, and the
    three JavaScript value rules its code leans on: truthiness, the `a || b`
    default, and `String(x)`. */
module Js {
  import opened Wrappers
  import Text

  /** A parsed JSON value. Numbers are integers; objects are finite maps. */
  datatype Json =
    | Null
    | Bool(b: bool)
    | Num(n: int)
    | Str(s: string)
    | Arr(items: seq<Json>)
    | Obj(fields: map<string, Json>)

  /** A generic row object (`{ [key: string]: any }`): a spreadsheet row or a
      roster champion. A key that is not present reads as `undefined`. */
  type Row = map<string, Json>

  /** `obj[key]` on an object used as a dictionary: `None` stands for `undefined`. */
  function Get<V>(obj: map<string, V>, key: string): (v: Option<V>)
    ensures v.Some? <==> key in obj
    ensures v.Some? ==> v.value == obj[key]
  {
    if key in obj then Some(obj[key]) else None
  }

  /** JavaScript truthiness: `null`, `false`, `0` and `""` are falsy. */
  predicate Truthy(v: Json) {
    match v
    case Null => false
    case Bool(b) => b
    case Num(n) => n != 0
    case Str(s) => s != ""
    case Arr(_) => true
    case Obj(_) => true
  }

  /** `v || fallback` where `v` may be `undefined`. */
  function Or(v: Option<Json>, fallback: Json): (r: Json)
    ensures v.Some? && Truthy(v.value) ==> r == v.value
    ensures !(v.Some? && Truthy(v.value)) ==> r == fallback
  {
    if v.Some? && Truthy(v.value) then v.value else fallback
  }

  /** `String(v)`. An array renders as its elements joined by ",", with `null`
      elements rendered empty. */
  function ToText(v: Json): string {
    match v
    case Null => "null"
    case Bool(b) => if b then "true" else "false"
    case Num(n) => Text.IntToString(n)
    case Str(s) => s
    case Arr(items) => JoinItems(items)
    case Obj(_) => "[object Object]"
  }

  function JoinItems(items: seq<Json>): string
    decreases items, 0
  {
    if items == [] then ""
    else
      var first := if items[0].Null? then "" else ToText(items[0]);
      if |items| == 1 then first else first + "," + JoinItems(items[1..])
  }

  /** Reading property `key` of an arbitrary value, as `v.key` does: an object
      answers from its fields, any other non-null value has no such property
      (`undefined`), and `null` throws a TypeError (`Err`). */
  function Member(v: Json, key: string): (r: Result<Option<Json>, string>)
    ensures r.Err? <==> v.Null?
    ensures v.Obj? ==> r == Ok(Get(v.fields, key))
  {
    match v
    case Null => Err("TypeError: cannot read properties of null")
    case Obj(fields) => Ok(Get(fields, key))
    case _ => Ok(None)
  }

  /** A field that is present and holds a string. */
  function StrField(fields: map<string, Json>, key: string): (r: Option<string>)
    ensures r.Some? <==> key in fields && fields[key].Str?
    ensures r.Some? ==> fields[key] == Str(r.value)
  {
    if key in fields && fields[key].Str? then Some(fields[key].s) else None
  }

  /** `a === b` on two possibly-`undefined` values. Strings, numbers, booleans
      and `null` compare by value; arrays and objects by reference, and two
      separately parsed ones are never the same reference. */
  predicate StrictEquals(a: Option<Json>, b: Option<Json>) {
    match (a, b)
    case (None, None) => true
    case (Some(x), Some(y)) => !x.Arr? && !x.Obj? && x == y
    case _ => false
  }
}
