/**
 * The fragment of JavaScript values that the dashboard code inspects: response
 * bodies, user records and error objects. Numbers are integers (no NaN, no
 * fractions). An object is its list of own properties, each key once, in
 * JavaScript's property enumeration order: integer-like keys in ascending order
 * first, then the other keys in insertion order. A JSON text with a repeated
 * key is represented as `JSON.parse` builds it: the key once, at the position of
 * its first occurrence, holding the value of its last occurrence.
 */
module Js {
  import opened Wrappers

  datatype JsValue =
    | Undefined
    | Null
    | Bool(b: bool)
    | Num(n: int)
    | Str(s: string)
    | Arr(items: seq<JsValue>)
    | Obj(fields: seq<(string, JsValue)>)

  /** The host's parser for date strings (`new Date(string)`); None is an Invalid Date. */
  type DateParser = string -> Option<int>

  /** JavaScript truthiness: `undefined`, `null`, `false`, `0` and `""` are falsy. */
  predicate Truthy(v: JsValue)
  {
    match v
    case Undefined => false
    case Null => false
    case Bool(b) => b
    case Num(n) => n != 0
    case Str(s) => s != ""
    case Arr(_) => true
    case Obj(_) => true
  }

  /** `typeof v === 'object'`, which also holds of `null` and of arrays. */
  predicate IsObjectType(v: JsValue)
  {
    v.Null? || v.Arr? || v.Obj?
  }

  /** `v == null`: the values on which a plain property read throws a TypeError. */
  predicate IsNullish(v: JsValue)
  {
    v.Undefined? || v.Null?
  }

  /** The value of the first own property named `key`, or Undefined. */
  function Lookup(fields: seq<(string, JsValue)>, key: string): (r: JsValue)
    ensures (forall i :: 0 <= i < |fields| ==> fields[i].0 != key) ==> r == Undefined
  {
    if fields == [] then Undefined
    else if fields[0].0 == key then fields[0].1
    else Lookup(fields[1..], key)
  }

  /**
   * `v?.key`: the named property of an object, Undefined for every other value
   * (arrays and strings carry no property the dashboard reads by name).
   */
  function Get(v: JsValue, key: string): (r: JsValue)
    ensures !v.Obj? ==> r == Undefined
  {
    if v.Obj? then Lookup(v.fields, key) else Undefined
  }

  /** JavaScript `a || b`: the left operand when it is truthy, else the right one. */
  function Or(a: JsValue, b: JsValue): (r: JsValue)
    ensures Truthy(a) ==> r == a
    ensures !Truthy(a) ==> r == b
  {
    if Truthy(a) then a else b
  }

  /**
   * `Object.values(v)[0]` for a truthy `v`: the first property value of an
   * object, the first element of an array, the first character of a string,
   * and Undefined when there is none.
   */
  function FirstValue(v: JsValue): (r: JsValue)
    ensures v.Obj? && v.fields != [] ==> r == v.fields[0].1
    ensures v.Arr? && v.items != [] ==> r == v.items[0]
    ensures v.Str? && v.s != [] ==> r == Str([v.s[0]])
    ensures !((v.Obj? && v.fields != []) || (v.Arr? && v.items != []) || (v.Str? && v.s != [])) ==> r == Undefined
  {
    match v
    case Obj(fields) => if fields == [] then Undefined else fields[0].1
    case Arr(items) => if items == [] then Undefined else items[0]
    case Str(s) => if s == [] then Undefined else Str([s[0]])
    case _ => Undefined
  }

  /** The largest magnitude of a valid Date time value: 100 000 000 days. */
  const MaxTimeValue: int := 8_640_000_000_000_000

  /** ECMAScript's TimeClip: a time value outside the range of Dates is an Invalid Date. */
  function TimeClip(t: int): (r: Option<int>)
    ensures r.Some? <==> -MaxTimeValue <= t <= MaxTimeValue
    ensures r.Some? ==> r.value == t
  {
    if -MaxTimeValue <= t <= MaxTimeValue then Some(t) else None
  }

  /**
   * The time value of `new Date(v)` in milliseconds, None for an Invalid Date:
   * `new Date(undefined)` is invalid, `new Date(null)` is the epoch, a number is
   * taken as milliseconds, a boolean as 0 or 1, a string goes to the parser;
   * a number or a parsed time outside the range of Dates is invalid.
   */
  function ToDate(v: JsValue, parse: DateParser): (r: Option<int>)
    ensures r.Some? ==> -MaxTimeValue <= r.value <= MaxTimeValue
    ensures v.Num? ==> r == TimeClip(v.n)
    ensures v.Undefined? ==> r == None
    ensures v.Null? ==> r == Some(0)
    ensures v.Str? && parse(v.s).None? ==> r == None
    ensures v.Str? && parse(v.s).Some? ==> r == TimeClip(parse(v.s).value)
  {
    match v
    case Undefined => None
    case Null => Some(0)
    case Bool(b) => Some(if b then 1 else 0)
    case Num(n) => TimeClip(n)
    case Str(s) => if parse(s).Some? then TimeClip(parse(s).value) else None
    case Arr(_) => None
    case Obj(_) => None
  }
}
