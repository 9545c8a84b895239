/**
 * A parsed JSON value, and the two JavaScript rules the server applies to
 * one: property access (`v.key`) and truthiness (`x || fallback`).
 */
module Json {

  datatype Json =
    | JNull
    | JBool(b: bool)
    | JNum(n: real)
    | JStr(s: string)
    | JArr(items: seq<Json>)
    | JObj(fields: map<string, Json>)

  /** What `v.key` yields: a value, `undefined`, or a TypeError when `v` is null. */
  datatype Prop = Undefined | Defined(value: Json) | NullAccess

  /**
   * `v.key` for the field names used in this application (none of them is
   * `length` or an array index, so arrays and strings yield `undefined`).
   */
  function Get(v: Json, key: string): (p: Prop)
    ensures p.NullAccess? <==> v == JNull
    ensures p.Defined? <==> v.JObj? && key in v.fields
    ensures p.Defined? ==> p.value == v.fields[key]
  {
    match v
    case JNull => NullAccess
    case JObj(fields) => if key in fields then Defined(fields[key]) else Undefined
    case _ => Undefined
  }

  /** JavaScript truthiness: false, 0, "" and null are falsy; arrays and objects are truthy. */
  predicate Truthy(v: Json)
  {
    match v
    case JNull => false
    case JBool(b) => b
    case JNum(n) => n != 0.0
    case JStr(s) => s != ""
    case JArr(_) => true
    case JObj(_) => true
  }

  /** Truthiness of a property access; `undefined` is falsy. */
  predicate TruthyProp(p: Prop)
  {
    p.Defined? && Truthy(p.value)
  }

  /** `p || fallback`, for a property access that did not throw. */
  function OrElse(p: Prop, fallback: Json): (r: Json)
    ensures TruthyProp(p) ==> r == p.value
    ensures !TruthyProp(p) ==> r == fallback
  {
    if TruthyProp(p) then p.value else fallback
  }

  /** A property holding a non-empty string: what `typeof x === 'string' && x` accepts. */
  predicate IsNonEmptyString(p: Prop)
  {
    p.Defined? && p.value.JStr? && p.value.s != ""
  }

  /** A string value is truthy exactly when it is non-empty. */
  lemma StringTruthiness(p: Prop)
    requires p.Defined? && p.value.JStr?
    ensures TruthyProp(p) <==> IsNonEmptyString(p)
  {
  }

  /** Every element is a string. */
  predicate AllStrings(items: seq<Json>)
  {
    forall i :: 0 <= i < |items| ==> items[i].JStr?
  }

  /** The strings of an array all of whose elements are strings. */
  function Strings(items: seq<Json>): (r: seq<string>)
    requires AllStrings(items)
    ensures |r| == |items|
    ensures forall i :: 0 <= i < |items| ==> items[i] == JStr(r[i])
  {
    seq(|items|, i requires 0 <= i < |items| => items[i].s)
  }

  /** The JSON array of a list of strings. */
  function StringArray(strs: seq<string>): (r: seq<Json>)
    ensures AllStrings(r) && Strings(r) == strs
  {
    seq(|strs|, i requires 0 <= i < |strs| => JStr(strs[i]))
  }
}
