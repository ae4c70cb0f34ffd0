/**
 * The JavaScript values the Cloud Functions receive and return, reduced to the
 * JSON-like shapes they handle: a request payload, a parser result and a model
 * response are all trees of these.
 */
module JsValues {
  import opened Wrappers
  import Seqs

  /** An IEEE-754 binary64 number, as JavaScript stores every `number`. */
  datatype Number = Number(bits: bv64)

  /** `Number.isFinite`: the exponent field is not all ones. */
  predicate IsFinite(n: Number) {
    (n.bits >> 52) & 0x7FF != 0x7FF
  }

  /** Exponent all ones and a non-zero fraction. */
  predicate IsNaN(n: Number) {
    !IsFinite(n) && n.bits & 0xF_FFFF_FFFF_FFFF != 0
  }

  /** `+0` or `-0`. */
  predicate IsZero(n: Number) {
    n.bits & 0x7FFF_FFFF_FFFF_FFFF == 0
  }

  predicate IsNegative(n: Number) {
    n.bits >> 63 == 1
  }

  /**
   * A JavaScript value as seen by the handlers. Objects are plain records
   * keyed by property name; key order is not represented.
   */
  datatype JsValue =
    | Undefined
    | Null
    | Bool(b: bool)
    | Num(n: Number)
    | Str(s: string)
    | Arr(items: seq<JsValue>)
    | Obj(fields: map<string, JsValue>)

  /** `v == null` in JavaScript's loose sense: `null` or `undefined`. */
  predicate IsNullish(v: JsValue) {
    v.Undefined? || v.Null?
  }

  /** JavaScript's ToBoolean: what `if (v)` and `!v` test. */
  predicate Truthy(v: JsValue) {
    match v
    case Undefined => false
    case Null => false
    case Bool(b) => b
    case Num(n) => !IsZero(n) && !IsNaN(n)
    case Str(s) => s != ""
    case Arr(_) => true
    case Obj(_) => true
  }

  /**
   * Property lookup `v?.key`: the field of an object, and `undefined` for a
   * missing key or for any value that is not an object (so `(v || {}).key`
   * reads the same as `v?.key`).
   */
  function Get(v: JsValue, key: string): (r: JsValue)
    ensures v.Obj? && key in v.fields ==> r == v.fields[key]
    ensures !v.Obj? ==> r.Undefined?
  {
    if v.Obj? && key in v.fields then v.fields[key] else Undefined
  }

  /** The nullish-coalescing operator `a ?? b`. */
  function Coalesce(a: JsValue, b: JsValue): JsValue {
    if IsNullish(a) then b else a
  }

  /** `typeof x === "string" ? x : ""`, the handlers' `asString`. */
  function AsString(x: JsValue): (r: string)
    ensures x.Str? ==> r == x.s
    ensures !x.Str? ==> r == ""
  {
    if x.Str? then x.s else ""
  }

  /**
   * `typeof q === "number" && Number.isFinite(q) ? q : <absent>`: the number
   * when it is a finite one, and nothing for any other value.
   */
  function FiniteNumber(q: JsValue): (r: Option<Number>)
    ensures r.Some? <==> q.Num? && IsFinite(q.n)
    ensures r.Some? ==> q == Num(r.value)
  {
    if q.Num? && IsFinite(q.n) then Some(q.n) else None
  }

  /** `Array.isArray(v) ? v : []`. */
  function ArrayOrEmpty(v: JsValue): seq<JsValue> {
    if v.Arr? then v.items else []
  }

  /**
   * Whether converting `v` to a string throws a TypeError. Payload values
   * hold no functions, so an object with its own `toString` key has a
   * `toString` that is not callable: calling it throws, and so does the
   * conversion `join` applies to such an object inside an array (its
   * inherited `valueOf` returns the object itself, which is not a primitive).
   */
  predicate ToStringThrows(v: JsValue)
    decreases v
  {
    match v
    case Obj(fields) => "toString" in fields
    case Arr(items) => exists i :: 0 <= i < |items| && !IsNullish(items[i]) && ToStringThrows(items[i])
    case _ => false
  }

  /**
   * `String(v)` for the values a payload can hold, or `None` when the
   * conversion throws. This is also `v.toString()` wherever it is called,
   * since nullish values never reach `.toString()` there: `parseIngredient`
   * replaces them with `""`, and `join` renders nullish elements as `""`.
   * The decimal rendering of a finite number is supplied as `numberText`.
   */
  function ToJsString(v: JsValue, numberText: Number -> string): (r: Option<string>)
    ensures r.None? <==> ToStringThrows(v)
    ensures v.Str? ==> r == Some(v.s)
    ensures v.Obj? && r.Some? ==> r.value == "[object Object]"
    decreases v
  {
    match v
    case Undefined => Some("undefined")
    case Null => Some("null")
    case Bool(b) => Some(if b then "true" else "false")
    case Num(n) =>
      if IsNaN(n) then Some("NaN")
      else if !IsFinite(n) then Some(if IsNegative(n) then "-Infinity" else "Infinity")
      else Some(numberText(n))
    case Str(s) => Some(s)
    case Arr(items) =>
      // Array.prototype.join(","): null and undefined elements render as "".
      var parts := seq(|items|, i requires 0 <= i < |items| =>
        if IsNullish(items[i]) then Some("") else ToJsString(items[i], numberText));
      var texts := Seqs.AllSome(parts);
      if texts.None? then None
      else
        assert !ToStringThrows(v) by {
          forall i | 0 <= i < |items| && !IsNullish(items[i])
            ensures !ToStringThrows(items[i])
          {
            assert parts[i].Some?;
          }
        }
        Some(Seqs.JoinWith(texts.value, ","))
    case Obj(fields) => if "toString" in fields then None else Some("[object Object]")
  }
}
