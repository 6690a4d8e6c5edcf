/**
 * The JavaScript runtime values the filter code inspects. The filter engine
 * dispatches on `typeof` of an object's field and of a filter's value, so the
 * model keeps one sum type whose constructors are those runtime types.
 */
module JsValues {

  /**
   * `undefined`, a string, a number, a boolean, or a two-element numeric array
   * (`NumberRange`, the only array the filters hold). Numbers are exact reals:
   * NaN and rounding are not modelled.
   */
  datatype Value = Undef | Str(s: string) | Num(n: real) | Bool(b: bool) | Pair(lo: real, hi: real)

  /** A plain JavaScript object, seen through its own string keys. */
  type Obj = map<string, Value>

  /** `obj[key]`: a key the object does not have reads as `undefined`. */
  function Field(obj: Obj, key: string): (v: Value)
    ensures key !in obj ==> v == Undef
  {
    if key in obj then obj[key] else Undef
  }

  // The guards of the type-guards module: `typeof` tests and `Array.isArray`.
  predicate IsString(v: Value) { v.Str? }
  predicate IsNumber(v: Value) { v.Num? }
  predicate IsArray(v: Value) { v.Pair? }
  predicate IsBoolean(v: Value) { v.Bool? }

  /**
   * `a < b` for operands typed as numbers. A missing field is `undefined`,
   * which converts to NaN, and every comparison with NaN is false.
   */
  predicate Less(a: Value, b: Value) { a.Num? && b.Num? && a.n < b.n }

  /** `a > b`, under the same conversion as `Less`. */
  predicate Greater(a: Value, b: Value) { a.Num? && b.Num? && a.n > b.n }

  /** `v ?? fallback`: only `undefined` (and `null`, absent here) is replaced. */
  function Coalesce(v: Value, fallback: Value): (r: Value)
    ensures v.Undef? ==> r == fallback
    ensures !v.Undef? ==> r == v
  {
    if v.Undef? then fallback else v
  }

  /** `Math.floor` of a number. */
  function Floor(x: real): (r: real)
    ensures r <= x < r + 1.0
    ensures r == r.Floor as real
  {
    x.Floor as real
  }

  /** `Math.ceil` of a number. */
  function Ceil(x: real): (r: real)
    ensures r - 1.0 < x <= r
    ensures r == r.Floor as real
  {
    var k := (-x).Floor;
    assert k as real <= -x < k as real + 1.0;
    (-k) as real
  }
}
