/**
 * `vWithDefault` and `vWithFallback` (src/validators/default.ts): stand-ins
 * for absent values and for values that fail validation.
 */
module DefaultValidators {
  import opened Values
  import opened Validators

  /**
   * The default given to `vWithDefault`: a fixed value, or a function called
   * with no arguments. A function value is always called, so it cannot be the
   * fixed value.
   */
  datatype ValueOrThunk = Fixed(value: Value) | Thunk(make: () -> Result)

  type Default = d: ValueOrThunk | !(d.Fixed? && d.value.Func?) witness Fixed(Undefined)

  /** `value === null || value === undefined`. */
  predicate IsAbsent(x: Value) {
    StrictEquals(x, Null) || StrictEquals(x, Undefined)
  }

  /** The loose test `value === null || value === undefined` picks out exactly `null` and `undefined`. */
  lemma AbsentMeansNullish(x: Value)
    ensures IsAbsent(x) <==> x == Null || x == Undefined
  {
  }

  /** `vWithDefault(v, default)` applied to `x`. */
  function WithDefaultOf(v: Validator, d: Default, x: Value): (r: Result)
    ensures IsAbsent(x) && d.Fixed? ==> r == Ok(d.value)
    ensures IsAbsent(x) && d.Thunk? ==> r == d.make()
    ensures !IsAbsent(x) ==> r == v(x)
  {
    if IsAbsent(x) then
      match d
      case Fixed(c) => Ok(c)
      case Thunk(make) => make()
    else v(x)
  }

  /** On an absent input the wrapped validator is never consulted. */
  lemma WithDefaultIgnoresValidator(v: Validator, w: Validator, d: Default, x: Value)
    requires x == Null || x == Undefined
    ensures WithDefaultOf(v, d, x) == WithDefaultOf(w, d, x)
  {
  }

  /** `vWithFallback(v, fallback)` applied to `x`. */
  function WithFallbackOf(v: Validator, fallback: Replacement, x: Value): (r: Result)
    ensures !v(x).Fail? ==> r == v(x)
    ensures v(x).Fail? && fallback.Given? ==> r == Ok(fallback.value)
    ensures v(x).Fail? && fallback.FromInput? ==> r == fallback.produce(x)
  {
    var res := v(x);
    if res.Fail? then
      match fallback
      case Given(c) => Ok(c)
      case FromInput(produce) => produce(x)
    else res
  }

  /**
   * With a fixed fallback no validation error escapes: the outcome is a
   * success unless the wrapped validator crashed, and then it is that crash.
   */
  lemma FixedFallbackNeverFails(v: Validator, fallback: Replacement, x: Value)
    requires fallback.Given?
    ensures !WithFallbackOf(v, fallback, x).Fail?
    ensures WithFallbackOf(v, fallback, x).Ok? <==> !v(x).Crash?
    ensures v(x).Crash? ==> WithFallbackOf(v, fallback, x) == v(x)
  {
  }
}
