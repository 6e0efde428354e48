/**
 * The validator contract (src/validator-helpers/validator.ts): a validator
 * maps an untyped value to its validated output, or throws. A throw is either
 * a `ValidationError` of the library or anything else a user function raised.
 */
module Validators {
  import opened Wrappers
  import opened JsStrings
  import opened Values
  import opened ValidationErrors

  /**
   * The outcome of running a validator: the returned value, a thrown
   * `ValidationError`, or any other thrown value (a crash of user code).
   */
  datatype Result = Ok(value: Value) | Fail(error: Error) | Crash(thrown: Value)

  type Validator = Value -> Result

  /** `validator(v)`: a cast that hands back the very same function. */
  function AsValidator(v: Validator): (r: Validator)
    ensures forall x :: r(x) == v(x)
  {
    v
  }

  /**
   * What `booleanValidator(typeName, accepts)` does with the value `x`:
   * hand it back when the predicate holds, throw a `SingleValidationError`
   * without a path otherwise.
   */
  function Check(typeName: JsString, accepts: Value -> bool, x: Value): (r: Result)
    ensures r.Ok? <==> accepts(x)
    ensures r.Ok? ==> r.value == x
    ensures !r.Ok? ==> r == Fail(Single(typeName, x, None))
    ensures !r.Crash? && !(r.Fail? && r.error.Union?)
  {
    if accepts(x) then Ok(x) else Fail(Single(typeName, x, None))
  }

  /** `booleanValidator(typeName, accepts)`. */
  function BooleanValidator(typeName: JsString, accepts: Value -> bool): Validator {
    x => Check(typeName, accepts, x)
  }

  /** Validating an already validated output again gives the same outcome. */
  ghost predicate Idempotent(v: Validator) {
    forall x :: v(x).Ok? ==> v(v(x).value) == v(x)
  }

  /** A validator made by `booleanValidator` is idempotent, since it returns its input. */
  lemma BooleanValidatorIdempotent(typeName: JsString, accepts: Value -> bool)
    ensures Idempotent(BooleanValidator(typeName, accepts))
  {
    var v := BooleanValidator(typeName, accepts);
    forall x | v(x).Ok?
      ensures v(v(x).value) == v(x)
    {
      assert v(x) == Check(typeName, accepts, x);
    }
  }

  /**
   * A replacement given to `vWithFallback` or `vOverride`: a fixed value, or a
   * function called with the original input (`typeof … === "function"`). A
   * function value is always called, so it cannot be the fixed value.
   */
  datatype ValueOrProducer = Given(value: Value) | FromInput(produce: Value -> Result)

  type Replacement = r: ValueOrProducer | !(r.Given? && r.value.Func?) witness Given(Undefined)
}
