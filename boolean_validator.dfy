/** `vBoolean` (src/validators/boolean.ts). */
module BooleanValidators {
  import opened Wrappers
  import opened JsStrings
  import opened Values
  import opened ValidationErrors
  import opened Validators

  /** `vBoolean`. */
  function BooleanOf(x: Value): (r: Result)
    ensures r.Ok? <==> x.Bool?
    ensures r.Ok? ==> r.value == x
    ensures !x.Bool? ==> r == Fail(Single(Lit("boolean"), x, None))
  {
    Check(Lit("boolean"), (y: Value) => y.Bool?, x)
  }
}
