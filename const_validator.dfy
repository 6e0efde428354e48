/**
 * `vConst` (src/validators/const.ts), and the `vUndefined` and `vNull`
 * validators that src/validators/optional.ts imports from it.
 */
module ConstValidators {
  import opened Wrappers
  import opened JsStrings
  import opened Values
  import opened ValidationErrors
  import opened Validators

  /** The label of `vConst(c)`: "exact", `typeof c`, and `String(c)` in backquotes. */
  function ConstLabel(c: Value, show: Value -> JsString): JsString {
    Lit("exact ") + TypeOf(c) + Lit(" `") + show(c) + Lit("`")
  }

  /** `vConst(c)`: strict equality, except that NaN is accepted for NaN. */
  function ConstOf(c: Value, show: Value -> JsString, x: Value): (r: Result)
    ensures r.Ok? <==> StrictEquals(x, c) || (IsNaN(x) && IsNaN(c))
    ensures r.Ok? ==> r.value == x
    ensures !r.Ok? ==> r == Fail(Single(ConstLabel(c, show), x, None))
  {
    Check(ConstLabel(c, show), (y: Value) => StrictEquals(y, c) || (IsNaN(y) && IsNaN(c)), x)
  }

  /**
   * With the NaN exception, `vConst(c)` accepts exactly the values equal to
   * `c`: NaN included, and nothing else.
   */
  lemma ConstAcceptsExactly(c: Value, show: Value -> JsString, x: Value)
    ensures ConstOf(c, show, x).Ok? <==> x == c
    ensures IsNaN(c) ==> ConstOf(c, show, c) == Ok(c)
  {
  }

  /** `vUndefined`, which accepts `undefined` only and is labelled "undefined". */
  function UndefinedOf(x: Value): (r: Result)
    ensures r.Ok? <==> x == Undefined
    ensures r.Ok? ==> r.value == x
    ensures !r.Ok? ==> r == Fail(Single(Lit("undefined"), x, None))
  {
    Check(Lit("undefined"), (y: Value) => y == Undefined, x)
  }

  /** `vNull`, which accepts `null` only and is labelled "null". */
  function NullOf(x: Value): (r: Result)
    ensures r.Ok? <==> x == Null
    ensures r.Ok? ==> r.value == x
    ensures !r.Ok? ==> r == Fail(Single(Lit("null"), x, None))
  {
    Check(Lit("null"), (y: Value) => y == Null, x)
  }
}
