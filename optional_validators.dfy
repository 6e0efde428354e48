/**
 * `vOptional`, `vNullable` and `vOrUndefined` (src/validators/optional.ts):
 * unions of a validator with `vUndefined` and/or `vNull`.
 */
module OptionalValidators {
  import opened Wrappers
  import opened JsStrings
  import opened Values
  import opened ValidationErrors
  import opened Validators
  import opened UnionValidator
  import opened ConstValidators

  /** `vOptional(v)`, which is `vUnion(v, vUndefined, vNull)`. */
  function OptionalOf(v: Validator, x: Value): (r: Result)
    ensures !v(x).Fail? ==> r == v(x)
    ensures v(x).Fail? && (x == Undefined || x == Null) ==> r == Ok(x)
    ensures v(x).Fail? && x != Undefined && x != Null ==>
      r == Fail(Union([v(x).error, Single(Lit("undefined"), x, None), Single(Lit("null"), x, None)], x, None))
  {
    var vs: seq<Validator> := [v, UndefinedOf, NullOf];
    if !v(x).Fail? then
      UnionFirstNonFailure(vs, x, 0);
      UnionOf(vs, x)
    else if x == Undefined then
      UnionFirstNonFailure(vs, x, 1);
      UnionOf(vs, x)
    else if x == Null then
      UnionFirstNonFailure(vs, x, 2);
      UnionOf(vs, x)
    else
      UnionAllFail(vs, x);
      assert ErrorsFrom(vs, x, 0) == [v(x).error, Single(Lit("undefined"), x, None), Single(Lit("null"), x, None)];
      UnionOf(vs, x)
  }

  /** `vNullable(v)`, which is `vUnion(v, vNull)`. */
  function NullableOf(v: Validator, x: Value): (r: Result)
    ensures !v(x).Fail? ==> r == v(x)
    ensures v(x).Fail? && x == Null ==> r == Ok(x)
    ensures v(x).Fail? && x != Null ==> r == Fail(Union([v(x).error, Single(Lit("null"), x, None)], x, None))
  {
    var vs: seq<Validator> := [v, NullOf];
    if !v(x).Fail? then
      UnionFirstNonFailure(vs, x, 0);
      UnionOf(vs, x)
    else if x == Null then
      UnionFirstNonFailure(vs, x, 1);
      UnionOf(vs, x)
    else
      UnionAllFail(vs, x);
      assert ErrorsFrom(vs, x, 0) == [v(x).error, Single(Lit("null"), x, None)];
      UnionOf(vs, x)
  }

  /** `vOrUndefined(v)`, which is `vUnion(v, vUndefined)`. */
  function OrUndefinedOf(v: Validator, x: Value): (r: Result)
    ensures !v(x).Fail? ==> r == v(x)
    ensures v(x).Fail? && x == Undefined ==> r == Ok(x)
    ensures v(x).Fail? && x != Undefined ==> r == Fail(Union([v(x).error, Single(Lit("undefined"), x, None)], x, None))
  {
    var vs: seq<Validator> := [v, UndefinedOf];
    if !v(x).Fail? then
      UnionFirstNonFailure(vs, x, 0);
      UnionOf(vs, x)
    else if x == Undefined then
      UnionFirstNonFailure(vs, x, 1);
      UnionOf(vs, x)
    else
      UnionAllFail(vs, x);
      assert ErrorsFrom(vs, x, 0) == [v(x).error, Single(Lit("undefined"), x, None)];
      UnionOf(vs, x)
  }

  /**
   * With a validator that rejects `undefined` and `null`, `vOptional` accepts
   * exactly what the validator accepts plus those two, the two returned as they are.
   */
  lemma OptionalAccepts(v: Validator, x: Value)
    requires v(Undefined).Fail? && v(Null).Fail?
    ensures OptionalOf(v, x).Ok? <==> v(x).Ok? || x == Undefined || x == Null
    ensures x == Undefined || x == Null ==> OptionalOf(v, x) == Ok(x)
  {
  }
}
