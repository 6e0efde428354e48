/** `vString`, `vNonEmptyString` and `vStringOfLength` (src/validators/string.ts). */
module StringValidators {
  import opened Wrappers
  import opened JsStrings
  import opened Values
  import opened ValidationErrors
  import opened Validators

  /** `vString`. */
  function StringOf(x: Value): (r: Result)
    ensures r.Ok? <==> x.Str?
    ensures r.Ok? ==> r.value == x
    ensures !x.Str? ==> r == Fail(Single(Lit("string"), x, None))
  {
    Check(Lit("string"), (y: Value) => y.Str?, x)
  }

  /** `vNonEmptyString`: a string of at least one code unit. */
  function NonEmptyStringOf(x: Value): (r: Result)
    ensures r.Ok? <==> x.Str? && |x.s| > 0
    ensures r.Ok? ==> r.value == x
    ensures !r.Ok? ==> r == Fail(Single(Lit("non-empty string"), x, None))
  {
    Check(Lit("non-empty string"), (y: Value) => y.Str? && |y.s| > 0, x)
  }

  /** The label of `vStringOfLength(minLength, maxLength)`. */
  function StringLengthLabel(minLength: int, maxLength: int): JsString {
    if minLength == maxLength then Lit("string of length ") + IntDecimal(minLength)
    else Lit("string of length [") + IntDecimal(minLength) + Lit(", ") + IntDecimal(maxLength) + Lit("]")
  }

  /**
   * `vStringOfLength(minLength, maxLength)`; an omitted `maxLength` defaults
   * to `minLength`. Lengths count UTF-16 code units, inclusive at both ends.
   */
  function StringOfLength(minLength: int, maxLength: Option<int>, x: Value): (r: Result)
    ensures r.Ok? <==> x.Str? && minLength <= |x.s| <= maxLength.GetOr(minLength)
    ensures r.Ok? ==> r.value == x
    ensures !r.Ok? ==> r == Fail(Single(StringLengthLabel(minLength, maxLength.GetOr(minLength)), x, None))
  {
    var hi := maxLength.GetOr(minLength);
    Check(StringLengthLabel(minLength, hi), (y: Value) => y.Str? && |y.s| >= minLength && |y.s| <= hi, x)
  }

  /** With one length only, `vStringOfLength(n)` accepts exactly the strings of length `n`, labelled "string of length n". */
  lemma StringOfExactLength(n: int, x: Value)
    ensures StringOfLength(n, None, x).Ok? <==> x.Str? && |x.s| == n
    ensures StringOfLength(n, None, x) == StringOfLength(n, Some(n), x)
    ensures !StringOfLength(n, None, x).Ok? ==>
      StringOfLength(n, None, x) == Fail(Single(Lit("string of length ") + IntDecimal(n), x, None))
  {
  }
}
