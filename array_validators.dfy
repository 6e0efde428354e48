/**
 * The `vArray` family (src/validators/array.ts): a guard on the input being
 * an array of an acceptable length, then `value.map(item => v(item))`.
 */
module ArrayValidators {
  import opened Wrappers
  import opened JsStrings
  import opened Values
  import opened ValidationErrors
  import opened Validators

  /**
   * The reference meaning of running `vs[i]` on `xs[i]` from left to right and
   * collecting the outputs in a fresh array: success exactly when every
   * position succeeds, with the outputs in place; otherwise the outcome of the
   * first position that did not succeed, unchanged.
   */
  ghost predicate MapsEach(vs: seq<Validator>, xs: seq<Value>, r: Result)
    requires |vs| == |xs|
  {
    && (r.Ok? <==> forall i :: 0 <= i < |xs| ==> vs[i](xs[i]).Ok?)
    && (r.Ok? ==>
          && r.value.Arr? && r.value.props == map[] && |r.value.items| == |xs|
          && forall i :: 0 <= i < |xs| ==> r.value.items[i] == vs[i](xs[i]).value)
    && (!r.Ok? ==>
          exists k :: 0 <= k < |xs| && r == vs[k](xs[k]) && forall j :: 0 <= j < k ==> vs[j](xs[j]).Ok?)
  }

  /** Validates `xs[i]` with `vs[i]`, first to last, stopping at the first throw. */
  function RunEach(vs: seq<Validator>, xs: seq<Value>): (r: Result)
    requires |vs| == |xs|
    ensures MapsEach(vs, xs, r)
  {
    if xs == [] then Ok(Arr([], map[]))
    else
      match vs[0](xs[0])
      case Ok(y) =>
        var rest := RunEach(vs[1..], xs[1..]);
        assert forall i :: 1 <= i < |xs| ==> vs[1..][i - 1] == vs[i] && xs[1..][i - 1] == xs[i];
        if rest.Ok? then
          var r := Ok(Arr([y] + rest.value.items, map[]));
          assert forall i :: 1 <= i < |xs| ==> r.value.items[i] == rest.value.items[i - 1];
          r
        else
          ghost var k :| 0 <= k < |xs[1..]| && rest == vs[1..][k](xs[1..][k])
            && forall j :: 0 <= j < k ==> vs[1..][j](xs[1..][j]).Ok?;
          assert rest == vs[k + 1](xs[k + 1]);
          rest
      case Fail(e) => Fail(e)
      case Crash(c) => Crash(c)
  }

  /** The same validator at each of `n` positions. */
  function Uniform(v: Validator, n: nat): seq<Validator>
  {
    seq(n, _ => v)
  }

  /** `value.map(item => v(item))` on the items of an array. */
  function MapItems(v: Validator, items: seq<Value>): (r: Result)
    ensures MapsEach(Uniform(v, |items|), items, r)
  {
    RunEach(Uniform(v, |items|), items)
  }

  /** The outcome of an array guard: fail on the whole input, or map the items. */
  ghost predicate Guarded(v: Validator, typeName: JsString, fits: bool, x: Value, r: Result)
    requires fits ==> x.Arr?
  {
    && (!fits ==> r == Fail(Single(typeName, x, None)))
    && (fits ==> MapsEach(Uniform(v, |x.items|), x.items, r))
  }

  /** Whatever satisfies `Guarded` succeeds exactly when the guard passes and every item does. */
  lemma GuardedSuccess(v: Validator, typeName: JsString, fits: bool, x: Value, r: Result)
    requires fits ==> x.Arr?
    requires Guarded(v, typeName, fits, x, r)
    ensures r.Ok? <==> fits && forall i :: 0 <= i < |x.items| ==> v(x.items[i]).Ok?
  {
  }

  /** The array variants' shared shape: a guard, then the items mapped. */
  function GuardThenMap(v: Validator, typeName: JsString, fits: bool, x: Value): (r: Result)
    requires fits ==> x.Arr?
    ensures Guarded(v, typeName, fits, x, r)
    ensures r.Ok? <==> fits && forall i :: 0 <= i < |x.items| ==> v(x.items[i]).Ok?
  {
    var r := if !fits then Fail(Single(typeName, x, None)) else MapItems(v, x.items);
    GuardedSuccess(v, typeName, fits, x, r);
    r
  }

  /** `vArray(v)`. */
  function ArrayOf(v: Validator, x: Value): (r: Result)
    ensures Guarded(v, Lit("array"), x.Arr?, x, r)
    ensures r.Ok? <==> x.Arr? && forall i :: 0 <= i < |x.items| ==> v(x.items[i]).Ok?
  {
    GuardThenMap(v, Lit("array"), x.Arr?, x)
  }

  /** `vArrayOfLength(v, length)`. */
  function ArrayOfLength(v: Validator, length: int, x: Value): (r: Result)
    ensures Guarded(v, LengthLabel(length), x.Arr? && |x.items| == length, x, r)
    ensures r.Ok? <==> x.Arr? && |x.items| == length && forall i :: 0 <= i < |x.items| ==> v(x.items[i]).Ok?
  {
    GuardThenMap(v, LengthLabel(length), x.Arr? && |x.items| == length, x)
  }

  function LengthLabel(length: int): JsString {
    Lit("array of length ") + IntDecimal(length)
  }

  function AtLeastLabel(minLength: int): JsString {
    Lit("array of at least length ") + IntDecimal(minLength)
  }

  function AtMostLabel(maxLength: int): JsString {
    Lit("array of at most length ") + IntDecimal(maxLength)
  }

  function BetweenLabel(minLength: int, maxLength: int): JsString {
    Lit("array of length [") + IntDecimal(minLength) + Lit(", ") + IntDecimal(maxLength) + Lit("]")
  }

  /** `vArrayOfLengthBetween(v, minLength, maxLength)`: both ends inclusive. */
  function ArrayOfLengthBetween(v: Validator, minLength: int, maxLength: int, x: Value): (r: Result)
    ensures Guarded(v, BetweenLabel(minLength, maxLength), x.Arr? && minLength <= |x.items| <= maxLength, x, r)
    ensures r.Ok? <==> x.Arr? && minLength <= |x.items| <= maxLength && forall i :: 0 <= i < |x.items| ==> v(x.items[i]).Ok?
  {
    GuardThenMap(v, BetweenLabel(minLength, maxLength), x.Arr? && minLength <= |x.items| <= maxLength, x)
  }

  /** `vArrayOfAtLeastLength(v, minLength)`: an array of exactly `minLength` items passes the guard. */
  function ArrayOfAtLeastLength(v: Validator, minLength: int, x: Value): (r: Result)
    ensures Guarded(v, AtLeastLabel(minLength), x.Arr? && |x.items| >= minLength, x, r)
    ensures r.Ok? <==> x.Arr? && |x.items| >= minLength && forall i :: 0 <= i < |x.items| ==> v(x.items[i]).Ok?
  {
    GuardThenMap(v, AtLeastLabel(minLength), x.Arr? && |x.items| >= minLength, x)
  }

  /** `vArrayOfAtMostLength(v, maxLength)`: an array of exactly `maxLength` items passes the guard. */
  function ArrayOfAtMostLength(v: Validator, maxLength: int, x: Value): (r: Result)
    ensures Guarded(v, AtMostLabel(maxLength), x.Arr? && |x.items| <= maxLength, x, r)
    ensures r.Ok? <==> x.Arr? && |x.items| <= maxLength && forall i :: 0 <= i < |x.items| ==> v(x.items[i]).Ok?
  {
    GuardThenMap(v, AtMostLabel(maxLength), x.Arr? && |x.items| <= maxLength, x)
  }

  /** `vNonemptyArrayOf(v)`, defined as `vArrayOfAtLeastLength(v, 1)`. */
  function NonemptyArrayOf(v: Validator, x: Value): (r: Result)
    ensures Guarded(v, AtLeastLabel(1), x.Arr? && |x.items| > 0, x, r)
    ensures r.Ok? <==> x.Arr? && |x.items| > 0 && forall i :: 0 <= i < |x.items| ==> v(x.items[i]).Ok?
  {
    ArrayOfAtLeastLength(v, 1, x)
  }

  /** The non-empty variant's errors read "array of at least length 1". */
  lemma NonemptyLabel()
    ensures AtLeastLabel(1) == Lit("array of at least length 1")
  {
    assert NatDecimal(1) == [0x31];
    assert Lit("array of at least length 1") == Lit("array of at least length ") + [0x31];
  }

  /**
   * The first element whose validator does not succeed decides the outcome:
   * its error or crash comes out unchanged, with no index added to the path.
   */
  lemma {:induction false} RunEachFirstFailure(vs: seq<Validator>, xs: seq<Value>, k: nat)
    requires |vs| == |xs| && k < |xs|
    requires forall j :: 0 <= j < k ==> vs[j](xs[j]).Ok?
    requires !vs[k](xs[k]).Ok?
    ensures RunEach(vs, xs) == vs[k](xs[k])
  {
    var r := RunEach(vs, xs);
    var k' :| 0 <= k' < |xs| && r == vs[k'](xs[k']) && forall j :: 0 <= j < k' ==> vs[j](xs[j]).Ok?;
  }

  /**
   * Every array variant lets the first failing element's outcome through
   * unchanged once its guard passes: whatever satisfies `Guarded` is that outcome.
   */
  lemma GuardedFirstFailure(v: Validator, typeName: JsString, fits: bool, x: Value, r: Result, k: nat)
    requires fits && x.Arr? && k < |x.items|
    requires Guarded(v, typeName, fits, x, r)
    requires forall j :: 0 <= j < k ==> v(x.items[j]).Ok?
    requires !v(x.items[k]).Ok?
    ensures r == v(x.items[k])
  {
    var vs := Uniform(v, |x.items|);
    var k' :| 0 <= k' < |x.items| && r == vs[k'](x.items[k']) && forall j :: 0 <= j < k' ==> vs[j](x.items[j]).Ok?;
  }

  /** Mapping an idempotent validator over an array twice gives what mapping it once gave. */
  lemma MapItemsIdempotent(v: Validator, items: seq<Value>)
    requires Idempotent(v)
    requires MapItems(v, items).Ok?
    ensures MapItems(v, MapItems(v, items).value.items) == MapItems(v, items)
  {
    var out := MapItems(v, items).value.items;
    var again := MapItems(v, out);
    forall i | 0 <= i < |out|
      ensures v(out[i]) == Ok(out[i])
    {
      assert v(items[i]).Ok? && out[i] == v(items[i]).value;
    }
    assert again.value.items == out;
  }

  /** `vArray(v)` with an idempotent `v` is idempotent. */
  lemma ArrayOfIdempotent(v: Validator, x: Value)
    requires Idempotent(v)
    requires ArrayOf(v, x).Ok?
    ensures ArrayOf(v, ArrayOf(v, x).value) == ArrayOf(v, x)
  {
    MapItemsIdempotent(v, x.items);
  }
}
