/**
 * `vTuple` and `vStrictTuple` (src/validators/tuple.ts): the i-th validator
 * checks `value[i]`, and the outputs form a fresh array of one item per validator.
 */
module TupleValidators {
  import opened Wrappers
  import opened JsStrings
  import opened Values
  import opened ValidationErrors
  import opened Validators
  import opened ArrayValidators

  /** `value[0], …, value[n - 1]`, reading `undefined` past the end of the array. */
  function Padded(items: seq<Value>, n: nat): (r: seq<Value>)
    ensures |r| == n
    ensures forall i :: 0 <= i < n && i < |items| ==> r[i] == items[i]
    ensures forall i :: |items| <= i < n ==> r[i] == Undefined
  {
    seq(n, i requires 0 <= i < n => ItemAt(items, i))
  }

  /** `vTuple(...vs)`: too short an input reads `undefined`, extra items are dropped. */
  function TupleOf(vs: seq<Validator>, x: Value): (r: Result)
    ensures !x.Arr? ==> r == Fail(Single(Lit("tuple"), x, None))
    ensures x.Arr? ==> MapsEach(vs, Padded(x.items, |vs|), r)
    ensures r.Ok? ==> r.value.Arr? && |r.value.items| == |vs|
  {
    if !x.Arr? then Fail(Single(Lit("tuple"), x, None)) else RunEach(vs, Padded(x.items, |vs|))
  }

  function StrictLabel(n: nat): JsString {
    Lit("tuple of length ") + IntDecimal(n)
  }

  /** `vStrictTuple(...vs)`: the input must be an array of exactly one item per validator. */
  function StrictTupleOf(vs: seq<Validator>, x: Value): (r: Result)
    ensures !(x.Arr? && |x.items| == |vs|) ==> r == Fail(Single(StrictLabel(|vs|), x, None))
    ensures x.Arr? && |x.items| == |vs| ==> MapsEach(vs, x.items, r)
  {
    if !x.Arr? || |x.items| != |vs| then Fail(Single(StrictLabel(|vs|), x, None))
    else
      assert Padded(x.items, |vs|) == x.items;
      RunEach(vs, Padded(x.items, |vs|))
  }

  /** On an array of the right length the two tuple validators agree. */
  lemma StrictAgreesWithTuple(vs: seq<Validator>, x: Value)
    requires x.Arr? && |x.items| == |vs|
    ensures StrictTupleOf(vs, x) == TupleOf(vs, x)
  {
  }

  /**
   * A successful tuple holds, at each position, the output of that position's
   * validator on the input item there, or on `undefined` past the input's end.
   */
  lemma TupleOutputs(vs: seq<Validator>, x: Value)
    requires x.Arr? && TupleOf(vs, x).Ok?
    ensures forall i :: 0 <= i < |vs| && i < |x.items| ==> vs[i](x.items[i]).Ok? && TupleOf(vs, x).value.items[i] == vs[i](x.items[i]).value
    ensures forall i :: |x.items| <= i < |vs| ==> vs[i](Undefined).Ok? && TupleOf(vs, x).value.items[i] == vs[i](Undefined).value
  {
    var p := Padded(x.items, |vs|);
    assert forall i :: 0 <= i < |vs| ==> vs[i](p[i]).Ok?;
  }

  /** Items beyond the number of validators play no part, and neither do the input's named properties. */
  lemma TupleIgnoresExtra(vs: seq<Validator>, items: seq<Value>, extra: seq<Value>, p: map<PropKey, Value>, q: map<PropKey, Value>)
    requires |items| >= |vs|
    ensures TupleOf(vs, Arr(items + extra, p)) == TupleOf(vs, Arr(items, q))
  {
    assert Padded(items + extra, |vs|) == Padded(items, |vs|);
  }

  /**
   * A failing position's outcome comes out unchanged, with no index added to
   * its path, when every earlier position succeeded.
   */
  lemma TupleFirstFailure(vs: seq<Validator>, x: Value, k: nat)
    requires x.Arr? && k < |vs|
    requires forall j :: 0 <= j < k ==> vs[j](ItemAt(x.items, j)).Ok?
    requires !vs[k](ItemAt(x.items, k)).Ok?
    ensures TupleOf(vs, x) == vs[k](ItemAt(x.items, k))
  {
    RunEachFirstFailure(vs, Padded(x.items, |vs|), k);
  }

  /** With idempotent validators, validating a tuple's output again gives the same outcome. */
  lemma TupleOfIdempotent(vs: seq<Validator>, x: Value)
    requires forall i :: 0 <= i < |vs| ==> Idempotent(vs[i])
    requires TupleOf(vs, x).Ok?
    ensures TupleOf(vs, TupleOf(vs, x).value) == TupleOf(vs, x)
  {
    var out := TupleOf(vs, x).value.items;
    var p := Padded(x.items, |vs|);
    forall i | 0 <= i < |vs|
      ensures vs[i](out[i]) == Ok(out[i])
    {
      assert vs[i](p[i]).Ok? && out[i] == vs[i](p[i]).value;
    }
    assert Padded(out, |vs|) == out;
    assert TupleOf(vs, TupleOf(vs, x).value).value.items == out;
  }
}
