/**
 * `vUnion(...validators)` (src/validators/union.ts): try the alternatives in
 * order, return the first output, and when every alternative throws a
 * validation error, throw a union of those errors.
 */
module UnionValidator {
  import opened Wrappers
  import opened Values
  import opened ValidationErrors
  import opened Validators

  /** The loop from alternative `i` on, with `errs` the errors collected so far. */
  function UnionFrom(vs: seq<Validator>, x: Value, i: nat, errs: seq<Error>): Result
    requires i <= |vs|
    decreases |vs| - i
  {
    if i == |vs| then Fail(Union(errs, x, None))
    else
      var r := vs[i](x);
      if r.Fail? then UnionFrom(vs, x, i + 1, errs + [r.error]) else r
  }

  /** `vUnion(...vs)` applied to `x`. */
  function UnionOf(vs: seq<Validator>, x: Value): Result {
    UnionFrom(vs, x, 0, [])
  }

  /** The loop of union.ts:19-31, proved to compute `UnionOf`. */
  method ValidateUnion(vs: seq<Validator>, x: Value) returns (r: Result)
    ensures r == UnionOf(vs, x)
  {
    var errors: seq<Error> := [];
    var i := 0;
    while i < |vs|
      invariant 0 <= i <= |vs|
      invariant UnionFrom(vs, x, i, errors) == UnionOf(vs, x)
    {
      var res := vs[i](x);
      if !res.Fail? {
        return res;
      }
      errors := errors + [res.error];
      i := i + 1;
    }
    return Fail(Union(errors, x, None));
  }

  lemma {:induction false} UnionFromFirstNonFailure(vs: seq<Validator>, x: Value, i: nat, errs: seq<Error>, k: nat)
    requires i <= k < |vs|
    requires forall j :: i <= j < k ==> vs[j](x).Fail?
    requires !vs[k](x).Fail?
    ensures UnionFrom(vs, x, i, errs) == vs[k](x)
    decreases k - i
  {
    if i < k {
      UnionFromFirstNonFailure(vs, x, i + 1, errs + [vs[i](x).error], k);
    }
  }

  /** The errors of alternatives `i` onwards, in order. */
  function ErrorsFrom(vs: seq<Validator>, x: Value, i: nat): seq<Error>
    requires i <= |vs| && forall j :: i <= j < |vs| ==> vs[j](x).Fail?
  {
    seq(|vs| - i, j requires 0 <= j < |vs| - i => vs[i + j](x).error)
  }

  lemma {:induction false} UnionFromAllFail(vs: seq<Validator>, x: Value, i: nat, errs: seq<Error>)
    requires i <= |vs| && forall j :: i <= j < |vs| ==> vs[j](x).Fail?
    ensures UnionFrom(vs, x, i, errs) == Fail(Union(errs + ErrorsFrom(vs, x, i), x, None))
    decreases |vs| - i
  {
    if i == |vs| {
      assert errs + ErrorsFrom(vs, x, i) == errs;
    } else {
      UnionFromAllFail(vs, x, i + 1, errs + [vs[i](x).error]);
      assert errs + [vs[i](x).error] + ErrorsFrom(vs, x, i + 1) == errs + ErrorsFrom(vs, x, i);
    }
  }

  /**
   * The first alternative that does not throw a validation error decides the
   * outcome: its output when it returns, its throw when it crashes; no later
   * alternative plays a part.
   */
  lemma UnionFirstNonFailure(vs: seq<Validator>, x: Value, k: nat)
    requires k < |vs|
    requires forall j :: 0 <= j < k ==> vs[j](x).Fail?
    requires !vs[k](x).Fail?
    ensures UnionOf(vs, x) == vs[k](x)
  {
    UnionFromFirstNonFailure(vs, x, 0, [], k);
  }

  /**
   * When every alternative throws a validation error, the union error holds
   * one constituent per alternative, alternative `i`'s error at position `i`,
   * with the input as its value and no path. With no alternatives at all the
   * result is a union of no errors.
   */
  lemma UnionAllFail(vs: seq<Validator>, x: Value)
    requires forall j :: 0 <= j < |vs| ==> vs[j](x).Fail?
    ensures UnionOf(vs, x).Fail? && UnionOf(vs, x).error.Union?
    ensures UnionOf(vs, x).error == Union(ErrorsFrom(vs, x, 0), x, None)
    ensures |UnionOf(vs, x).error.errors| == |vs|
  {
    UnionFromAllFail(vs, x, 0, []);
  }

  /** Whatever follows the first alternative that does not throw a validation error is never consulted. */
  lemma UnionShortCircuit(vs: seq<Validator>, ws: seq<Validator>, x: Value, k: nat)
    requires k < |vs|
    requires forall j :: 0 <= j < k ==> vs[j](x).Fail?
    requires !vs[k](x).Fail?
    ensures UnionOf(vs[..k + 1] + ws, x) == UnionOf(vs, x)
  {
    var us := vs[..k + 1] + ws;
    assert forall j :: 0 <= j <= k ==> us[j] == vs[j];
    UnionFirstNonFailure(us, x, k);
    UnionFirstNonFailure(vs, x, k);
  }

  /** `vUnion` fails exactly when every alternative throws a validation error. */
  lemma UnionFailsIffAllFail(vs: seq<Validator>, x: Value)
    ensures UnionOf(vs, x).Fail? <==> forall j :: 0 <= j < |vs| ==> vs[j](x).Fail?
  {
    if forall j :: 0 <= j < |vs| ==> vs[j](x).Fail? {
      UnionAllFail(vs, x);
    } else {
      var k := FirstNonFailure(vs, x, 0);
      UnionFirstNonFailure(vs, x, k);
    }
  }

  /** The position of the first alternative from `i` on that does not throw a validation error. */
  function FirstNonFailure(vs: seq<Validator>, x: Value, i: nat): (k: nat)
    requires i <= |vs| && exists j :: i <= j < |vs| && !vs[j](x).Fail?
    ensures i <= k < |vs| && !vs[k](x).Fail? && forall j :: i <= j < k ==> vs[j](x).Fail?
    decreases |vs| - i
  {
    if !vs[i](x).Fail? then i else FirstNonFailure(vs, x, i + 1)
  }

  /** A union error `vUnion` throws over coherent constituents is itself coherent. */
  lemma UnionErrorCoherent(vs: seq<Validator>, x: Value)
    requires forall j :: 0 <= j < |vs| ==> vs[j](x).Fail? && PathsCoherent(vs[j](x).error)
    ensures UnionOf(vs, x).Fail? && PathsCoherent(UnionOf(vs, x).error)
  {
    UnionAllFail(vs, x);
    FreshUnionCoherent(ErrorsFrom(vs, x, 0), x);
  }
}
