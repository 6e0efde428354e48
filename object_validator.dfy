/**
 * `vObject(template)` (src/validators/object.ts): a fresh record holding,
 * for each key of the template in `Reflect.ownKeys` order, the output of that
 * key's validator on the input's property of the same key.
 */
module ObjectValidator {
  import opened Wrappers
  import opened JsStrings
  import opened Values
  import opened Paths
  import opened ValidationErrors
  import opened Validators

  /**
   * Where a key falls in `Reflect.ownKeys` order (section 10.1.11.1 of
   * ECMA-262): array indices first, then the other strings, then symbols.
   */
  function KeyClass(k: PropKey): nat {
    if k.SymKey? then 2 else if ArrayIndexOf(k.name).Some? then 0 else 1
  }

  function Keys(t: seq<(PropKey, Validator)>): seq<PropKey>
  {
    seq(|t|, i requires 0 <= i < |t| => t[i].0)
  }

  predicate DistinctKeys(ks: seq<PropKey>) {
    forall i, j :: 0 <= i < j < |ks| ==> ks[i] != ks[j]
  }

  /**
   * The order `Reflect.ownKeys` lists an object's keys in: by class, array
   * indices ascending among themselves, other strings and symbols in the
   * order they were created.
   */
  predicate OwnKeysOrdered(ks: seq<PropKey>) {
    forall i, j :: 0 <= i < j < |ks| ==>
      KeyClass(ks[i]) <= KeyClass(ks[j])
      && (KeyClass(ks[i]) == 0 && KeyClass(ks[j]) == 0 ==> ArrayIndexOf(ks[i].name).value < ArrayIndexOf(ks[j].name).value)
  }

  /** A template as `Reflect.ownKeys(template)` walks it: distinct keys, each with its validator. */
  type Template = t: seq<(PropKey, Validator)> | DistinctKeys(Keys(t)) && OwnKeysOrdered(Keys(t)) witness []

  /** The keys of the template entries from position `i` on, as a set. */
  function KeySet(t: Template, i: nat): set<PropKey> {
    set j | i <= j < |t| :: t[j].0
  }

  /** What the `catch` of the loop does: a single error gets the key in front of its path; anything else goes on unchanged. */
  function CatchSingle(r: Result, k: PropKey): (c: Result)
    ensures r.Ok? ==> c == r
    ensures r.Fail? && r.error.Single? ==>
      c == Fail(Single(r.error.expectedType, r.error.actualValue, Some([StepOfKey(k)] + r.error.path.GetOr([]))))
    ensures r.Fail? && r.error.Union? ==> c == r
    ensures r.Crash? ==> c == r
  {
    if r.Fail? && r.error.Single? then Fail(WithExtendedPath(r.error, StepOfKey(k))) else r
  }

  /** The outcome of the validator of template entry `i` on the input's property of that key. */
  function Field(t: Template, x: Value, i: nat): Result
    requires IsObjectLike(x) && i < |t|
  {
    t[i].1(Get(x, t[i].0))
  }

  /** The loop from entry `i` on, with `out` the record built so far. */
  function FieldsFrom(t: Template, x: Value, i: nat, out: map<PropKey, Value>): Result
    requires IsObjectLike(x) && i <= |t|
    decreases |t| - i
  {
    if i == |t| then Ok(Obj(out))
    else
      var r := Field(t, x, i);
      if r.Ok? then FieldsFrom(t, x, i + 1, out[t[i].0 := r.value]) else CatchSingle(r, t[i].0)
  }

  /** `vObject(template)` applied to `x`. */
  function ObjectOf(t: Template, x: Value): (r: Result)
    ensures !IsObjectLike(x) ==> r == Fail(Single(Lit("object"), x, None))
  {
    if !IsObjectLike(x) then Fail(Single(Lit("object"), x, None)) else FieldsFrom(t, x, 0, map[])
  }

  /** The loop of object.ts:55-73, proved to compute `ObjectOf`. */
  method ValidateObject(t: Template, x: Value) returns (r: Result)
    ensures r == ObjectOf(t, x)
  {
    if !IsObjectLike(x) {
      return Fail(Single(Lit("object"), x, None));
    }
    var output: map<PropKey, Value> := map[];
    var i := 0;
    while i < |t|
      invariant 0 <= i <= |t|
      invariant FieldsFrom(t, x, i, output) == FieldsFrom(t, x, 0, map[])
    {
      var key := t[i].0;
      var res := t[i].1(Get(x, key));
      if res.Ok? {
        output := output[key := res.value];
      } else if res.Fail? && res.error.Single? {
        return Fail(WithExtendedPath(res.error, StepOfKey(key)));
      } else {
        return res;
      }
      i := i + 1;
    }
    return Ok(Obj(output));
  }

  // ------------------------------------------------------------- the loop

  /** The keys from entry `i` on are entry `i`'s key and, apart from it, the keys from `i + 1` on. */
  lemma KeySetStep(t: Template, i: nat)
    requires i < |t|
    ensures KeySet(t, i) == {t[i].0} + KeySet(t, i + 1)
    ensures t[i].0 !in KeySet(t, i + 1)
    ensures forall j :: i < j < |t| ==> t[j].0 != t[i].0
  {
    assert Keys(t)[i] == t[i].0;
    forall j | i + 1 <= j < |t| ensures t[j].0 != t[i].0 {
      assert Keys(t)[j] == t[j].0;
    }
  }

  lemma {:induction false} FieldsFromSucceeds(t: Template, x: Value, i: nat, out: map<PropKey, Value>)
    requires IsObjectLike(x) && i <= |t|
    requires forall j :: i <= j < |t| ==> Field(t, x, j).Ok?
    ensures var r := FieldsFrom(t, x, i, out);
      && r.Ok? && r.value.Obj?
      && r.value.props.Keys == out.Keys + KeySet(t, i)
      && (forall j :: i <= j < |t| ==> r.value.props[t[j].0] == Field(t, x, j).value)
      && (forall k :: k in out && k !in KeySet(t, i) ==> r.value.props[k] == out[k])
    decreases |t| - i
  {
    if i < |t| {
      var out' := out[t[i].0 := Field(t, x, i).value];
      assert FieldsFrom(t, x, i, out) == FieldsFrom(t, x, i + 1, out');
      FieldsFromSucceeds(t, x, i + 1, out');
      KeySetStep(t, i);
      var r := FieldsFrom(t, x, i + 1, out');
      assert r.value.props.Keys == out.Keys + KeySet(t, i) by {
        assert out'.Keys == out.Keys + {t[i].0};
      }
      assert r.value.props[t[i].0] == Field(t, x, i).value;
      forall k | k in out && k !in KeySet(t, i) ensures r.value.props[k] == out[k] {
        assert k != t[i].0 && k in out' && k !in KeySet(t, i + 1);
      }
    }
  }

  lemma {:induction false} FieldsFromFirstFailure(t: Template, x: Value, i: nat, out: map<PropKey, Value>, k: nat)
    requires IsObjectLike(x) && i <= k < |t|
    requires forall j :: i <= j < k ==> Field(t, x, j).Ok?
    requires !Field(t, x, k).Ok?
    ensures FieldsFrom(t, x, i, out) == CatchSingle(Field(t, x, k), t[k].0)
    decreases k - i
  {
    if i < k {
      var out' := out[t[i].0 := Field(t, x, i).value];
      assert FieldsFrom(t, x, i, out) == FieldsFrom(t, x, i + 1, out');
      FieldsFromFirstFailure(t, x, i + 1, out', k);
    }
  }

  lemma {:induction false} FieldsFromOkOnlyIfAllOk(t: Template, x: Value, i: nat, out: map<PropKey, Value>)
    requires IsObjectLike(x) && i <= |t|
    requires FieldsFrom(t, x, i, out).Ok?
    ensures forall j :: i <= j < |t| ==> Field(t, x, j).Ok?
    decreases |t| - i
  {
    if i < |t| {
      FieldsFromOkOnlyIfAllOk(t, x, i + 1, out[t[i].0 := Field(t, x, i).value]);
    }
  }

  // ------------------------------------------------------------ properties

  /**
   * `vObject` succeeds on an object-like input exactly when every template
   * key's validator succeeds on the input's property of that key; the output
   * is then a plain object whose keys are exactly the template's keys (extra
   * input keys are dropped) and whose value at each key is that validator's output.
   */
  lemma ObjectOfSuccess(t: Template, x: Value)
    requires IsObjectLike(x)
    ensures ObjectOf(t, x).Ok? <==> forall j :: 0 <= j < |t| ==> Field(t, x, j).Ok?
    ensures ObjectOf(t, x).Ok? ==>
      && ObjectOf(t, x).value.Obj?
      && ObjectOf(t, x).value.props.Keys == KeySet(t, 0)
      && forall j :: 0 <= j < |t| ==> ObjectOf(t, x).value.props[t[j].0] == Field(t, x, j).value
  {
    if ObjectOf(t, x).Ok? {
      FieldsFromOkOnlyIfAllOk(t, x, 0, map[]);
    }
    if forall j :: 0 <= j < |t| ==> Field(t, x, j).Ok? {
      FieldsFromSucceeds(t, x, 0, map[]);
    }
  }

  /**
   * The first template key, in template order, whose validator does not
   * succeed decides the outcome: a single error comes out with that key in
   * front of its path, a union error or a crash comes out unchanged, and no
   * later key's validator plays a part.
   */
  lemma ObjectOfFirstFailure(t: Template, x: Value, k: nat)
    requires IsObjectLike(x) && k < |t|
    requires forall j :: 0 <= j < k ==> Field(t, x, j).Ok?
    requires !Field(t, x, k).Ok?
    ensures ObjectOf(t, x) == CatchSingle(Field(t, x, k), t[k].0)
  {
    FieldsFromFirstFailure(t, x, 0, map[], k);
  }

  /** A key missing from a plain-object input is validated as `undefined`. */
  lemma MissingKeyReadsUndefined(t: Template, x: Value, j: nat)
    requires x.Obj? && j < |t| && t[j].0 !in x.props
    ensures Field(t, x, j) == t[j].1(Undefined)
  {
  }

  /** With idempotent field validators, validating `vObject`'s output again gives the same outcome. */
  lemma ObjectOfIdempotent(t: Template, x: Value)
    requires forall j :: 0 <= j < |t| ==> Idempotent(t[j].1)
    requires ObjectOf(t, x).Ok?
    ensures ObjectOf(t, ObjectOf(t, x).value) == ObjectOf(t, x)
  {
    ObjectOfSuccess(t, x);
    var y := ObjectOf(t, x).value;
    var m := y.props;
    forall j | 0 <= j < |t|
      ensures Field(t, y, j) == Ok(m[t[j].0])
    {
      assert t[j].0 in KeySet(t, 0);
      assert Get(y, t[j].0) == Field(t, x, j).value;
    }
    ObjectOfSuccess(t, y);
    var m' := ObjectOf(t, y).value.props;
    assert m'.Keys == m.Keys;
    forall k | k in m
      ensures m'[k] == m[k]
    {
      var j :| 0 <= j < |t| && t[j].0 == k;
    }
    assert m' == m;
  }
}
