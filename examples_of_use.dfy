/**
 * Concrete compositions of the validators, with their outcomes proved:
 * unknown keys dropped, nested object paths, union exhaustion and tuple padding.
 */
module Scenarios {
  import opened Wrappers
  import opened JsStrings
  import opened Values
  import opened Paths
  import opened ValidationErrors
  import opened Validators
  import opened StringValidators
  import opened UnionValidator
  import opened ObjectValidator
  import opened TupleValidators
  import opened OptionalValidators

  /** A stand-in for `vNumber`: any number, labelled "number". */
  function NumberOf(x: Value): (r: Result)
    ensures r.Ok? <==> x.Num?
    ensures r.Ok? ==> r.value == x
    ensures !r.Ok? ==> r == Fail(Single(Lit("number"), x, None))
  {
    Check(Lit("number"), (y: Value) => y.Num?, x)
  }

  /** `vObject({n: vNumber})({n: 1, extra: "x"})` is `{n: 1}`: the key not in the template is dropped. */
  lemma UnknownKeysDropped(n: PropKey, extra: PropKey)
    requires n != extra && n.StrKey? && extra.StrKey? && ArrayIndexOf(n.name).None?
    ensures var t: Template := [(n, NumberOf)];
      ObjectOf(t, Obj(map[n := Num(Finite(1.0)), extra := Str(Lit("x"))])) == Ok(Obj(map[n := Num(Finite(1.0))]))
  {
    var t: Template := [(n, NumberOf)];
    var x := Obj(map[n := Num(Finite(1.0)), extra := Str(Lit("x"))]);
    assert Field(t, x, 0) == Ok(Num(Finite(1.0)));
    ObjectOfSuccess(t, x);
    assert KeySet(t, 0) == {n};
    assert ObjectOf(t, x).value.props == map[n := Num(Finite(1.0))];
  }

  /** `vObject({b: vString})({b: 1})` fails with a single "string" error at `["b"]`. */
  lemma InnerObjectFailure(b: JsString, one: Value)
    requires one == Num(Finite(1.0))
    ensures ObjectOf([(StrKey(b), StringOf)], Obj(map[StrKey(b) := one]))
      == Fail(Single(Lit("string"), one, Some([KeyStep(b)])))
  {
    var inner: Template := [(StrKey(b), StringOf)];
    var y := Obj(map[StrKey(b) := one]);
    assert Field(inner, y, 0) == Fail(Single(Lit("string"), one, None));
    ObjectOfFirstFailure(inner, y, 0);
    assert [KeyStep(b)] + [] == [KeyStep(b)];
  }

  /** The path `["a", "b"]` renders as ".a.b". */
  lemma DottedPath(a: JsString, b: JsString)
    requires a == Lit("a") && b == Lit("b")
    ensures Render([KeyStep(a), KeyStep(b)]) == Lit(".a.b")
  {
    assert a == [0x61] && b == [0x62];
    KeyStepRendering(a);
    KeyStepRendering(b);
    RenderPrepend(KeyStep(b), []);
    assert [KeyStep(b)] + [] == [KeyStep(b)];
    assert Render([KeyStep(b)]) == [Dot, 0x62];
    RenderPrepend(KeyStep(a), [KeyStep(b)]);
    assert [KeyStep(a)] + [KeyStep(b)] == [KeyStep(a), KeyStep(b)];
    assert Render([KeyStep(a), KeyStep(b)]) == [Dot, 0x61, Dot, 0x62];
    assert Lit(".a.b") == [Dot, 0x61, Dot, 0x62];
  }

  /**
   * `vObject({a: vObject({b: vString})})({a: {b: 1}})` fails with a single
   * "string" error about `1` whose path is `["a", "b"]`, rendered `.a.b`.
   */
  lemma NestedObjectPath(a: JsString, b: JsString)
    requires a == Lit("a") && b == Lit("b")
    ensures var inner: Template := [(StrKey(b), StringOf)];
      var outer: Template := [(StrKey(a), (y: Value) => ObjectOf(inner, y))];
      var r := ObjectOf(outer, Obj(map[StrKey(a) := Obj(map[StrKey(b) := Num(Finite(1.0))])]));
      && r == Fail(Single(Lit("string"), Num(Finite(1.0)), Some([KeyStep(a), KeyStep(b)])))
      && PathString(r.error) == Lit(".a.b")
  {
    var inner: Template := [(StrKey(b), StringOf)];
    var outer: Template := [(StrKey(a), (y: Value) => ObjectOf(inner, y))];
    var one := Num(Finite(1.0));
    var y := Obj(map[StrKey(b) := one]);
    var x := Obj(map[StrKey(a) := y]);
    InnerObjectFailure(b, one);
    assert Field(outer, x, 0) == ObjectOf(inner, y);
    ObjectOfFirstFailure(outer, x, 0);
    assert [KeyStep(a)] + [KeyStep(b)] == [KeyStep(a), KeyStep(b)];
    DottedPath(a, b);
  }

  /**
   * `vUnion(vNumber, vString)(true)` fails with a union of two single errors,
   * "number" and "string", both about `true`, and no path.
   */
  lemma UnionExhaustion()
    ensures UnionOf([NumberOf, StringOf], Bool(true))
      == Fail(Union([Single(Lit("number"), Bool(true), None), Single(Lit("string"), Bool(true), None)], Bool(true), None))
  {
    var vs: seq<Validator> := [NumberOf, StringOf];
    UnionAllFail(vs, Bool(true));
    assert ErrorsFrom(vs, Bool(true), 0) == [Single(Lit("number"), Bool(true), None), Single(Lit("string"), Bool(true), None)];
  }

  /** `vTuple(vNumber, vOrUndefined(vString))([1])` is `[1, undefined]`: the missing position reads `undefined`. */
  lemma TuplePadding()
    ensures TupleOf([NumberOf, (y: Value) => OrUndefinedOf(StringOf, y)], Arr([Num(Finite(1.0))], map[]))
      == Ok(Arr([Num(Finite(1.0)), Undefined], map[]))
  {
    var vs: seq<Validator> := [NumberOf, (y: Value) => OrUndefinedOf(StringOf, y)];
    var x := Arr([Num(Finite(1.0))], map[]);
    assert vs[0](Num(Finite(1.0))) == Ok(Num(Finite(1.0)));
    assert vs[1](Undefined) == Ok(Undefined);
    TupleOutputs(vs, x);
    assert TupleOf(vs, x).value.items == [Num(Finite(1.0)), Undefined];
  }
}
