/**
 * The error taxonomy: `SingleValidationError` (src/errors/single.ts) and
 * `UnionValidationError` (src/errors/union.ts), as one recursive datatype,
 * with path extension, path strings and messages.
 */
module ValidationErrors {
  import opened Wrappers
  import opened JsStrings
  import opened Values
  import opened Paths

  /**
   * A validation error. `Single` expected one kind of value; `Union` records
   * one constituent error per alternative of a union that all failed.
   * An absent path means the error is about the value the validator was given.
   */
  datatype Error =
    | Single(expectedType: JsString, actualValue: Value, path: Option<Path>)
    | Union(errors: seq<Error>, value: Value, path: Option<Path>)

  /** `[step, ...path]` when there is a path, `[step]` when there is none. */
  function ExtendPath(p: Option<Path>, step: PathStep): (r: Option<Path>)
    ensures r.Some? && |r.value| == |p.GetOr([])| + 1
    ensures r.value[0] == step && r.value[1..] == p.GetOr([])
  {
    Some([step] + p.GetOr([]))
  }

  /**
   * `withExtendedPath(step)`: a new error whose path starts with `step`;
   * a union extends every constituent the same way, recursively.
   */
  function WithExtendedPath(e: Error, step: PathStep): (r: Error)
    ensures r.Single? <==> e.Single?
    ensures r.path == Some([step] + e.path.GetOr([]))
    ensures e.Single? ==> r.expectedType == e.expectedType && r.actualValue == e.actualValue
    ensures e.Union? ==> r.value == e.value && |r.errors| == |e.errors|
  {
    match e
    case Single(t, v, p) => Single(t, v, ExtendPath(p, step))
    case Union(es, v, p) =>
      Union(seq(|es|, i requires 0 <= i < |es| => WithExtendedPath(es[i], step)), v, ExtendPath(p, step))
  }

  /** `pathString()`. */
  function PathString(e: Error): JsString {
    if e.path.Some? then Render(e.path.value) else []
  }

  /** The `" at <path>"` part of a message; present whenever a path is, even an empty one. */
  function AtClause(p: Option<Path>): JsString {
    if p.Some? then Lit(" at ") + Render(p.value) else []
  }

  /** `indent(text)`: two spaces in front of every line. */
  function Indent(text: JsString): JsString {
    var lines := Split(text, LineFeed);
    Join(seq(|lines|, i requires 0 <= i < |lines| => Lit("  ") + lines[i]), [LineFeed])
  }

  /** The expected types of the `Single` constituents, in order. */
  function Kinds(es: seq<Error>): (r: seq<JsString>)
    ensures |r| <= |es|
  {
    if es == [] then []
    else (if es[0].Single? then [es[0].expectedType] else []) + Kinds(es[1..])
  }

  /** The label of a union whose constituents are not all single. */
  const MultipleTypes: JsString := Lit("multiple types")

  /** The separator between the kinds of a union label. */
  const Comma: JsString := Lit(", ")

  /**
   * The short label of a union message, as evidently intended: the comma-joined
   * kinds when every constituent is a `Single`, otherwise "multiple types".
   */
  function UnionLabel(es: seq<Error>): JsString {
    var kinds := Kinds(es);
    if |kinds| == |es| then Join(kinds, Comma) else MultipleTypes
  }

  /** The first line of a union message, up to the colon. */
  function UnionHeader(es: seq<Error>, p: Option<Path>): JsString {
    Lit("Expected one of ") + UnionLabel(es) + AtClause(p) + Lit(" but got an error for every option:")
  }

  /**
   * `message`. `show` stands for `String(value)`, whose output the model
   * leaves open.
   */
  function Message(e: Error, show: Value -> JsString): JsString
    decreases e
  {
    match e
    case Single(t, v, p) => Lit("Expected ") + t + Lit(" but got ") + show(v) + AtClause(p)
    case Union(es, v, p) =>
      UnionHeader(es, p) + [LineFeed]
      + Join(seq(|es|, i requires 0 <= i < |es| => Indent(Message(es[i], show))), [LineFeed])
  }

  /** The constituents' messages, each indented: the lines `combinedErrors` joins. */
  function IndentedMessages(es: seq<Error>, show: Value -> JsString): seq<JsString>
  {
    seq(|es|, i requires 0 <= i < |es| => Indent(Message(es[i], show)))
  }

  /**
   * The label as union.ts:21-23 computes it: the number of kinds is compared
   * with the length of the joined message string `combinedErrors` rather than
   * with the number of constituents.
   */
  function UnionLabelAsWritten(es: seq<Error>, show: Value -> JsString): JsString {
    var combined := Join(IndentedMessages(es, show), [LineFeed]);
    var kinds := Kinds(es);
    if |kinds| == |combined| then Join(kinds, Comma) else MultipleTypes
  }

  // ---------------------------------------------------------------- messages

  /** A single error's message, with and without a path. */
  lemma SingleMessage(t: JsString, v: Value, p: Option<Path>, show: Value -> JsString)
    ensures p.None? ==> Message(Single(t, v, p), show) == Lit("Expected ") + t + Lit(" but got ") + show(v)
    ensures p.Some? ==> Message(Single(t, v, p), show) == Lit("Expected ") + t + Lit(" but got ") + show(v) + Lit(" at ") + Render(p.value)
  {
  }

  /** Extending a single error's path adds the new step's text right after " at ". */
  lemma ExtendedSingleMessage(t: JsString, v: Value, p: Option<Path>, step: PathStep, show: Value -> JsString)
    ensures Message(WithExtendedPath(Single(t, v, p), step), show)
      == Lit("Expected ") + t + Lit(" but got ") + show(v) + Lit(" at ") + RenderStep(step) + Render(p.GetOr([]))
  {
    RenderPrepend(step, p.GetOr([]));
    assert AtClause(ExtendPath(p, step)) == Lit(" at ") + (RenderStep(step) + Render(p.GetOr([])));
  }

  /** A union message is its header, a line break and the indented constituent messages, one per line group. */
  lemma UnionMessage(es: seq<Error>, v: Value, p: Option<Path>, show: Value -> JsString)
    ensures Message(Union(es, v, p), show) == UnionHeader(es, p) + [LineFeed] + Join(IndentedMessages(es, show), [LineFeed])
  {
  }

  lemma {:induction false} FlattenSingletons(a: seq<JsString>)
    ensures Flatten(seq(|a|, i requires 0 <= i < |a| => [a[i]])) == a
  {
    var f := seq(|a|, i requires 0 <= i < |a| => [a[i]]);
    if a != [] {
      FlattenSingletons(a[1..]);
      assert f[1..] == seq(|a[1..]|, i requires 0 <= i < |a[1..]| => [a[1..][i]]);
      assert [a[0]] + a[1..] == a;
    }
  }

  /** The lines of `text`, each behind two spaces: what indenting does line by line. */
  function IndentedLines(text: JsString): (r: seq<JsString>)
    ensures |r| == |Split(text, LineFeed)|
  {
    var lines := Split(text, LineFeed);
    seq(|lines|, i requires 0 <= i < |lines| => Lit("  ") + lines[i])
  }

  /** Indenting keeps the line count and puts two spaces in front of each line. */
  lemma IndentLines(text: JsString)
    ensures Split(Indent(text), LineFeed) == IndentedLines(text)
  {
    var lines := Split(text, LineFeed);
    var parts := IndentedLines(text);
    assert Lit("  ") == [Space, Space];
    SplitPiecesExclude(text, LineFeed);
    forall i | 0 <= i < |parts|
      ensures Split(parts[i], LineFeed) == [parts[i]]
    {
      assert parts[i] == [Space, Space] + lines[i];
      SplitWithout(parts[i], LineFeed);
    }
    SplitJoin(parts, LineFeed);
    assert seq(|parts|, i requires 0 <= i < |parts| => Split(parts[i], LineFeed))
        == seq(|parts|, i requires 0 <= i < |parts| => [parts[i]]);
    FlattenSingletons(parts);
  }

  /**
   * The lines of a union message: those of its header, then, for each
   * constituent in order, that constituent's message lines two spaces in;
   * so a nested union's own constituents end up four spaces in.
   */
  lemma UnionMessageLines(es: seq<Error>, v: Value, p: Option<Path>, show: Value -> JsString)
    requires |es| > 0
    ensures Split(Message(Union(es, v, p), show), LineFeed)
      == Split(UnionHeader(es, p), LineFeed)
         + Flatten(seq(|es|, i requires 0 <= i < |es| => IndentedLines(Message(es[i], show))))
  {
    var parts := IndentedMessages(es, show);
    var h := UnionHeader(es, p);
    var j := Join(parts, [LineFeed]);
    UnionMessage(es, v, p, show);
    SplitAround(h, LineFeed, j);
    SplitJoin(parts, LineFeed);
    IndentedMessagesLines(es, show);
  }

  lemma IndentedMessagesLines(es: seq<Error>, show: Value -> JsString)
    ensures var parts := IndentedMessages(es, show);
      seq(|parts|, i requires 0 <= i < |parts| => Split(parts[i], LineFeed))
      == seq(|es|, i requires 0 <= i < |es| => IndentedLines(Message(es[i], show)))
  {
    forall i | 0 <= i < |es|
      ensures Split(IndentedMessages(es, show)[i], LineFeed) == IndentedLines(Message(es[i], show))
    {
      IndentLines(Message(es[i], show));
    }
  }

  // ------------------------------------------------------------------ labels

  predicate AllSingle(es: seq<Error>) {
    forall i :: 0 <= i < |es| ==> es[i].Single?
  }

  /** The kinds list is as long as the constituents exactly when every constituent is a `Single`, and then lists their kinds in order. */
  lemma {:induction false} KindsOfSingles(es: seq<Error>)
    ensures |Kinds(es)| == |es| <==> AllSingle(es)
    ensures AllSingle(es) ==> Kinds(es) == seq(|es|, i requires 0 <= i < |es| => es[i].expectedType)
  {
    if es != [] {
      KindsOfSingles(es[1..]);
      assert forall i :: 1 <= i < |es| ==> es[i] == es[1..][i - 1];
      if AllSingle(es) {
        assert Kinds(es) == [es[0].expectedType] + Kinds(es[1..]);
      }
    }
  }

  /** The intended label: the kinds joined by ", " when every constituent is a `Single`, "multiple types" otherwise. */
  lemma UnionLabelMeaning(es: seq<Error>)
    ensures AllSingle(es) ==> UnionLabel(es) == Join(seq(|es|, i requires 0 <= i < |es| => es[i].expectedType), Comma)
    ensures !AllSingle(es) ==> UnionLabel(es) == MultipleTypes
  {
    KindsOfSingles(es);
  }

  lemma {:induction false} JoinLengthAtLeast(parts: seq<JsString>, sep: JsString, k: nat)
    requires forall i :: 0 <= i < |parts| ==> |parts[i]| >= k
    ensures |Join(parts, sep)| >= k * |parts|
  {
    if |parts| > 1 {
      JoinLengthAtLeast(parts[1..], sep, k);
    }
  }

  lemma IndentAtLeastTwo(text: JsString)
    ensures |Indent(text)| >= 2
  {
    var lines := Split(text, LineFeed);
    var parts := seq(|lines|, i requires 0 <= i < |lines| => Lit("  ") + lines[i]);
    assert |Lit("  ")| == 2;
    JoinLengthAtLeast(parts, [LineFeed], 2);
  }

  /**
   * The consequence of comparing with the message length: any non-empty list
   * of constituents is labelled "multiple types", and an empty one gets "".
   */
  lemma UnionLabelAsWrittenIsMultipleTypes(es: seq<Error>, show: Value -> JsString)
    ensures es != [] ==> UnionLabelAsWritten(es, show) == MultipleTypes
    ensures es == [] ==> UnionLabelAsWritten(es, show) == []
  {
    var parts := IndentedMessages(es, show);
    forall i | 0 <= i < |parts|
      ensures |parts[i]| >= 2
    {
      IndentAtLeastTwo(Message(es[i], show));
    }
    JoinLengthAtLeast(parts, [LineFeed], 2);
  }

  /** Two singles of kinds `a` and `b`: the intended label names both. */
  lemma TwoSinglesLabel(a: JsString, b: JsString, x: Value, y: Value)
    ensures UnionLabel([Single(a, x, None), Single(b, y, None)]) == a + Comma + b
  {
    var es := [Single(a, x, None), Single(b, y, None)];
    assert Kinds(es[1..]) == [b];
    assert Kinds(es) == [a, b];
    assert |Kinds(es)| == |es|;
    assert Join([a, b], Comma) == a + Comma + b;
  }

  /**
   * The constituents of union.test.ts:50-62, two singles "string" and "number":
   * the code as written labels them "multiple types", while the intended label,
   * the one those tests expect, is "string, number".
   */
  lemma UnionLabelAsWrittenMissesTwoKinds(s: JsString, n: JsString, show: Value -> JsString)
    requires s == Lit("string") && n == Lit("number")
    ensures var es := [Single(s, Null, None), Single(n, Null, None)];
      && UnionLabelAsWritten(es, show) == MultipleTypes
      && UnionLabel(es) == s + Comma + n
      && UnionLabelAsWritten(es, show) != UnionLabel(es)
  {
    UnionLabelAsWrittenIsMultipleTypes([Single(s, Null, None), Single(n, Null, None)], show);
    TwoSinglesLabel(s, n, Null, Null);
    var m := MultipleTypes;
    assert m[0] == 0x6D && s[0] == 0x73;
    assert m[0] != (s + Comma + n)[0];
  }

  // ------------------------------------------------------------ path threads

  /** After extension, the path string is the new step's text followed by the old path string. */
  lemma ExtendedPathString(e: Error, step: PathStep)
    ensures PathString(WithExtendedPath(e, step)) == RenderStep(step) + PathString(e)
  {
    RenderPrepend(step, e.path.GetOr([]));
  }

  /** A union's extension extends constituent i by the same step, for every i. */
  lemma ExtendedConstituents(es: seq<Error>, v: Value, p: Option<Path>, step: PathStep)
    ensures forall i :: 0 <= i < |es| ==> WithExtendedPath(Union(es, v, p), step).errors[i] == WithExtendedPath(es[i], step)
  {
  }

  /** Two extensions, inner step first, leave the path reading outer step, inner step, old path. */
  lemma ExtendTwice(e: Error, inner: PathStep, outer: PathStep)
    ensures WithExtendedPath(WithExtendedPath(e, inner), outer).path == Some([outer, inner] + e.path.GetOr([]))
  {
    assert [outer] + ([inner] + e.path.GetOr([])) == [outer, inner] + e.path.GetOr([]);
  }

  predicate IsPrefix(a: Path, b: Path) {
    |a| <= |b| && b[..|a|] == a
  }

  /**
   * A union's own path is a prefix of every constituent's path, at every
   * level: the aggregate and its constituents never diverge.
   */
  ghost predicate PathsCoherent(e: Error)
    decreases e
  {
    match e
    case Single(_, _, _) => true
    case Union(es, _, p) =>
      forall i :: 0 <= i < |es| ==> IsPrefix(p.GetOr([]), es[i].path.GetOr([])) && PathsCoherent(es[i])
  }

  /** A union with no path over coherent constituents, as `vUnion` builds it, is coherent. */
  lemma FreshUnionCoherent(es: seq<Error>, v: Value)
    requires forall i :: 0 <= i < |es| ==> PathsCoherent(es[i])
    ensures PathsCoherent(Union(es, v, None))
  {
  }

  /** Path extension keeps every union coherent. */
  lemma {:induction false} ExtensionKeepsCoherence(e: Error, step: PathStep)
    requires PathsCoherent(e)
    ensures PathsCoherent(WithExtendedPath(e, step))
    decreases e
  {
    match e
    case Single(_, _, _) =>
    case Union(es, v, p) =>
      var r := WithExtendedPath(e, step);
      forall i | 0 <= i < |es|
        ensures IsPrefix(r.path.GetOr([]), r.errors[i].path.GetOr([])) && PathsCoherent(r.errors[i])
      {
        ExtensionKeepsCoherence(es[i], step);
        var a := p.GetOr([]);
        var b := es[i].path.GetOr([]);
        assert b[..|a|] == a;
        assert ([step] + b)[..|a| + 1] == [step] + b[..|a|];
      }
  }
}
