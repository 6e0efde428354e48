/**
 * Paths to a value inside a nested input, and their readable rendering
 * (`PathArray`, `escapeString` and `pathArrayToString` of src/errors/abstract.ts).
 */
module Paths {
  import opened Wrappers
  import opened JsStrings
  import opened Values

  /** One step of a path: a string key, a numeric index or a symbol. */
  datatype PathStep = KeyStep(key: JsString) | IndexStep(index: int) | SymbolStep(sym: Symbol)

  type Path = seq<PathStep>

  /** The step a property key contributes: symbols stay symbols, every other key is a string. */
  function StepOfKey(k: PropKey): PathStep {
    match k
    case StrKey(name) => KeyStep(name)
    case SymKey(sym) => SymbolStep(sym)
  }

  predicate IsEscaped(c: CodeUnit) {
    c == Backslash || c == Quote || c == LineFeed || c == CarriageReturn || c == Tab
  }

  /**
   * What the chain of five global replacements does to one code unit. Each
   * replacement only introduces a backslash and a letter or quote that no
   * later replacement in the chain matches, so every unit is rewritten at most once.
   */
  function EscapeUnit(c: CodeUnit): JsString {
    if c == Backslash then [Backslash, Backslash]
    else if c == Quote then [Backslash, Quote]
    else if c == LineFeed then [Backslash, 0x6E]
    else if c == CarriageReturn then [Backslash, 0x72]
    else if c == Tab then [Backslash, 0x74]
    else [c]
  }

  /** `escapeString(s)`. */
  function Escape(s: JsString): JsString {
    if s == [] then [] else EscapeUnit(s[0]) + Escape(s[1..])
  }

  /** The number of units of `s` that the escaper rewrites. */
  function EscapedCount(s: JsString): nat {
    if s == [] then 0 else (if IsEscaped(s[0]) then 1 else 0) + EscapedCount(s[1..])
  }

  /** Each escaped unit becomes a backslash and one more unit: the length grows by their count. */
  lemma {:induction false} EscapeLength(s: JsString)
    ensures |Escape(s)| == |s| + EscapedCount(s)
  {
    if s != [] {
      EscapeLength(s[1..]);
    }
  }

  lemma {:induction false} EscapedCountZero(s: JsString)
    ensures EscapedCount(s) == 0 <==> forall i :: 0 <= i < |s| ==> !IsEscaped(s[i])
  {
    if s != [] {
      EscapedCountZero(s[1..]);
      assert forall i :: 1 <= i < |s| ==> s[i] == s[1..][i - 1];
    }
  }

  /** The escaper leaves a string alone exactly when it holds none of the five escaped units. */
  lemma {:induction false} EscapeIdentity(s: JsString)
    ensures Escape(s) == s <==> forall i :: 0 <= i < |s| ==> !IsEscaped(s[i])
  {
    EscapeLength(s);
    EscapedCountZero(s);
    if forall i :: 0 <= i < |s| ==> !IsEscaped(s[i]) {
      EscapeUnchanged(s);
    }
  }

  lemma {:induction false} EscapeUnchanged(s: JsString)
    requires forall i :: 0 <= i < |s| ==> !IsEscaped(s[i])
    ensures Escape(s) == s
  {
    if s != [] {
      assert forall i :: 0 <= i < |s[1..]| ==> s[1..][i] == s[i + 1];
      EscapeUnchanged(s[1..]);
      assert [s[0]] + s[1..] == s;
    }
  }

  /** Escaping works unit by unit, so it distributes over concatenation. */
  lemma {:induction false} EscapeConcat(a: JsString, b: JsString)
    ensures Escape(a + b) == Escape(a) + Escape(b)
  {
    if a == [] {
      assert a + b == b;
    } else {
      assert (a + b)[1..] == a[1..] + b;
      EscapeConcat(a[1..], b);
    }
  }

  /** A key must be bracketed when escaping changes it or it holds a space or a dot. */
  predicate NeedsBrackets(s: JsString) {
    Escape(s) != s || !Excludes(s, Space) || !Excludes(s, Dot)
  }

  /** The text one step contributes to a rendered path. */
  function RenderStep(step: PathStep): (r: JsString)
    ensures |r| >= 1 && (r[0] == Dot || r[0] == OpenBracket)
  {
    match step
    case SymbolStep(sym) =>
      if sym.description.Some? && sym.description.value != [] then
        Lit("[Symbol(\"") + Escape(sym.description.value) + Lit("\")]")
      else Lit("[Symbol()]")
    case IndexStep(n) => Lit("[") + IntDecimal(n) + Lit("]")
    case KeyStep(s) =>
      if NeedsBrackets(s) then Lit("[\"") + Escape(s) + Lit("\"]") else [Dot] + s
  }

  /** `pathArrayToString(p)`: the steps' texts concatenated with no separator. */
  function Render(p: Path): (r: JsString)
    ensures |r| >= |p|
  {
    if p == [] then [] else RenderStep(p[0]) + Render(p[1..])
  }

  /** Rendering is a homomorphism from paths to strings. */
  lemma {:induction false} RenderConcat(p: Path, q: Path)
    ensures Render(p + q) == Render(p) + Render(q)
  {
    if p == [] {
      assert p + q == q;
    } else {
      assert (p + q)[1..] == p[1..] + q;
      RenderConcat(p[1..], q);
    }
  }

  /** A path extended at the front renders as the new step followed by the old rendering. */
  lemma RenderPrepend(step: PathStep, p: Path)
    ensures Render([step] + p) == RenderStep(step) + Render(p)
  {
    assert ([step] + p)[1..] == p;
  }

  /** An index renders as its canonical decimal digits, with a minus sign when negative, in brackets. */
  lemma IndexStepRendering(n: int)
    ensures n >= 0 ==> exists d :: RenderStep(IndexStep(n)) == Lit("[") + d + Lit("]") && CanonicalDigits(d) && DigitsValue(d) == n
    ensures n < 0 ==> exists d :: RenderStep(IndexStep(n)) == Lit("[-") + d + Lit("]") && CanonicalDigits(d) && DigitsValue(d) == -n
  {
    if n >= 0 {
      NatDecimalValue(n);
      assert RenderStep(IndexStep(n)) == Lit("[") + NatDecimal(n) + Lit("]");
    } else {
      var d := NatDecimal(-n);
      NatDecimalValue(-n);
      assert Lit("[") + IntDecimal(n) == Lit("[") + [Minus] + d;
      assert Lit("[-") == Lit("[") + [Minus];
    }
  }

  /** A key needs no brackets exactly when it holds no escaped unit, no space and no dot. */
  lemma PlainKeys(s: JsString)
    ensures !NeedsBrackets(s) <==> forall i :: 0 <= i < |s| ==> !IsEscaped(s[i]) && s[i] != Space && s[i] != Dot
  {
    EscapeIdentity(s);
  }

  /**
   * A string key renders in dot form exactly when it holds no escaped unit,
   * no space and no dot; otherwise it is quoted, escaped and bracketed.
   */
  lemma KeyStepRendering(s: JsString)
    ensures RenderStep(KeyStep(s)) == [Dot] + s <==>
      (forall i :: 0 <= i < |s| ==> !IsEscaped(s[i]) && s[i] != Space && s[i] != Dot)
    ensures RenderStep(KeyStep(s)) != [Dot] + s ==> RenderStep(KeyStep(s)) == Lit("[\"") + Escape(s) + Lit("\"]")
  {
    PlainKeys(s);
    if NeedsBrackets(s) {
      var r := Lit("[\"") + Escape(s) + Lit("\"]");
      assert r[0] == OpenBracket && ([Dot] + s)[0] == Dot;
    }
  }

  /** A symbol with a non-empty description shows it quoted; one without, or with `""`, shows `[Symbol()]`. */
  lemma SymbolStepRendering(sym: Symbol)
    ensures sym.description.GetOr([]) != [] ==>
      RenderStep(SymbolStep(sym)) == Lit("[Symbol(\"") + Escape(sym.description.value) + Lit("\")]")
    ensures sym.description.GetOr([]) == [] ==> RenderStep(SymbolStep(sym)) == Lit("[Symbol()]")
  {
  }

  /** No step renders to a line break, so a rendered path never spans lines. */
  lemma {:induction false} RenderExcludesLineFeed(p: Path)
    ensures Excludes(Render(p), LineFeed)
  {
    if p != [] {
      RenderExcludesLineFeed(p[1..]);
      StepExcludesLineFeed(p[0]);
    }
  }

  lemma StepExcludesLineFeed(step: PathStep)
    ensures Excludes(RenderStep(step), LineFeed)
  {
    match step
    case SymbolStep(sym) =>
      if sym.description.Some? && sym.description.value != [] {
        EscapeExcludesLineFeed(sym.description.value);
        LitExcludesLineFeed("[Symbol(\"");
        LitExcludesLineFeed("\")]");
      } else {
        LitExcludesLineFeed("[Symbol()]");
      }
    case IndexStep(n) =>
      LitExcludesLineFeed("[");
      LitExcludesLineFeed("]");
      var d := if n < 0 then NatDecimal(-n) else NatDecimal(n);
      assert Excludes(d, LineFeed);
      assert IntDecimal(n) == [Minus] + d || IntDecimal(n) == d;
    case KeyStep(s) =>
      EscapeExcludesLineFeed(s);
      if !NeedsBrackets(s) {
        EscapeIdentity(s);
        assert forall i :: 0 <= i < |s| ==> !IsEscaped(s[i]);
      } else {
        LitExcludesLineFeed("[\"");
        LitExcludesLineFeed("\"]");
      }
  }

  lemma LitExcludesLineFeed(s: string)
    requires forall i :: 0 <= i < |s| ==> s[i] as int < 0x1_0000 && s[i] != '\n'
    ensures Excludes(Lit(s), LineFeed)
  {
  }

  lemma {:induction false} EscapeExcludesLineFeed(s: JsString)
    ensures Excludes(Escape(s), LineFeed)
  {
    if s != [] {
      EscapeExcludesLineFeed(s[1..]);
    }
  }
}
