/**
 * JavaScript strings as sequences of UTF-16 code units, with the handful of
 * string operations the library uses: literals, decimal rendering of
 * integers, `split` on a one-unit separator and `join`.
 */
module JsStrings {

  /** One UTF-16 code unit; a JavaScript string's `.length` counts these. */
  newtype CodeUnit = x: int | 0 <= x < 0x1_0000

  type JsString = seq<CodeUnit>

  const Backslash: CodeUnit := 0x5C
  const Quote: CodeUnit := 0x22
  const LineFeed: CodeUnit := 0x0A
  const CarriageReturn: CodeUnit := 0x0D
  const Tab: CodeUnit := 0x09
  const Space: CodeUnit := 0x20
  const Dot: CodeUnit := 0x2E
  const OpenBracket: CodeUnit := 0x5B
  const Minus: CodeUnit := 0x2D
  const Zero: CodeUnit := 0x30

  /**
   * A JavaScript string literal written as a Dafny string. Every literal the
   * library uses lies in the Basic Multilingual Plane, where UTF-16 gives each
   * character one code unit of the same value.
   */
  function Lit(s: string): JsString
    requires forall i :: 0 <= i < |s| ==> s[i] as int < 0x1_0000
  {
    seq(|s|, i requires 0 <= i < |s| => s[i] as int as CodeUnit)
  }

  predicate IsDigit(c: CodeUnit) {
    Zero <= c <= 0x39
  }

  predicate AllDigits(s: JsString) {
    forall i :: 0 <= i < |s| ==> IsDigit(s[i])
  }

  /** The decimal digits JavaScript prints for an integer: no sign, no leading zero. */
  predicate CanonicalDigits(s: JsString) {
    |s| > 0 && AllDigits(s) && (|s| == 1 || s[0] != Zero)
  }

  function DigitUnit(d: int): (c: CodeUnit)
    requires 0 <= d < 10
    ensures IsDigit(c)
  {
    (Zero as int + d) as CodeUnit
  }

  /** The number a string of decimal digits denotes. */
  function DigitsValue(s: JsString): nat
    requires AllDigits(s)
  {
    if s == [] then 0 else DigitsValue(s[..|s| - 1]) * 10 + (s[|s| - 1] - Zero) as int
  }

  /** `${n}` for a non-negative integer. */
  function NatDecimal(n: nat): (r: JsString)
    ensures CanonicalDigits(r)
  {
    if n < 10 then [DigitUnit(n)]
    else
      var r := NatDecimal(n / 10) + [DigitUnit(n % 10)];
      assert r[0] == NatDecimal(n / 10)[0];
      r
  }

  /**
   * `${n}` for an integer. JavaScript prints integers below 10^21 in
   * magnitude this way; the exponent form for larger ones is not modelled.
   */
  function IntDecimal(n: int): JsString {
    if n < 0 then [Minus] + NatDecimal(-n) else NatDecimal(n)
  }

  /** Reading back the decimal digits of `n` gives `n`. */
  lemma {:induction false} NatDecimalValue(n: nat)
    ensures DigitsValue(NatDecimal(n)) == n
  {
    if n >= 10 {
      NatDecimalValue(n / 10);
      var r := NatDecimal(n);
      assert r[..|r| - 1] == NatDecimal(n / 10);
    }
  }

  lemma {:induction false} LeadingDigitPositive(s: JsString)
    requires AllDigits(s) && |s| > 0 && s[0] != Zero
    ensures DigitsValue(s) > 0
  {
    if |s| > 1 {
      LeadingDigitPositive(s[..|s| - 1]);
    }
  }

  /** A canonical digit string is the decimal rendering of the number it denotes. */
  lemma {:induction false} CanonicalDigitsAreDecimal(s: JsString)
    requires CanonicalDigits(s)
    ensures NatDecimal(DigitsValue(s)) == s
  {
    if |s| > 1 {
      var p := s[..|s| - 1];
      LeadingDigitPositive(p);
      CanonicalDigitsAreDecimal(p);
      var v := DigitsValue(s);
      assert v / 10 == DigitsValue(p) && v % 10 == (s[|s| - 1] - Zero) as int;
      assert s == p + [s[|s| - 1]];
    }
  }

  predicate Excludes(s: JsString, c: CodeUnit) {
    forall i :: 0 <= i < |s| ==> s[i] != c
  }

  /** `parts.join(sep)`. */
  function Join(parts: seq<JsString>, sep: JsString): JsString {
    if |parts| == 0 then []
    else if |parts| == 1 then parts[0]
    else parts[0] + sep + Join(parts[1..], sep)
  }

  /** `s.split(sep)` for a one-unit separator: never empty, `""` splits to `[""]`. */
  function Split(s: JsString, sep: CodeUnit): (r: seq<JsString>)
    ensures |r| >= 1
  {
    if s == [] then [[]]
    else if s[0] == sep then [[]] + Split(s[1..], sep)
    else
      var rest := Split(s[1..], sep);
      [[s[0]] + rest[0]] + rest[1..]
  }

  /** Concatenation of a sequence of sequences. */
  function Flatten<T>(ss: seq<seq<T>>): seq<T> {
    if ss == [] then [] else ss[0] + Flatten(ss[1..])
  }

  lemma {:induction false} SplitWithout(s: JsString, sep: CodeUnit)
    requires Excludes(s, sep)
    ensures Split(s, sep) == [s]
  {
    if s != [] {
      SplitWithout(s[1..], sep);
      assert [s[0]] + s[1..] == s;
    }
  }

  /** The pieces `split` returns never contain the separator. */
  lemma {:induction false} SplitPiecesExclude(s: JsString, sep: CodeUnit)
    ensures forall i :: 0 <= i < |Split(s, sep)| ==> Excludes(Split(s, sep)[i], sep)
  {
    if s != [] {
      SplitPiecesExclude(s[1..], sep);
    }
  }

  /** Splitting at a separator splits the two sides independently. */
  lemma {:induction false} SplitAround(a: JsString, sep: CodeUnit, b: JsString)
    ensures Split(a + [sep] + b, sep) == Split(a, sep) + Split(b, sep)
  {
    if a == [] {
      assert a + [sep] + b == [sep] + b;
    } else {
      assert (a + [sep] + b)[1..] == a[1..] + [sep] + b;
      SplitAround(a[1..], sep, b);
    }
  }

  /** `join` then `split` on the same separator recovers the pieces' own pieces. */
  lemma {:induction false} SplitJoin(parts: seq<JsString>, sep: CodeUnit)
    requires |parts| > 0
    ensures Split(Join(parts, [sep]), sep) == Flatten(seq(|parts|, i requires 0 <= i < |parts| => Split(parts[i], sep)))
  {
    var f := seq(|parts|, i requires 0 <= i < |parts| => Split(parts[i], sep));
    if |parts| == 1 {
      assert f == [Split(parts[0], sep)];
      assert Flatten(f) == Split(parts[0], sep) + Flatten(f[1..]);
    } else {
      SplitJoin(parts[1..], sep);
      SplitAround(parts[0], sep, Join(parts[1..], [sep]));
      assert parts[0] + [sep] + Join(parts[1..], [sep]) == Join(parts, [sep]);
      var g := seq(|parts[1..]|, i requires 0 <= i < |parts[1..]| => Split(parts[1..][i], sep));
      assert f[1..] == g;
    }
  }

  /** `split` then `join` on the same separator is the identity. */
  lemma {:induction false} JoinSplit(s: JsString, sep: CodeUnit)
    ensures Join(Split(s, sep), [sep]) == s
  {
    if s != [] {
      JoinSplit(s[1..], sep);
      var rest := Split(s[1..], sep);
      if s[0] == sep {
        assert Split(s, sep) == [[]] + rest;
        assert ([[]] + rest)[1..] == rest;
      } else {
        var r := Split(s, sep);
        if |rest| == 1 {
          assert r == [[s[0]] + rest[0]];
        } else {
          assert r[1..] == rest[1..];
          assert Join(rest, [sep]) == rest[0] + [sep] + Join(rest[1..], [sep]);
        }
      }
    }
  }
}
