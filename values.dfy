/**
 * The untyped JavaScript values a validator receives (`unknown`), and the
 * few language operations the library applies to them: `typeof`,
 * `Array.isArray`, property lookup `value[key]`, strict equality `===` and
 * `Number.isNaN`.
 */
module Values {
  import opened Wrappers
  import opened JsStrings

  /** A JavaScript number: a finite value, an infinity or NaN. */
  datatype Number = Finite(r: real) | PosInfinity | NegInfinity | NaN

  /** A symbol: a unique identity token with an optional description. */
  datatype Symbol = Symbol(id: nat, description: Option<JsString>)

  /** A property key: a string or a symbol (numeric keys are strings in JavaScript). */
  datatype PropKey = StrKey(name: JsString) | SymKey(sym: Symbol)

  /**
   * A JavaScript value.
   * - `Obj(props)`: a non-array, non-function object; `props` holds every
   *   key a read `value[key]` reaches, own or inherited (for a regular
   *   expression this includes the `source` and `flags` getters), each with
   *   the value that read gives.
   * - `Arr(items, props)`: an array; `items` are its elements and `props`
   *   any further named properties (never an array index or `length`).
   * - `Func(id)`: a function, known only by its identity.
   */
  datatype Value =
    | Undefined
    | Null
    | Bool(b: bool)
    | Num(n: Number)
    | Str(s: JsString)
    | Sym(sym: Symbol)
    | Func(id: nat)
    | Arr(items: seq<Value>, props: map<PropKey, Value>)
    | Obj(props: map<PropKey, Value>)

  /** `typeof x`. */
  function TypeOf(x: Value): JsString {
    match x
    case Undefined => Lit("undefined")
    case Null => Lit("object")
    case Bool(_) => Lit("boolean")
    case Num(_) => Lit("number")
    case Str(_) => Lit("string")
    case Sym(_) => Lit("symbol")
    case Func(_) => Lit("function")
    case Arr(_, _) => Lit("object")
    case Obj(_) => Lit("object")
  }

  /** `typeof x === "object" && x !== null`: arrays count, functions do not. */
  predicate IsObjectLike(x: Value) {
    x.Arr? || x.Obj?
  }

  /** `Number.isNaN(x)`. */
  predicate IsNaN(x: Value) {
    x == Num(NaN)
  }

  /** The largest array length is 2^32 - 1, so array indices stop one below it. */
  const MaxArrayIndex: nat := 0xFFFF_FFFE

  /** The index a string key denotes on an array, when it is an array index (section 6.1.7 of ECMA-262). */
  function ArrayIndexOf(s: JsString): (r: Option<nat>)
    ensures r.Some? ==> r.value <= MaxArrayIndex && s == NatDecimal(r.value)
  {
    if CanonicalDigits(s) && DigitsValue(s) <= MaxArrayIndex then
      CanonicalDigitsAreDecimal(s);
      Some(DigitsValue(s))
    else None
  }

  /** Every array index is recognised by its decimal key: `arr["3"]` reads element 3. */
  lemma ArrayIndexOfDecimal(n: nat)
    requires n <= MaxArrayIndex
    ensures ArrayIndexOf(NatDecimal(n)) == Some(n)
  {
    NatDecimalValue(n);
  }

  /** `items[i]`, which is `undefined` past the end. */
  function ItemAt(items: seq<Value>, i: nat): Value {
    if i < |items| then items[i] else Undefined
  }

  function PropOrUndefined(props: map<PropKey, Value>, k: PropKey): Value {
    if k in props then props[k] else Undefined
  }

  /** `x[k]` on an object-like value; a missing property reads as `undefined`. */
  function Get(x: Value, k: PropKey): Value
    requires IsObjectLike(x)
  {
    match x
    case Obj(props) => PropOrUndefined(props, k)
    case Arr(items, props) =>
      if k.StrKey? && k.name == Lit("length") then Num(Finite(|items| as real))
      else if k.StrKey? && ArrayIndexOf(k.name).Some? then ItemAt(items, ArrayIndexOf(k.name).value)
      else PropOrUndefined(props, k)
  }

  /**
   * `a === b`. Objects and arrays are compared by content, because the model
   * gives them no identity; everything else follows the language.
   */
  predicate StrictEquals(a: Value, b: Value) {
    match a
    case Num(m) => b.Num? && m != NaN && m == b.n
    case _ => a == b
  }

  /** NaN is the one value that is not strictly equal to itself. */
  lemma StrictEqualsReflexiveExceptNaN(a: Value)
    ensures StrictEquals(a, a) <==> !IsNaN(a)
  {
  }
}
