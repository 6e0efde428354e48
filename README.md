# validatorian, modelled in Dafny

validatorian is a TypeScript library of composable runtime validators. A
validator takes an `unknown` value and does one of two things: it returns the
value, or a freshly built copy of it, at the type the validator describes; or
it throws a `ValidationError`. There are two kinds of error:

- a `SingleValidationError` names the one type that was expected;
- a `UnionValidationError` gathers one error per alternative of a union that
  every alternative rejected.

Both kinds carry the offending value and an optional path of keys, indices and
symbols. `vObject` puts the key in front of the path of a single error coming
out of a field; arrays, tuples and unions add nothing to the path (a union
error from a field passes through unchanged, and `vUnion` builds a fresh union
with no path). A readable message is built from the path.

This project models that core:

- **Error model**: the error datatype, path extension, the path string and
  both message formats (`ValidationErrors`, `Paths`).
- **Helpers and leaf validators**: the `validator` and `booleanValidator`
  helpers (`Validators`), and the leaf validators `vString`,
  `vNonEmptyString`, `vStringOfLength`, `vBoolean`, `vConst`, `vUndefined`
  and `vNull`.
- **Combinators**: `vObject`, the `vArray` family, `vTuple`, `vStrictTuple`,
  `vUnion`, `vOptional`, `vNullable`, `vOrUndefined`, `vWithDefault`,
  `vWithFallback` and `vOverride`.

How the model is built:

- JavaScript's values are a datatype (`Values.Value`).
- A validator is a total function from a value to a `Result`, which has three
  outcomes:
  - `Ok(value)`: the validator returned `value`;
  - `Fail(error)`: it threw a `ValidationError`;
  - `Crash(thrown)`: it threw anything else, such as an exception raised by a
    user-supplied producer.
- `try`/`catch` becomes case analysis on the `Result`.
- The two loops of the library, in `vObject` and `vUnion`, are `method`s
  (`ObjectValidator.ValidateObject`, `UnionValidator.ValidateUnion`). Each is
  proved to compute a specification function (`ObjectOf`, `UnionOf`), and the
  library's promises are proved as lemmas about those functions.
- Strings are sequences of UTF-16 code units, so `.length` means what it means
  in JavaScript.
- `String(value)` is passed in as a parameter `show`.
- Every string literal the library uses lies in the Basic Multilingual Plane,
  so `Lit` converts a literal one character per code unit.

The module `Scenarios` works four compositions through to their outcomes:

- unknown keys are dropped;
- a nested object reports the path `.a.b`;
- a union of `number` and `string` rejects `true` with both errors;
- a short tuple is padded with `undefined`.

Source files that are not in the model:

- `transformingValidator` is imported by `array.ts` and `tuple.ts`, but its
  definition is not in `validator.ts` as given here. It is modelled as the
  identity wrapper, like `validator`.
- `vUndefined` and `vNull` are imported by `optional.ts` from `const.ts`, but
  their definitions are not in the file. They are modelled as
  `booleanValidator("undefined", v => v === undefined)` and
  `booleanValidator("null", v => v === null)`, which is what the optional
  tests expect of their error labels.

## Model

| member | source | states |
|---|---|---|
| ValidationErrors.PathString | src/errors/single.ts:37-39 | `pathString()`: the rendered path, or empty without a path; its behaviour under extension is stated by `ExtendedPathString` |
| ValidationErrors.AtClause | src/errors/single.ts:16-19 | the " at <path>" part of a message, present exactly when a path is; stated by `SingleMessage` and `UnionMessage` |
| ValidationErrors.Indent | src/errors/union.ts:4-6 | `indent(text)`; its meaning, two spaces in front of each line, is stated by `IndentLines` |
| ValidationErrors.UnionLabel | src/errors/union.ts:22-23 | the corrected union label, which `Message` uses; stated by `UnionLabelMeaning` |
| ValidationErrors.UnionLabelAsWritten | src/errors/union.ts:21-23 | the label as union.ts:23 computes it; stated by `UnionLabelAsWrittenIsMultipleTypes` |
| ValidationErrors.UnionHeader | src/errors/union.ts:24-28 | the first line of a union message, with the corrected label and the optional " at <path>"; stated by `UnionMessage` |
| ValidationErrors.Message | src/errors/union.ts:20-28 | an error's `message`, for single errors as single.ts:15-20 builds it and for unions with the corrected label; stated by `SingleMessage`, `UnionMessage` and `UnionMessageLines` |
| ValidationErrors.ExtendPath | src/errors/single.ts:31 | the extended path is the new step followed by the old path, or the step alone when there was none |
| ValidationErrors.WithExtendedPath | src/errors/union.ts:40-42 | extension keeps the error's kind, its expected type and value, and a union's count of constituents; the new path is the step in front of the old one |
| ValidationErrors.ExtendedConstituents | src/errors/union.ts:41 | a union's extension extends every constituent by the same step |
| ValidationErrors.ExtendTwice | src/errors/single.ts:24-32 | two extensions read outer step, inner step, old path: extensions go at the start |
| ValidationErrors.ExtendedPathString | src/errors/single.ts:37-39 | after extension, `pathString()` is the new step's text followed by the old path string |
| ValidationErrors.FreshUnionCoherent | src/validators/union.ts:31 | a union thrown by `vUnion` has no path and so is a prefix-coherent aggregate of coherent constituents |
| ValidationErrors.ExtensionKeepsCoherence | src/errors/union.ts:40-42 | extending a union keeps its path a prefix of every constituent's path, at every depth |
| ValidationErrors.Kinds | src/errors/union.ts:22 | there are never more kinds than constituents |
| ValidationErrors.KindsOfSingles | src/errors/union.ts:22 | there is one kind per constituent exactly when every constituent is single, and the kinds are then their expected types in order |
| ValidationErrors.UnionLabelMeaning | src/errors/union.ts:22-23 | the label joins the expected types with ", " when every constituent is single, else reads "multiple types" |
| ValidationErrors.TwoSinglesLabel | src/errors/union.ts:22-23 | two single constituents are labelled "a, b" |
| ValidationErrors.UnionLabelAsWrittenIsMultipleTypes | src/errors/union.ts:21-23 | the label as written is "multiple types" for every non-empty list of constituents and empty for none |
| ValidationErrors.UnionLabelAsWrittenMissesTwoKinds | src/errors/union.ts:23 | for the singles "string" and "number" the label as written is "multiple types", not "string, number" |
| ValidationErrors.SingleMessage | src/errors/single.ts:15-20 | the single message is "Expected T but got V", followed by " at " and the rendered path when there is a path |
| ValidationErrors.ExtendedSingleMessage | src/errors/single.ts:17 | the message of an extended single error has the new step's text immediately after " at " |
| ValidationErrors.UnionMessage | src/errors/union.ts:20-28 | the union message is the header with the label and optional path, a line break, then the constituents' indented messages joined by line breaks |
| ValidationErrors.IndentedMessages | src/errors/union.ts:21 | vocabulary with no contract of its own; its meaning is stated by `IndentedMessagesLines` and `UnionMessageLines` |
| ValidationErrors.IndentedLines | src/errors/union.ts:4-6 | indentation yields one line per line of the text |
| ValidationErrors.IndentLines | src/errors/union.ts:4-6 | the lines of an indented text are exactly the original lines, each with two spaces in front |
| ValidationErrors.IndentAtLeastTwo | src/errors/union.ts:4-6 | an indented text has at least two code units |
| ValidationErrors.JoinLengthAtLeast | src/errors/union.ts:21 | joining parts of length at least k gives at least k per part |
| ValidationErrors.UnionMessageLines | src/errors/union.ts:20-28 | read line by line, a union message is its header line followed by every constituent message's lines, each indented by two spaces, in order |
| ValidationErrors.IndentedMessagesLines | src/errors/union.ts:21 | each constituent's indented message splits into that message's indented lines |
| ValidationErrors.FlattenSingletons | src/errors/union.ts:5 | flattening one-line groups gives back the lines |
| Paths.IsEscaped | src/errors/abstract.ts:22-27 | the five code units `escapeString` replaces: backslash, quote, line feed, carriage return, tab |
| Paths.EscapeUnit | src/errors/abstract.ts:22-27 | the replacement of one code unit; stated, for whole keys, by `EscapeLength` and `EscapeIdentity` |
| Paths.Escape | src/errors/abstract.ts:21-28 | `escapeString(key)`; stated by `EscapeLength`, `EscapeIdentity` and `EscapeConcat` |
| Paths.StepOfKey | src/validators/object.ts:66 | the path component a template key contributes: a string key as a string, a symbol as a symbol |
| Paths.NeedsBrackets | src/errors/abstract.ts:55 | the bracket test of `pathArrayToString`; stated by `PlainKeys` |
| Paths.EscapeLength | src/errors/abstract.ts:21-28 | escaping adds exactly one code unit per backslash, quote, line feed, carriage return or tab |
| Paths.EscapedCountZero | src/errors/abstract.ts:21-28 | no unit is added exactly when the key holds none of those five |
| Paths.EscapeIdentity | src/errors/abstract.ts:21-28 | escaping leaves a key unchanged if and only if it holds none of the five escaped characters |
| Paths.EscapeUnchanged | src/errors/abstract.ts:21-28 | a key without escaped characters is its own escape |
| Paths.EscapeConcat | src/errors/abstract.ts:21-28 | escaping works unit by unit: the escape of a concatenation is the concatenation of the escapes |
| Paths.EscapeExcludesLineFeed | src/errors/abstract.ts:25 | an escaped key holds no raw line feed |
| Paths.RenderStep | src/errors/abstract.ts:38-59 | every step's text starts with "." or "[" |
| Paths.Render | src/errors/abstract.ts:37-61 | a rendered path has at least one code unit per step |
| Paths.RenderConcat | src/errors/abstract.ts:60 | rendering is a homomorphism: the steps' texts are joined with no separator |
| Paths.RenderPrepend | src/errors/abstract.ts:60 | a path with a step in front renders as that step's text followed by the rest |
| Paths.IndexStepRendering | src/errors/abstract.ts:49-51 | a numeric step renders as "[digits]" or "[-digits]", the digits being the canonical decimal of its magnitude |
| Paths.PlainKeys | src/errors/abstract.ts:53-55 | a key needs no brackets exactly when it holds no escaped character, space or dot |
| Paths.KeyStepRendering | src/errors/abstract.ts:53-59 | a string key renders as ".key" if and only if it holds no escaped character, space or dot; otherwise as `["escaped"]` |
| Paths.SymbolStepRendering | src/errors/abstract.ts:44-47 | a symbol renders as `[Symbol("escaped description")]`, or `[Symbol()]` when its description is absent or empty |
| Paths.StepExcludesLineFeed | src/errors/abstract.ts:38-59 | no step text holds a line feed |
| Paths.RenderExcludesLineFeed | src/errors/abstract.ts:37-61 | a rendered path holds no line feed: the path part of a message never breaks a line |
| Paths.LitExcludesLineFeed | src/errors/abstract.ts:46 | a literal without "\n" holds no line feed |
| JsStrings.IntDecimal | src/validators/array.ts:24 | `${n}` for an integer: a minus sign for a negative number, then canonical decimal digits; stated by `IndexStepRendering` and `NatDecimalValue` |
| JsStrings.Join | src/errors/union.ts:5 | `parts.join(sep)`; its round trip with `Split` is stated by `SplitJoin` and `JoinSplit` |
| JsStrings.Lit | src/errors/single.ts:17 | vocabulary with no contract of its own; the label lemmas (`LitExcludesLineFeed`, `NonemptyLabel`) state what the literals used as labels satisfy |
| JsStrings.DigitUnit | src/errors/abstract.ts:50 | a digit's code unit is a decimal digit |
| JsStrings.NatDecimal | src/errors/abstract.ts:50 | a natural number prints as canonical decimal digits |
| JsStrings.NatDecimalValue | src/errors/abstract.ts:50 | the printed digits read back as the number |
| JsStrings.LeadingDigitPositive | src/errors/abstract.ts:50 | canonical digits of more than one unit do not start with zero |
| JsStrings.CanonicalDigitsAreDecimal | src/errors/abstract.ts:50 | canonical digits are exactly what printing their value gives |
| JsStrings.Split | src/errors/union.ts:5 | splitting always yields at least one piece |
| JsStrings.SplitWithout | src/errors/union.ts:5 | a text without the separator splits into itself |
| JsStrings.SplitPiecesExclude | src/errors/union.ts:5 | no piece of a split holds the separator |
| JsStrings.SplitAround | src/errors/union.ts:5 | splitting "a sep b" gives a's pieces and then b's |
| JsStrings.SplitJoin | src/errors/union.ts:5 | splitting a join of separator-free pieces gives the pieces back |
| JsStrings.JoinSplit | src/errors/union.ts:5 | joining the pieces of a split gives the text back |
| Values.TypeOf | src/validators/const.ts:10 | `typeof x`, used in the label of `vConst` |
| Values.IsObjectLike | src/validators/object.ts:47 | `typeof value === "object" && value !== null`: arrays and plain objects, no functions; the guard of `ObjectOf` |
| Values.IsNaN | src/validators/const.ts:14 | `Number.isNaN`: true of the NaN number only |
| Values.StrictEquals | src/validators/const.ts:12 | `===`; stated by `StrictEqualsReflexiveExceptNaN` and `ConstAcceptsExactly` |
| Values.ItemAt | src/validators/tuple.ts:18 | `value[index]` on an array's items: the item, or `undefined` past the end |
| Values.Get | src/validators/object.ts:61 | `valueRecord[key]`: a missing key reads `undefined` (`MissingKeyReadsUndefined`), an array-index key reads the item, `length` reads an array's length |
| Values.ArrayIndexOf | src/validators/object.ts:61 | a key recognised as an array index is the canonical decimal of an index no larger than 2^32 - 2 |
| Values.ArrayIndexOfDecimal | src/validators/object.ts:61 | every array index's decimal key is recognised as that index |
| Values.StrictEqualsReflexiveExceptNaN | src/validators/const.ts:12-14 | `===` is reflexive on every value except NaN |
| Validators.AsValidator | src/validator-helpers/validator.ts:27-29 | `validator(v)` behaves exactly as `v` on every input |
| Validators.Check | src/validator-helpers/validator.ts:38-45 | a boolean validator succeeds exactly when the predicate holds, returns its input unchanged, and otherwise throws a single error with its type name, the input and no path; with `String(value)` taken as total, it never crashes |
| Validators.BooleanValidator | src/validator-helpers/validator.ts:38-45 | `booleanValidator(typeName, v)` as a validator: `Check` at every input |
| Validators.BooleanValidatorIdempotent | src/validator-helpers/validator.ts:38-45 | a boolean validator is idempotent |
| BooleanValidators.BooleanOf | src/validators/boolean.ts:4-8 | accepts exactly booleans, unchanged; fails with "boolean" |
| StringValidators.StringLengthLabel | src/validators/string.ts:30 | "string of length n" for equal bounds, else "string of length [min, max]"; used by the contract of `StringOfLength` |
| StringValidators.StringOf | src/validators/string.ts:4-8 | accepts exactly strings, unchanged; fails with "string" |
| StringValidators.NonEmptyStringOf | src/validators/string.ts:11-15 | accepts exactly strings of at least one code unit; fails with "non-empty string" |
| StringValidators.StringOfLength | src/validators/string.ts:29-33 | accepts exactly strings whose length lies between the bounds inclusive, the upper bound defaulting to the lower |
| StringValidators.StringOfExactLength | src/validators/string.ts:29-30 | with one bound the validator is "string of length n", accepting exactly length n, and agrees with giving both bounds equal |
| ConstValidators.ConstLabel | src/validators/const.ts:10 | "exact", `typeof c` and `String(c)` in backquotes; used by the contract of `ConstOf` |
| ConstValidators.ConstOf | src/validators/const.ts:9-15 | accepts exactly the values `===` to the constant, and NaN when the constant is NaN; the label is "exact typeof `String(c)`" |
| ConstValidators.ConstAcceptsExactly | src/validators/const.ts:9-15 | the NaN exception makes the constant validator accept exactly the values equal to the constant |
| ConstValidators.UndefinedOf | src/validators/optional.ts:2 | accepts exactly `undefined`; fails with "undefined" |
| ConstValidators.NullOf | src/validators/optional.ts:2 | accepts exactly `null`; fails with "null" |
| ArrayValidators.MapsEach | src/validators/array.ts:13 | the reference meaning of `value.map`: success exactly when every position succeeds, outputs in place, else the first unsuccessful outcome |
| ArrayValidators.Guarded | src/validators/array.ts:10-13 | the shared contract of the array variants: a failed guard throws a single error, a passed guard maps the items |
| ArrayValidators.LengthLabel | src/validators/array.ts:24 | "array of length n"; used by the contract of `ArrayOfLength` |
| ArrayValidators.AtLeastLabel | src/validators/array.ts:54 | "array of at least length n"; used by the contract of `ArrayOfAtLeastLength` |
| ArrayValidators.AtMostLabel | src/validators/array.ts:69 | "array of at most length n"; used by the contract of `ArrayOfAtMostLength` |
| ArrayValidators.BetweenLabel | src/validators/array.ts:39 | "array of length [min, max]"; used by the contract of `ArrayOfLengthBetween` |
| ArrayValidators.RunEach | src/validators/tuple.ts:18 | running validators position by position succeeds exactly when each position does, with every output in place; otherwise the first unsuccessful position's outcome comes out unchanged |
| ArrayValidators.Uniform | src/validators/array.ts:13 | vocabulary with no contract of its own; its meaning is stated by `MapItems` against the reference predicate `MapsEach` |
| ArrayValidators.MapItems | src/validators/array.ts:13 | `value.map(v)` has the meaning of running `v` at every position |
| ArrayValidators.GuardedSuccess | src/validators/array.ts:10-13 | a guarded map succeeds exactly when the guard passes and every item does |
| ArrayValidators.GuardThenMap | src/validators/array.ts:10-13 | a failed guard throws a single error about the whole input; a passed guard maps the items |
| ArrayValidators.ArrayOf | src/validators/array.ts:8-15 | `vArray(v)` fails with "array" on non-arrays and otherwise maps `v` over the items |
| ArrayValidators.ArrayOfLength | src/validators/array.ts:21-28 | passes the guard exactly for arrays of the given length; label "array of length n" |
| ArrayValidators.ArrayOfLengthBetween | src/validators/array.ts:36-43 | passes the guard exactly for lengths within both bounds inclusive; label "array of length [min, max]" |
| ArrayValidators.ArrayOfAtLeastLength | src/validators/array.ts:51-58 | passes the guard exactly for lengths of at least the bound; label "array of at least length n" |
| ArrayValidators.ArrayOfAtMostLength | src/validators/array.ts:66-73 | passes the guard exactly for lengths of at most the bound; label "array of at most length n" |
| ArrayValidators.NonemptyArrayOf | src/validators/array.ts:79 | passes the guard exactly for non-empty arrays, with the at-least-length label for 1 |
| ArrayValidators.NonemptyLabel | src/validators/array.ts:79 | that label reads "array of at least length 1" |
| ArrayValidators.RunEachFirstFailure | src/validators/array.ts:13 | the first failing element's error comes out unchanged, with no index added to its path |
| ArrayValidators.GuardedFirstFailure | src/validators/array.ts:8-73 | once the guard passes, every array variant lets the first failing element's outcome through unchanged |
| ArrayValidators.MapItemsIdempotent | src/validators/array.ts:13 | mapping an idempotent validator twice gives what mapping it once gave |
| ArrayValidators.ArrayOfIdempotent | src/validators/array.ts:8-15 | `vArray` of an idempotent validator is idempotent |
| TupleValidators.Padded | src/validators/tuple.ts:18 | `value[index]` reads the item, or `undefined` past the end |
| TupleValidators.StrictLabel | src/validators/tuple.ts:35 | "tuple of length n"; used by the contract of `StrictTupleOf` |
| TupleValidators.TupleOf | src/validators/tuple.ts:14-20 | fails with "tuple" on non-arrays; otherwise runs validator i on item i, padding with `undefined`, and outputs exactly one item per validator |
| TupleValidators.StrictTupleOf | src/validators/tuple.ts:33-39 | fails with "tuple of length n" unless the input is an array of exactly one item per validator; otherwise runs validator i on item i |
| TupleValidators.StrictAgreesWithTuple | src/validators/tuple.ts:33-39 | on arrays of the right length the strict and loose tuples agree |
| TupleValidators.TupleOutputs | src/validators/tuple.ts:9-10 | a successful tuple holds each validator's output on its item, or on `undefined` where the input is too short |
| TupleValidators.TupleIgnoresExtra | src/validators/tuple.ts:11 | extra items and named properties of the input play no part |
| TupleValidators.TupleFirstFailure | src/validators/tuple.ts:18 | the first failing position's outcome comes out unchanged, with no index added to its path |
| TupleValidators.TupleOfIdempotent | src/validators/tuple.ts:14-20 | a tuple of idempotent validators is idempotent |
| ObjectValidator.KeyClass | src/validators/object.ts:59 | where a key falls in `Reflect.ownKeys` order: array indices, then other strings, then symbols |
| ObjectValidator.DistinctKeys | src/validators/object.ts:59 | `Reflect.ownKeys` lists each key once; part of the `Template` type |
| ObjectValidator.OwnKeysOrdered | src/validators/object.ts:59 | the order `Reflect.ownKeys` lists a template's keys in; part of the `Template` type, so the loop visits keys in that order |
| ObjectValidator.Field | src/validators/object.ts:61 | the outcome of one key's validator on the input's property of that key |
| ObjectValidator.FieldsFrom | src/validators/object.ts:59-73 | the loop from one template entry on; stated by `FieldsFromSucceeds`, `FieldsFromFirstFailure` and `FieldsFromOkOnlyIfAllOk` |
| ObjectValidator.Keys | src/validators/object.ts:59 | vocabulary with no contract of its own; its meaning is stated by the `Template` constraint (`DistinctKeys`, `OwnKeysOrdered`) and by `ObjectOfSuccess` |
| ObjectValidator.CatchSingle | src/validators/object.ts:62-69 | a single error gets the key in front of its path; a union error, a crash or a success goes through unchanged |
| ObjectValidator.ObjectOf | src/validators/object.ts:47-49 | a primitive, `null`, `undefined` or a function fails with "object" and no path |
| ObjectValidator.ValidateObject | src/validators/object.ts:46-74 | the loop computes `ObjectOf` |
| ObjectValidator.KeySetStep | src/validators/object.ts:59 | `Reflect.ownKeys` visits each template key once: the key at one position does not recur later |
| ObjectValidator.FieldsFromSucceeds | src/validators/object.ts:59-61 | when every remaining field succeeds, the output holds the keys built so far plus the remaining template keys, each with its validator's output |
| ObjectValidator.FieldsFromFirstFailure | src/validators/object.ts:59-70 | the first failing field decides the outcome of the rest of the loop |
| ObjectValidator.FieldsFromOkOnlyIfAllOk | src/validators/object.ts:59-70 | the loop succeeds only if every remaining field succeeds |
| ObjectValidator.ObjectOfSuccess | src/validators/object.ts:14-28 | on an object-like input, success exactly when every template key's validator succeeds; the output's keys are exactly the template's, extra keys dropped, each holding its validator's output |
| ObjectValidator.ObjectOfFirstFailure | src/validators/object.ts:59-70 | the first template key whose validator does not succeed decides: a single error with the key in front of its path, a union error or a crash unchanged |
| ObjectValidator.MissingKeyReadsUndefined | src/validators/object.ts:26-27 | a key missing from the input is validated as `undefined` |
| ObjectValidator.ObjectOfIdempotent | src/validators/object.ts:41-75 | with idempotent field validators, validating the output again gives the same outcome |
| UnionValidator.UnionFrom | src/validators/union.ts:19-31 | the loop from one alternative on; stated by `UnionFromFirstNonFailure` and `UnionFromAllFail` |
| UnionValidator.UnionOf | src/validators/union.ts:17-33 | `vUnion(...vs)` applied to a value; stated by `UnionFirstNonFailure`, `UnionAllFail` and `UnionFailsIffAllFail` |
| UnionValidator.ValidateUnion | src/validators/union.ts:17-33 | the loop computes `UnionOf` |
| UnionValidator.UnionFromFirstNonFailure | src/validators/union.ts:20-30 | the loop returns the outcome of the first alternative that does not throw a validation error |
| UnionValidator.ErrorsFrom | src/validators/union.ts:25 | vocabulary with no contract of its own; its meaning is stated by `UnionFromAllFail` and `UnionAllFail` |
| UnionValidator.UnionFromAllFail | src/validators/union.ts:19-31 | when every remaining alternative fails, the loop throws a union of the errors collected so far followed by theirs |
| UnionValidator.UnionFirstNonFailure | src/validators/union.ts:8 | the first alternative not throwing a validation error decides: its output, or its crash re-thrown |
| UnionValidator.UnionAllFail | src/validators/union.ts:31 | when every alternative fails, a union of exactly their errors in order, with the input as value and no path |
| UnionValidator.UnionShortCircuit | src/validators/union.ts:22 | alternatives after the deciding one are never consulted |
| UnionValidator.UnionFailsIffAllFail | src/validators/union.ts:17-33 | `vUnion` throws a validation error exactly when every alternative does |
| UnionValidator.FirstNonFailure | src/validators/union.ts:20-22 | the position of the first alternative not throwing a validation error |
| UnionValidator.UnionErrorCoherent | src/validators/union.ts:31 | the union error thrown over coherent constituents is coherent |
| OptionalValidators.OptionalOf | src/validators/optional.ts:11 | `v`'s success or crash passes through; `undefined` and `null` are returned as they are; otherwise a union of `v`'s error, "undefined" and "null" |
| OptionalValidators.NullableOf | src/validators/optional.ts:14 | `v`'s success or crash passes through; `null` is returned; otherwise a union of `v`'s error and "null" |
| OptionalValidators.OrUndefinedOf | src/validators/optional.ts:17 | `v`'s success or crash passes through; `undefined` is returned; otherwise a union of `v`'s error and "undefined" |
| OptionalValidators.OptionalAccepts | src/validators/optional.ts:5-11 | for a validator rejecting both, `vOptional` accepts exactly what it accepts plus `undefined` and `null` |
| DefaultValidators.IsAbsent | src/validators/default.ts:16 | `value === null \|\| value === undefined`; stated by `AbsentMeansNullish` |
| DefaultValidators.AbsentMeansNullish | src/validators/default.ts:16 | `value === null \|\| value === undefined` picks out exactly those two values |
| DefaultValidators.WithDefaultOf | src/validators/default.ts:15-23 | an absent input gets the fixed default or the thunk's outcome; any other input goes to `v` |
| DefaultValidators.WithDefaultIgnoresValidator | src/validators/default.ts:16-21 | on an absent input the wrapped validator plays no part |
| DefaultValidators.WithFallbackOf | src/validators/default.ts:35-47 | a success or crash of `v` passes through; a validation error gives the fixed fallback or the producer's outcome on the original input |
| DefaultValidators.FixedFallbackNeverFails | src/validators/default.ts:35-47 | with a fixed fallback no validation error escapes; the result succeeds unless `v` crashed |
| OverrideValidator.OverrideOf | src/validators/override.ts:11-19 | the fixed override is returned, or the producer called with the input |
| OverrideValidator.FixedOverrideIsConstant | src/validators/override.ts:11-18 | a fixed override gives every input the same success |
| OverrideValidator.OverrideThroughProducer | src/validators/override.ts:12-16 | the outcome depends on the input only through the producer |
| Scenarios.NumberOf | src/validators/number.ts:9-13 | a stand-in for `vNumber`: accepts exactly numbers; fails with "number" |
| Scenarios.UnknownKeysDropped | src/validators/object.ts:24 | `vObject({n: vNumber})({n: 1, extra: "x"})` is `{n: 1}` |
| Scenarios.InnerObjectFailure | src/validators/object.ts:63-66 | `vObject({b: vString})({b: 1})` fails with "string" at `["b"]` |
| Scenarios.DottedPath | src/errors/abstract.ts:59-60 | the path `["a", "b"]` renders as ".a.b" |
| Scenarios.NestedObjectPath | src/validators/object.ts:63-66 | a nested object failure carries the path `["a", "b"]`, rendered ".a.b" |
| Scenarios.UnionExhaustion | src/validators/union.ts:31 | `vUnion(vNumber, vString)(true)` throws a union of the "number" and "string" errors |
| Scenarios.TuplePadding | src/validators/tuple.ts:9-10 | `vTuple(vNumber, vOrUndefined(vString))([1])` is `[1, undefined]` |

## Left out

- `src/validators/number.ts` (`vNumber` and its variants) is not part of this model. `Scenarios.NumberOf` stands in for `vNumber` in the examples.
- `src/index.ts` only re-exports, so there is nothing of its own to model.
- Floating point: numbers are reals plus infinities and NaN. Negative zero is not distinguished from zero.
- Number formatting with `${n}` is modelled for integers only, and only in the plain decimal form. JavaScript uses that form for magnitudes below 10^21. Lengths and bounds given as non-integers are not modelled.
- `String(value)` is not modelled. It is a parameter `show` of messages and of `vConst`'s label, and it is assumed total.
- Validators.Check: in the source, building a `SingleValidationError` evaluates `String(value)` (single.ts:17,19). That throws a `TypeError` for `Object.create(null)` and for an object whose `toString` or `Symbol.toPrimitive` throws. The source then crashes where the model fails with a single error. This reaches every leaf validator, `vUnion`, which re-throws such a crash, and `vWithFallback`, which would not apply its fallback.
- DefaultValidators.FixedFallbackNeverFails: holds only with `String(value)` total; a wrapped validator whose error construction throws makes the source crash instead.
- Prototype chains are not modelled as such. The `props` of an object value stand for every key that `value[key]` reaches, own or inherited, getters included. Each getter's result is fixed once, and its side effects and re-evaluation on a second read are not modelled. A property read that throws (a throwing getter or Proxy trap at `src/validators/object.ts:61`) is not modelled either. The properties a fresh output object inherits from `Object.prototype` are not represented, and neither is the special meaning of an output key `__proto__`.
- Array holes and sparse arrays are not modelled: an array is a dense sequence of items plus named properties.
- Object identity is not modelled. Objects and arrays are compared structurally, and functions by an identity field.
- ConstValidators.ConstOf: for an object or array constant it accepts structurally equal values, where `===` demands the very same object. Its label evaluates `String(c)` when the validator is built (const.ts:10), and a throw there is not modelled.
- Symbols wrapped in objects (abstract.ts:44) are not modelled. Symbols are always primitive.
- Template values that are not functions: the template is typed as a sequence of validators, which the TypeScript types demand of callers.
- Side effects and the time or number of calls of user producers (thunks, fallbacks, overrides) are not modelled. A producer is a function to a `Result`.
- A fixed default, fallback or override that is itself a function is excluded by the `Default` and `Replacement` subset types, since the source always calls such a value.
- Literals outside the Basic Multilingual Plane are not modelled. `Lit` maps one character to one code unit, and every literal in the library is in that plane.
- The `Error` superclass, stack traces and `instanceof ValidationError` for errors of other classes are not modelled. Anything thrown that is not a `ValidationError` is a `Crash`.

## Findings

| source | as written | input that shows it | evidently intended | confidence | as-written member | corrected member |
|---|---|---|---|---|---|---|
| src/errors/union.ts:23 | the number of kinds is compared with `combinedErrors.length`, the length of the joined message string, so every non-empty union is labelled "multiple types" | `new UnionValidationError([new SingleValidationError("string", null), new SingleValidationError("number", null)], 1)`: two kinds against a message string of far more than two code units, giving "Expected one of multiple types …" | compare with `errors.length`, giving "Expected one of string, number …", as test/errors/union.test.ts:54 and :61 expect | not executed | ValidationErrors.UnionLabelAsWrittenMissesTwoKinds | ValidationErrors.UnionLabelMeaning |

`ValidationErrors.Message` uses the corrected label `ValidationErrors.UnionLabel`.
`ValidationErrors.UnionLabelAsWritten` models the line as written, and
`ValidationErrors.UnionLabelAsWrittenIsMultipleTypes` proves that it reads
"multiple types" for every non-empty list of constituents.
