/** `vOverride` (src/validators/override.ts): the input is replaced, never checked. */
module OverrideValidator {
  import opened Values
  import opened Validators

  /** `vOverride(override)` applied to `x`. */
  function OverrideOf(o: Replacement, x: Value): (r: Result)
    ensures o.Given? ==> r == Ok(o.value)
    ensures o.FromInput? ==> r == o.produce(x)
  {
    match o
    case Given(c) => Ok(c)
    case FromInput(produce) => produce(x)
  }

  /** A fixed override gives every input the same successful outcome, `null` and `undefined` included. */
  lemma FixedOverrideIsConstant(o: Replacement, x: Value, y: Value)
    requires o.Given?
    ensures OverrideOf(o, x) == OverrideOf(o, y) && OverrideOf(o, x).Ok?
  {
  }

  /** The outcome depends on the input only through the producer. */
  lemma OverrideThroughProducer(o: Replacement, x: Value, y: Value)
    requires o.FromInput? && o.produce(x) == o.produce(y)
    ensures OverrideOf(o, x) == OverrideOf(o, y)
  {
  }
}
