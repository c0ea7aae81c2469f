/**
 * The number control (src/components/FieldControls/NumberField.tsx): an input of type number
 * whose HTML bounds and register options take `min` and `max` only when they are numbers.
 */
module NumberField {
  import opened Wrappers
  import opened Js
  import opened Schema
  import opened Controls

  /** The register options of the control; `valueAsNumber` makes the form hold a Number. */
  datatype NumberRules = NumberRules(
    required: Option<string>,
    valueAsNumber: bool,
    min: Option<Check<real>>,
    max: Option<Check<real>>)

  /** What the control renders. */
  datatype NumberControl = NumberControl(
    id: string,
    inputType: string,
    placeholder: Option<string>,
    minAttribute: Option<real>,
    maxAttribute: Option<real>,
    caption: Option<LabelView>,
    rules: NumberRules,
    hint: Option<string>,
    errorText: Option<string>)

  /** `typeof b === 'number' ? b : undefined`. */
  function NumericBound(b: Option<Bound>): (r: Option<real>)
    ensures r.Some? <==> b.Some? && b.value.NumberBound?
    ensures r.Some? ==> r.value == b.value.x
  {
    match b
    case Some(NumberBound(x)) => Some(x)
    case _ => None
  }

  function Render(h: Host, f: Field, error: Option<FieldError>): (c: NumberControl)
    ensures c.inputType == "number" && c.rules.valueAsNumber
    ensures c.minAttribute == NumericBound(f.min) && c.maxAttribute == NumericBound(f.max)
    ensures c.rules.required == RequiredMessage(f)
    ensures c.rules.min.Some? <==> f.min.Some? && f.min.value.NumberBound?
    ensures c.rules.min.Some? ==>
      c.rules.min.value == Check(f.min.value.x, "Minimum value is " + h.numberToString(Finite(f.min.value.x)))
    ensures c.rules.max.Some? <==> f.max.Some? && f.max.value.NumberBound?
    ensures c.rules.max.Some? ==>
      c.rules.max.value == Check(f.max.value.x, "Maximum value is " + h.numberToString(Finite(f.max.value.x)))
    ensures c.caption == LabelOf(f) && c.hint == HintOf(f) && c.errorText == ErrorTextOf(error)
  {
    var lo := NumericBound(f.min);
    var hi := NumericBound(f.max);
    NumberControl(
      f.id, "number", f.placeholder, lo, hi, LabelOf(f),
      NumberRules(
        RequiredMessage(f),
        true,
        if lo.Some? then Some(Check(lo.value, "Minimum value is " + h.numberToString(Finite(lo.value)))) else None,
        if hi.Some? then Some(Check(hi.value, "Maximum value is " + h.numberToString(Finite(hi.value)))) else None),
      HintOf(f),
      ErrorTextOf(error))
  }

  /** Where the control and the resolver part ways: a `min` given as a string sets no bound on
      the control, while the resolver's number rule converts it and bounds the value by it. */
  lemma StringMinOnlyInResolver(h: Host, f: Field, s: string, error: Option<FieldError>)
    requires f.ftype == Numeric && f.min == Some(TextBound(s))
    ensures Render(h, f, error).rules.min.None? && Render(h, f, error).minAttribute.None?
    ensures BaseRule(h, f).lo == Some(h.stringToNumber(s))
  {
  }

  /** On a numeric bound the two agree. */
  lemma NumericMinAgrees(h: Host, f: Field, x: real, error: Option<FieldError>)
    requires f.ftype == Numeric && f.min == Some(NumberBound(x))
    ensures Render(h, f, error).rules.min.Some? && Render(h, f, error).rules.min.value.value == x
    ensures BaseRule(h, f).lo == Some(Finite(x))
  {
  }
}
