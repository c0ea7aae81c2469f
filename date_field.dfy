/**
 * The date control (src/components/FieldControls/DateField.tsx): an input of type date whose
 * register options take `min` and `max` only when they are strings.
 */
module DateField {
  import opened Wrappers
  import opened Schema
  import opened Controls

  datatype DateRules = DateRules(
    required: Option<string>,
    min: Option<Check<string>>,
    max: Option<Check<string>>)

  datatype DateControl = DateControl(
    id: string,
    inputType: string,
    caption: Option<LabelView>,
    rules: DateRules,
    hint: Option<string>,
    errorText: Option<string>)

  /** `typeof b === 'string' ? b : undefined`. */
  function TextualBound(b: Option<Bound>): (r: Option<string>)
    ensures r.Some? <==> b.Some? && b.value.TextBound?
    ensures r.Some? ==> r.value == b.value.s
  {
    match b
    case Some(TextBound(s)) => Some(s)
    case _ => None
  }

  function Render(f: Field, error: Option<FieldError>): (c: DateControl)
    ensures c.inputType == "date"
    ensures c.rules.required == RequiredMessage(f)
    ensures c.rules.min.Some? <==> f.min.Some? && f.min.value.TextBound?
    ensures c.rules.min.Some? ==> c.rules.min.value == Check(f.min.value.s, "Date must be after " + f.min.value.s)
    ensures c.rules.max.Some? <==> f.max.Some? && f.max.value.TextBound?
    ensures c.rules.max.Some? ==> c.rules.max.value == Check(f.max.value.s, "Date must be before " + f.max.value.s)
    ensures c.caption == LabelOf(f) && c.hint == HintOf(f) && c.errorText == ErrorTextOf(error)
  {
    var lo := TextualBound(f.min);
    var hi := TextualBound(f.max);
    DateControl(
      f.id, "date", LabelOf(f),
      DateRules(
        RequiredMessage(f),
        if lo.Some? then Some(Check(lo.value, "Date must be after " + lo.value)) else None,
        if hi.Some? then Some(Check(hi.value, "Date must be before " + hi.value)) else None),
      HintOf(f),
      ErrorTextOf(error))
  }

  /** Numeric bounds are ignored: the control renders as if the field had none. */
  lemma NumericBoundsIgnored(f: Field, x: real, y: real, error: Option<FieldError>)
    requires f.min == Some(NumberBound(x)) && f.max == Some(NumberBound(y))
    ensures Render(f, error) == Render(f.(min := None, max := None), error)
  {
  }
}
