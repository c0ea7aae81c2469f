/**
 * The text control (src/components/FieldControls/TextField.tsx), used for text, textarea,
 * email and phone fields: a textarea or an input, and the register options it passes.
 */
module TextField {
  import opened Wrappers
  import opened Js
  import opened Schema
  import opened Controls

  /** The element rendered: an input of a given type, or a textarea of some rows. */
  datatype Element = InputElement(inputType: string) | TextAreaElement(rows: nat)

  /** The register options of the control. */
  datatype TextRules = TextRules(
    required: Option<string>,
    pattern: Option<Check<string>>,
    minLength: Option<Check<real>>,
    maxLength: Option<Check<real>>)

  /** What the control renders. */
  datatype TextControl = TextControl(
    id: string,
    element: Element,
    placeholder: Option<string>,
    caption: Option<LabelView>,
    rules: TextRules,
    hint: Option<string>,
    errorText: Option<string>)

  /** The register options of a field: building the pattern throws when the regex is
      non-empty and does not compile. */
  function RulesOf(h: Host, f: Field): (r: Outcome<TextRules>)
    ensures r.Threw? <==> PatternThrows(h, f)
    ensures r.Done? ==> r.value.required == RequiredMessage(f)
    ensures r.Done? ==> (r.value.pattern.Some? <==> f.regex.Some? && f.regex.value != "")
    ensures r.Done? && r.value.pattern.Some? ==>
      r.value.pattern.value == Check(f.regex.value, "Invalid " + DisplayName(f) + " format")
    ensures r.Done? ==> (r.value.minLength.Some? <==> f.min.Some? && f.min.value.NumberBound?)
    ensures r.Done? && r.value.minLength.Some? ==>
      r.value.minLength.value == Check(f.min.value.x, "Minimum " + h.numberToString(Finite(f.min.value.x)) + " characters required")
    ensures r.Done? ==> (r.value.maxLength.Some? <==> f.max.Some? && f.max.value.NumberBound?)
    ensures r.Done? && r.value.maxLength.Some? ==>
      r.value.maxLength.value == Check(f.max.value.x, "Maximum " + h.numberToString(Finite(f.max.value.x)) + " characters allowed")
  {
    if PatternThrows(h, f) then Threw
    else
      Done(TextRules(
        RequiredMessage(f),
        if f.regex.Some? && f.regex.value != "" then
          Some(Check(f.regex.value, "Invalid " + DisplayName(f) + " format"))
        else None,
        match f.min
        case Some(NumberBound(x)) => Some(Check(x, "Minimum " + h.numberToString(Finite(x)) + " characters required"))
        case _ => None,
        match f.max
        case Some(NumberBound(x)) => Some(Check(x, "Maximum " + h.numberToString(Finite(x)) + " characters allowed"))
        case _ => None))
  }

  /** The control for a field and its current error; the render throws with the pattern. */
  function Render(h: Host, f: Field, error: Option<FieldError>): (c: Outcome<TextControl>)
    ensures c.Threw? <==> PatternThrows(h, f)
    ensures c.Done? ==> (c.value.element.TextAreaElement? <==> f.ftype == TextArea)
    ensures c.Done? && c.value.element.TextAreaElement? ==> c.value.element.rows == 4
    ensures c.Done? && c.value.element.InputElement? ==> c.value.element.inputType == TypeName(f.ftype)
    ensures c.Done? ==> c.value.id == f.id && c.value.placeholder == f.placeholder
    ensures c.Done? ==> c.value.caption == LabelOf(f) && c.value.hint == HintOf(f) && c.value.errorText == ErrorTextOf(error)
    ensures c.Done? ==> c.value.rules == RulesOf(h, f).value
  {
    var isTextArea := f.ftype == TextArea;
    match RulesOf(h, f)
    case Threw => Threw
    case Done(rules) =>
      Done(TextControl(
        f.id,
        if isTextArea then TextAreaElement(4) else InputElement(TypeName(f.ftype)),
        f.placeholder,
        LabelOf(f),
        rules,
        HintOf(f),
        ErrorTextOf(error)))
  }

  /** The control's register options and the resolver's string rule agree on a text-like field:
      both throw on the same bad pattern, and otherwise have the same pattern and the same
      length bounds, each present under the same condition. */
  lemma AgreesWithSchema(h: Host, f: Field)
    requires TextLike(f.ftype)
    ensures RulesOf(h, f).Threw? <==> BadPattern(h, f)
    ensures RulesOf(h, f).Done? ==> var rule := StringRuleOf(f); var r := RulesOf(h, f).value;
      (r.pattern.Some? <==> rule.pattern.Some?)
      && (r.pattern.Some? ==> r.pattern.value.value == rule.pattern.value)
      && (r.minLength.Some? <==> rule.minLength.Some?)
      && (r.minLength.Some? ==> r.minLength.value.value == rule.minLength.value)
      && (r.maxLength.Some? <==> rule.maxLength.Some?)
      && (r.maxLength.Some? ==> r.maxLength.value.value == rule.maxLength.value)
  {
  }
}
