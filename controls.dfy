/**
 * What every field control in src/components/FieldControls renders around its input: the
 * label with the required asterisk, the hint, the error text, and the register option
 * `required` with its message.
 */
module Controls {
  import opened Wrappers
  import opened Schema

  /** A register option `{ value, message }`. */
  datatype Check<T> = Check(value: T, message: string)

  /** The label element: its text and whether the red asterisk follows it. */
  datatype LabelView = LabelView(text: string, asterisk: bool)

  /** A validation error react-hook-form reports for the field. */
  datatype FieldError = FieldError(message: string)

  /** `{field.label && <label>{field.label}{field.required && <span>*</span>}</label>}`. */
  function LabelOf(f: Field): (l: Option<LabelView>)
    ensures l.Some? <==> f.labelText.Some? && f.labelText.value != ""
    ensures l.Some? ==> l.value.text == f.labelText.value && (l.value.asterisk <==> IsRequired(f))
  {
    if f.labelText.Some? && f.labelText.value != "" then Some(LabelView(f.labelText.value, IsRequired(f)))
    else None
  }

  /** `{field.hint && <p>{field.hint}</p>}`. */
  function HintOf(f: Field): (t: Option<string>)
    ensures t.Some? <==> f.hint.Some? && f.hint.value != ""
  {
    if f.hint.Some? && f.hint.value != "" then f.hint else None
  }

  /** `{error && <p>{error.message}</p>}`. */
  function ErrorTextOf(error: Option<FieldError>): (t: Option<string>)
    ensures t.Some? <==> error.Some?
    ensures t.Some? ==> t.value == error.value.message
  {
    match error
    case Some(e) => Some(e.message)
    case None => None
  }

  /** `required: field.required ? \`${field.label || field.id} is required\` : false`. */
  function RequiredMessage(f: Field): (m: Option<string>)
    ensures m.Some? <==> IsRequired(f)
    ensures m.Some? ==> m.value == DisplayName(f) + " is required"
  {
    if IsRequired(f) then Some(DisplayName(f) + " is required") else None
  }
}
