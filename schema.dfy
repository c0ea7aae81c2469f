/**
 * The form description (src/lib/schema.ts): the field, action and form types, the
 * default lucky-draw schema, and the derivation of one validation rule per field that
 * the form's resolver checks the values against.
 */
module Schema {
  import opened Wrappers
  import opened Js

  // ---------------------------------------------------------------------------
  // Types

  /** The field kinds. Unknown stands for a type string outside the enumeration: a schema
      read back from storage or fetched from a URL is not validated, so it can carry one. */
  datatype FieldType =
    | Text | TextArea | Email | Phone | Numeric | Select | MultiSelect | Radio
    | Checkbox | Date | FileUpload | Info | Divider | Hidden | Unknown(name: string)

  /** The type string of a field, as the schema spells it. */
  function TypeName(t: FieldType): string {
    match t
    case Text => "text"
    case TextArea => "textarea"
    case Email => "email"
    case Phone => "phone"
    case Numeric => "number"
    case Select => "select"
    case MultiSelect => "multiselect"
    case Radio => "radio"
    case Checkbox => "checkbox"
    case Date => "date"
    case FileUpload => "file"
    case Info => "info"
    case Divider => "divider"
    case Hidden => "hidden"
    case Unknown(name) => name
  }

  /** `min` and `max` are a number or a string. JSON numbers are finite, so a real suffices. */
  datatype Bound = NumberBound(x: real) | TextBound(s: string)

  /** One choice of a select, radio or multi-select field. */
  datatype Choice = Choice(value: string, text: string)

  /** A field; every member but id and type is optional. */
  datatype Field = Field(
    id: string,
    ftype: FieldType,
    labelText: Option<string>,
    required: Option<bool>,
    placeholder: Option<string>,
    hint: Option<string>,
    options: Option<seq<Choice>>,
    regex: Option<string>,
    min: Option<Bound>,
    max: Option<Bound>,
    showWhen: Option<string>,
    defaultValue: Option<Value>)

  /** A field with only its id and type. */
  function Plain(id: string, t: FieldType): Field {
    Field(id, t, None, None, None, None, None, None, None, None, None, None)
  }

  /** `field.required` is truthy. */
  predicate IsRequired(f: Field) {
    f.required == Some(true)
  }

  /** `field.label || field.id`: the name the controls' messages use. */
  function DisplayName(f: Field): string {
    if f.labelText.Some? && f.labelText.value != "" then f.labelText.value else f.id
  }

  datatype ActionType = Navigate | LocalStore | Webhook | WhatsApp

  datatype HttpMethod = HttpGet | HttpPost | HttpPut

  /** An after-submit action; which members matter depends on its type. */
  datatype Action = Action(
    atype: ActionType,
    to: Option<string>,
    key: Option<string>,
    url: Option<string>,
    httpMethod: Option<HttpMethod>,
    whatsappTo: Option<string>,
    whatsappFrom: Option<string>,
    whatsappTemplate: Option<string>)

  /** An action with only its type. */
  function ActionOf(t: ActionType): Action {
    Action(t, None, None, None, None, None, None, None)
  }

  /** `hidden.inject`: the names of the system values copied into a submission. */
  datatype HiddenConfig = HiddenConfig(inject: seq<string>)

  datatype Layout = Layout(columns: Option<real>)

  datatype AfterSubmit = AfterSubmit(actions: seq<Action>)

  datatype FormSchema = FormSchema(
    version: string,
    title: string,
    description: Option<string>,
    hidden: Option<HiddenConfig>,
    layout: Option<Layout>,
    fields: seq<Field>,
    afterSubmit: Option<AfterSubmit>)

  // ---------------------------------------------------------------------------
  // The default schema

  const DefaultFields: seq<Field> := [
    Plain("full_name", Text).(labelText := Some("Full Name"), required := Some(true),
      placeholder := Some("Enter your full name"),
      hint := Some("Your legal name as it appears on official documents")),
    Plain("phone", Phone).(labelText := Some("Phone Number"), required := Some(true),
      placeholder := Some("+91 98765 43210"),
      hint := Some("10-digit mobile number for verification")),
    Plain("reference_phone", Phone).(labelText := Some("Reference Mobile Number"), required := Some(false),
      placeholder := Some("+91 98765 43210"),
      hint := Some("Optional - Alternative contact number")),
    Plain("email", Email).(labelText := Some("Email Address"), required := Some(false),
      placeholder := Some("your.email@example.com"),
      hint := Some("Optional - We'll send updates if provided")),
    Plain("selfie", FileUpload).(labelText := Some("Upload Selfie"), required := Some(true),
      hint := Some("Please upload a clear selfie for verification")),
    Plain("has_car", Radio).(labelText := Some("Do you have a car?"), required := Some(true),
      options := Some([Choice("yes", "Yes"), Choice("no", "No")]),
      hint := Some("Select whether you currently own a car")),
    Plain("page_break_1", Divider),
    Plain("income_info", Info).(labelText := Some("Income Information"),
      hint := Some("This information helps us understand our audience better and is kept confidential.")),
    Plain("income_bracket", Radio).(labelText := Some("Annual Income Bracket"), required := Some(true),
      options := Some([
        Choice("below_5", "Below \U{20B9}5 LPA"),
        Choice("5_to_10", "\U{20B9}5 LPA - \U{20B9}10 LPA"),
        Choice("10_to_20", "\U{20B9}10 LPA - \U{20B9}20 LPA"),
        Choice("20_to_30", "\U{20B9}20 LPA - \U{20B9}30 LPA"),
        Choice("30_to_40", "\U{20B9}30 LPA - \U{20B9}40 LPA"),
        Choice("40_to_50", "\U{20B9}40 LPA - \U{20B9}50 LPA"),
        Choice("above_50", "\U{20B9}50 LPA+")]),
      hint := Some("Select your current annual income range")),
    Plain("marketing_consent", Checkbox).(labelText := Some("I consent to receive marketing communications"),
      required := Some(false), hint := Some("Optional - You can unsubscribe anytime"))
  ]

  const DefaultActions: seq<Action> := [
    ActionOf(LocalStore).(key := Some("form_submission")),
    ActionOf(Navigate).(to := Some("/ticket-created"))
  ]

  const DefaultFormSchema: FormSchema := FormSchema(
    "2.0",
    "Lucky Draw Entry",
    Some("Enter your details for the lucky draw"),
    Some(HiddenConfig(["user_id", "ticket_seed", "source"])),
    Some(Layout(Some(1.0))),
    DefaultFields,
    Some(AfterSubmit(DefaultActions)))

  /** No two fields of a list share an id. */
  predicate DistinctIds(fields: seq<Field>) {
    forall i, j :: 0 <= i < j < |fields| ==> fields[i].id != fields[j].id
  }

  /** The default schema's ids are distinct, and after submitting it stores the entry and then
      moves on to the ticket page. */
  lemma DefaultSchemaShape()
    ensures DistinctIds(DefaultFormSchema.fields)
    ensures |DefaultFormSchema.fields| == 10
    ensures DefaultFormSchema.afterSubmit == Some(AfterSubmit(DefaultActions))
    ensures |DefaultActions| == 2
    ensures DefaultActions[0].atype == LocalStore && DefaultActions[0].key == Some("form_submission")
    ensures DefaultActions[1].atype == Navigate && DefaultActions[1].to == Some("/ticket-created")
  {
    var ids := seq(|DefaultFields|, i requires 0 <= i < |DefaultFields| => DefaultFields[i].id);
    assert ids == ["full_name", "phone", "reference_phone", "email", "selfie", "has_car",
                   "page_break_1", "income_info", "income_bracket", "marketing_consent"];
  }

  // ---------------------------------------------------------------------------
  // Validation rules

  /** The zod check derived for one field. */
  datatype Rule =
    | EmailRule                                               // z.string().email()
    | PhoneRule                                               // z.string().regex(phone pattern)
    | NumberRule(lo: Option<Number>, hi: Option<Number>)      // z.coerce.number() with .min / .max
    | DateRule                                                // z.string() refined by Date.parse
    | StringArrayRule                                         // z.array(z.string())
    | BooleanRule                                             // z.boolean()
    | FileRule(mustHave: bool)                                // z.any() refined by the file check
    | StringRule(pattern: Option<string>, minLength: Option<real>, maxLength: Option<real>)
    | Optional(inner: Rule)                                   // .optional()

  /** The kinds that carry no value to validate. */
  predicate NoRule(t: FieldType) {
    t == Hidden || t == Info || t == Divider
  }

  /** `Number(field.min)`: a number is kept, a string is converted (and may give NaN). */
  function BoundNumber(h: Host, b: Bound): (n: Number)
    ensures b.NumberBound? ==> n == Finite(b.x)
    ensures b.TextBound? ==> n == h.stringToNumber(b.s)
  {
    match b
    case NumberBound(x) => Finite(x)
    case TextBound(s) => h.stringToNumber(s)
  }

  /** The rule of a field before `.optional()`. */
  function BaseRule(h: Host, f: Field): Rule
    requires !NoRule(f.ftype)
  {
    match f.ftype
    case Email => EmailRule
    case Phone => PhoneRule
    case Numeric =>
      NumberRule(if f.min.Some? then Some(BoundNumber(h, f.min.value)) else None,
                 if f.max.Some? then Some(BoundNumber(h, f.max.value)) else None)
    case Date => DateRule
    case MultiSelect => StringArrayRule
    case Checkbox => BooleanRule
    case FileUpload => FileRule(IsRequired(f))
    case Text => StringRuleOf(f)
    case TextArea => StringRuleOf(f)
    case Select => StringRuleOf(f)
    case Radio => StringRuleOf(f)
    case Unknown(_) => StringRuleOf(f)
  }

  /** The default branch: z.string() with the regex when it is non-empty, and min and max as
      length bounds when they are numbers. */
  function StringRuleOf(f: Field): Rule {
    StringRule(if f.regex.Some? && f.regex.value != "" then f.regex else None,
               if f.min.Some? && f.min.value.NumberBound? then Some(f.min.value.x) else None,
               if f.max.Some? && f.max.value.NumberBound? then Some(f.max.value.x) else None)
  }

  /** The rule a field contributes: none for hidden, info and divider fields, and a rule that
      also lets an absent value through when the field is not required. */
  function RuleFor(h: Host, f: Field): (r: Option<Rule>)
    ensures r.None? <==> NoRule(f.ftype)
    ensures r.Some? && !IsRequired(f) ==> r.value == Optional(BaseRule(h, f))
    ensures r.Some? && IsRequired(f) ==> r.value == BaseRule(h, f) && !r.value.Optional?
  {
    if NoRule(f.ftype) then None
    else if IsRequired(f) then Some(BaseRule(h, f))
    else Some(Optional(BaseRule(h, f)))
  }

  /** The table `generateZodSchema` builds: the fields in order, each rule written under its
      field's id, so a later field with the same id replaces an earlier rule. */
  function RuleTable(h: Host, fields: seq<Field>): map<string, Rule>
    decreases |fields|
  {
    if fields == [] then map[]
    else
      var table := RuleTable(h, fields[..|fields| - 1]);
      var f := fields[|fields| - 1];
      match RuleFor(h, f)
      case None => table
      case Some(r) => table[f.id := r]
  }

  /** `new RegExp(field.regex)` runs and throws: the regex is non-empty and not a valid pattern. */
  predicate PatternThrows(h: Host, f: Field) {
    f.regex.Some? && f.regex.value != "" && !h.regexCompiles(f.regex.value)
  }

  /** A field on which generateZodSchema throws: one of the kinds that build a pattern rule,
      with a pattern that does not compile. */
  predicate BadPattern(h: Host, f: Field) {
    TextLike(f.ftype) && PatternThrows(h, f)
  }

  /** The `forEach` callback of generateZodSchema on one field: no rule for the kinds that
      carry none, a SyntaxError for a pattern that does not compile, and otherwise the
      field's rule. */
  method FieldRule(h: Host, field: Field) returns (r: Outcome<Option<Rule>>)
    ensures r.Threw? <==> BadPattern(h, field)
    ensures r.Done? ==> r.value == RuleFor(h, field)
  {
    if field.ftype == Hidden || field.ftype == Info || field.ftype == Divider {
      return Done(None);
    }
    var fieldSchema: Rule;
    match field.ftype {
      case Email =>
        fieldSchema := EmailRule;
      case Phone =>
        fieldSchema := PhoneRule;
      case Numeric =>
        fieldSchema := NumberRule(None, None);
        if field.min.Some? {
          fieldSchema := fieldSchema.(lo := Some(BoundNumber(h, field.min.value)));
        }
        if field.max.Some? {
          fieldSchema := fieldSchema.(hi := Some(BoundNumber(h, field.max.value)));
        }
      case Date =>
        fieldSchema := DateRule;
      case MultiSelect =>
        fieldSchema := StringArrayRule;
      case Checkbox =>
        fieldSchema := BooleanRule;
      case FileUpload =>
        fieldSchema := FileRule(IsRequired(field));
      case Text | TextArea | Select | Radio | Unknown(_) =>
        fieldSchema := StringRule(None, None, None);
        if field.regex.Some? && field.regex.value != "" {
          if !h.regexCompiles(field.regex.value) {
            return Threw;
          }
          fieldSchema := fieldSchema.(pattern := field.regex);
        }
        if field.min.Some? && field.min.value.NumberBound? {
          fieldSchema := fieldSchema.(minLength := Some(field.min.value.x));
        }
        if field.max.Some? && field.max.value.NumberBound? {
          fieldSchema := fieldSchema.(maxLength := Some(field.max.value.x));
        }
    }
    if !IsRequired(field) {
      fieldSchema := Optional(fieldSchema);
    }
    return Done(Some(fieldSchema));
  }

  /** generateZodSchema: the SyntaxError of the first bad pattern propagates; without one the
      table of every field's rule is built, later fields winning. */
  method GenerateRules(h: Host, fields: seq<Field>) returns (r: Outcome<map<string, Rule>>)
    ensures r.Threw? <==> exists i :: 0 <= i < |fields| && BadPattern(h, fields[i])
    ensures r.Done? ==> r.value == RuleTable(h, fields)
  {
    var rules := map[];
    for i := 0 to |fields|
      invariant rules == RuleTable(h, fields[..i])
      invariant forall j :: 0 <= j < i ==> !BadPattern(h, fields[j])
    {
      assert fields[..i + 1][..i] == fields[..i];
      var fieldSchema := FieldRule(h, fields[i]);
      if fieldSchema.Threw? {
        return Threw;
      }
      if fieldSchema.value.Some? {
        rules := rules[fields[i].id := fieldSchema.value.value];
      }
    }
    assert fields[..|fields|] == fields;
    return Done(rules);
  }

  // ---------------------------------------------------------------------------
  // What a rule accepts

  /** `^[\+]?[1-9][\d]{0,15}$`: an optional plus, a digit other than zero, at most fifteen more digits. */
  predicate PhoneText(s: string) {
    if s != [] && s[0] == '+' then PhoneDigits(s[1..]) else PhoneDigits(s)
  }

  /** `[1-9][\d]{0,15}`. */
  predicate PhoneDigits(d: string) {
    1 <= |d| <= 16 && '1' <= d[0] <= '9' && forall k :: 1 <= k < |d| ==> IsDigit(d[k])
  }

  /** Whether a value passes a rule. */
  predicate Accepts(h: Host, rule: Rule, v: Value) {
    match rule
    case EmailRule => v.Str? && h.isEmail(v.s)
    case PhoneRule => v.Str? && PhoneText(v.s)
    case NumberRule(lo, hi) =>
      var n := ToNumber(h, v);
      n != NaN && (lo.None? || !Less(n, lo.value)) && (hi.None? || !Greater(n, hi.value))
    case DateRule => v.Str? && h.dateParses(v.s)
    case StringArrayRule => v.Arr?
    case BooleanRule => v.Bool?
    case FileRule(mustHave) => !mustHave || v.File? || (v.Str? && Utf16Length(v.s) > 0)
    case StringRule(pattern, minLength, maxLength) =>
      v.Str?
      && (pattern.None? || h.regexTest(pattern.value, v.s))
      && (minLength.None? || Utf16Length(v.s) as real >= minLength.value)
      && (maxLength.None? || Utf16Length(v.s) as real <= maxLength.value)
    case Optional(inner) => v.Undef? || Accepts(h, inner, v)
  }

  /** `z.object(table)`: every field with a rule accepts the record's value for it. */
  predicate FormValid(h: Host, table: map<string, Rule>, values: Record) {
    forall id :: id in table ==> Accepts(h, table[id], Get(values, id))
  }

  // ---------------------------------------------------------------------------
  // Properties of the rule table

  /** An id has a rule exactly when some field with that id is of a kind that carries one. */
  lemma {:induction false} RuleTableKeys(h: Host, fields: seq<Field>, id: string)
    ensures id in RuleTable(h, fields) <==>
      (exists i :: 0 <= i < |fields| && fields[i].id == id && !NoRule(fields[i].ftype))
    decreases |fields|
  {
    if fields != [] {
      var init := fields[..|fields| - 1];
      RuleTableKeys(h, init, id);
      assert forall i :: 0 <= i < |init| ==> init[i] == fields[i];
    }
  }

  /** The rule under an id is the one of the last field with that id that carries a rule. */
  lemma {:induction false} LastRuleWins(h: Host, fields: seq<Field>, i: nat)
    requires i < |fields| && !NoRule(fields[i].ftype)
    requires forall j :: i < j < |fields| && fields[j].id == fields[i].id ==> NoRule(fields[j].ftype)
    ensures fields[i].id in RuleTable(h, fields)
    ensures RuleTable(h, fields)[fields[i].id] == RuleFor(h, fields[i]).value
    decreases |fields|
  {
    if i < |fields| - 1 {
      var init := fields[..|fields| - 1];
      assert init[i] == fields[i];
      assert forall j :: i < j < |init| ==> init[j] == fields[j];
      LastRuleWins(h, init, i);
    }
  }

  /** A form the resolver accepts has a value for every required field that carries the last
      rule under its id. */
  lemma ValidFormHasRequired(h: Host, fields: seq<Field>, values: Record, i: nat)
    requires i < |fields| && !NoRule(fields[i].ftype) && IsRequired(fields[i])
    requires forall j :: i < j < |fields| && fields[j].id == fields[i].id ==> NoRule(fields[j].ftype)
    requires FormValid(h, RuleTable(h, fields), values)
    ensures fields[i].id in values
  {
    LastRuleWins(h, fields, i);
    RequiredRejectsAbsent(h, fields[i]);
  }

  /** A field that is not required lets an absent value through. */
  lemma OptionalAcceptsAbsent(h: Host, f: Field)
    requires !NoRule(f.ftype) && !IsRequired(f)
    ensures Accepts(h, RuleFor(h, f).value, Undef)
  {
  }

  /** A required field rejects an absent value, whatever its kind. */
  lemma RequiredRejectsAbsent(h: Host, f: Field)
    requires !NoRule(f.ftype) && IsRequired(f)
    ensures !Accepts(h, RuleFor(h, f).value, Undef)
  {
    assert ToNumber(h, Undef) == NaN;
  }

  /** A required phone field accepts exactly the strings of the phone pattern. */
  lemma PhoneRuleAccepts(h: Host, f: Field, v: Value)
    requires f.ftype == Phone && IsRequired(f)
    ensures Accepts(h, RuleFor(h, f).value, v) <==> v.Str? && PhoneText(v.s)
  {
  }

  /** The phone pattern, piece by piece: a sign that is empty or a plus, a leading digit and
      the digits after it (a plus with no sign before it is read as the sign). */
  lemma PhoneTextParts(sign: string, lead: char, digits: string)
    requires sign == "+" || (sign == "" && lead != '+')
    ensures PhoneText(sign + [lead] + digits) <==>
      '1' <= lead <= '9' && |digits| <= 15 && forall k :: 0 <= k < |digits| ==> IsDigit(digits[k])
  {
    var s := sign + [lead] + digits;
    var d := [lead] + digits;
    assert PhoneText(s) == PhoneDigits(d) by {
      if sign == "+" { assert s[1..] == d; } else { assert s == d; }
    }
    assert (forall k :: 1 <= k < |d| ==> IsDigit(d[k])) <==> (forall k :: 0 <= k < |digits| ==> IsDigit(digits[k])) by {
      assert forall k :: 0 <= k < |digits| ==> d[k + 1] == digits[k];
      assert forall k :: 1 <= k < |d| ==> d[k] == digits[k - 1];
    }
  }

  /** A string without a leading digit after the sign is no phone number. */
  lemma PhoneTextNeedsDigit(s: string)
    requires s == "" || s == "+"
    ensures !PhoneText(s)
  {
  }

  /** A number field converts the value and checks it against `Number(min)` and `Number(max)`,
      both inclusive; a bound given as a string is converted in the same way. */
  lemma NumberRuleBounds(h: Host, f: Field, v: Value, lo: real, hi: real, x: real)
    requires f.ftype == Numeric && IsRequired(f)
    requires f.min.Some? && BoundNumber(h, f.min.value) == Finite(lo)
    requires f.max.Some? && BoundNumber(h, f.max.value) == Finite(hi)
    requires ToNumber(h, v) == Finite(x)
    ensures Accepts(h, RuleFor(h, f).value, v) <==> lo <= x <= hi
  {
  }

  /** A number field rejects what converts to NaN. */
  lemma NumberRuleRejectsNaN(h: Host, f: Field, v: Value)
    requires f.ftype == Numeric && IsRequired(f)
    requires ToNumber(h, v) == NaN
    ensures !Accepts(h, RuleFor(h, f).value, v)
  {
  }

  /** The kinds that fall to the plain string rule. */
  predicate TextLike(t: FieldType) {
    t.Text? || t.TextArea? || t.Select? || t.Radio? || t.Unknown?
  }

  /** A required text-like field takes strings only, matches a non-empty regex when it has one,
      and bounds the length by min and max only when they are numbers. */
  lemma TextRuleAccepts(h: Host, f: Field, v: Value)
    requires TextLike(f.ftype) && IsRequired(f)
    ensures Accepts(h, RuleFor(h, f).value, v) <==>
      v.Str?
      && (f.regex.Some? && f.regex.value != "" ==> h.regexTest(f.regex.value, v.s))
      && (f.min.Some? && f.min.value.NumberBound? ==> Utf16Length(v.s) as real >= f.min.value.x)
      && (f.max.Some? && f.max.value.NumberBound? ==> Utf16Length(v.s) as real <= f.max.value.x)
  {
  }

  /** A file field that is not required accepts anything; a required one accepts a File or a
      non-empty string and nothing else. */
  lemma FileRuleAccepts(h: Host, f: Field, v: Value)
    requires f.ftype == FileUpload
    ensures !IsRequired(f) ==> Accepts(h, RuleFor(h, f).value, v)
    ensures IsRequired(f) ==> (Accepts(h, RuleFor(h, f).value, v) <==> v.File? || (v.Str? && v.s != ""))
  {
    if v.Str? {
      assert Utf16Length(v.s) > 0 <==> v.s != "" by {
        if v.s != "" { assert Utf16Length(v.s) >= |v.s|; }
      }
    }
  }
}
