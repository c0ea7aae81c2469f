/**
 * The schema-driven form (src/components/DynamicForm.tsx): which control each field renders
 * as, the progress bar, and the submit handler that merges the hidden fields into the data
 * and runs the configured after-submit actions in order.
 */
module DynamicForm {
  import opened Wrappers
  import opened Js
  import opened Schema
  import Eval

  // ---------------------------------------------------------------------------
  // Rendering
  // ---------------------------------------------------------------------------

  /** The control `renderField` dispatches a field type to. */
  datatype ControlKind =
    | TextControl | NumberControl | SelectControl | RadioControl | CheckboxControl
    | MultiSelectControl | DateControl | FileControl | InfoControl | HiddenInput

  /** The `switch (field.type)` of `renderField`; an unknown type renders nothing. */
  function ControlFor(t: FieldType): (k: Option<ControlKind>)
    ensures k.None? <==> t.Unknown?
    ensures k == Some(TextControl) <==> t.Text? || t.TextArea? || t.Email? || t.Phone?
    ensures k == Some(InfoControl) <==> t == Info || t == Divider
    ensures k == Some(HiddenInput) <==> t == Hidden
  {
    match t
    case Text | TextArea | Email | Phone => Some(TextControl)
    case Numeric => Some(NumberControl)
    case Select => Some(SelectControl)
    case Radio => Some(RadioControl)
    case Checkbox => Some(CheckboxControl)
    case MultiSelect => Some(MultiSelectControl)
    case Date => Some(DateControl)
    case FileUpload => Some(FileControl)
    case Info | Divider => Some(InfoControl)
    case Hidden => Some(HiddenInput)
    case Unknown(_) => None
  }

  /** `field.showWhen && !shouldShowField(field.showWhen, watchedValues)`. */
  predicate HiddenByCondition(h: Host, f: Field, values: Record) {
    f.showWhen.Some? && f.showWhen.value != "" && !Eval.ShouldShowField(h, f.showWhen, values)
  }

  /** What `renderField` returns for one field: nothing, or the control it renders. */
  function RenderField(h: Host, f: Field, values: Record): (k: Option<ControlKind>)
    ensures k.Some? <==> !HiddenByCondition(h, f, values) && !f.ftype.Unknown?
    ensures k.Some? ==> k == ControlFor(f.ftype)
  {
    if HiddenByCondition(h, f, values) then None else ControlFor(f.ftype)
  }

  /** `schema.fields.map(renderField)`, the nulls dropped: the id and control of each
      rendered field, in declared order. */
  function RenderedFields(h: Host, fields: seq<Field>, values: Record): seq<(string, ControlKind)> {
    if fields == [] then [] else Output(h, fields[0], values) + RenderedFields(h, fields[1..], values)
  }

  /** What one field adds to the rendered form. */
  function Output(h: Host, f: Field, values: Record): seq<(string, ControlKind)> {
    var k := RenderField(h, f, values);
    if k.Some? then [(f.id, k.value)] else []
  }

  /** Rendering a list of fields is rendering each part in turn: the controls keep the
      order of the fields. */
  lemma {:induction false} RenderedFieldsConcat(h: Host, a: seq<Field>, b: seq<Field>, values: Record)
    ensures RenderedFields(h, a + b, values) == RenderedFields(h, a, values) + RenderedFields(h, b, values)
  {
    if a == [] {
      assert a + b == b;
    } else {
      assert (a + b)[0] == a[0] && (a + b)[1..] == a[1..] + b;
      var head := Output(h, a[0], values);
      RenderedFieldsConcat(h, a[1..], b, values);
      assert head + (RenderedFields(h, a[1..], values) + RenderedFields(h, b, values))
        == (head + RenderedFields(h, a[1..], values)) + RenderedFields(h, b, values);
    }
  }

  /** One field renders as its control, or as nothing when its condition fails or its type
      is unknown. */
  lemma RenderedOne(h: Host, f: Field, values: Record)
    ensures RenderField(h, f, values).None? ==> RenderedFields(h, [f], values) == []
    ensures RenderField(h, f, values).Some? ==>
      RenderedFields(h, [f], values) == [(f.id, ControlFor(f.ftype).value)]
  {
    assert [f][1..] == [];
  }

  /** Wherever a field sits, it contributes to the rendered form exactly what it renders on
      its own, between what the fields before and after it render. */
  lemma RenderedField(h: Host, a: seq<Field>, f: Field, b: seq<Field>, values: Record)
    ensures RenderedFields(h, a + [f] + b, values)
      == RenderedFields(h, a, values) + RenderedFields(h, [f], values) + RenderedFields(h, b, values)
  {
    RenderedFieldsConcat(h, a + [f], b, values);
    RenderedFieldsConcat(h, a, [f], values);
  }

  // ---------------------------------------------------------------------------
  // Progress
  // ---------------------------------------------------------------------------

  /** The filter of `visibleFields`: not a hidden, info or divider field, and no condition
      or a condition that holds. */
  predicate Counted(h: Host, f: Field, values: Record) {
    !NoRule(f.ftype) && (f.showWhen.None? || f.showWhen.value == "" || Eval.ShouldShowField(h, f.showWhen, values))
  }

  /** `visibleFields`. */
  function VisibleFields(h: Host, fields: seq<Field>, values: Record): (r: seq<Field>)
    ensures |r| <= |fields|
    ensures forall f :: f in r <==> f in fields && Counted(h, f, values)
  {
    if fields == [] then []
    else (if Counted(h, fields[0], values) then [fields[0]] else []) + VisibleFields(h, fields[1..], values)
  }

  /** The filter of `completedFields`: a value that is not undefined, `''` or null. */
  predicate Completed(v: Value) {
    v != Undef && v != Str("") && v != Null
  }

  /** `completedFields`: the visible fields whose watched value is filled in. */
  function CompletedFields(visible: seq<Field>, values: Record): (r: seq<Field>)
    ensures |r| <= |visible|
    ensures forall f :: f in r <==> f in visible && Completed(Get(values, f.id))
    ensures |r| == |visible| <==> forall i :: 0 <= i < |visible| ==> Completed(Get(values, visible[i].id))
  {
    if visible == [] then []
    else
      var rest := CompletedFields(visible[1..], values);
      assert forall i :: 1 <= i < |visible| ==> visible[i] == visible[1..][i - 1];
      (if Completed(Get(values, visible[0].id)) then [visible[0]] else []) + rest
  }

  /** `progress`: the percentage of visible fields that are completed, 0 with none. */
  function Progress(h: Host, fields: seq<Field>, values: Record): real {
    var visible := VisibleFields(h, fields, values);
    var completed := CompletedFields(visible, values);
    if |visible| > 0 then (|completed| as real / |visible| as real) * 100.0 else 0.0
  }

  /** The progress bar never leaves 0..100: 100 exactly when there is a visible field and
      every visible field is completed, 0 when no field is visible. */
  lemma ProgressBounds(h: Host, fields: seq<Field>, values: Record)
    ensures 0.0 <= Progress(h, fields, values) <= 100.0
    ensures var visible := VisibleFields(h, fields, values);
      Progress(h, fields, values) == 100.0 <==>
        |visible| > 0 && forall i :: 0 <= i < |visible| ==> Completed(Get(values, visible[i].id))
    ensures VisibleFields(h, fields, values) == [] ==> Progress(h, fields, values) == 0.0
  {
    var visible := VisibleFields(h, fields, values);
    var completed := CompletedFields(visible, values);
    if |visible| > 0 {
      Percentage(|completed| as real, |visible| as real);
    }
  }

  /** The percentage of a part in a positive whole lies in 0..100, reaching 100 only when the
      part is the whole. */
  lemma Percentage(c: real, v: real)
    requires 0.0 <= c <= v && v > 0.0
    ensures 0.0 <= (c / v) * 100.0 <= 100.0
    ensures (c / v) * 100.0 == 100.0 <==> c == v
  {
    var q := c / v;
    assert q * v == c;
  }

  /** A field of an unknown type renders nothing, yet counts toward the progress bar, so a
      schema with one can never reach 100% until a value appears under its id. */
  lemma UnknownFieldStillCounted(h: Host, f: Field, values: Record)
    requires f.ftype.Unknown? && f.showWhen.None?
    ensures RenderField(h, f, values).None?
    ensures VisibleFields(h, [f], values) == [f]
    ensures Get(values, f.id) == Undef ==> Progress(h, [f], values) == 0.0
  {
  }

  // ---------------------------------------------------------------------------
  // Submission
  // ---------------------------------------------------------------------------

  /** What submitting causes outside the form, in order. */
  datatype Effect =
    | StoreSubmission(record: Record)   // storeFormSubmission(record)
    | NavigateTo(path: string)          // router.push, 100 ms later
    | CallOnSubmit(record: Record)      // the onSubmit prop
    | Toast(success: bool, message: string)

  /** The onSubmit prop: absent, or present and either returning or throwing. */
  datatype Handler = NoHandler | Handler(throws: bool)

  /** The key the localStore action adds to the stored record. */
  const StoredKey: string := "_stored_key"

  /** `{...data, ...hiddenFields}`: every key of either, a hidden field winning. */
  function Merge(data: Record, hiddenFields: Record): (r: Record)
    ensures r.Keys == data.Keys + hiddenFields.Keys
    ensures forall k :: k in hiddenFields ==> r[k] == hiddenFields[k]
    ensures forall k :: k in data && k !in hiddenFields ==> r[k] == data[k]
  {
    data + hiddenFields
  }

  /** The effects of one after-submit action on the merged record. */
  function ActionEffect(a: Action, record: Record): (e: seq<Effect>)
    ensures a.atype == WhatsApp ==> e == []
    ensures a.atype == Webhook ==> e == [Toast(false, "Webhook not implemented in demo")]
    ensures a.atype == LocalStore ==>
      (e != [] <==> a.key.Some? && a.key.value != "")
      && (e != [] ==> e == [StoreSubmission(record[StoredKey := Str(a.key.value)])])
    ensures a.atype == Navigate ==>
      (e != [] <==> a.to.Some? && a.to.value != "")
      && (e != [] ==> e == [NavigateTo(a.to.value)])
  {
    match a.atype
    case LocalStore =>
      if a.key.Some? && a.key.value != "" then [StoreSubmission(record[StoredKey := Str(a.key.value)])] else []
    case Navigate => if a.to.Some? && a.to.value != "" then [NavigateTo(a.to.value)] else []
    case Webhook => [Toast(false, "Webhook not implemented in demo")]
    case WhatsApp => []
  }

  /** The effects of a list of actions, each in turn. */
  function ActionEffects(actions: seq<Action>, record: Record): seq<Effect> {
    if actions == [] then []
    else ActionEffects(actions[..|actions| - 1], record) + ActionEffect(actions[|actions| - 1], record)
  }

  /** Actions run in declared order: the effects of a list are those of its parts, in turn. */
  lemma {:induction false} ActionEffectsConcat(a: seq<Action>, b: seq<Action>, record: Record)
    ensures ActionEffects(a + b, record) == ActionEffects(a, record) + ActionEffects(b, record)
    decreases |b|
  {
    if b == [] {
      assert a + b == a;
    } else {
      var b' := b[..|b| - 1];
      assert (a + b)[..|a + b| - 1] == a + b';
      assert (a + b)[|a + b| - 1] == b[|b| - 1];
      ActionEffectsConcat(a, b', record);
    }
  }

  /** Every record the actions store is the merged record with `_stored_key` added; no
      other key differs. */
  lemma StoredRecords(actions: seq<Action>, record: Record, i: nat)
    requires i < |actions| && actions[i].atype == LocalStore && actions[i].key.Some? && actions[i].key.value != ""
    ensures var s := record[StoredKey := Str(actions[i].key.value)];
      StoreSubmission(s) in ActionEffects(actions, record)
      && s.Keys == record.Keys + {StoredKey}
      && forall k :: k in record && k != StoredKey ==> s[k] == record[k]
  {
    assert actions == actions[..i] + [actions[i]] + actions[i + 1..];
    ActionEffectsConcat(actions[..i] + [actions[i]], actions[i + 1..], record);
    ActionEffectsConcat(actions[..i], [actions[i]], record);
    assert [actions[i]][..0] == [];
  }

  /** The whole outcome of `handleFormSubmit`: the actions' effects on the merged record,
      then onSubmit with it, then the success toast, or the failure toast if onSubmit threw. */
  function SubmitEffects(schema: FormSchema, data: Record, hiddenFields: Record, onSubmit: Handler): seq<Effect> {
    var record := Merge(data, hiddenFields);
    var actions := if schema.afterSubmit.Some? then schema.afterSubmit.value.actions else [];
    ActionEffects(actions, record)
      + (if onSubmit.Handler? then [CallOnSubmit(record)] else [])
      + [if onSubmit.Handler? && onSubmit.throws then Toast(false, "Failed to submit form")
         else Toast(true, "Form submitted successfully!")]
  }

  /** A submission ends with exactly one toast, after every action and after onSubmit, which
      sees the merged record; it reports failure only when onSubmit threw. */
  lemma SubmitOrder(schema: FormSchema, data: Record, hiddenFields: Record, onSubmit: Handler)
    ensures var e := SubmitEffects(schema, data, hiddenFields, onSubmit);
      var actions := if schema.afterSubmit.Some? then schema.afterSubmit.value.actions else [];
      var before := ActionEffects(actions, Merge(data, hiddenFields));
      |e| > |before| && e[..|before|] == before
      && e[|e| - 1].Toast? && (e[|e| - 1].success <==> !(onSubmit.Handler? && onSubmit.throws))
      && (onSubmit.Handler? ==> e[|e| - 2] == CallOnSubmit(Merge(data, hiddenFields)))
  {
  }

  /** The submit button: disabled while submitting or while the form is invalid. */
  function SubmitButton(isSubmitting: bool, isValid: bool): (b: (string, bool))
    ensures b.1 <==> isSubmitting || !isValid
    ensures b.0 == (if isSubmitting then "Submitting..." else "Continue")
  {
    (if isSubmitting then "Submitting..." else "Continue", isSubmitting || !isValid)
  }

  /** The form's own state. */
  class FormState {
    var isSubmitting: bool

    constructor()
      ensures !isSubmitting
    {
      isSubmitting := false;
    }

    /** `handleFormSubmit(data)`: the flag is raised, the hidden fields merged and the
        configured inject list re-applied, the actions run, onSubmit called and a toast
        shown; the flag is lowered on every path. */
    method HandleFormSubmit(schema: FormSchema, data: Record, hiddenFields: Record, onSubmit: Handler)
      returns (effects: seq<Effect>)
      modifies this
      ensures !isSubmitting
      ensures effects == SubmitEffects(schema, data, hiddenFields, onSubmit)
    {
      isSubmitting := true;
      var submissionData := data + hiddenFields;
      if schema.hidden.Some? {
        var inject := schema.hidden.value.inject;
        for i := 0 to |inject|
          invariant submissionData == Merge(data, hiddenFields)
        {
          var fieldName := inject[i];
          if Truthy(Get(hiddenFields, fieldName)) {
            assert fieldName in hiddenFields;
            submissionData := submissionData[fieldName := hiddenFields[fieldName]];
          }
        }
      }
      effects := [];
      var actions := if schema.afterSubmit.Some? then schema.afterSubmit.value.actions else [];
      for i := 0 to |actions|
        invariant effects == ActionEffects(actions[..i], submissionData)
      {
        var action := actions[i];
        match action.atype {
          case LocalStore =>
            if action.key.Some? && action.key.value != "" {
              effects := effects + [StoreSubmission(submissionData[StoredKey := Str(action.key.value)])];
            }
          case Navigate =>
            if action.to.Some? && action.to.value != "" {
              effects := effects + [NavigateTo(action.to.value)];
            }
          case Webhook =>
            effects := effects + [Toast(false, "Webhook not implemented in demo")];
          case WhatsApp =>
        }
        assert actions[..i + 1][..i] == actions[..i];
      }
      assert actions[..|actions|] == actions;
      if onSubmit.Handler? {
        effects := effects + [CallOnSubmit(submissionData)];
      }
      if onSubmit.Handler? && onSubmit.throws {
        effects := effects + [Toast(false, "Failed to submit form")];
      } else {
        effects := effects + [Toast(true, "Form submitted successfully!")];
      }
      isSubmitting := false;
    }
  }
}
