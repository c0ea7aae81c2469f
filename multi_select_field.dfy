/**
 * The multi-select control (src/components/FieldControls/MultiSelectField.tsx): one checkbox
 * per option, checked when the field's array holds the option's value; ticking a box appends
 * the value and clearing it filters every occurrence out.
 */
module MultiSelectField {
  import opened Wrappers
  import opened Schema
  import opened Controls

  /** One rendered checkbox: the option's value and text, and whether it is ticked. */
  datatype OptionView = OptionView(value: string, text: string, checked: bool)

  /** `controllerField.value?.includes(v) || false`: an absent array ticks nothing. */
  predicate Checked(current: Option<seq<string>>, v: string) {
    current.Some? && v in current.value
  }

  /** `currentValue.filter(x => x !== v)`. */
  function Remove(xs: seq<string>, v: string): (r: seq<string>)
    ensures v !in r
    ensures forall w :: w != v ==> multiset(r)[w] == multiset(xs)[w]
    ensures |r| <= |xs|
    decreases |xs|
  {
    if xs == [] then []
    else
      var rest := Remove(xs[1..], v);
      assert xs == [xs[0]] + xs[1..];
      if xs[0] == v then rest else [xs[0]] + rest
  }

  /** The new value handed to the form when the box of v is ticked (checked) or cleared;
      an absent array counts as empty. */
  function Toggle(current: Option<seq<string>>, v: string, checked: bool): (r: seq<string>)
    ensures checked ==> Checked(Some(r), v) && multiset(r) == multiset(current.GetOr([])) + multiset{v}
    ensures checked ==> r[..|r| - 1] == current.GetOr([])
    ensures !checked ==> !Checked(Some(r), v)
    ensures !checked ==> forall w :: w != v ==> multiset(r)[w] == multiset(current.GetOr([]))[w]
  {
    var currentValue := current.GetOr([]);
    if checked then currentValue + [v] else Remove(currentValue, v)
  }

  /** The checkboxes, one per option in declared order; no options, no boxes. */
  function Render(f: Field, current: Option<seq<string>>): (r: seq<OptionView>)
    ensures f.options.None? ==> r == []
    ensures f.options.Some? ==> |r| == |f.options.value|
    ensures f.options.Some? ==> forall i :: 0 <= i < |r| ==>
      r[i] == OptionView(f.options.value[i].value, f.options.value[i].text, Checked(current, f.options.value[i].value))
  {
    match f.options
    case None => []
    case Some(opts) =>
      seq(|opts|, i requires 0 <= i < |opts| => OptionView(opts[i].value, opts[i].text, Checked(current, opts[i].value)))
  }

  /** The required rule of the controller: present exactly when the field is required, and
      then naming the field by its label, or by its id when it has none. */
  function RequiredRule(f: Field): (m: Option<string>)
    ensures m.Some? <==> IsRequired(f)
    ensures m.Some? ==> m.value == DisplayName(f) + " is required"
  {
    RequiredMessage(f)
  }

  /** Filtering keeps the order: it distributes over concatenation. */
  lemma {:induction false} RemoveConcat(xs: seq<string>, ys: seq<string>, v: string)
    ensures Remove(xs + ys, v) == Remove(xs, v) + Remove(ys, v)
    decreases |xs|
  {
    if xs != [] {
      assert (xs + ys)[0] == xs[0] && (xs + ys)[1..] == xs[1..] + ys;
      RemoveConcat(xs[1..], ys, v);
      var a, b := Remove(xs[1..], v), Remove(ys, v);
      assert [xs[0]] + (a + b) == [xs[0]] + a + b;
    } else {
      assert xs + ys == ys;
    }
  }

  /** A list without v is kept as it is. */
  lemma {:induction false} RemoveAbsent(xs: seq<string>, v: string)
    requires v !in xs
    ensures Remove(xs, v) == xs
    decreases |xs|
  {
    if xs != [] {
      assert v !in xs[1..];
      RemoveAbsent(xs[1..], v);
      assert xs == [xs[0]] + xs[1..];
    }
  }

  /** After ticking, the box is checked; after clearing, it is not. */
  lemma ToggleChecks(current: Option<seq<string>>, v: string)
    ensures Checked(Some(Toggle(current, v, true)), v)
    ensures !Checked(Some(Toggle(current, v, false)), v)
  {
    assert Toggle(current, v, true)[|current.GetOr([])|] == v;
  }

  /** Ticking and then clearing a value the array did not hold gives the array back. */
  lemma CheckThenUncheck(xs: seq<string>, v: string)
    requires v !in xs
    ensures Toggle(Some(Toggle(Some(xs), v, true)), v, false) == xs
  {
    RemoveConcat(xs, [v], v);
    RemoveAbsent(xs, v);
  }
}
