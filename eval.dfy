/**
 * The showWhen expression language: a single comparison `field op literal`, or several
 * joined by `&&`, evaluated against the current form values. Parsing follows the regular
 * expression the evaluator matches with, `^\s*(\w+)\s*(==|!=|>=|<=|>|<)\s*(.+?)\s*$`,
 * including its backtracking; anything it does not match is shown (fail-open).
 */
module Eval {
  import opened Wrappers
  import opened Js

  datatype Op = Eq | Ne | Ge | Le | Gt | Lt

  function OpText(op: Op): string {
    match op
    case Eq => "=="
    case Ne => "!="
    case Ge => ">="
    case Le => "<="
    case Gt => ">"
    case Lt => "<"
  }

  /** The operator alternatives in the order the pattern tries them. */
  const OpOrder: seq<Op> := [Eq, Ne, Ge, Le, Gt, Lt]

  /** What the basic pattern captures: the field name, the operator and the literal text. */
  datatype Condition = Condition(field: string, op: Op, literal: string)

  // ---------------------------------------------------------------------------
  // Scanning

  /** The end of the run of `\w` characters that starts at i. */
  function SkipWord(s: string, i: nat): (j: nat)
    requires i <= |s|
    ensures i <= j <= |s|
    ensures forall k :: i <= k < j ==> IsWordChar(s[k])
    ensures j == |s| || !IsWordChar(s[j])
    decreases |s| - i
  {
    if i == |s| || !IsWordChar(s[i]) then i else SkipWord(s, i + 1)
  }

  /** The end of the run of `\s` characters that starts at i. */
  function SkipSpace(s: string, i: nat): (j: nat)
    requires i <= |s|
    ensures i <= j <= |s|
    ensures forall k :: i <= k < j ==> IsWhitespace(s[k])
    ensures j == |s| || !IsWhitespace(s[j])
    decreases |s| - i
  {
    if i == |s| || !IsWhitespace(s[i]) then i else SkipSpace(s, i + 1)
  }

  /** The last character of an all-white-space text that `.` can match. */
  function LastMatchable(t: string): (r: Option<char>)
    ensures r.Some? ==> r.value in t && !IsLineTerminator(r.value)
    ensures r.None? <==> (forall k :: 0 <= k < |t| ==> IsLineTerminator(t[k]))
  {
    if t == [] then None
    else if !IsLineTerminator(t[|t| - 1]) then Some(t[|t| - 1])
    else
      var r := LastMatchable(t[..|t| - 1]);
      assert forall k :: 0 <= k < |t| - 1 ==> t[..|t| - 1][k] == t[k];
      r
  }

  /**
   * What `\s*(.+?)\s*$` captures of the text t after the operator. When t has a
   * non-white-space character the lazy group takes t trimmed, and fails if that
   * contains a line terminator (`.` does not match one). When t is all white space
   * the leading `\s*` gives back characters from its end until the group can take one
   * that is not a line terminator: the literal is that single character.
   */
  function LiteralOf(t: string): (r: Option<string>)
    ensures r.Some? ==> |r.value| > 0 && NoLineTerminator(r.value)
    ensures !AllWhitespace(t) ==> r == (if NoLineTerminator(Trim(t)) then Some(Trim(t)) else None)
  {
    TrimFacts(t);
    var core := Trim(t);
    if core != [] then
      if NoLineTerminator(core) then Some(core) else None
    else
      match LastMatchable(t)
      case Some(c) => Some([c])
      case None => None
  }

  /** Tries the operator alternatives ops in order at the start of u, each with the literal after it. */
  function MatchOperator(u: string, ops: seq<Op>): (m: Option<(Op, string)>)
    ensures m.Some? ==> m.value.0 in ops && StartsWith(u, OpText(m.value.0))
    ensures m.Some? ==> |m.value.1| > 0 && NoLineTerminator(m.value.1)
  {
    if ops == [] then None
    else
      var text := OpText(ops[0]);
      if StartsWith(u, text) then
        match LiteralOf(u[|text|..])
        case Some(lit) => Some((ops[0], lit))
        case None => MatchOperator(u, ops[1..])
      else MatchOperator(u, ops[1..])
  }

  /**
   * The basic pattern. `^\s*` must take every leading white-space character and `(\w+)`
   * then the whole word (any shorter choice leaves a word or space character where the
   * operator must start), and likewise the `\s*` before the operator; only the operator
   * alternatives and the literal can backtrack.
   */
  function MatchBasic(s: string): (m: Option<Condition>)
    ensures m.Some? ==> |m.value.field| > 0 && (forall k :: 0 <= k < |m.value.field| ==> IsWordChar(m.value.field[k]))
    ensures m.Some? ==> m.value.field == s[SkipSpace(s, 0)..SkipWord(s, SkipSpace(s, 0))]
    ensures m.Some? ==> |m.value.literal| > 0 && NoLineTerminator(m.value.literal)
  {
    var p := SkipSpace(s, 0);
    var q := SkipWord(s, p);
    if q == p then None
    else
      var r := SkipSpace(s, q);
      match MatchOperator(s[r..], OpOrder)
      case None => None
      case Some((op, lit)) => Some(Condition(s[p..q], op, lit))
  }

  /** TrimStart drops exactly the leading run SkipSpace finds. */
  lemma TrimStartIsSkip(s: string)
    ensures TrimStart(s) == s[SkipSpace(s, 0)..]
  {
    var p := SkipSpace(s, 0);
    var u := TrimStart(s);
    TrimStartFacts(s);
    var d := |s| - |u|;
    assert d <= p by {
      assert d < |s| ==> !IsWhitespace(s[d]) by {
        assert d < |s| ==> u[0] == s[d];
      }
    }
    assert p <= d by {
      assert p < |s| ==> !IsWhitespace(s[p]);
      assert forall k :: 0 <= k < d ==> IsWhitespace(s[k]) by {
        assert forall k :: 0 <= k < d ==> s[..d][k] == s[k];
      }
    }
  }

  // ---------------------------------------------------------------------------
  // Literals and comparison

  predicate IsQuoted(text: string) {
    (StartsWith(text, "\"") && EndsWith(text, "\"")) || (StartsWith(text, "'") && EndsWith(text, "'"))
  }

  /** `text.slice(1, -1)`. */
  function Unquote(text: string): (r: string)
    ensures |text| >= 2 ==> r == text[1..|text| - 1]
    ensures |text| < 2 ==> r == ""
  {
    if |text| >= 2 then text[1..|text| - 1] else ""
  }

  /**
   * The comparison value of a literal, classified in the source's order: quoted string,
   * then anything Number() does not turn into NaN, then the four keywords, then the raw text.
   */
  function ParseLiteral(h: Host, text: string): (v: Value)
    ensures IsPrimitive(v)
    ensures IsQuoted(text) ==> v == Str(Unquote(text))
    ensures !IsQuoted(text) && h.stringToNumber(text) != NaN ==> v == Num(h.stringToNumber(text))
    ensures !IsQuoted(text) && h.stringToNumber(text) == NaN ==>
      v == (if text == "true" then Bool(true)
            else if text == "false" then Bool(false)
            else if text == "null" then Null
            else if text == "undefined" then Undef
            else Str(text))
  {
    if IsQuoted(text) then Str(Unquote(text))
    else if h.stringToNumber(text) != NaN then Num(h.stringToNumber(text))
    else if text == "true" then Bool(true)
    else if text == "false" then Bool(false)
    else if text == "null" then Null
    else if text == "undefined" then Undef
    else Str(text)
  }

  /** The operator applied to the field's value and the comparison value. */
  function Compare(h: Host, fieldValue: Value, op: Op, compareValue: Value): bool
    requires IsPrimitive(compareValue)
  {
    match op
    case Eq => LooselyEqual(h, fieldValue, compareValue)
    case Ne => !LooselyEqual(h, fieldValue, compareValue)
    case Gt => Greater(ToNumber(h, fieldValue), ToNumber(h, compareValue))
    case Lt => Less(ToNumber(h, fieldValue), ToNumber(h, compareValue))
    case Ge => GreaterOrEqual(ToNumber(h, fieldValue), ToNumber(h, compareValue))
    case Le => LessOrEqual(ToNumber(h, fieldValue), ToNumber(h, compareValue))
  }

  /** The meaning of a parsed condition under the given values. */
  predicate Holds(h: Host, c: Condition, values: Record) {
    Compare(h, Get(values, c.field), c.op, ParseLiteral(h, c.literal))
  }

  // ---------------------------------------------------------------------------
  // The three evaluation entry points

  /** evaluateShowWhen: blank is true, an unmatched expression is true, otherwise the comparison. */
  predicate EvaluateShowWhen(h: Host, expression: string, values: Record) {
    if Trim(expression) == [] then true
    else
      match MatchBasic(expression)
      case None => true
      case Some(c) => Holds(h, c, values)
  }

  /** evaluateComplexShowWhen: every trimmed `&&` piece must evaluate to true. */
  predicate EvaluateComplexShowWhen(h: Host, expression: string, values: Record) {
    if Trim(expression) == [] then true
    else
      var conditions := TrimAll(SplitAnd(expression));
      forall i :: 0 <= i < |conditions| ==> EvaluateShowWhen(h, conditions[i], values)
  }

  /** shouldShowField: no or empty showWhen shows the field; an expression with `&&` takes the AND path. */
  predicate ShouldShowField(h: Host, showWhen: Option<string>, values: Record) {
    match showWhen
    case None => true
    case Some(e) =>
      if e == "" then true
      else if Contains(e, AndToken) then EvaluateComplexShowWhen(h, e, values)
      else EvaluateShowWhen(h, e, values)
  }

  // ---------------------------------------------------------------------------
  // Fail-open and blank expressions

  /** A blank expression constrains nothing, in all three entry points. */
  lemma BlankShows(h: Host, e: string, values: Record)
    requires AllWhitespace(e)
    ensures EvaluateShowWhen(h, e, values)
    ensures EvaluateComplexShowWhen(h, e, values)
    ensures ShouldShowField(h, Some(e), values)
  {
    TrimFacts(e);
    if e != "" && Contains(e, AndToken) {
      assert EvaluateComplexShowWhen(h, e, values);
    }
  }

  /** A non-blank condition the pattern rejects fails open: the field is shown whatever the values. */
  lemma UnmatchedFailsOpen(h: Host, e: string, values: Record)
    requires MatchBasic(e).None?
    ensures EvaluateShowWhen(h, e, values)
  {
  }

  /**
   * An ordering comparison against a field that has no value is false: undefined converts
   * to NaN. This is not the fail-open case, the field is hidden.
   */
  lemma AbsentFieldOrdersFalse(h: Host, e: string, values: Record)
    requires MatchBasic(e).Some?
    requires MatchBasic(e).value.op in {Gt, Lt, Ge, Le}
    requires MatchBasic(e).value.field !in values
    ensures !EvaluateShowWhen(h, e, values)
  {
    MatchedIsNotBlank(e);
    AbsentFieldFails(h, MatchBasic(e).value, values);
  }

  /** A text the basic pattern matches is not blank. */
  lemma MatchedIsNotBlank(e: string)
    requires MatchBasic(e).Some?
    ensures Trim(e) != []
  {
    var p := SkipSpace(e, 0);
    assert !IsWhitespace(e[p]);
    TrimFacts(e);
  }

  /** An ordering condition on a field without a value does not hold. */
  lemma AbsentFieldFails(h: Host, c: Condition, values: Record)
    requires c.op in {Gt, Lt, Ge, Le}
    requires c.field !in values
    ensures !Holds(h, c, values)
  {
    NaNOrdersNothing(ToNumber(h, Get(values, c.field)), ToNumber(h, ParseLiteral(h, c.literal)));
  }

  /** `!=` always evaluates to the opposite of `==` on the same field and literal. */
  lemma NotEqualIsNegation(h: Host, field: string, literal: string, values: Record)
    ensures Holds(h, Condition(field, Ne, literal), values) == !Holds(h, Condition(field, Eq, literal), values)
  {
  }

  // ---------------------------------------------------------------------------
  // Rendering a condition and parsing it back

  predicate IsWord(s: string) {
    |s| > 0 && forall k :: 0 <= k < |s| ==> IsWordChar(s[k])
  }

  /** No two adjacent ampersands. */
  predicate NoAnd(s: string) {
    forall k :: 0 <= k < |s| - 1 ==> !(s[k] == '&' && s[k + 1] == '&')
  }

  /** A condition that text can express: a word as field name and a literal with no line
      terminator that neither starts nor ends with white space. */
  predicate WellFormed(c: Condition) {
    && IsWord(c.field)
    && |c.literal| > 0
    && NoLineTerminator(c.literal)
    && !IsWhitespace(c.literal[0])
    && !IsWhitespace(c.literal[|c.literal| - 1])
  }

  /** The condition written with one space around its operator. */
  function Render(c: Condition): string {
    c.field + " " + OpText(c.op) + " " + c.literal
  }

  lemma SkipWordTo(s: string, i: nat, j: nat)
    requires i <= j <= |s|
    requires forall k :: i <= k < j ==> IsWordChar(s[k])
    requires j == |s| || !IsWordChar(s[j])
    ensures SkipWord(s, i) == j
    decreases j - i
  {
    if i < j { SkipWordTo(s, i + 1, j); }
  }

  lemma SkipSpaceTo(s: string, i: nat, j: nat)
    requires i <= j <= |s|
    requires forall k :: i <= k < j ==> IsWhitespace(s[k])
    requires j == |s| || !IsWhitespace(s[j])
    ensures SkipSpace(s, i) == j
    decreases j - i
  {
    if i < j { SkipSpaceTo(s, i + 1, j); }
  }

  /** TrimStart removes exactly a white-space prefix in front of a non-white-space character. */
  lemma TrimStartPadded(w: string, y: string)
    requires AllWhitespace(w)
    requires |y| > 0 && !IsWhitespace(y[0])
    ensures TrimStart(w + y) == y
  {
    var s := w + y;
    var r := TrimStart(s);
    TrimStartFacts(s);
    var d := |s| - |r|;
    assert forall k :: 0 <= k < d ==> IsWhitespace(s[k]) by {
      assert forall k :: 0 <= k < d ==> s[..d][k] == s[k];
    }
    assert s[|w|] == y[0];
    assert d <= |w|;
    assert r[0] == s[d];
    assert forall k :: 0 <= k < |w| ==> s[k] == w[k];
    assert d == |w|;
    assert s[|w|..] == y;
  }

  /** TrimEnd removes exactly a white-space suffix behind a non-white-space character. */
  lemma TrimEndPadded(y: string, w: string)
    requires AllWhitespace(w)
    requires |y| > 0 && !IsWhitespace(y[|y| - 1])
    ensures TrimEnd(y + w) == y
  {
    var s := y + w;
    var r := TrimEnd(s);
    TrimEndFacts(s);
    var d := |r|;
    assert forall k :: d <= k < |s| ==> IsWhitespace(s[k]) by {
      assert forall k :: d <= k < |s| ==> s[d..][k - d] == s[k];
    }
    assert s[|y| - 1] == y[|y| - 1];
    assert d >= |y|;
    assert r[d - 1] == s[d - 1];
    assert forall k :: |y| <= k < |s| ==> s[k] == w[k - |y|];
    assert d == |y|;
    assert s[..|y|] == y;
  }

  /** White space around a text whose ends are not white space is exactly what trim removes. */
  lemma TrimPadded(w1: string, x: string, w2: string)
    requires AllWhitespace(w1) && AllWhitespace(w2)
    requires |x| > 0 && !IsWhitespace(x[0]) && !IsWhitespace(x[|x| - 1])
    ensures Trim(w1 + x + w2) == x
  {
    TrimStartPadded(w1, x + w2);
    assert w1 + x + w2 == w1 + (x + w2);
    TrimEndPadded(x, w2);
  }

  /** White space in front of a text whose ends are not white space is exactly what trim removes. */
  lemma TrimLeftPadded(w: string, x: string)
    requires AllWhitespace(w)
    requires |x| > 0 && !IsWhitespace(x[0]) && !IsWhitespace(x[|x| - 1])
    ensures Trim(w + x) == x
  {
    TrimStartPadded(w, x);
  }

  lemma Associative(w: string, a: string, b: string, c: string)
    ensures w + (a + b + c) == w + a + b + c
  {
  }

  /** The literal after an operator and one space is read back unchanged. */
  lemma LiteralAfterSpace(lit: string)
    requires |lit| > 0 && NoLineTerminator(lit) && !IsWhitespace(lit[0]) && !IsWhitespace(lit[|lit| - 1])
    ensures LiteralOf(" " + lit) == Some(lit)
  {
    TrimLeftPadded(" ", lit);
    assert (" " + lit)[1] == lit[0];
  }

  /** An alternative whose text does not start u is passed over. */
  lemma OperatorSkips(u: string, ops: seq<Op>)
    requires ops != [] && |u| >= 2
    requires u[0] != OpText(ops[0])[0] || (|OpText(ops[0])| == 2 && u[1] != OpText(ops[0])[1])
    ensures MatchOperator(u, ops) == MatchOperator(u, ops[1..])
  {
    var t := OpText(ops[0]);
    assert u[..|t|][0] == u[0];
    assert |t| == 2 ==> u[..|t|][1] == u[1];
  }

  /** The first alternative is taken when its text starts u and a literal follows it. */
  lemma OperatorHits(u: string, ops: seq<Op>, lit: string)
    requires ops != [] && StartsWith(u, OpText(ops[0]))
    requires LiteralOf(u[|OpText(ops[0])|..]) == Some(lit)
    ensures MatchOperator(u, ops) == Some((ops[0], lit))
  {
  }

  /** The literal after the operator text t and one space is read back unchanged. */
  lemma LiteralAfterOperator(t: string, lit: string)
    requires |lit| > 0 && NoLineTerminator(lit) && !IsWhitespace(lit[0]) && !IsWhitespace(lit[|lit| - 1])
    ensures LiteralOf((t + " " + lit)[|t|..]) == Some(lit)
  {
    LiteralAfterSpace(lit);
    DropRendered(t, lit);
  }

  lemma DropRendered(t: string, lit: string)
    ensures (t + " " + lit)[|t|..] == " " + lit
  {
    assert t + " " + lit == t + (" " + lit);
  }

  /** The characters the alternatives look at in a rendered operator. */
  lemma RenderedOperatorText(op: Op, lit: string)
    ensures var u := OpText(op) + " " + lit;
      && |u| >= 2
      && StartsWith(u, OpText(op))
      && u[0] == OpText(op)[0]
      && u[1] == if |OpText(op)| == 1 then ' ' else OpText(op)[1]
  {
    var t := OpText(op);
    assert (t + " " + lit)[..|t|] == t;
  }

  /** The operator alternatives, tried on a rendered operator and literal, pick that operator. */
  lemma OperatorRendered(op: Op, lit: string)
    requires |lit| > 0 && NoLineTerminator(lit) && !IsWhitespace(lit[0]) && !IsWhitespace(lit[|lit| - 1])
    ensures MatchOperator(OpText(op) + " " + lit, OpOrder) == Some((op, lit))
  {
    var t := OpText(op);
    var u := t + " " + lit;
    RenderedOperatorText(op, lit);
    LiteralAfterOperator(t, lit);
    var o1 := OpOrder[1..];
    var o2 := o1[1..];
    var o3 := o2[1..];
    var o4 := o3[1..];
    var o5 := o4[1..];
    assert o1 == [Ne, Ge, Le, Gt, Lt] && o2 == [Ge, Le, Gt, Lt] && o3 == [Le, Gt, Lt] && o4 == [Gt, Lt] && o5 == [Lt];
    match op
    case Eq =>
      OperatorHits(u, OpOrder, lit);
    case Ne =>
      OperatorSkips(u, OpOrder);
      OperatorHits(u, o1, lit);
    case Ge =>
      OperatorSkips(u, OpOrder);
      OperatorSkips(u, o1);
      OperatorHits(u, o2, lit);
    case Le =>
      OperatorSkips(u, OpOrder);
      OperatorSkips(u, o1);
      OperatorSkips(u, o2);
      OperatorHits(u, o3, lit);
    case Gt =>
      OperatorSkips(u, OpOrder);
      OperatorSkips(u, o1);
      OperatorSkips(u, o2);
      OperatorSkips(u, o3);
      OperatorHits(u, o4, lit);
    case Lt =>
      OperatorSkips(u, OpOrder);
      OperatorSkips(u, o1);
      OperatorSkips(u, o2);
      OperatorSkips(u, o3);
      OperatorSkips(u, o4);
      OperatorHits(u, o5, lit);
  }

  /** Parsing a rendered well-formed condition gives the condition back. */
  lemma ParseRender(c: Condition)
    requires WellFormed(c)
    ensures MatchBasic(Render(c)) == Some(c)
  {
    var s := Render(c);
    var n := |c.field|;
    assert s[0] == c.field[0];
    SkipSpaceTo(s, 0, 0);
    SkipWordTo(s, 0, n);
    SkipSpaceTo(s, n, n + 1);
    assert s[n + 1..] == OpText(c.op) + " " + c.literal;
    OperatorRendered(c.op, c.literal);
    assert s[..n] == c.field;
  }

  /** A rendered condition evaluates to its meaning. */
  lemma EvaluateRendered(h: Host, c: Condition, values: Record)
    requires WellFormed(c)
    ensures EvaluateShowWhen(h, Render(c), values) == Holds(h, c, values)
  {
    ParseRender(c);
    MatchedIsNotBlank(Render(c));
  }

  // ---------------------------------------------------------------------------
  // Conjunctions

  /** A first condition and the ones after it, rendered and joined by " && ". */
  function RenderAll(c: Condition, rest: seq<Condition>): string
    decreases |rest|
  {
    if rest == [] then Render(c) else Render(c) + " && " + RenderAll(rest[0], rest[1..])
  }

  /** A condition that a conjunction can carry: well formed, and no "&&" inside its literal. */
  predicate Conjunct(c: Condition) {
    WellFormed(c) && NoAnd(c.literal)
  }

  lemma NoAndConcat(a: string, b: string)
    requires NoAnd(a) && NoAnd(b)
    requires a == [] || b == [] || a[|a| - 1] != '&' || b[0] != '&'
    ensures NoAnd(a + b)
  {
    var s := a + b;
    forall k | 0 <= k < |s| - 1
      ensures !(s[k] == '&' && s[k + 1] == '&')
    {
      if k + 1 < |a| {
        assert s[k] == a[k] && s[k + 1] == a[k + 1];
      } else if k >= |a| {
        assert s[k] == b[k - |a|] && s[k + 1] == b[k + 1 - |a|];
      } else {
        assert s[k] == a[|a| - 1] && s[k + 1] == b[0];
      }
    }
  }

  /** A rendered conjunct has no "&&" in it. */
  lemma RenderNoAnd(c: Condition)
    requires Conjunct(c)
    ensures NoAnd(Render(c))
  {
    assert NoAnd(c.field) by {
      assert forall k :: 0 <= k < |c.field| ==> c.field[k] != '&' by {
        assert forall k :: 0 <= k < |c.field| ==> IsWordChar(c.field[k]);
      }
    }
    var t := OpText(c.op);
    assert forall k :: 0 <= k < |t| ==> t[k] != '&';
    NoAndConcat(c.field, " ");
    NoAndConcat(c.field + " ", t);
    NoAndConcat(c.field + " " + t, " ");
    NoAndConcat(c.field + " " + t + " ", c.literal);
  }

  /** Splitting at the first "&&" when the text before it has none and does not end in '&'. */
  lemma {:induction false} SplitAtFirst(a: string, b: string)
    requires NoAnd(a)
    requires a == [] || a[|a| - 1] != '&'
    ensures SplitAnd(a + AndToken + b) == [a] + SplitAnd(b)
    decreases |a|
  {
    var s := a + AndToken + b;
    if a == [] {
      assert s[..2] == AndToken && s[2..] == b;
    } else {
      assert s[..2] != AndToken by {
        if |a| == 1 {
          assert s[0] == a[0] && s[1] == '&';
        } else {
          assert s[0] == a[0] && s[1] == a[1];
        }
      }
      var a' := a[1..];
      assert NoAnd(a') by {
        assert forall k :: 0 <= k < |a'| ==> a'[k] == a[k + 1];
      }
      assert s[1..] == a' + AndToken + b;
      SplitAtFirst(a', b);
      assert [s[0]] + a' == a;
    }
  }

  /** A text without "&&" is a single piece. */
  lemma {:induction false} SplitNone(a: string)
    requires NoAnd(a)
    ensures SplitAnd(a) == [a]
    decreases |a|
  {
    if |a| >= 2 {
      assert a[..2] != AndToken by { assert a[..2][0] == a[0] && a[..2][1] == a[1]; }
      var a' := a[1..];
      assert NoAnd(a') by {
        assert forall k :: 0 <= k < |a'| ==> a'[k] == a[k + 1];
      }
      SplitNone(a');
      assert [a[0]] + a' == a;
    }
  }

  /** `.map(s => s.trim())`. */
  function TrimAll(pieces: seq<string>): seq<string> {
    seq(|pieces|, i requires 0 <= i < |pieces| => Trim(pieces[i]))
  }

  lemma TrimAllCons(pieces: seq<string>)
    requires pieces != []
    ensures TrimAll(pieces) == [Trim(pieces[0])] + TrimAll(pieces[1..])
  {
    var r, t := TrimAll(pieces), [Trim(pieces[0])] + TrimAll(pieces[1..]);
    assert |r| == |t|;
    forall i | 0 <= i < |r|
      ensures r[i] == t[i]
    {
      if i > 0 {
        assert pieces[1..][i - 1] == pieces[i];
      }
    }
  }

  function RendersOf(cs: seq<Condition>): (r: seq<string>)
    ensures |r| == |cs|
    ensures forall i :: 0 <= i < |cs| ==> r[i] == Render(cs[i])
  {
    if cs == [] then [] else [Render(cs[0])] + RendersOf(cs[1..])
  }

  /** What a conjunct renders to: no "&&", and no white space at either end. */
  lemma RenderedConjunct(c: Condition)
    requires Conjunct(c)
    ensures NoAnd(Render(c))
    ensures |Render(c)| > 0 && !IsWhitespace(Render(c)[0]) && !IsWhitespace(Render(c)[|Render(c)| - 1])
  {
    RenderNoAnd(c);
    assert Render(c)[0] == c.field[0];
    assert Render(c)[|Render(c)| - 1] == c.literal[|c.literal| - 1];
  }

  /** The first piece of a rendered conjunction and the rest. */
  lemma SplitRenderHead(w: string, c: Condition, rest: string)
    requires Conjunct(c)
    requires w == "" || w == " "
    ensures SplitAnd(w + Render(c) + " && " + rest) == [w + Render(c) + " "] + SplitAnd(" " + rest)
    ensures Trim(w + Render(c) + " ") == Render(c)
  {
    var r := Render(c);
    RenderedConjunct(c);
    NoAndConcat(w, r);
    NoAndConcat(w + r, " ");
    assert w + r + " && " + rest == (w + r + " ") + AndToken + (" " + rest);
    SplitAtFirst(w + r + " ", " " + rest);
    TrimPadded(w, r, " ");
  }

  /** The last piece of a rendered conjunction. */
  lemma SplitRenderLast(w: string, c: Condition)
    requires Conjunct(c)
    requires w == "" || w == " "
    ensures SplitAnd(w + Render(c)) == [w + Render(c)]
    ensures Trim(w + Render(c)) == Render(c)
  {
    var r := Render(c);
    RenderedConjunct(c);
    NoAndConcat(w, r);
    SplitNone(w + r);
    TrimLeftPadded(w, r);
  }

  /** The pieces of a rendered conjunction (behind an optional leading space) trim to the rendered conditions. */
  lemma {:induction false} SplitRenderAll(w: string, c: Condition, rest: seq<Condition>)
    requires Conjunct(c) && (forall i :: 0 <= i < |rest| ==> Conjunct(rest[i]))
    requires w == "" || w == " "
    ensures TrimAll(SplitAnd(w + RenderAll(c, rest))) == RendersOf([c] + rest)
    decreases |rest|
  {
    if rest == [] {
      SplitRenderLast(w, c);
    } else {
      SplitRenderAll(" ", rest[0], rest[1..]);
      assert [rest[0]] + rest[1..] == rest;
      SplitRenderStep(w, c, rest);
    }
  }

  lemma SplitRenderStep(w: string, c: Condition, rest: seq<Condition>)
    requires rest != [] && Conjunct(c)
    requires w == "" || w == " "
    requires TrimAll(SplitAnd(" " + RenderAll(rest[0], rest[1..]))) == RendersOf(rest)
    ensures TrimAll(SplitAnd(w + RenderAll(c, rest))) == RendersOf([c] + rest)
  {
    var tail := RenderAll(rest[0], rest[1..]);
    SplitRenderHead(w, c, tail);
    Associative(w, Render(c), " && ", tail);
    var ps := SplitAnd(w + RenderAll(c, rest));
    assert ps[1..] == SplitAnd(" " + tail);
    TrimAllCons(ps);
    assert ([c] + rest)[1..] == rest;
  }

  lemma {:induction false} ContainsAfter(a: string, sub: string, b: string)
    ensures Contains(a + sub + b, sub)
    decreases |a|
  {
    if a == [] {
      assert (a + sub + b)[..|sub|] == sub;
    } else {
      assert (a + sub + b)[1..] == a[1..] + sub + b;
      ContainsAfter(a[1..], sub, b);
    }
  }

  lemma {:induction false} NoAndNotContains(s: string)
    requires NoAnd(s)
    ensures !Contains(s, AndToken)
    decreases |s|
  {
    if s != [] {
      assert !StartsWith(s, AndToken) by {
        assert |s| >= 2 ==> s[..2][0] == s[0] && s[..2][1] == s[1];
      }
      assert NoAnd(s[1..]) by {
        assert forall k :: 0 <= k < |s| - 1 ==> s[1..][k] == s[k + 1];
      }
      NoAndNotContains(s[1..]);
    }
  }

  /** A conjunction of two or more rendered conditions contains the separator. */
  lemma RenderAllContainsAnd(c: Condition, rest: seq<Condition>)
    requires rest != []
    ensures Contains(RenderAll(c, rest), AndToken)
  {
    var a := Render(c) + " ";
    var b := " " + RenderAll(rest[0], rest[1..]);
    ContainsAfter(a, AndToken, b);
    assert RenderAll(c, rest) == a + AndToken + b;
  }

  /** The AND path over pieces that trim to rendered conditions means every condition holds. */
  lemma ComplexOfRendered(h: Host, e: string, cs: seq<Condition>, values: Record)
    requires forall i :: 0 <= i < |cs| ==> WellFormed(cs[i])
    requires Trim(e) != []
    requires TrimAll(SplitAnd(e)) == RendersOf(cs)
    ensures EvaluateComplexShowWhen(h, e, values) <==> (forall i :: 0 <= i < |cs| ==> Holds(h, cs[i], values))
  {
    var conditions := TrimAll(SplitAnd(e));
    var all := forall i :: 0 <= i < |conditions| ==> EvaluateShowWhen(h, conditions[i], values);
    assert EvaluateComplexShowWhen(h, e, values) == all;
    if all {
      forall i | 0 <= i < |cs|
        ensures Holds(h, cs[i], values)
      {
        assert EvaluateShowWhen(h, conditions[i], values);
        assert conditions[i] == Render(cs[i]);
        EvaluateRendered(h, cs[i], values);
      }
    } else {
      var i :| 0 <= i < |conditions| && !EvaluateShowWhen(h, conditions[i], values);
      assert conditions[i] == Render(cs[i]);
      EvaluateRendered(h, cs[i], values);
    }
  }

  /** A single rendered condition takes the simple path and is shown exactly when it holds. */
  lemma ShowSingle(h: Host, c: Condition, values: Record)
    requires Conjunct(c)
    ensures ShouldShowField(h, Some(Render(c)), values) <==> Holds(h, c, values)
  {
    RenderedConjunct(c);
    NoAndNotContains(Render(c));
    EvaluateRendered(h, c, values);
  }

  /** Two or more rendered conditions take the AND path. */
  lemma ShowSeveral(h: Host, c: Condition, rest: seq<Condition>, values: Record)
    requires rest != [] && Conjunct(c) && (forall i :: 0 <= i < |rest| ==> Conjunct(rest[i]))
    ensures ShouldShowField(h, Some(RenderAll(c, rest)), values) <==> (forall i :: 0 <= i < |[c] + rest| ==> Holds(h, ([c] + rest)[i], values))
  {
    var e := RenderAll(c, rest);
    var cs := [c] + rest;
    RenderedConjunct(c);
    assert e[0] == Render(c)[0];
    TrimFacts(e);
    assert Trim(e) != [];
    RenderAllContainsAnd(c, rest);
    SplitRenderAll("", c, rest);
    assert "" + e == e;
    ConjunctsWellFormed(c, rest);
    ComplexOfRendered(h, e, cs, values);
  }

  lemma ConjunctsWellFormed(c: Condition, rest: seq<Condition>)
    requires Conjunct(c) && (forall i :: 0 <= i < |rest| ==> Conjunct(rest[i]))
    ensures forall i :: 0 <= i < |[c] + rest| ==> WellFormed(([c] + rest)[i])
  {
    var cs := [c] + rest;
    assert forall i :: 0 < i < |cs| ==> cs[i] == rest[i - 1];
  }

  /** A rendered conjunction is shown exactly when every one of its conditions holds. */
  lemma ShowConjunction(h: Host, c: Condition, rest: seq<Condition>, values: Record)
    requires Conjunct(c) && (forall i :: 0 <= i < |rest| ==> Conjunct(rest[i]))
    ensures ShouldShowField(h, Some(RenderAll(c, rest)), values) <==> Holds(h, c, values) && (forall i :: 0 <= i < |rest| ==> Holds(h, rest[i], values))
  {
    if rest == [] {
      ShowSingle(h, c, values);
    } else {
      ShowSeveral(h, c, rest, values);
      var cs := [c] + rest;
      assert cs[0] == c;
      assert forall i :: 0 <= i < |rest| ==> cs[i + 1] == rest[i];
    }
  }

  // ---------------------------------------------------------------------------
  // Worked examples

  lemma AgeCondition(h: Host)
    requires h.stringToNumber("18") == Finite(18.0)
    ensures Conjunct(Condition("age", Gt, "18"))
    ensures Render(Condition("age", Gt, "18")) == "age > 18"
    ensures ParseLiteral(h, "18") == Num(Finite(18.0))
  {
    assert IsWord("age") by { assert forall k :: 0 <= k < 3 ==> IsWordChar("age"[k]); }
    assert !IsQuoted("18");
  }

  /** `age > 18`: shown for 20, hidden for 10, hidden when age has no value. */
  lemma AgeExample(h: Host, e: string)
    requires h.stringToNumber("18") == Finite(18.0)
    requires e == "age > 18"
    ensures ShouldShowField(h, Some(e), map["age" := Num(Finite(20.0))])
    ensures !ShouldShowField(h, Some(e), map["age" := Num(Finite(10.0))])
    ensures !ShouldShowField(h, Some(e), map[])
  {
    var c := Condition("age", Gt, "18");
    var adult := map["age" := Num(Finite(20.0))];
    var minor := map["age" := Num(Finite(10.0))];
    var none: Record := map[];
    assert Conjunct(c) && Render(c) == e by { AgeCondition(h); }
    assert Holds(h, c, adult) by { AgeCondition(h); }
    assert !Holds(h, c, minor) by { AgeCondition(h); }
    assert !Holds(h, c, none) by { AgeCondition(h); }
    ShowSingle(h, c, adult);
    ShowSingle(h, c, minor);
    ShowSingle(h, c, none);
  }

  lemma CityCondition(h: Host)
    requires h.stringToNumber("'mumbai'") == NaN
    ensures Conjunct(Condition("city", Eq, "'mumbai'"))
    ensures Render(Condition("city", Eq, "'mumbai'")) == "city == 'mumbai'"
    ensures ParseLiteral(h, "'mumbai'") == Str("mumbai")
  {
    assert IsWord("city") by { assert forall k :: 0 <= k < 4 ==> IsWordChar("city"[k]); }
    assert WellFormed(Condition("city", Eq, "'mumbai'"));
    assert NoAnd("'mumbai'") by {
      assert forall k :: 0 <= k < 8 ==> "'mumbai'"[k] != '&';
    }
    assert IsQuoted("'mumbai'") by { assert "'mumbai'"[..1] == "'" && "'mumbai'"[7..] == "'"; }
    assert Unquote("'mumbai'") == "mumbai";
  }

  /** `city == 'mumbai'` is shown when city is "mumbai". */
  lemma CityExample(h: Host, e: string)
    requires h.stringToNumber("'mumbai'") == NaN
    requires e == "city == 'mumbai'"
    ensures ShouldShowField(h, Some(e), map["city" := Str("mumbai")])
  {
    var c := Condition("city", Eq, "'mumbai'");
    var values := map["city" := Str("mumbai")];
    assert Conjunct(c) && Render(c) == e by { CityCondition(h); }
    assert Holds(h, c, values) by { CityCondition(h); }
    ShowSingle(h, c, values);
  }

  /** `???` does not match the pattern and fails open. */
  lemma MalformedExample(h: Host, e: string, values: Record)
    requires e == "???"
    ensures ShouldShowField(h, Some(e), values)
  {
    NoAndNotContains("???");
    assert SkipWord("???", SkipSpace("???", 0)) == SkipSpace("???", 0) by {
      assert SkipSpace("???", 0) == 0;
    }
  }

  lemma FirstConjunct(h: Host)
    requires h.stringToNumber("1") == Finite(1.0)
    ensures Conjunct(Condition("a", Gt, "1")) && Render(Condition("a", Gt, "1")) == "a > 1"
    ensures ParseLiteral(h, "1") == Num(Finite(1.0))
  {
    assert IsWord("a");
    assert !IsQuoted("1");
  }

  lemma SecondConjunct(h: Host)
    requires h.stringToNumber("'x'") == NaN
    ensures Conjunct(Condition("b", Eq, "'x'")) && Render(Condition("b", Eq, "'x'")) == "b == 'x'"
    ensures ParseLiteral(h, "'x'") == Str("x")
  {
    assert IsWord("b");
    assert IsQuoted("'x'") by { assert "'x'"[..1] == "'" && "'x'"[2..] == "'"; }
    assert Unquote("'x'") == "x";
  }

  lemma ConjunctionConditions(h: Host)
    requires h.stringToNumber("1") == Finite(1.0)
    requires h.stringToNumber("'x'") == NaN
    ensures Conjunct(Condition("a", Gt, "1")) && Conjunct(Condition("b", Eq, "'x'"))
    ensures RenderAll(Condition("a", Gt, "1"), [Condition("b", Eq, "'x'")]) == "a > 1 && b == 'x'"
    ensures ParseLiteral(h, "1") == Num(Finite(1.0)) && ParseLiteral(h, "'x'") == Str("x")
  {
    FirstConjunct(h);
    SecondConjunct(h);
  }

  /** `a > 1 && b == 'x'` is shown exactly when a exceeds 1 and b is "x". */
  lemma HoldsFirst(h: Host, a: real, b: string)
    requires ParseLiteral(h, "1") == Num(Finite(1.0))
    ensures Holds(h, Condition("a", Gt, "1"), map["a" := Num(Finite(a)), "b" := Str(b)]) <==> a > 1.0
  {
  }

  lemma HoldsSecond(h: Host, a: real, b: string)
    requires ParseLiteral(h, "'x'") == Str("x")
    ensures Holds(h, Condition("b", Eq, "'x'"), map["a" := Num(Finite(a)), "b" := Str(b)]) <==> b == "x"
  {
  }

  lemma ConjunctionExample(h: Host, e: string, a: real, b: string)
    requires h.stringToNumber("1") == Finite(1.0)
    requires h.stringToNumber("'x'") == NaN
    requires e == "a > 1 && b == 'x'"
    ensures ShouldShowField(h, Some(e), map["a" := Num(Finite(a)), "b" := Str(b)]) <==> a > 1.0 && b == "x"
  {
    var c, d := Condition("a", Gt, "1"), Condition("b", Eq, "'x'");
    var values := map["a" := Num(Finite(a)), "b" := Str(b)];
    ConjunctionConditions(h);
    HoldsFirst(h, a, b);
    HoldsSecond(h, a, b);
    ShowConjunction(h, c, [d], values);
  }
}
