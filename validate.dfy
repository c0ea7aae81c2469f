/**
 * validateShowWhenExpression: whether an expression is accepted, and the message
 * shown when it is not. The whole text must match the basic pattern or the
 * complex pattern `^.+(\s*&&\s*.+)*$`, and then every piece between `&&`s, trimmed,
 * must match the basic pattern on its own.
 */
module Validation {
  import opened Wrappers
  import opened Js
  import opened Eval

  datatype Validation = Validation(valid: bool, error: Option<string>)

  const Valid := Validation(true, None)

  const FormatError := "Invalid expression format. Use: field operator value (e.g., \"age > 18\")"

  function ConditionError(condition: string): string {
    "Invalid condition: \"" + condition + "\""
  }

  // ---------------------------------------------------------------------------
  // The complex pattern

  /**
   * The positions `^.+(\s*&&\s*.+)*$` can be in, as a set of flags: before the first
   * character (start), inside a `.+` after at least one character (body), in the `\s*`
   * before `&&` (gap), after its first `&` (amp), and in the `\s*` after `&&` (after).
   */
  datatype ComplexState = ComplexState(start: bool, body: bool, gap: bool, amp: bool, after: bool)

  const ComplexStart := ComplexState(true, false, false, false, false)

  /** The positions reachable by reading c. `.` matches everything but a line terminator. */
  function ComplexStep(st: ComplexState, c: char): (r: ComplexState)
    ensures !r.start
    ensures (st.body && !IsLineTerminator(c)) ==> r.body
  {
    var dot := !IsLineTerminator(c);
    ComplexState(
      false,
      (st.start || st.body || st.after) && dot,
      (st.body || st.gap) && IsWhitespace(c),
      (st.body || st.gap) && c == '&',
      (st.amp && c == '&') || (st.after && IsWhitespace(c)))
  }

  function ComplexRun(st: ComplexState, s: string): ComplexState
    decreases |s|
  {
    if s == [] then st else ComplexRun(ComplexStep(st, s[0]), s[1..])
  }

  /** `complexPattern.test(s)`: the run ends inside a `.+`, where `$` can match. */
  predicate ComplexMatch(s: string) {
    ComplexRun(ComplexStart, s).body
  }

  /** Once inside a `.+`, a run without line terminators stays there. */
  lemma {:induction false} BodyPersists(st: ComplexState, s: string)
    requires st.body && NoLineTerminator(s)
    ensures ComplexRun(st, s).body
    decreases |s|
  {
    if s != [] {
      assert NoLineTerminator(s[1..]) by {
        assert forall k :: 0 <= k < |s| - 1 ==> s[1..][k] == s[k + 1];
      }
      BodyPersists(ComplexStep(st, s[0]), s[1..]);
    }
  }

  /** Every non-empty text on one line matches the complex pattern. */
  lemma ComplexMatchesOneLine(s: string)
    requires s != [] && NoLineTerminator(s)
    ensures ComplexMatch(s)
  {
    assert NoLineTerminator(s[1..]) by {
      assert forall k :: 0 <= k < |s| - 1 ==> s[1..][k] == s[k + 1];
    }
    BodyPersists(ComplexStep(ComplexStart, s[0]), s[1..]);
  }

  /** The empty text does not match: `.+` needs a character. */
  lemma ComplexNeedsText()
    ensures !ComplexMatch("")
  {
  }

  // ---------------------------------------------------------------------------
  // Validation

  /** `basicPattern.test(s)`. */
  predicate BasicMatch(s: string) {
    MatchBasic(s).Some?
  }

  /** The loop over the trimmed pieces: the first that fails the basic pattern is reported. */
  function CheckConditions(conditions: seq<string>): (v: Validation)
    ensures v.valid <==> (forall k :: 0 <= k < |conditions| ==> BasicMatch(conditions[k]))
    ensures v.valid <==> v.error.None?
  {
    if conditions == [] then Valid
    else if !BasicMatch(conditions[0]) then Validation(false, Some(ConditionError(conditions[0])))
    else
      var v := CheckConditions(conditions[1..]);
      assert forall k :: 1 <= k < |conditions| ==> conditions[1..][k - 1] == conditions[k];
      v
  }

  /** Piece k is the first that fails the basic pattern. */
  predicate FirstFailure(conditions: seq<string>, k: int) {
    0 <= k < |conditions| && !BasicMatch(conditions[k])
    && forall i :: 0 <= i < k ==> BasicMatch(conditions[i])
  }

  /** A rejected list of pieces names the first piece that fails, quoted. */
  lemma {:induction false} FirstFailureReported(conditions: seq<string>)
    requires !CheckConditions(conditions).valid
    ensures exists k :: (FirstFailure(conditions, k)
                         && CheckConditions(conditions).error == Some(ConditionError(conditions[k])))
  {
    if BasicMatch(conditions[0]) {
      var tail := conditions[1..];
      FirstFailureReported(tail);
      var k :| FirstFailure(tail, k) && CheckConditions(tail).error == Some(ConditionError(tail[k]));
      FirstFailureShifts(conditions, k);
    } else {
      assert FirstFailure(conditions, 0);
    }
  }

  lemma FirstFailureShifts(conditions: seq<string>, k: int)
    requires conditions != [] && BasicMatch(conditions[0]) && FirstFailure(conditions[1..], k)
    ensures FirstFailure(conditions, k + 1) && conditions[k + 1] == conditions[1..][k]
  {
    assert forall i :: 1 <= i < k + 1 ==> conditions[i] == conditions[1..][i - 1];
  }

  /** The result validateShowWhenExpression returns for an expression. */
  function ValidationOf(expression: string): Validation {
    if Trim(expression) == [] then Valid
    else if !BasicMatch(expression) && !ComplexMatch(expression) then Validation(false, Some(FormatError))
    else CheckConditions(TrimAll(SplitAnd(expression)))
  }

  /** `validateShowWhenExpression`. */
  method ValidateShowWhenExpression(expression: string) returns (v: Validation)
    ensures v == ValidationOf(expression)
  {
    if Trim(expression) == [] {
      return Valid;
    }
    if !BasicMatch(expression) && !ComplexMatch(expression) {
      return Validation(false, Some(FormatError));
    }
    var conditions := TrimAll(SplitAnd(expression));
    var i := 0;
    while i < |conditions|
      invariant 0 <= i <= |conditions|
      invariant CheckConditions(conditions) == CheckConditions(conditions[i..])
    {
      var condition := conditions[i];
      assert conditions[i..][1..] == conditions[i + 1..];
      if !BasicMatch(condition) {
        return Validation(false, Some(ConditionError(condition)));
      }
      i := i + 1;
    }
    return Valid;
  }

  // ---------------------------------------------------------------------------
  // Properties

  /** A blank expression is valid. */
  lemma BlankIsValid(expression: string)
    requires AllWhitespace(expression)
    ensures ValidationOf(expression) == Valid
  {
    TrimFacts(expression);
  }

  /** On one line the format check never fires: only the pieces decide. */
  lemma OneLineChecksPieces(expression: string)
    requires !AllWhitespace(expression) && NoLineTerminator(expression)
    ensures ValidationOf(expression) == CheckConditions(TrimAll(SplitAnd(expression)))
  {
    TrimFacts(expression);
    ComplexMatchesOneLine(expression);
  }

  /** A valid expression with `&&` is evaluated piece by piece, and no piece fails open. */
  lemma ValidConjunctionEvaluates(h: Host, expression: string, values: Record)
    requires ValidationOf(expression).valid && !AllWhitespace(expression)
    ensures var pieces := TrimAll(SplitAnd(expression));
      && (forall k :: 0 <= k < |pieces| ==> MatchBasic(pieces[k]).Some?)
      && (EvaluateComplexShowWhen(h, expression, values)
          <==> forall k :: 0 <= k < |pieces| ==> Holds(h, MatchBasic(pieces[k]).value, values))
  {
    TrimFacts(expression);
    var pieces := TrimAll(SplitAnd(expression));
    assert CheckConditions(pieces).valid;
    PiecesEvaluate(h, pieces, values);
  }

  lemma PiecesEvaluate(h: Host, pieces: seq<string>, values: Record)
    requires forall k :: 0 <= k < |pieces| ==> MatchBasic(pieces[k]).Some?
    ensures forall k :: 0 <= k < |pieces| ==> EvaluateShowWhen(h, pieces[k], values) == Holds(h, MatchBasic(pieces[k]).value, values)
  {
    forall k | 0 <= k < |pieces|
      ensures EvaluateShowWhen(h, pieces[k], values) == Holds(h, MatchBasic(pieces[k]).value, values)
    {
      MatchedIsNotBlank(pieces[k]);
    }
  }

  lemma NoLineTerminatorConcat(a: string, b: string)
    requires NoLineTerminator(a) && NoLineTerminator(b)
    ensures NoLineTerminator(a + b)
  {
    assert forall k :: |a| <= k < |a + b| ==> (a + b)[k] == b[k - |a|];
  }

  lemma RenderOneLine(c: Condition)
    requires WellFormed(c)
    ensures NoLineTerminator(Render(c))
  {
    var f, o := c.field, OpText(c.op);
    assert NoLineTerminator(f) by {
      assert forall k :: 0 <= k < |f| ==> IsWordChar(f[k]);
    }
    assert NoLineTerminator(o) && NoLineTerminator(" ");
    NoLineTerminatorConcat(f, " ");
    NoLineTerminatorConcat(f + " ", o);
    NoLineTerminatorConcat(f + " " + o, " ");
    NoLineTerminatorConcat(f + " " + o + " ", c.literal);
  }

  /** A rendered conjunction is on one line. */
  lemma {:induction false} RenderAllOneLine(c: Condition, rest: seq<Condition>)
    requires WellFormed(c) && (forall i :: 0 <= i < |rest| ==> WellFormed(rest[i]))
    ensures NoLineTerminator(RenderAll(c, rest))
    decreases |rest|
  {
    RenderOneLine(c);
    if rest != [] {
      RenderAllOneLine(rest[0], rest[1..]);
      assert NoLineTerminator(" && ");
      NoLineTerminatorConcat(Render(c), " && ");
      NoLineTerminatorConcat(Render(c) + " && ", RenderAll(rest[0], rest[1..]));
    }
  }

  /** Every rendered conjunction is valid. */
  lemma RenderedIsValid(c: Condition, rest: seq<Condition>)
    requires Conjunct(c) && (forall i :: 0 <= i < |rest| ==> Conjunct(rest[i]))
    ensures ValidationOf(RenderAll(c, rest)) == Valid
  {
    var e := RenderAll(c, rest);
    assert !AllWhitespace(e) by {
      RenderedConjunct(c);
      assert e[0] == Render(c)[0];
    }
    RenderAllOneLine(c, rest);
    OneLineChecksPieces(e);
    SplitRenderAll("", c, rest);
    assert "" + e == e;
    RenderedPiecesMatch(c, rest);
  }

  lemma RenderedPiecesMatch(c: Condition, rest: seq<Condition>)
    requires Conjunct(c) && (forall i :: 0 <= i < |rest| ==> Conjunct(rest[i]))
    ensures CheckConditions(RendersOf([c] + rest)) == Valid
  {
    var ps := RendersOf([c] + rest);
    forall k | 0 <= k < |ps|
      ensures BasicMatch(ps[k])
    {
      RenderedPieceMatches(c, rest, k);
    }
  }

  lemma RenderedPieceMatches(c: Condition, rest: seq<Condition>, k: nat)
    requires Conjunct(c) && (forall i :: 0 <= i < |rest| ==> Conjunct(rest[i]))
    requires k <= |rest|
    ensures BasicMatch(RendersOf([c] + rest)[k])
  {
    var cs := [c] + rest;
    assert cs[k] == if k == 0 then c else rest[k - 1];
    ParseRender(cs[k]);
  }

  /** `???` is on one line but is no condition: the message quotes it. */
  lemma MalformedMessage(e: string)
    requires e == "???"
    ensures ValidationOf(e) == Validation(false, Some("Invalid condition: \"???\""))
  {
    assert !AllWhitespace(e) && NoLineTerminator(e) by { assert !IsWhitespace(e[0]); }
    OneLineChecksPieces(e);
    MalformedPieces(e);
    MalformedRejected(e);
  }

  lemma MalformedPieces(e: string)
    requires e == "???"
    ensures TrimAll(SplitAnd(e)) == [e]
  {
    assert NoAnd(e);
    SplitNone(e);
    assert Trim(e) == e by { TrimLeftPadded("", e); assert "" + e == e; }
  }

  lemma MalformedRejected(e: string)
    requires e == "???"
    ensures CheckConditions([e]) == Validation(false, Some("Invalid condition: \"???\""))
  {
    assert !BasicMatch(e) by {
      assert SkipSpace(e, 0) == 0;
      assert SkipWord(e, 0) == 0;
    }
    assert ConditionError(e) == "Invalid condition: \"???\"";
  }
}
