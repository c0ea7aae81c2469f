/**
 * getFieldDependencies: the names of the fields a showWhen expression reads, in the
 * order they first appear and each once, as found by the global pattern
 * `\b(\w+)\s*(==|!=|>=|<=|>|<)`.
 */
module Dependencies {
  import opened Wrappers
  import opened Js
  import opened Eval

  /** The first operator alternative, in the pattern's order, that u starts with. */
  function FirstOp(u: string, ops: seq<Op>): (m: Option<Op>)
    ensures m.Some? ==> m.value in ops && StartsWith(u, OpText(m.value))
  {
    if ops == [] then None
    else if StartsWith(u, OpText(ops[0])) then Some(ops[0])
    else
      FirstOp(u, ops[1..])
  }

  /** No alternative is found exactly when u starts with none of them. */
  lemma {:induction false} FirstOpNone(u: string, ops: seq<Op>)
    ensures FirstOp(u, ops).None? <==> (forall k :: 0 <= k < |ops| ==> !StartsWith(u, OpText(ops[k])))
  {
    if ops != [] {
      FirstOpNone(u, ops[1..]);
      assert forall k :: 1 <= k < |ops| ==> ops[1..][k - 1] == ops[k];
    }
  }

  /** The characters an operator is made of. */
  predicate IsOpChar(c: char) {
    c == '=' || c == '!' || c == '<' || c == '>'
  }

  predicate NoOpChar(s: string) {
    forall k :: 0 <= k < |s| ==> !IsOpChar(s[k])
  }

  /** Every operator begins with an operator character. */
  lemma OpStartsWithOpChar(op: Op)
    ensures |OpText(op)| > 0 && IsOpChar(OpText(op)[0])
  {
  }

  /**
   * A match of `\b(\w+)\s*(==|!=|>=|<=|>|<)` at the start of u, once `\b` holds: the
   * word and the length of the match. `(\w+)` and `\s*` must each take their whole
   * run (a shorter choice leaves a word or space character where the operator must
   * start), and the first operator alternative that fits ends the match.
   */
  function MatchAt(u: string): Option<(string, nat)>
  {
    if u == [] || !IsWordChar(u[0]) then None
    else
      var j := SkipWord(u, 0);
      var p := SkipSpace(u, j);
      match FirstOp(u[p..], OpOrder)
      case Some(op) => Some((u[..j], p + |OpText(op)|))
      case None => None
  }

  /** A match is a word at the start of u, and it reaches past the word. */
  lemma MatchAtFacts(u: string)
    ensures var m := MatchAt(u);
      m.Some? ==> IsWord(m.value.0) && |m.value.0| < m.value.1 <= |u| && u[..|m.value.0|] == m.value.0
  {
    if MatchAt(u).Some? {
      OpStartsWithOpChar(FirstOp(u[SkipSpace(u, SkipWord(u, 0))..], OpOrder).value);
    }
  }

  /**
   * The words `match(/.../g)` finds in the rest u of the expression; afterWord says
   * whether the character before u is a `\w`, which rules out the `\b` in front of
   * `(\w+)`. After a match the search goes on behind its operator; anywhere else it
   * moves on one character. The field name is the word itself: the cleanup
   * `.replace(/\s*(op).*$/, '').trim()` removes exactly the white space and operator behind it.
   */
  function Scan(u: string, afterWord: bool): (r: seq<string>)
    ensures forall k :: 0 <= k < |r| ==> IsWord(r[k])
    decreases |u|
  {
    MatchAtFacts(u);
    if u == [] then []
    else if !afterWord && MatchAt(u).Some? then
      [MatchAt(u).value.0] + Scan(u[MatchAt(u).value.1..], false)
    else Scan(u[1..], IsWordChar(u[0]))
  }

  /** The words the global pattern finds in the whole expression. */
  function Matches(expression: string): seq<string> {
    Scan(expression, false)
  }

  /** The values of xs in first-occurrence order, each once: what `includes` and `push` build. */
  function Dedup(xs: seq<string>): (r: seq<string>)
    ensures forall x :: x in r <==> x in xs
    ensures forall i, j :: 0 <= i < j < |r| ==> r[i] != r[j]
    ensures |r| <= |xs|
  {
    if xs == [] then []
    else
      var d := Dedup(xs[..|xs| - 1]);
      var x := xs[|xs| - 1];
      assert xs == xs[..|xs| - 1] + [x];
      if x in d then d else d + [x]
  }

  predicate Distinct(xs: seq<string>) {
    forall i, j :: 0 <= i < j < |xs| ==> xs[i] != xs[j]
  }

  /** A list without repeats is left as it is. */
  lemma {:induction false} DedupOfDistinct(xs: seq<string>)
    requires Distinct(xs)
    ensures Dedup(xs) == xs
  {
    if xs != [] {
      var init := xs[..|xs| - 1];
      assert Distinct(init);
      DedupOfDistinct(init);
      assert xs[|xs| - 1] !in init;
      assert init + [xs[|xs| - 1]] == xs;
    }
  }

  /** Deduplicating twice changes nothing. */
  lemma DedupIdempotent(xs: seq<string>)
    ensures Dedup(Dedup(xs)) == Dedup(xs)
  {
    DedupOfDistinct(Dedup(xs));
  }

  /** Later values never come before earlier ones: dedup of a prefix is a prefix of the dedup. */
  lemma {:induction false} DedupPrefix(xs: seq<string>, ys: seq<string>)
    ensures Dedup(xs) <= Dedup(xs + ys)
    decreases |ys|
  {
    if ys == [] {
      assert xs + ys == xs;
    } else {
      var zs := xs + ys;
      var init := ys[..|ys| - 1];
      DedupPrefix(xs, init);
      assert zs[..|zs| - 1] == xs + init;
    }
  }

  /** `getFieldDependencies`. */
  method GetFieldDependencies(expression: string) returns (deps: seq<string>)
    ensures deps == Dedup(Matches(expression))
  {
    if Trim(expression) == [] {
      TrimFacts(expression);
      BlankHasNoMatches(expression, false);
      return [];
    }
    var fieldMatches := Matches(expression);
    deps := [];
    var i := 0;
    while i < |fieldMatches|
      invariant 0 <= i <= |fieldMatches|
      invariant deps == Dedup(fieldMatches[..i])
    {
      var fieldName := fieldMatches[i];
      assert fieldMatches[..i + 1][..i] == fieldMatches[..i];
      if fieldName !in deps {
        deps := deps + [fieldName];
      }
      i := i + 1;
    }
    assert fieldMatches[..i] == fieldMatches;
  }

  /** White space alone has no matches. */
  lemma {:induction false} BlankHasNoMatches(u: string, afterWord: bool)
    requires AllWhitespace(u)
    ensures Scan(u, afterWord) == []
    decreases |u|
  {
    if u != [] {
      assert !IsWordChar(u[0]) by { assert IsWhitespace(u[0]); }
      BlankHasNoMatches(u[1..], false);
    }
  }

  /** A text without operator characters has no matches. */
  lemma {:induction false} NoOperatorNoMatches(u: string, afterWord: bool)
    requires NoOpChar(u)
    ensures Scan(u, afterWord) == []
    decreases |u|
  {
    if u != [] {
      assert NoOpChar(u[1..]) by {
        assert forall k :: 0 <= k < |u| - 1 ==> u[1..][k] == u[k + 1];
      }
      if IsWordChar(u[0]) {
        NoOperatorAt(u, SkipSpace(u, SkipWord(u, 0)));
      }
      NoOperatorNoMatches(u[1..], IsWordChar(u[0]));
    }
  }

  /** No operator starts at a position that holds no operator character. */
  lemma NoOperatorAt(u: string, p: nat)
    requires p <= |u|
    requires p == |u| || !IsOpChar(u[p])
    ensures FirstOp(u[p..], OpOrder).None?
  {
    FirstOpNone(u[p..], OpOrder);
    forall k | 0 <= k < |OpOrder|
      ensures !StartsWith(u[p..], OpText(OpOrder[k]))
    {
      OpStartsWithOpChar(OpOrder[k]);
    }
  }

  // ---------------------------------------------------------------------------
  // Dependencies of rendered conditions

  lemma FirstOpSkips(u: string, ops: seq<Op>)
    requires ops != [] && |u| >= 2
    requires u[0] != OpText(ops[0])[0] || (|OpText(ops[0])| == 2 && u[1] != OpText(ops[0])[1])
    ensures FirstOp(u, ops) == FirstOp(u, ops[1..])
  {
    var t := OpText(ops[0]);
    assert u[..|t|][0] == u[0];
    assert |t| == 2 ==> u[..|t|][1] == u[1];
  }

  /** On a rendered operator followed by a space the alternatives pick that operator. */
  lemma FirstOpRendered(op: Op, rest: string)
    ensures FirstOp(OpText(op) + " " + rest, OpOrder) == Some(op)
  {
    var u := OpText(op) + " " + rest;
    RenderedOperatorText(op, rest);
    var o1 := OpOrder[1..];
    var o2 := o1[1..];
    var o3 := o2[1..];
    var o4 := o3[1..];
    assert o1 == [Ne, Ge, Le, Gt, Lt] && o2 == [Ge, Le, Gt, Lt] && o3 == [Le, Gt, Lt] && o4 == [Gt, Lt];
    match op
    case Eq =>
    case Ne =>
      FirstOpSkips(u, OpOrder);
    case Ge =>
      FirstOpSkips(u, OpOrder);
      FirstOpSkips(u, o1);
    case Le =>
      FirstOpSkips(u, OpOrder);
      FirstOpSkips(u, o1);
      FirstOpSkips(u, o2);
    case Gt =>
      FirstOpSkips(u, OpOrder);
      FirstOpSkips(u, o1);
      FirstOpSkips(u, o2);
      FirstOpSkips(u, o3);
    case Lt =>
      FirstOpSkips(u, OpOrder);
      FirstOpSkips(u, o1);
      FirstOpSkips(u, o2);
      FirstOpSkips(u, o3);
      FirstOpSkips(u, o4);
  }

  /**
   * A stretch x without operator characters that ends in a non-word character adds no
   * match, provided what follows it does not start with white space or an operator.
   */
  lemma {:induction false} SkipsNoOperator(x: string, y: string, afterWord: bool)
    requires x != [] && NoOpChar(x) && !IsWordChar(x[|x| - 1])
    requires y == [] || (!IsWhitespace(y[0]) && !IsOpChar(y[0]))
    ensures Scan(x + y, afterWord) == Scan(y, false)
    decreases |x|
  {
    var u := x + y;
    assert forall k :: 0 <= k < |x| ==> u[k] == x[k];
    assert u[1..] == x[1..] + y;
    if |x| > 1 {
      assert NoOpChar(x[1..]) by {
        assert forall k :: 0 <= k < |x| - 1 ==> x[1..][k] == x[k + 1];
      }
      assert x[1..][|x[1..]| - 1] == x[|x| - 1];
    }
    if IsWordChar(u[0]) {
      var j := SkipWord(u, 0);
      assert j < |x|;
      if y != [] {
        SkipSpaceStops(u, j, |x|);
      }
      NoOperatorAt(u, SkipSpace(u, j));
      if |x| > 1 {
        SkipsNoOperator(x[1..], y, true);
      }
    } else if |x| == 1 {
      assert u[1..] == y;
    } else {
      SkipsNoOperator(x[1..], y, IsWordChar(u[0]));
    }
  }

  /** The field names of the conditions, in order. */
  function Fields(cs: seq<Condition>): (r: seq<string>)
    ensures |r| == |cs| && forall k :: 0 <= k < |cs| ==> r[k] == cs[k].field
  {
    if cs == [] then [] else [cs[0].field] + Fields(cs[1..])
  }

  /** A literal the field-name pattern passes over. */
  predicate PlainLiteral(c: Condition) {
    Conjunct(c) && NoOpChar(c.literal)
  }

  lemma SkipSpaceStops(s: string, i: nat, m: nat)
    requires i <= m < |s| && !IsWhitespace(s[m])
    ensures SkipSpace(s, i) <= m
  {
  }

  /** How the scan takes apart a word, one space and a text v that does not start with white space. */
  lemma WordThenSpace(f: string, v: string)
    requires IsWord(f)
    requires |v| > 0 && !IsWhitespace(v[0])
    ensures var u := f + (" " + v);
      SkipWord(u, 0) == |f| && SkipSpace(u, |f|) == |f| + 1 && u[..|f|] == f && u[|f| + 1..] == v
  {
    var u := f + (" " + v);
    assert forall k :: 0 <= k < |f| ==> u[k] == f[k];
    assert u[|f|] == ' ' && u[|f| + 1] == v[0];
    SkipWordTo(u, 0, |f|);
    SkipSpaceTo(u, |f|, |f| + 1);
    assert u[|f| + 1..] == v;
  }

  /** A word, one space and an operator followed by a space are one match. */
  lemma ScanMatchAt(f: string, op: Op, rest: string)
    requires IsWord(f)
    ensures Scan(f + (" " + (OpText(op) + (" " + rest))), false) == [f] + Scan(" " + rest, false)
  {
    var u := f + (" " + (OpText(op) + (" " + rest)));
    MatchAtSlices(f, OpText(op), rest);
    MatchAtRendered(f, op, rest);
    ScanStep(u, f, |f| + 1 + |OpText(op)|);
  }

  lemma MatchAtSlices(f: string, o: string, rest: string)
    ensures var u := f + (" " + (o + (" " + rest)));
      && |f| + 1 + |o| <= |u| && u[|f| + 1 + |o|..] == " " + rest
  {
    var u := f + (" " + (o + (" " + rest)));
    assert u[|f| + 1 + |o|..] == " " + rest;
  }

  /** What the pattern matches at the start of a rendered condition. */
  lemma MatchAtRendered(f: string, op: Op, rest: string)
    requires IsWord(f)
    ensures MatchAt(f + (" " + (OpText(op) + (" " + rest)))) == Some((f, |f| + 1 + |OpText(op)|))
  {
    var v := OpText(op) + (" " + rest);
    RenderedOperatorStart(op, rest);
    WordThenSpace(f, v);
    MatchAtSpaced(f + (" " + v), f, v, op);
  }

  /** What follows the space after the word: the operator, which is found first. */
  lemma RenderedOperatorStart(op: Op, rest: string)
    ensures var v := OpText(op) + (" " + rest);
      |v| > 0 && !IsWhitespace(v[0]) && FirstOp(v, OpOrder) == Some(op)
  {
    var o := OpText(op);
    FirstOpRendered(op, rest);
    assert o + " " + rest == o + (" " + rest);
    OpStartsWithOpChar(op);
    OpCharIsNotSpace(o[0]);
  }

  lemma MatchAtSpaced(u: string, f: string, v: string, op: Op)
    requires IsWord(f) && |v| > 0
    requires SkipWord(u, 0) == |f| && SkipSpace(u, |f|) == |f| + 1 && u[..|f|] == f && u[|f| + 1..] == v
    requires FirstOp(v, OpOrder) == Some(op)
    ensures MatchAt(u) == Some((f, |f| + 1 + |OpText(op)|))
  {
    assert u[0] == f[0];
    MatchAtParts(u, |f|, |f| + 1, op);
  }

  lemma MatchAtParts(u: string, j: nat, p: nat, op: Op)
    requires u != [] && IsWordChar(u[0])
    requires SkipWord(u, 0) == j && SkipSpace(u, j) == p
    requires FirstOp(u[p..], OpOrder) == Some(op)
    ensures MatchAt(u) == Some((u[..j], p + |OpText(op)|))
  {
  }

  lemma OpCharIsNotSpace(c: char)
    requires IsOpChar(c)
    ensures !IsWhitespace(c) && !IsWordChar(c)
  {
  }

  /** One match step of the scan, as the definition takes it. */
  lemma ScanStep(u: string, w: string, n: nat)
    requires MatchAt(u) == Some((w, n))
    ensures n <= |u| && Scan(u, false) == [w] + Scan(u[n..], false)
  {
  }

  /** The field of a rendered condition is its one match; the search goes on after the literal. */
  lemma ScanRendered(c: Condition, t: string)
    requires WellFormed(c)
    ensures Scan(Render(c) + t, false) == [c.field] + Scan(" " + c.literal + t, false)
  {
    var f, o, rest := c.field, OpText(c.op), c.literal + t;
    assert Render(c) + t == f + (" " + (o + (" " + rest)));
    ScanMatchAt(f, c.op, rest);
    assert " " + rest == " " + c.literal + t;
  }

  /** A rendered conjunction starts with the first field's first character. */
  lemma RenderAllStart(c: Condition, rest: seq<Condition>)
    requires WellFormed(c)
    ensures |RenderAll(c, rest)| > 0 && RenderAll(c, rest)[0] == c.field[0]
  {
  }

  /** The white space, literal and separator between two rendered conditions hold no operator character. */
  lemma Between(lit: string)
    requires NoOpChar(lit)
    ensures NoOpChar(" " + lit + " && ") && NoOpChar(" " + lit)
  {
    var x := " " + lit + " && ";
    assert forall k :: 1 <= k < |x| - 4 ==> x[k] == lit[k - 1];
    var z := " " + lit;
    assert forall k :: 1 <= k < |z| ==> z[k] == lit[k - 1];
  }

  /** The scan after a rendered condition's literal, when another condition follows. */
  lemma ScanAfterLiteral(lit: string, next: Condition, rest: seq<Condition>)
    requires NoOpChar(lit) && WellFormed(next)
    ensures Scan(" " + lit + (" && " + RenderAll(next, rest)), false) == Scan(RenderAll(next, rest), false)
  {
    var x := " " + lit + " && ";
    var y := RenderAll(next, rest);
    Between(lit);
    RenderAllStart(next, rest);
    assert IsWordChar(y[0]);
    WordIsNotSpace(y[0]);
    assert " " + lit + (" && " + y) == x + y;
    SkipsNoOperator(x, y, false);
  }

  lemma WordIsNotSpace(c: char)
    requires IsWordChar(c)
    ensures !IsWhitespace(c) && !IsOpChar(c)
  {
  }

  /**
   * The fields a rendered conjunction depends on are its conditions' fields, in order,
   * when no literal holds an operator character.
   */
  lemma {:induction false} RenderedMatches(c: Condition, rest: seq<Condition>)
    requires PlainLiteral(c) && (forall i :: 0 <= i < |rest| ==> PlainLiteral(rest[i]))
    ensures Matches(RenderAll(c, rest)) == Fields([c] + rest)
    decreases |rest|
  {
    if rest == [] {
      SingleMatches(c);
    } else {
      RenderedMatches(rest[0], rest[1..]);
      MatchesStep(c, rest);
    }
  }

  lemma SingleMatches(c: Condition)
    requires PlainLiteral(c)
    ensures Matches(RenderAll(c, [])) == Fields([c])
  {
    ScanRendered(c, "");
    assert Render(c) + "" == Render(c);
    Between(c.literal);
    NoOperatorNoMatches(" " + c.literal + "", false);
  }

  lemma MatchesStep(c: Condition, rest: seq<Condition>)
    requires PlainLiteral(c) && rest != [] && WellFormed(rest[0])
    requires Matches(RenderAll(rest[0], rest[1..])) == Fields(rest)
    ensures Matches(RenderAll(c, rest)) == Fields([c] + rest)
  {
    assert Fields([c] + rest) == [c.field] + Fields(rest) by {
      assert ([c] + rest)[1..] == rest;
    }
    var t := " && " + RenderAll(rest[0], rest[1..]);
    assert RenderAll(c, rest) == Render(c) + t;
    ScanRendered(c, t);
    ScanAfterLiteral(c.literal, rest[0], rest[1..]);
  }
}
