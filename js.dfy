/**
 * The slice of ECMAScript (ECMA-262, 2022 edition) that the form engine depends on:
 * its runtime values, ToNumber (section 7.1.4), ToPrimitive of the two object kinds the
 * forms hold (section 7.1.1), IsLooselyEqual (section 7.2.14), the relational comparison
 * of Numbers (section 6.1.6.1.12), truthiness (ToBoolean, section 7.1.2) and the string
 * primitives the source uses (trim, split, includes, startsWith, toLowerCase, length).
 */
module Js {
  import opened Wrappers

  /** A Number. Finite values are exact reals; NaN and the two infinities are explicit.
      Negative zero is not distinguished from positive zero: no operation modelled here
      can tell them apart. */
  datatype Number = Finite(r: real) | NaN | PosInf | NegInf

  /** The values a form holds: strings, numbers, booleans, null, undefined, the string
      array of a multi-select, and a File chosen in a file input. */
  datatype Value =
    | Str(s: string)
    | Num(n: Number)
    | Bool(b: bool)
    | Null
    | Undef
    | Arr(items: seq<string>)
    | File(name: string, mime: string)

  /** Conversions supplied by the JavaScript host or by libraries that the model keeps abstract. */
  datatype Host = Host(
    stringToNumber: string -> Number,    // StringToNumber, ECMA-262 section 7.1.4.1.1
    numberToString: Number -> string,    // Number::toString, ECMA-262 section 6.1.6.1.20
    regexCompiles: string -> bool,       // new RegExp(pattern) does not throw a SyntaxError
    regexTest: (string, string) -> bool, // new RegExp(pattern).test(text)
    isEmail: string -> bool,             // zod's string().email() check
    dateParses: string -> bool,          // !isNaN(Date.parse(text))
    encodeUri: string -> string)         // encodeURIComponent

  /** A record of form values, keyed by field id. */
  type Record = map<string, Value>

  /** Property access on a plain record: a missing key reads as undefined. */
  function Get(rec: Record, key: string): (v: Value)
    ensures key !in rec ==> v == Undef
    ensures key in rec ==> v == rec[key]
  {
    if key in rec then rec[key] else Undef
  }

  predicate IsPrimitive(v: Value) {
    !v.Arr? && !v.File?
  }

  /** The text Object.prototype.toString gives a File. */
  const FileObjectText: string := "[object File]"

  /** ToPrimitive: an array becomes its elements joined by commas, a File its tag text. */
  function ToPrimitive(v: Value): (p: Value)
    ensures IsPrimitive(p)
    ensures IsPrimitive(v) ==> p == v
    ensures !IsPrimitive(v) ==> p.Str?
  {
    match v
    case Arr(items) => Str(Join(items, ","))
    case File(_, _) => Str(FileObjectText)
    case _ => v
  }

  /** ToString (section 7.1.17) of a form value, as a template literal inserts it. */
  function ToText(h: Host, v: Value): (t: string)
    ensures v.Str? ==> t == v.s
  {
    match v
    case Str(s) => s
    case Num(n) => h.numberToString(n)
    case Bool(b) => if b then "true" else "false"
    case Null => "null"
    case Undef => "undefined"
    case Arr(items) => Join(items, ",")
    case File(_, _) => FileObjectText
  }

  /** ToNumber (section 7.1.4). */
  function ToNumber(h: Host, v: Value): (n: Number)
    ensures v.Undef? ==> n == NaN
    ensures v.Null? ==> n == Finite(0.0)
    ensures v.Num? ==> n == v.n
  {
    match v
    case Undef => NaN
    case Null => Finite(0.0)
    case Bool(b) => if b then Finite(1.0) else Finite(0.0)
    case Num(n) => n
    case Str(s) => h.stringToNumber(s)
    case Arr(_) => h.stringToNumber(ToPrimitive(v).s)
    case File(_, _) => h.stringToNumber(FileObjectText)
  }

  /** Number::equal: NaN equals nothing, every other Number equals exactly itself. */
  predicate NumberEqual(a: Number, b: Number) {
    a != NaN && a == b
  }

  /** Number::lessThan: None plays the part of the specification's `undefined` (a NaN operand). */
  function NumberLessThan(a: Number, b: Number): (r: Option<bool>)
    ensures r.None? <==> (a == NaN || b == NaN)
    ensures r == Some(true) ==> a != b
  {
    if a == NaN || b == NaN then None
    else if a == b then Some(false)
    else if a == PosInf || b == NegInf then Some(false)
    else if b == PosInf || a == NegInf then Some(true)
    else Some(a.r < b.r)
  }

  /** `a > b` on Numbers. */
  predicate Greater(a: Number, b: Number) { NumberLessThan(b, a) == Some(true) }
  /** `a < b` on Numbers. */
  predicate Less(a: Number, b: Number) { NumberLessThan(a, b) == Some(true) }
  /** `a >= b` on Numbers: true only when `a < b` is definitely false. */
  predicate GreaterOrEqual(a: Number, b: Number) { NumberLessThan(a, b) == Some(false) }
  /** `a <= b` on Numbers: true only when `b < a` is definitely false. */
  predicate LessOrEqual(a: Number, b: Number) { NumberLessThan(b, a) == Some(false) }

  /** Every ordering comparison with a NaN operand is false. */
  lemma NaNOrdersNothing(a: Number, b: Number)
    requires a == NaN || b == NaN
    ensures !Greater(a, b) && !Less(a, b) && !GreaterOrEqual(a, b) && !LessOrEqual(a, b)
  {
  }

  /** Without NaN the four comparisons agree with the order of the extended reals. */
  lemma OrderIsTotalWithoutNaN(a: Number, b: Number)
    requires a != NaN && b != NaN
    ensures GreaterOrEqual(a, b) <==> !Less(a, b)
    ensures LessOrEqual(a, b) <==> !Greater(a, b)
    ensures Less(a, b) <==> Greater(b, a)
    ensures !(Less(a, b) && Greater(a, b))
  {
  }

  /** Type(x) is Type(y). */
  predicate SameType(x: Value, y: Value) {
    match x
    case Str(_) => y.Str?
    case Num(_) => y.Num?
    case Bool(_) => y.Bool?
    case Null => y.Null?
    case Undef => y.Undef?
    case Arr(_) => y.Arr? || y.File?
    case File(_, _) => y.Arr? || y.File?
  }

  /** IsStrictlyEqual on two primitives of the same type. */
  predicate StrictlyEqual(x: Value, y: Value)
    requires SameType(x, y) && IsPrimitive(x)
  {
    match x
    case Str(s) => s == y.s
    case Num(n) => NumberEqual(n, y.n)
    case Bool(b) => b == y.b
    case Null => true
    case Undef => true
  }

  /** How many conversions IsLooselyEqual may still apply to a value before both sides are Numbers or Strings. */
  function Rank(v: Value): nat {
    match v
    case Arr(_) => 2
    case File(_, _) => 2
    case Str(_) => 1
    case Bool(_) => 1
    case _ => 0
  }

  /**
   * IsLooselyEqual(x, y), ECMA-262 section 7.2.14, for a primitive right operand (the
   * only case the evaluator produces: the literal of a showWhen condition is always a
   * primitive). Steps 7, 8 and 13 concern BigInt, which the model does not have; step 11
   * needs an object on the right.
   */
  function LooselyEqual(h: Host, x: Value, y: Value): bool
    requires IsPrimitive(y)
    decreases Rank(x) + Rank(y)
  {
    if SameType(x, y) then StrictlyEqual(x, y)                         // step 1
    else if (x.Null? || x.Undef?) && (y.Null? || y.Undef?) then true   // steps 2-3
    else if x.Num? && y.Str? then LooselyEqual(h, x, Num(ToNumber(h, y)))  // step 5
    else if x.Str? && y.Num? then LooselyEqual(h, Num(ToNumber(h, x)), y)  // step 6
    else if x.Bool? then LooselyEqual(h, Num(ToNumber(h, x)), y)       // step 9
    else if y.Bool? then LooselyEqual(h, x, Num(ToNumber(h, y)))       // step 10
    else if !IsPrimitive(x) && (y.Str? || y.Num?) then LooselyEqual(h, ToPrimitive(x), y)  // step 12
    else false                                                         // step 14
  }

  /** null and undefined are loosely equal to each other and to nothing else. */
  lemma NullishEqualsOnlyNullish(h: Host, x: Value, y: Value)
    requires IsPrimitive(y)
    requires x.Null? || x.Undef?
    ensures LooselyEqual(h, x, y) <==> (y.Null? || y.Undef?)
  {
  }

  /** A NaN is loosely equal to nothing (not even to itself). */
  lemma NaNEqualsNothing(h: Host, y: Value)
    requires IsPrimitive(y)
    ensures !LooselyEqual(h, Num(NaN), y)
  {
  }

  /** A string and a number are loosely equal exactly when the string converts to that number. */
  lemma StringNumberEquality(h: Host, s: string, n: Number)
    ensures LooselyEqual(h, Str(s), Num(n)) <==> NumberEqual(h.stringToNumber(s), n)
    ensures LooselyEqual(h, Num(n), Str(s)) <==> NumberEqual(n, h.stringToNumber(s))
  {
  }

  /** On primitives, loose equality does not depend on the order of its operands. */
  lemma {:induction false} LooselyEqualSymmetric(h: Host, x: Value, y: Value)
    requires IsPrimitive(x) && IsPrimitive(y)
    ensures LooselyEqual(h, x, y) == LooselyEqual(h, y, x)
  {
    if SameType(x, y) {
    } else if x.Bool? && y.Str? {
      assert LooselyEqual(h, x, y) == LooselyEqual(h, Num(ToNumber(h, x)), y);
      assert LooselyEqual(h, y, x) == LooselyEqual(h, y, Num(ToNumber(h, x)));
    } else if x.Str? && y.Bool? {
      assert LooselyEqual(h, y, x) == LooselyEqual(h, Num(ToNumber(h, y)), x);
      assert LooselyEqual(h, x, y) == LooselyEqual(h, x, Num(ToNumber(h, y)));
    }
  }

  /** ToBoolean: the values a JavaScript condition treats as true. */
  predicate Truthy(v: Value) {
    match v
    case Str(s) => s != ""
    case Num(n) => n != NaN && n != Finite(0.0)
    case Bool(b) => b
    case Null => false
    case Undef => false
    case Arr(_) => true
    case File(_, _) => true
  }

  // ---------------------------------------------------------------------------
  // Characters and strings

  /** WhiteSpace or LineTerminator: what `\s` matches and what String.prototype.trim removes. */
  predicate IsWhitespace(c: char) {
    var n := c as int;
    n == 0x09 || n == 0x0A || n == 0x0B || n == 0x0C || n == 0x0D || n == 0x20
    || n == 0xA0 || n == 0x1680 || (0x2000 <= n <= 0x200A)
    || n == 0x2028 || n == 0x2029 || n == 0x202F || n == 0x205F
    || n == 0x3000 || n == 0xFEFF
  }

  /** LineTerminator: the characters `.` does not match. */
  predicate IsLineTerminator(c: char) {
    var n := c as int;
    n == 0x0A || n == 0x0D || n == 0x2028 || n == 0x2029
  }

  /** Every line terminator is white space for `\s`. */
  lemma LineTerminatorIsWhitespace(c: char)
    ensures IsLineTerminator(c) ==> IsWhitespace(c)
  {
  }

  /** What `\w` matches: [A-Za-z0-9_]. */
  predicate IsWordChar(c: char) {
    ('a' <= c <= 'z') || ('A' <= c <= 'Z') || ('0' <= c <= '9') || c == '_'
  }

  predicate IsDigit(c: char) { '0' <= c <= '9' }

  predicate AllWhitespace(s: string) { forall i :: 0 <= i < |s| ==> IsWhitespace(s[i]) }

  predicate NoLineTerminator(s: string) { forall i :: 0 <= i < |s| ==> !IsLineTerminator(s[i]) }

  /** String.prototype.trimStart. */
  function TrimStart(s: string): string {
    if s == [] || !IsWhitespace(s[0]) then s else TrimStart(s[1..])
  }

  /** String.prototype.trimEnd. */
  function TrimEnd(s: string): string {
    if s == [] || !IsWhitespace(s[|s| - 1]) then s else TrimEnd(s[..|s| - 1])
  }

  /** String.prototype.trim. */
  function Trim(s: string): string {
    TrimEnd(TrimStart(s))
  }

  /** trimStart removes a white-space prefix and stops at the first other character. */
  lemma {:induction false} TrimStartFacts(s: string)
    ensures |TrimStart(s)| <= |s| && TrimStart(s) == s[|s| - |TrimStart(s)|..]
    ensures AllWhitespace(s[..|s| - |TrimStart(s)|])
    ensures TrimStart(s) == [] || !IsWhitespace(TrimStart(s)[0])
    decreases |s|
  {
    if s != [] && IsWhitespace(s[0]) {
      TrimStartFacts(s[1..]);
      var d := |s| - |TrimStart(s)|;
      assert forall k :: 1 <= k < d ==> s[..d][k] == s[1..][..d - 1][k - 1];
    }
  }

  /** trimEnd removes a white-space suffix and stops at the last other character. */
  lemma {:induction false} TrimEndFacts(s: string)
    ensures |TrimEnd(s)| <= |s| && TrimEnd(s) == s[..|TrimEnd(s)|]
    ensures AllWhitespace(s[|TrimEnd(s)|..])
    ensures TrimEnd(s) == [] || !IsWhitespace(TrimEnd(s)[|TrimEnd(s)| - 1])
    decreases |s|
  {
    if s != [] && IsWhitespace(s[|s| - 1]) {
      var s' := s[..|s| - 1];
      TrimEndFacts(s');
      var d := |TrimEnd(s)|;
      assert forall k :: 0 <= k < |s'| - d ==> s[d..][k] == s'[d..][k];
    }
  }

  /** trim leaves nothing exactly when the text is all white space, and otherwise leaves no white space at either end. */
  lemma TrimFacts(s: string)
    ensures Trim(s) == [] || (!IsWhitespace(Trim(s)[0]) && !IsWhitespace(Trim(s)[|Trim(s)| - 1]))
    ensures Trim(s) == [] <==> AllWhitespace(s)
  {
    var u := TrimStart(s);
    var t := TrimEnd(u);
    TrimStartFacts(s);
    TrimEndFacts(u);
    assert AllWhitespace(s) ==> u == [] by {
      assert u != [] ==> u[0] == s[|s| - |u|];
    }
    assert t == [] ==> AllWhitespace(s) by {
      assert t == [] ==> u[|t|..] == u;
      assert s == s[..|s| - |u|] + u;
    }
    assert t != [] ==> t[0] == u[0];
  }

  /** `s.startsWith(p)`. */
  predicate StartsWith(s: string, p: string) { |p| <= |s| && s[..|p|] == p }

  /** `s.endsWith(p)`. */
  predicate EndsWith(s: string, p: string) { |p| <= |s| && s[|s| - |p|..] == p }

  /** `s.includes(sub)`. */
  predicate Contains(s: string, sub: string)
    decreases |s|
  {
    StartsWith(s, sub) || (s != [] && Contains(s[1..], sub))
  }

  /** The separator of an AND-chained showWhen expression. */
  const AndToken: string := "&&"

  /** `s.split("&&")`: the pieces between the non-overlapping occurrences of "&&", found left to right. */
  function SplitAnd(s: string): (r: seq<string>)
    ensures |r| >= 1
    ensures JoinAnd(r) == s
    decreases |s|
  {
    if |s| < 2 then [s]
    else if s[..2] == AndToken then
      assert s == s[..2] + s[2..];
      [""] + SplitAnd(s[2..])
    else
      var rest := SplitAnd(s[1..]);
      assert s == [s[0]] + s[1..];
      JoinCons(s[0], rest);
      [[s[0]] + rest[0]] + rest[1..]
  }

  /** Putting a character in front of the first piece puts it in front of the joined text. */
  lemma JoinCons(c: char, pieces: seq<string>)
    requires |pieces| >= 1
    ensures JoinAnd([[c] + pieces[0]] + pieces[1..]) == [c] + JoinAnd(pieces)
  {
    var first := [[c] + pieces[0]] + pieces[1..];
    assert first[0] == [c] + pieces[0] && first[1..] == pieces[1..];
    if |pieces| > 1 {
      var rest := JoinAnd(pieces[1..]);
      assert JoinAnd(first) == ([c] + pieces[0]) + AndToken + rest;
      ConcatAssoc([c], pieces[0], AndToken);
      ConcatAssoc([c], pieces[0] + AndToken, rest);
    }
  }

  /** Joining texts is associative. */
  lemma ConcatAssoc(x: string, y: string, z: string)
    ensures (x + y) + z == x + (y + z)
  {
  }

  /** The inverse of SplitAnd: the pieces joined by "&&". */
  function JoinAnd(pieces: seq<string>): string
    requires |pieces| >= 1
  {
    if |pieces| == 1 then pieces[0] else pieces[0] + AndToken + JoinAnd(pieces[1..])
  }

  /** Array.prototype.join. */
  function Join(items: seq<string>, sep: string): string {
    if items == [] then ""
    else if |items| == 1 then items[0]
    else items[0] + sep + Join(items[1..], sep)
  }

  /** `s.length`: the number of UTF-16 code units, so a character outside the Basic Multilingual Plane counts twice. */
  function Utf16Length(s: string): (n: nat)
    ensures |s| <= n <= 2 * |s|
  {
    if s == [] then 0 else (if s[0] as int > 0xFFFF then 2 else 1) + Utf16Length(s[1..])
  }

  /** String.prototype.toLowerCase on ASCII: upper-case ASCII letters become lower case, every other character is kept. */
  function ToLowerAscii(s: string): (r: string)
    ensures |r| == |s|
    ensures forall i :: 0 <= i < |s| ==> r[i] == (if 'A' <= s[i] <= 'Z' then (s[i] as int + 32) as char else s[i])
  {
    if s == [] then [] else [if 'A' <= s[0] <= 'Z' then (s[0] as int + 32) as char else s[0]] + ToLowerAscii(s[1..])
  }

  /** Lowering twice is lowering once. */
  lemma LowerIdempotent(s: string)
    ensures ToLowerAscii(ToLowerAscii(s)) == ToLowerAscii(s)
  {
    var t := ToLowerAscii(s);
    assert forall i :: 0 <= i < |t| ==> ToLowerAscii(t)[i] == t[i];
  }
}
