# Thar Draw lucky-draw form, modelled in Dafny

Thar Draw is a progressive web app for a lucky draw. A participant fills in a form that
is described by a JSON schema, gets a ticket, pays a fixed entry price at a simulated
checkout, and then sees the ticket on a dashboard. A WhatsApp confirmation can be sent.
Everything is kept in the browser's `localStorage`.

This project models the core of the app and proves properties of it:

- **the `showWhen` language** (`src/lib/eval.ts`): conditions such as `age > 18` and
  `a > 1 && b == 'x'` decide whether a field is shown;
  - the regular expressions are modelled character by character, from the way they
    backtrack;
  - JavaScript's loose equality, `ToNumber` and the Number order (with NaN) are written
    out in `js.dfy`;
- **the schema** (`src/lib/schema.ts`): field, action and form types; the default schema;
  the validation rule each field contributes;
- **the field controls** (`src/components/FieldControls`): what each renders and the
  register options it passes;
- **the form** (`src/components/DynamicForm.tsx`): which control renders each field; the
  progress bar; the submit handler with its after-submit actions;
- **the two stores** (`src/lib/storage.ts`, `src/lib/db.ts`): the schema slots, the
  submissions, the user id and the tickets;
- **the pages**: ticket-created, checkout with its payment modal, and the dashboard;
- **the WhatsApp confirmation** (`src/lib/whatsapp.ts`): the message text and the link
  that sends it.

How the model is built:

- **Host conversions are parameters.** What the JavaScript host or a library computes
  and the model does not define is a field of `Js.Host`:
  - `StringToNumber` and `Number::toString`;
  - whether `new RegExp` accepts a schema's pattern (a pattern it rejects throws a `SyntaxError`,
    modelled as `Threw`), and what an accepted pattern matches;
  - zod's e-mail check;
  - `Date.parse`;
  - `encodeURIComponent`.
- **`localStorage` is a class**, `LocalStore.LocalStorage`:
  - a map of items;
  - a flag that says whether `setItem` succeeds.
  - `JSON.stringify` followed by `JSON.parse` is the identity on the documents the stores
    write.
- **Clocks and id generators are parameters.** The current time, `uuid()`,
  `ticketId()` and `shortId()` are passed in as values.
- **React state becomes fields.** A component's state variables are fields of a class,
  and its event handlers are methods on that class.

## Model

| member | source | states |
|---|---|---|
| Eval.SkipWord | src/lib/eval.ts:15 | where the `\w+` of the basic pattern stops: at the end of the maximal run of word characters |
| Eval.SkipSpace | src/lib/eval.ts:15 | where a `\s*` stops: at the end of the maximal run of white space |
| Eval.LiteralOf | src/lib/eval.ts:15 | what `(.+)` leaves after the operator: the trimmed rest when it has a non-blank character and no line terminator; it is never empty |
| Eval.MatchOperator | src/lib/eval.ts:15 | the operator alternatives are tried in the pattern's order; the one found starts the text, and a non-empty literal on one line follows it |
| Eval.MatchBasic | src/lib/eval.ts:15-22 | a match's field is the word after the leading white space, and its literal is non-empty and on one line |
| Eval.TrimStartIsSkip | src/lib/eval.ts:15 | `trimStart` removes exactly the run of white space the pattern's leading `\s*` skips |
| Eval.Unquote | src/lib/eval.ts:29-32 | `slice(1, -1)`: the text without its first and last character, and empty for texts shorter than two |
| Eval.ParseLiteral | src/lib/eval.ts:26-49 | a quoted literal becomes its inner string; otherwise a literal that converts to a number becomes that number; otherwise `true`, `false`, `null` and `undefined` become those values; anything else stays a string; the result is always a primitive |
| Eval.IsQuoted | src/lib/eval.ts:29-30 | a literal is quoted when it starts and ends with a double quote, or starts and ends with a single quote; a lone quote character counts, and Eval.Unquote then leaves the empty string |
| Eval.Compare | src/lib/eval.ts:52-64 | `==` and `!=` are loose equality and its negation, and the four orderings compare both sides converted to numbers; its properties are Eval.NotEqualIsNegation, Eval.AbsentFieldOrdersFalse and the Js equality and ordering lemmas |
| Eval.Holds | src/lib/eval.ts:22-64 | a parsed condition holds when its operator relates the field's value to the parsed literal; Eval.EvaluateRendered shows that a written condition evaluates to it |
| Eval.EvaluateShowWhen | src/lib/eval.ts:7-73 | a blank expression and one the basic pattern rejects give true, and otherwise the parsed condition decides; Eval.BlankShows, Eval.UnmatchedFailsOpen and Eval.EvaluateRendered state these cases |
| Eval.EvaluateComplexShowWhen | src/lib/eval.ts:79-95 | a blank expression gives true, and otherwise every trimmed piece of the `&&` split must evaluate to true; Eval.ComplexOfRendered and Eval.ShowConjunction state it on written conjunctions |
| Eval.ShouldShowField | src/lib/eval.ts:100-112 | no or empty showWhen shows the field, a text containing `&&` takes the AND path, and any other text the simple one; Eval.ShowSingle and Eval.ShowSeveral state both paths |
| Eval.BlankShows | src/lib/eval.ts:11-112 | a blank expression shows the field in every entry point, whatever the values |
| Eval.UnmatchedFailsOpen | src/lib/eval.ts:17-20 | an expression the basic pattern rejects evaluates to true (fails open) |
| Eval.AbsentFieldOrdersFalse | src/lib/eval.ts:57-64 | an ordering condition on a field with no value evaluates to false, because undefined converts to NaN |
| Eval.MatchedIsNotBlank | src/lib/eval.ts:11-15 | a text the basic pattern matches is not blank |
| Eval.AbsentFieldFails | src/lib/eval.ts:57-64 | an ordering condition on an absent field does not hold |
| Eval.NotEqualIsNegation | src/lib/eval.ts:53-56 | `!=` always gives the opposite of `==` on the same field and literal |
| Eval.TrimPadded | src/lib/eval.ts:87 | `trim` removes exactly the white space around a text whose ends are not white space |
| Eval.LiteralAfterSpace | src/lib/eval.ts:15 | a literal written after one space is read back unchanged |
| Eval.OperatorRendered | src/lib/eval.ts:15 | on an operator written with one space after it, the alternatives pick that operator and the literal after it, also where `>` or `<` is a prefix of `>=` or `<=` |
| Eval.ParseRender | src/lib/eval.ts:15-22 | parsing a well-formed condition written as `field op literal` gives the same condition back |
| Eval.EvaluateRendered | src/lib/eval.ts:7-73 | a written condition evaluates to its meaning under any values |
| Eval.RenderNoAnd | src/lib/eval.ts:87 | a written conjunct contains no `&&` |
| Eval.SplitAtFirst | src/lib/eval.ts:87 | `split('&&')` cuts at the first `&&` when the text before it has none and does not end with `&` |
| Eval.SplitNone | src/lib/eval.ts:87 | a text without `&&` splits into itself alone |
| Eval.TrimAllCons | src/lib/eval.ts:87 | `.map(s => s.trim())` trims the first piece and then maps the rest |
| Eval.RendersOf | src/lib/eval.ts:87 | one written text per condition, in order |
| Eval.RenderedConjunct | src/lib/eval.ts:87 | a written conjunct has no `&&` and is not white space at either end, so `trim` keeps it whole |
| Eval.SplitRenderAll | src/lib/eval.ts:87 | splitting a written conjunction at `&&` and trimming the pieces gives back each condition's text, in order |
| Eval.NoAndNotContains | src/lib/eval.ts:107 | a text without two adjacent ampersands does not `includes('&&')` |
| Eval.RenderAllContainsAnd | src/lib/eval.ts:107 | two or more written conditions joined by ` && ` contain `&&`, so they take the AND path |
| Eval.ComplexOfRendered | src/lib/eval.ts:79-95 | when the trimmed pieces are the written conditions, the AND path holds exactly when every condition holds |
| Eval.ShowSingle | src/lib/eval.ts:100-112 | a single written condition takes the simple path and shows the field exactly when the condition holds |
| Eval.ShowSeveral | src/lib/eval.ts:100-112 | a written conjunction shows the field exactly when every one of its conditions holds |
| Eval.ConjunctsWellFormed | src/lib/eval.ts:79-95 | every condition of a conjunction is well formed |
| Eval.ShowConjunction | src/lib/eval.ts:100-112 | `shouldShowField` on a written conjunction is the AND of its conditions, the first and all the rest |
| Eval.AgeExample | src/lib/eval.ts:7-73 | `age > 18` shows the field for 20, hides it for 10, and hides it when age has no value |
| Eval.CityExample | src/lib/eval.ts:26-56 | `city == 'mumbai'` shows the field when city is `mumbai` |
| Eval.MalformedExample | src/lib/eval.ts:17-20 | `???` shows the field whatever the values |
| Eval.ConjunctionExample | src/lib/eval.ts:79-112 | `a > 1 && b == 'x'` shows the field exactly when a exceeds 1 and b is `x` |
| Js.Get | src/lib/eval.ts:23 | reading a key the record does not hold gives undefined, and a key it holds gives its value (own keys; inherited `Object.prototype` members are left out) |
| Js.ToPrimitive | src/lib/eval.ts:53-64 | the result is always a primitive; a primitive is kept; an array or a File becomes a string |
| Js.ToText | src/lib/whatsapp.ts:49-80 | a string is inserted into a template literal as it is |
| Js.ToNumber | src/lib/eval.ts:57-64 | undefined converts to NaN, null to 0, and a number to itself |
| Js.NumberLessThan | src/lib/eval.ts:57-64 | the comparison is undefined exactly when an operand is NaN, and a strict "less than" never holds between equal numbers |
| Js.NaNOrdersNothing | src/lib/eval.ts:57-64 | `>`, `<`, `>=` and `<=` are all false when an operand is NaN |
| Js.OrderIsTotalWithoutNaN | src/lib/eval.ts:57-64 | without NaN, `>=` is the negation of `<`, `<=` the negation of `>`, and `<` is `>` with the operands swapped |
| Js.NullishEqualsOnlyNullish | src/lib/eval.ts:53-56 | with `==`, null and undefined equal each other and nothing else |
| Js.NaNEqualsNothing | src/lib/eval.ts:53-56 | with `==`, NaN equals nothing, not even NaN |
| Js.StringNumberEquality | src/lib/eval.ts:53-56 | a string `==` a number exactly when the string converts to that number, in either order |
| Js.LooselyEqualSymmetric | src/lib/eval.ts:53-56 | on primitives `==` does not depend on the order of its operands |
| Js.LooselyEqual | src/lib/eval.ts:53-56 | IsLooselyEqual of ECMA-262 section 7.2.14 for a primitive right operand, step by step; its properties are Js.NullishEqualsOnlyNullish, Js.NaNEqualsNothing, Js.StringNumberEquality and Js.LooselyEqualSymmetric |
| Js.Truthy | src/lib/whatsapp.ts:57-68 | ToBoolean: the empty string, NaN, zero, false, null and undefined are falsy, and everything else is truthy; WhatsApp.OrNotAvailable, WhatsApp.EmailLine and WhatsApp.PaymentSection use it |
| Js.IsWhitespace | src/lib/eval.ts:15 | the WhiteSpace and LineTerminator code points of ECMA-262 sections 12.2 and 12.3, which `\s` matches and `trim` removes |
| Js.Trim | src/lib/eval.ts:87 | `trim` is `trimStart` then `trimEnd`; Js.TrimFacts states what it leaves |
| Js.LineTerminatorIsWhitespace | src/lib/eval.ts:15 | every line terminator is matched by `\s` |
| Js.TrimStartFacts | src/lib/eval.ts:87 | `trimStart` removes a white-space prefix and stops at the first other character |
| Js.TrimEndFacts | src/lib/eval.ts:87 | `trimEnd` removes a white-space suffix and stops at the last other character |
| Js.TrimFacts | src/lib/eval.ts:87 | `trim` leaves nothing exactly when the text is all white space, and otherwise leaves no white space at either end |
| Js.SplitAnd | src/lib/eval.ts:87 | `split('&&')` gives at least one piece, and joining the pieces with `&&` gives back the text |
| Js.Utf16Length | src/lib/schema.ts:226-236 | `length` counts UTF-16 code units: at least one and at most two per character |
| Js.ToLowerAscii | src/components/FieldControls/FileField.tsx:42 | `toLowerCase` restricted to ASCII: the length is kept and exactly the upper-case ASCII letters are lowered; this is all that the `photo` and `selfie` tests can see of a label written in ASCII |
| Js.LowerIdempotent | src/components/FieldControls/FileField.tsx:42 | lowering an already lowered text changes nothing |
| Dependencies.FirstOp | src/lib/eval.ts:124 | the operator found is one of the alternatives and starts the text |
| Dependencies.FirstOpNone | src/lib/eval.ts:124 | no operator is found exactly when no alternative starts the text |
| Dependencies.MatchAt | src/lib/eval.ts:124 | a match of the global pattern once `\b` holds: the whole run of word characters, the white space after it, then the first operator alternative that fits; Dependencies.MatchAtFacts states that the match is a word at the start of the text and reaches past it |
| Dependencies.Matches | src/lib/eval.ts:124 | the words the global pattern finds from the start of the expression, each a word (Dependencies.Scan); Dependencies.RenderedMatches gives them on written conjunctions |
| Dependencies.OpStartsWithOpChar | src/lib/eval.ts:124 | every operator begins with one of `=!<>` |
| Dependencies.Scan | src/lib/eval.ts:124 | every match the global pattern finds is a word |
| Dependencies.Dedup | src/lib/eval.ts:129-131 | the result holds exactly the values of the list, each once, and is no longer than the list |
| Dependencies.DedupOfDistinct | src/lib/eval.ts:129-131 | a list without repeats is kept as it is |
| Dependencies.DedupIdempotent | src/lib/eval.ts:129-131 | removing duplicates twice changes nothing more |
| Dependencies.DedupPrefix | src/lib/eval.ts:129-131 | first-occurrence order: the result for a prefix of the list is a prefix of the result for the list |
| Dependencies.GetFieldDependencies | src/lib/eval.ts:118-136 | the loop returns the words the global pattern captures in front of an operator, each once, in order of first appearance |
| Dependencies.BlankHasNoMatches | src/lib/eval.ts:124 | white space alone names no field |
| Dependencies.NoOperatorNoMatches | src/lib/eval.ts:124 | a text with none of `=!<>` names no field |
| Dependencies.FirstOpRendered | src/lib/eval.ts:124 | on an operator written with a space after it, the alternatives pick that operator |
| Dependencies.Fields | src/lib/eval.ts:118-136 | the field names of a list of conditions, in order |
| Dependencies.ScanRendered | src/lib/eval.ts:124-128 | a written condition contributes its field, and the search goes on after the operator |
| Dependencies.RenderedMatches | src/lib/eval.ts:118-136 | the fields a written conjunction depends on are its conditions' fields, in order, when no literal holds an operator character |
| Validation.ComplexStep | src/lib/eval.ts:149-150 | one character of the complex pattern's automaton: the start position is left, and `.` keeps the body on anything but a line terminator |
| Validation.ComplexRun | src/lib/eval.ts:150 | the positions of the complex pattern reachable after reading a text, one character at a time; Validation.BodyPersists states what a run on one line keeps |
| Validation.ComplexMatch | src/lib/eval.ts:150 | `complexPattern.test`: the run ends inside a `.+`; Validation.ComplexMatchesOneLine and Validation.ComplexNeedsText give exactly the non-empty texts on one line |
| Validation.BasicMatch | src/lib/eval.ts:149 | `basicPattern.test`: the basic pattern, the one `evaluateShowWhen` uses, matches |
| Validation.ValidationOf | src/lib/eval.ts:141-178 | blank is valid; a text neither pattern matches gets the format error; otherwise the pieces decide (Validation.CheckConditions), and Validation.ValidateShowWhenExpression computes it |
| Validation.BodyPersists | src/lib/eval.ts:149-150 | once inside a `.+`, text on one line stays there |
| Validation.ComplexMatchesOneLine | src/lib/eval.ts:149-150 | every non-empty text on one line matches the complex pattern |
| Validation.ComplexNeedsText | src/lib/eval.ts:149-150 | the empty text does not match the complex pattern |
| Validation.CheckConditions | src/lib/eval.ts:160-171 | the pieces are valid exactly when every one matches the basic pattern, and exactly then no error is given |
| Validation.FirstFailureReported | src/lib/eval.ts:160-169 | a rejection quotes the first piece that fails the basic pattern |
| Validation.ValidateShowWhenExpression | src/lib/eval.ts:141-178 | the loop gives the result of the blank check, the format check and the piece check, in that order |
| Validation.BlankIsValid | src/lib/eval.ts:145 | a blank expression is valid |
| Validation.OneLineChecksPieces | src/lib/eval.ts:149-169 | on one line the format check never fires, and only the pieces decide |
| Validation.ValidConjunctionEvaluates | src/lib/eval.ts:79-178 | every piece of a valid expression is a condition, so none fails open; the AND path holds exactly when every piece's condition holds |
| Validation.RenderAllOneLine | src/lib/eval.ts:149-150 | a written conjunction has no line terminator |
| Validation.RenderedIsValid | src/lib/eval.ts:141-178 | every written conjunction of well-formed conditions is valid |
| Validation.RenderedPiecesMatch | src/lib/eval.ts:160-169 | every piece of a written conjunction matches the basic pattern |
| Validation.MalformedMessage | src/lib/eval.ts:160-169 | `???` is rejected with the message `Invalid condition: "???"` |
| Schema.DefaultSchemaShape | src/lib/schema.ts:75-182 | the default schema has ten fields with distinct ids; after submitting it stores the entry under `form_submission` and then navigates to `/ticket-created` |
| Schema.BoundNumber | src/lib/schema.ts:202-210 | `Number(min)`: a number bound is kept, and a string bound is converted (possibly to NaN) |
| Schema.BaseRule | src/lib/schema.ts:195-237 | the rule of each kind before `.optional()`: e-mail, phone pattern, number with the converted bounds, date, string array, boolean, file, and the string rule for every other kind |
| Schema.StringRuleOf | src/lib/schema.ts:226-236 | the default branch: a pattern exactly when the regex is non-empty, and length bounds exactly when min or max is a number; Schema.TextRuleAccepts states what it accepts |
| Schema.RuleTable | src/lib/schema.ts:185-247 | the table `generateZodSchema` builds when no pattern throws; Schema.RuleTableKeys and Schema.LastRuleWins state its keys and its values |
| Schema.Accepts | src/lib/schema.ts:195-241 | what each zod rule lets through; Schema.OptionalAcceptsAbsent, Schema.RequiredRejectsAbsent and the per-kind lemmas state it |
| Schema.FormValid | src/lib/schema.ts:246 | `z.object(table)`: every id in the table accepts the record's value for it; Schema.ValidFormHasRequired uses it |
| Schema.RuleFor | src/lib/schema.ts:187-241 | hidden, info and divider fields get no rule; every other field gets its kind's rule, made optional exactly when the field is not required (a field whose pattern does not compile never gets here: Schema.GenerateRules throws first) |
| Schema.FieldRule | src/lib/schema.ts:188-244 | the callback on one field throws exactly when the field is text-like and its non-empty regex is not a valid pattern; otherwise it gives no rule for hidden, info and divider fields and the field's rule for every other kind |
| Schema.GenerateRules | src/lib/schema.ts:185-247 | it throws exactly when some text-like field has a non-empty regex that is not a valid pattern (`new RegExp` at line 229); otherwise the loop builds the table of every field's rule, later fields winning |
| Schema.RuleTableKeys | src/lib/schema.ts:185-247 | an id is in the table exactly when some field with that id has a kind that carries a rule |
| Schema.LastRuleWins | src/lib/schema.ts:243 | the rule under an id is that of the last field with that id that carries a rule |
| Schema.OptionalAcceptsAbsent | src/lib/schema.ts:239-241 | a field that is not required accepts a missing value |
| Schema.RequiredRejectsAbsent | src/lib/schema.ts:187-236 | a required field rejects a missing value, whatever its kind |
| Schema.ValidFormHasRequired | src/lib/schema.ts:239-246 | a record the resolver's object accepts holds a value for every required field whose rule is the last under its id |
| Schema.PhoneRuleAccepts | src/lib/schema.ts:199-201 | a required phone field accepts exactly the strings of `^[\+]?[1-9][\d]{0,15}$` |
| Schema.PhoneTextParts | src/lib/schema.ts:199-201 | the phone pattern piece by piece: an optional plus, a digit other than zero, then at most fifteen digits |
| Schema.PhoneTextNeedsDigit | src/lib/schema.ts:199-201 | the empty string and a lone plus are not phone numbers |
| Schema.NumberRuleBounds | src/lib/schema.ts:202-210 | a number field accepts a value exactly when it converts to a number within `Number(min)` and `Number(max)` |
| Schema.NumberRuleRejectsNaN | src/lib/schema.ts:202-210 | a required number field rejects what converts to NaN |
| Schema.TextRuleAccepts | src/lib/schema.ts:226-236 | a required text-like field accepts exactly the strings whose UTF-16 length lies within the number bounds and that match a non-empty regex when there is one |
| Schema.FileRuleAccepts | src/lib/schema.ts:220-225 | an optional file field accepts anything; a required one accepts exactly a File or a non-empty string |
| Controls.LabelOf | src/components/FieldControls/TextField.tsx:18-23 | a label appears exactly when the field has a non-empty label; it shows that text, with the asterisk exactly when the field is required |
| Controls.HintOf | src/components/FieldControls/TextField.tsx:53-55 | a hint appears exactly when the field has a non-empty hint |
| Controls.ErrorTextOf | src/components/FieldControls/TextField.tsx:57-59 | error text appears exactly when there is an error, and it is the error's message |
| Controls.RequiredMessage | src/components/FieldControls/TextField.tsx:31 | there is a required message exactly when the field is required, and it reads `<label or id> is required` |
| TextField.RulesOf | src/components/FieldControls/TextField.tsx:31-43 | building the options throws exactly when there is a non-empty regex that is not a valid pattern; otherwise a pattern check exactly when there is a non-empty regex, with an `Invalid … format` message, and minLength and maxLength exactly when min or max is a number |
| TextField.Render | src/components/FieldControls/TextField.tsx:18-59 | the render throws exactly when the register options do; otherwise a textarea of four rows exactly for textarea fields, else an input of the field's type, with the field's label, hint, error and register options |
| TextField.AgreesWithSchema | src/components/FieldControls/TextField.tsx:31-43 | on a text-like field the control throws on exactly the patterns that make the resolver (schema.ts, lines 226-236) throw, and otherwise its length bounds and pattern are the ones the resolver's string rule checks |
| NumberField.NumericBound | src/components/FieldControls/NumberField.tsx:26-27 | a bound is kept exactly when it is a number |
| NumberField.Render | src/components/FieldControls/NumberField.tsx:15-53 | a number input with `valueAsNumber`; the HTML min and max, and the min and max rules with their messages, appear exactly for number bounds |
| NumberField.StringMinOnlyInResolver | src/components/FieldControls/NumberField.tsx:31-34 | a `min` given as a string sets no bound on the control, yet the resolver (schema.ts, lines 202-210) converts it and checks it |
| NumberField.NumericMinAgrees | src/components/FieldControls/NumberField.tsx:31-34 | on a number `min`, the control and the resolver check the same bound |
| DateField.TextualBound | src/components/FieldControls/DateField.tsx:27-34 | a bound is kept exactly when it is a string |
| DateField.Render | src/components/FieldControls/DateField.tsx:24-50 | a date input; min and max rules with their `Date must be after/before` messages appear exactly for string bounds |
| DateField.NumericBoundsIgnored | src/components/FieldControls/DateField.tsx:27-34 | number bounds are ignored: the control renders as if the field had none |
| MultiSelectField.Remove | src/components/FieldControls/MultiSelectField.tsx:46 | filtering removes every occurrence of the value and keeps every other value as often as before |
| MultiSelectField.Checked | src/components/FieldControls/MultiSelectField.tsx:39 | a box is ticked exactly when the array is there and holds the option's value |
| MultiSelectField.Toggle | src/components/FieldControls/MultiSelectField.tsx:40-49 | ticking appends the value to the array (an absent one counts as empty), so the box is then checked and the value counted once more; clearing removes every occurrence and keeps every other value as often as before |
| MultiSelectField.Render | src/components/FieldControls/MultiSelectField.tsx:31-56 | one checkbox per option, in declared order, ticked exactly when the array holds the option's value; no options, no boxes |
| MultiSelectField.RequiredRule | src/components/FieldControls/MultiSelectField.tsx:26-28 | the controller has a required rule exactly when the field is required, and it reads `<label or id> is required` |
| MultiSelectField.RemoveConcat | src/components/FieldControls/MultiSelectField.tsx:46 | filtering keeps the order: it distributes over concatenation |
| MultiSelectField.RemoveAbsent | src/components/FieldControls/MultiSelectField.tsx:46 | a list without the value is kept as it is |
| MultiSelectField.ToggleChecks | src/components/FieldControls/MultiSelectField.tsx:39-49 | after ticking, the box is checked; after clearing, it is not |
| MultiSelectField.CheckThenUncheck | src/components/FieldControls/MultiSelectField.tsx:40-49 | ticking and then clearing a value the array did not hold gives the array back |
| FileField.Accept | src/components/FieldControls/FileField.tsx:42-65 | `image/*` exactly for fields that ask for a picture, otherwise `*/*` |
| FileField.Caption | src/components/FieldControls/FileField.tsx:84 | `File selected` exactly when a file name is shown, otherwise `Choose file` |
| FileField.SizeHint | src/components/FieldControls/FileField.tsx:87 | the PNG and JPG hint exactly for fields that ask for a picture, otherwise the any-file hint |
| FileField.RequiredRule | src/components/FieldControls/FileField.tsx:56-58 | the controller has a required rule exactly when the field is required, and it reads `<label or id> is required` |
| FileField.IsImage | src/components/FieldControls/FileField.tsx:42 | the field asks for a picture when its id is `selfie` or its lowered label contains `photo` or `selfie`; its partners are Accept, SizeHint and the case lemmas |
| FileField.FileInput.constructor | src/components/FieldControls/FileField.tsx:16-17 | no preview, no file name, and no value |
| FileField.FileInput.HandleFileChange | src/components/FieldControls/FileField.tsx:19-40 | clearing resets the preview and the name and sets the value to null; choosing records the name and hands the file to the form; a non-image clears the preview |
| FileField.SelfieIsImage | src/components/FieldControls/FileField.tsx:42 | the default schema's selfie field asks for a picture |
| FileField.LabelCaseIgnored | src/components/FieldControls/FileField.tsx:42 | two labels that lower to the same text make the same field ask for a picture or not |
| FileField.LoweredLabelSame | src/components/FieldControls/FileField.tsx:42 | a label and its lower-cased form give the same answer |
| FileField.UpperCasePhotoLabel | src/components/FieldControls/FileField.tsx:42 | the label `PHOTO` asks for a picture |
| DynamicForm.ControlFor | src/components/DynamicForm.tsx:69-125 | the text control exactly for text, textarea, email and phone; the info control exactly for info and divider; a hidden input exactly for hidden; nothing exactly for an unknown type |
| DynamicForm.RenderField | src/components/DynamicForm.tsx:56-126 | a field renders exactly when its condition does not hide it and its type is known, and then as its type's control |
| DynamicForm.RenderedFields | src/components/DynamicForm.tsx:241 | `schema.fields.map(renderField)` with the nulls dropped: each rendered field's id and control, in declared order; DynamicForm.RenderedFieldsConcat, DynamicForm.RenderedOne and DynamicForm.RenderedField state it part by part |
| DynamicForm.RenderedFieldsConcat | src/components/DynamicForm.tsx:241 | rendering a list of fields is rendering each part in turn, in order |
| DynamicForm.RenderedOne | src/components/DynamicForm.tsx:56-126 | a single field renders as its id and control, or as nothing |
| DynamicForm.RenderedField | src/components/DynamicForm.tsx:241 | wherever a field sits in the list, it contributes exactly what it renders on its own |
| DynamicForm.VisibleFields | src/components/DynamicForm.tsx:193-198 | the visible fields are exactly the fields that are not hidden, info or divider and whose condition shows them |
| DynamicForm.Counted | src/components/DynamicForm.tsx:193-198 | a field counts towards progress when it is not a hidden, info or divider field and has no condition or one that holds |
| DynamicForm.Completed | src/components/DynamicForm.tsx:200-203 | a watched value is filled in when it is not undefined, not `''` and not null |
| DynamicForm.Progress | src/components/DynamicForm.tsx:205 | the percentage of visible fields that are completed, and 0 with none visible; DynamicForm.ProgressBounds states its range and when it is 100 |
| DynamicForm.CompletedFields | src/components/DynamicForm.tsx:200-203 | the completed fields are exactly the visible ones whose value is not undefined, empty or null; all are completed exactly when every visible field is |
| DynamicForm.ProgressBounds | src/components/DynamicForm.tsx:205 | progress stays within 0..100; it is 100 exactly when there is a visible field and every one is completed, and 0 without visible fields |
| DynamicForm.Percentage | src/components/DynamicForm.tsx:205 | a part of a positive whole is 0..100 percent of it, and 100 only when it is the whole |
| DynamicForm.UnknownFieldStillCounted | src/components/DynamicForm.tsx:122-205 | a field of an unknown type renders nothing, yet counts toward progress, so the bar cannot reach 100 without its value |
| DynamicForm.Merge | src/components/DynamicForm.tsx:133-145 | the merged record has the keys of both; a hidden field wins over the data |
| DynamicForm.ActionEffect | src/components/DynamicForm.tsx:148-176 | a whatsapp action does nothing; a webhook action gives its "not implemented" toast; a localStore action stores the record with `_stored_key`; a navigate action navigates |
| DynamicForm.ActionEffects | src/components/DynamicForm.tsx:148-176 | every action's effects, in declared order; DynamicForm.ActionEffectsConcat and DynamicForm.StoredRecords state it |
| DynamicForm.ActionEffectsConcat | src/components/DynamicForm.tsx:148-176 | actions run in declared order: the effects of a list are those of its parts, in turn |
| DynamicForm.StoredRecords | src/components/DynamicForm.tsx:151-158 | a localStore action with a key stores the merged record with that key added, and nothing else is stored for it |
| DynamicForm.SubmitEffects | src/components/DynamicForm.tsx:128-190 | the actions' effects on the merged record, then onSubmit with it, then one toast; DynamicForm.SubmitOrder states the order and when the toast reports failure |
| DynamicForm.SubmitOrder | src/components/DynamicForm.tsx:128-190 | for every schema, with or without after-submit actions, a submission ends with exactly one toast: success after every action and after onSubmit, or an error when onSubmit throws |
| DynamicForm.SubmitButton | src/components/DynamicForm.tsx:246-252 | disabled exactly while submitting or while the form is invalid; the caption says which |
| DynamicForm.FormState.constructor | src/components/DynamicForm.tsx:37 | the form starts out not submitting |
| DynamicForm.FormState.HandleFormSubmit | src/components/DynamicForm.tsx:128-190 | the submission's effects are those of the schema's actions on the merged record, then onSubmit and the toast; the flag is lowered again at the end |
| LocalStore.LocalStorage.SetItem | src/lib/storage.ts:50 | writes the item under the key exactly when writes succeed, and otherwise throws and changes nothing |
| LocalStore.LocalStorage.RemoveItem | src/lib/storage.ts:130 | removes that key and no other, and never throws |
| Storage.StoredSchema | src/lib/storage.ts:28-37 | a missing or unparsable slot holds no schema; a slot holding a serialised schema gives that schema |
| Storage.LoadPublishedSchema | src/lib/storage.ts:12-41 | the schema from the URL when that answers ok with a body; otherwise the stored published schema; otherwise the default schema |
| Storage.SavePublishedSchema | src/lib/storage.ts:46-55 | writes the published slot and nothing else, or throws and changes nothing; afterwards the slot gives the saved schema |
| Storage.LoadDraftSchema | src/lib/storage.ts:60-73 | a schema comes back exactly when the draft slot holds a serialised schema, and then it is that schema |
| Storage.SaveDraftSchema | src/lib/storage.ts:78-87 | writes the draft slot and nothing else, or throws and changes nothing; loading the draft then gives the saved schema back |
| Storage.GetFormSubmissions | src/lib/storage.ts:111-121 | the stored list, or an empty list when the slot is missing or unparsable |
| Storage.Stamped | src/lib/storage.ts:97-100 | the record with `submittedAt` set to the time and every other key kept |
| Storage.StoreFormSubmission | src/lib/storage.ts:92-106 | appends the stamped record after every earlier submission; a refused write is swallowed and changes nothing |
| Storage.ClearAllStoredData | src/lib/storage.ts:126-132 | removes the three slots and nothing else |
| Storage.CheckStorageAvailability | src/lib/storage.ts:137-153 | available exactly when writes succeed; the store then only loses the test key; otherwise it is unchanged and the error is the thrown message or `Storage not available` |
| Db.StoredUserId | src/lib/db.ts:26-27 | the user id is stored exactly when its slot holds a non-empty text |
| Db.AfterUserId | src/lib/db.ts:26-30 | apart from the user-id slot, every slot is kept; nothing changes when an id is stored or the store refuses writes; once `getUserId` has answered with a non-empty id, that id is the stored one |
| Db.GetUserId | src/lib/db.ts:23-32 | the stored id, or a fresh id that is stored first; it throws only when that write is refused |
| Db.UserIdStable | src/lib/db.ts:23-32 | once it has answered with a non-empty id, later calls give the same id, whatever fresh id they are offered, and write nothing |
| Db.UserIdKept | src/lib/db.ts:23-32 | the id answered stays stored, also after the ticket list is rewritten, and creating it leaves the tickets alone |
| Db.GetTickets | src/lib/db.ts:37-46 | the stored list, or an empty list when the slot is missing or unparsable |
| Db.ActiveIndex | src/lib/db.ts:55-59 | none exactly when the user has no ticket; otherwise one of the user's tickets that none of theirs is newer than, and the first such in list order (the sort is stable) |
| Db.ActiveTicket | src/lib/db.ts:55-59 | none exactly when the list holds no ticket of the user; otherwise a ticket of the user in the list that no other ticket of the user is later than |
| Db.NewestIsActive | src/lib/db.ts:55-79 | a ticket appended later than all of its user's tickets becomes that user's active ticket |
| Db.GetActiveTicket | src/lib/db.ts:51-60 | the active ticket of the current user in the stored list, reading the list before the user id, which may be created on the way |
| Db.CreateTicket | src/lib/db.ts:65-83 | a pending ticket without payment reference for the current user, appended to the stored list; throws and changes nothing when the write is refused |
| Db.MarkAll | src/lib/db.ts:99-103 | same length; each ticket with the id gets the status and reference, and every other ticket is unchanged |
| Db.FindFirst | src/lib/db.ts:107 | the first position whose ticket satisfies the test, or none when no ticket does |
| Db.FindById | src/lib/db.ts:107 | none exactly when no ticket has the id; otherwise the first ticket in the list with that id |
| Db.MarkPayment | src/lib/db.ts:88-108 | with no active ticket the list is not written and null comes back; otherwise the marked list is stored and the marked ticket comes back; a refused write throws and changes nothing |
| Db.MarkOnlyActive | src/lib/db.ts:99-107 | with distinct ids, marking one ticket changes that ticket alone, and finding it by id afterwards gives it with the new status and reference |
| Db.GetTicketById | src/lib/db.ts:113-116 | the first stored ticket with that ticket id, and null exactly when there is none |
| TicketCreated.TicketCreatedPage.constructor | src/app/ticket-created/page.tsx:24-25 | no ticket yet, and loading |
| TicketCreated.TicketCreatedPage.Mount | src/app/ticket-created/page.tsx:30-47 | without seed or uid it navigates home and touches nothing; it reuses the active ticket when its seed matches, and otherwise creates and stores a pending ticket for the stored user, changing no other slot than the user id and the list; a store that throws ends the effect; afterwards the page's ticket is the user's active one |
| TicketCreated.TicketCreatedPage.MountTwice | src/app/ticket-created/page.tsx:30-47 | running the effect twice with the same seed creates at most one ticket |
| Checkout.Amount | src/app/checkout/page.tsx:45 | the configured price when it converts to a number other than 0 and NaN, and 499 otherwise |
| Checkout.CheckoutPage.constructor | src/app/checkout/page.tsx:12-13 | no ticket, and the modal closed |
| Checkout.CheckoutPage.Mount | src/app/checkout/page.tsx:15-28 | no active ticket navigates home and a paid one to the dashboard, both keeping the page empty; any other active ticket is shown |
| Checkout.CheckoutPage.OpenModal | src/app/checkout/page.tsx:85 | the pay button opens the modal |
| Checkout.CheckoutPage.CloseModal | src/app/checkout/page.tsx:95 | the modal's onClose shuts it |
| Checkout.CheckoutPage.HandlePaymentSuccess | src/app/checkout/page.tsx:30-33 | closes the modal and navigates to the dashboard |
| CheckoutModal.PaymentRef | src/components/CheckoutModal.tsx:38 | the reference is `pay_demo_` followed by the short id, and both can be read back from it |
| CheckoutModal.Modal.constructor | src/components/CheckoutModal.tsx:16-21 | not processing, and the three contact fields empty |
| CheckoutModal.Modal.Render | src/components/CheckoutModal.tsx:23-163 | nothing when closed; otherwise the fixed total, the typed contact values, and buttons that are disabled and read `Processing...` exactly while processing |
| CheckoutModal.Modal.HandleInputChange | src/components/CheckoutModal.tsx:25-30 | the named field takes the typed value and no other field changes |
| CheckoutModal.Modal.StartProcessing | src/components/CheckoutModal.tsx:33-47 | either button, up to its delay, raises the processing flag |
| CheckoutModal.Modal.FinishSuccess | src/components/CheckoutModal.tsx:38-43 | the active ticket is marked paid with a `pay_demo_` reference, then the success toast and onSuccess follow; with no active ticket only the user id may be stored; a store that throws stops the handler and changes nothing; no other slot changes |
| CheckoutModal.Modal.FinishFailure | src/components/CheckoutModal.tsx:52-56 | the active ticket is marked failed without reference, then the error toast and onClose follow; with no active ticket only the user id may be stored; a store that throws stops the handler and changes nothing; no other slot changes |
| Dashboard.DashboardPage.constructor | src/app/dashboard/page.tsx:14-15 | no ticket, and loading |
| Dashboard.DashboardPage.Mount | src/app/dashboard/page.tsx:17-26 | no active ticket navigates home and leaves the page loading; otherwise the active ticket is shown and loading ends |
| Dashboard.StatusMessage | src/app/dashboard/page.tsx:53-64 | empty exactly without a ticket |
| Dashboard.StatusMessageDistinguishes | src/app/dashboard/page.tsx:53-64 | two tickets get the same message exactly when they have the same payment status |
| Dashboard.ActionButton | src/app/dashboard/page.tsx:66-91 | a button exactly for a ticket that is not paid, always opening the checkout, reading `Complete Payment` when pending and `Retry Payment` when failed |
| Dashboard.ShareText | src/app/dashboard/page.tsx:33 | a fixed sentence followed by the ticket id, which can be read back from it |
| Dashboard.ClipboardText | src/app/dashboard/page.tsx:42-44 | the share text, then `\n\nJoin here: `, then the origin, each readable back in place |
| Dashboard.HandleShare | src/app/dashboard/page.tsx:28-51 | nothing without a ticket; the share sheet when the browser can share the data, the clipboard otherwise; a failure ends in the error toast; the copied toast appears exactly on the clipboard path |
| WhatsApp.FormatIncomeBracket | src/lib/whatsapp.ts:88-100 | a known bracket key gives its label, and any other text comes back unchanged |
| WhatsApp.FormatIdempotent | src/lib/whatsapp.ts:88-100 | formatting an already formatted bracket changes nothing more |
| WhatsApp.LabelsDistinct | src/lib/whatsapp.ts:88-100 | the seven keys get seven different labels |
| WhatsApp.RenderEnds | src/lib/whatsapp.ts:28-83 | the message starts with its first line's text and ends with its last line's text |
| WhatsApp.RenderAppend | src/lib/whatsapp.ts:28-83 | the message of two runs of lines is their two messages joined |
| WhatsApp.Lines | src/lib/whatsapp.ts:49-80 | the message's lines, section by section: opening, email, reference phone, profile, payment and closing; WhatsApp.EntryTitles and the per-line lemmas state what each holds |
| WhatsApp.Render | src/lib/whatsapp.ts:49-82 | the message is the lines' texts joined in order; WhatsApp.RenderEnds and WhatsApp.RenderAppend state it |
| WhatsApp.AppendLines | src/lib/whatsapp.ts:49-80 | appending line after line with `+=` gives the message followed by the lines' texts |
| WhatsApp.GenerateConfirmationMessage | src/lib/whatsapp.ts:28-83 | the message is the texts of the confirmation's lines, section by section, in order |
| WhatsApp.EntryTitles | src/lib/whatsapp.ts:49-80 | every field line of the message belongs to the opening, the optional lines, the profile or the payment section |
| WhatsApp.EmailLine | src/lib/whatsapp.ts:57-59 | the Email line appears exactly when the email is truthy, and then shows it |
| WhatsApp.ReferencePhoneLine | src/lib/whatsapp.ts:61-63 | the Reference Phone line appears exactly when the reference phone is truthy, and then shows it |
| WhatsApp.HasCarLine | src/lib/whatsapp.ts:65 | the car line reads `Yes` exactly when the answer is the string `yes`, and `No` otherwise |
| WhatsApp.PaymentSection | src/lib/whatsapp.ts:68-73 | the payment reference, the ₹499 amount and the confirmed status appear exactly when there is a payment reference |
| WhatsApp.Framed | src/lib/whatsapp.ts:49-80 | the message opens with the header and closes with the automated-message notice |
| WhatsApp.SendUrl | src/lib/whatsapp.ts:19 | `https://wa.me/`, the recipient, `?text=` and the encoded message; WhatsApp.SendUrlParts splits it back |
| WhatsApp.SendUrlParts | src/lib/whatsapp.ts:18-19 | the link splits back into `https://wa.me/`, the recipient, `?text=` and the encoded message |
| WhatsApp.OrNotAvailable | src/lib/whatsapp.ts:114-119 | a truthy value is kept, and a falsy one becomes `N/A` |
| WhatsApp.ConfirmationOf | src/lib/whatsapp.ts:112-121 | the ticket id as given; name, phone, car answer and income bracket defaulting to `N/A`; email and reference phone as submitted; the payment reference when one is given |
| WhatsApp.TriggerWhatsAppConfirmation | src/lib/whatsapp.ts:106-138 | the link opened goes to the configured number and carries the encoded confirmation built from the form |
| WhatsApp.TriggerDefaults | src/lib/whatsapp.ts:114-119 | a missing name, phone or income bracket shows as `N/A`, and a missing car answer reads `No` |
| WhatsApp.TriggerPayment | src/lib/whatsapp.ts:68-120 | the payment section appears exactly when a non-empty payment reference is passed |

## Left out

- Server-side rendering: every `typeof window === 'undefined'` branch is left out, and the model assumes a browser.
- JSON text: serialising and parsing are the identity on the documents the stores write. A raw (non-JSON) text in a JSON slot counts as unparsable.
- Storage.StoredSchema: when a slot holds a parsable JSON document of another kind, the source casts it and returns it as the schema. The model treats such a slot as holding no schema (the same holds for Storage.GetFormSubmissions and Db.GetTickets).
- Timers and promises: `setTimeout` delays and `await` are not modelled. Each modal handler is split at its delay into the part before it and the part after it (CheckoutModal.Modal.StartProcessing, FinishSuccess, FinishFailure).
- Ids and the clock: `uuid()`, `ticketId()`, `shortId()` and `new Date()` are parameters.
- Db.ActiveIndex: `createdAt` is compared through a `timeOf` parameter that stands for `new Date(..).getTime()`. An unparsable date giving NaN in the sort comparator is not modelled.
- React: batching, re-rendering and effect scheduling are not modelled. Each effect and handler runs to completion on the state as it stands. `router.push` becomes a returned path, and `window.open` becomes the returned link.
- The Select, Radio, Checkbox, Info and Hidden controls: only which control each field maps to is modelled (DynamicForm.ControlFor). What those controls render is not modelled.
- FileField preview: the data URL `FileReader` produces is not modelled. After an image is chosen, the model keeps the old preview (the reader's callback is not modelled).
- CheckoutModal: the page passes an `amount` prop that the modal does not declare. The modal always shows ₹499 (CheckoutModal.Modal.Render).
- WhatsApp.FormatIncomeBracket: a bracket named like an `Object.prototype` member (such as `constructor`) would find that inherited member in the source. The model treats it as an unknown key.
- Js.Get: a record read by a key it does not hold gives undefined. In the source a key named like an `Object.prototype` member (such as `constructor`) finds that inherited member instead. A condition such as `constructor == null` then hides the field in the source and shows it in the model. The same holds for Eval's reads of the watched values, DynamicForm.Completed and DynamicForm.Merge.
- ToLowerAscii: only the ASCII letters A to Z are lowered. JavaScript's `toLowerCase` also lowers other letters (`É` becomes `é`, and `İ` becomes two code units). A label whose non-ASCII capitals spell `photo` or `selfie` once lowered is judged by FileField.IsImage unlike the source.
- DynamicForm: the form calls `generateZodSchema` when it renders, so a pattern that makes Schema.GenerateRules throw aborts the form's render. The form model (DynamicForm.RenderedFields, DynamicForm.FormState) renders as if the resolver had been built.
- Db.StoredUserId: a JSON document in the user-id slot counts as no user id. The source would read its text and take that text as the id.
- encodeURIComponent: it is a parameter (`Js.Host.encodeUri`). The `URIError` it throws on a lone surrogate, and the `catch` in `triggerWhatsAppConfirmation` that logs the error, are not modelled.
- Logging: `console.log`, `console.warn` and `console.error` are not modelled. This includes the sender number `triggerWhatsAppConfirmation` only logs.
- The webhook and whatsapp after-submit actions: they cause no effect in the source beyond the modelled toast and console log (DynamicForm.ActionEffect).
- Host conversions: `StringToNumber`, `Number::toString`, whether `new RegExp` accepts a schema's pattern and what that pattern matches, zod's e-mail check and `Date.parse` are parameters. Their results are not computed.
- Dashboard and checkout markup: the page layout, icons and styling are not modelled. Only the texts, buttons and navigation are.
