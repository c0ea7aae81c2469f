/**
 * The WhatsApp confirmation (src/lib/whatsapp.ts): the confirmation text, built section by
 * section, the income-bracket labels, the defaults the trigger fills in, and the wa.me link
 * that opens the chat with the text filled in.
 */
module WhatsApp {
  import opened Wrappers
  import opened Js

  // ---------------------------------------------------------------------------
  // Income brackets
  // ---------------------------------------------------------------------------

  /** The display label of each known income-bracket key. */
  const BracketLabels: map<string, string> := map[
    "below_5" := "Below \U{20B9}5 LPA",
    "5_to_10" := "\U{20B9}5 LPA - \U{20B9}10 LPA",
    "10_to_20" := "\U{20B9}10 LPA - \U{20B9}20 LPA",
    "20_to_30" := "\U{20B9}20 LPA - \U{20B9}30 LPA",
    "30_to_40" := "\U{20B9}30 LPA - \U{20B9}40 LPA",
    "40_to_50" := "\U{20B9}40 LPA - \U{20B9}50 LPA",
    "above_50" := "\U{20B9}50 LPA+"]

  /** `formatIncomeBracket`: the label of a known key, any other text unchanged. */
  function FormatIncomeBracket(bracket: string): (r: string)
    ensures bracket in BracketLabels ==> r == BracketLabels[bracket]
    ensures bracket !in BracketLabels ==> r == bracket
  {
    if bracket in BracketLabels then BracketLabels[bracket] else bracket
  }

  /** No label is itself a key, so formatting a formatted bracket changes nothing more. */
  lemma FormatIdempotent(bracket: string)
    ensures FormatIncomeBracket(FormatIncomeBracket(bracket)) == FormatIncomeBracket(bracket)
  {
    if bracket in BracketLabels {
      var shown := BracketLabels[bracket];
      assert shown[|shown| - 1] == 'A' || shown[|shown| - 1] == '+';
    }
  }

  /** The seven keys get seven different labels. */
  lemma LabelsDistinct(a: string, b: string)
    requires a in BracketLabels && b in BracketLabels && a != b
    ensures FormatIncomeBracket(a) != FormatIncomeBracket(b)
  {
  }

  // ---------------------------------------------------------------------------
  // The confirmation text
  // ---------------------------------------------------------------------------

  /** The data of a confirmation. The participant fields are form values, inserted into the
      text as template literals insert them. */
  datatype Confirmation = Confirmation(
    ticketId: string,
    fullName: Value,
    phone: Value,
    email: Value,
    referencePhone: Value,
    hasCar: Value,
    incomeBracket: Value,
    paymentRef: Value)


  const Bullet: string := "\U{2022} "
  const Header: string := "\U{1F389} *THAR DRAW - ENTRY CONFIRMATION*\n\n"
  const Notice: string := "_This is an automated confirmation message._"

  /** A line of the confirmation: fixed text, or a bulleted `title: value` entry, followed by
      an empty line when `gap` is set. */
  datatype Line = Fixed(text: string) | Entry(title: string, value: string, gap: bool)

  /** The text a line adds to the message. */
  function Text(line: Line): string {
    match line
    case Fixed(s) => s
    case Entry(t, v, gap) => Bullet + t + ": " + v + (if gap then "\n\n" else "\n")
  }

  /** The opening section: header, the confirmed line, the ticket id, and the participant's
      name and phone. */
  function Opening(h: Host, d: Confirmation): seq<Line> {
    [Fixed(Header),
     Fixed("\U{2705} *Entry Confirmed*\n"),
     Fixed("\U{1F3AB} *Ticket ID:* " + d.ticketId + "\n\n"),
     Fixed("\U{1F464} *Participant Details:*\n"),
     Entry("Name", ToText(h, d.fullName), false),
     Entry("Phone", ToText(h, d.phone), false)]
  }

  /** The email line, present only with a truthy email. */
  function EmailPart(h: Host, d: Confirmation): seq<Line> {
    if Truthy(d.email) then [Entry("Email", ToText(h, d.email), false)] else []
  }

  /** The reference phone line, present only with a truthy reference phone. */
  function ReferencePart(h: Host, d: Confirmation): seq<Line> {
    if Truthy(d.referencePhone) then [Entry("Reference Phone", ToText(h, d.referencePhone), false)] else []
  }

  /** The car and income lines. */
  function Profile(h: Host, d: Confirmation): seq<Line> {
    [Entry("Has Car", if d.hasCar == Str("yes") then "Yes" else "No", false),
     Entry("Income Bracket", FormatIncomeBracket(ToText(h, d.incomeBracket)), true)]
  }

  /** The payment section, present only with a payment reference. */
  function Payment(h: Host, d: Confirmation): seq<Line> {
    if Truthy(d.paymentRef) then
      [Fixed("\U{1F4B3} *Payment Details:*\n"),
       Entry("Payment Ref", ToText(h, d.paymentRef), false),
       Entry("Amount", "\U{20B9}499", false),
       Entry("Status", "Confirmed", true)]
    else []
  }

  /** The closing section: the entry time, the next steps and the notice. */
  function Closing(entryTime: string): seq<Line> {
    [Fixed("\U{1F4C5} *Entry Time:* " + entryTime + "\n\n"),
     Fixed("\U{1F525} *Next Steps:*\n"),
     Fixed(Bullet + "Keep your ticket ID safe\n"),
     Fixed(Bullet + "Winner announcement on social media\n"),
     Fixed(Bullet + "Good luck! \U{1F340}\n\n"),
     Fixed(Notice)]
  }

  /** The lines of the confirmation, in order. `entryTime` is the current time as
      `toLocaleString('en-IN')` prints it. */
  function Lines(h: Host, d: Confirmation, entryTime: string): seq<Line> {
    Opening(h, d) + EmailPart(h, d) + ReferencePart(h, d) + Profile(h, d) + Payment(h, d) + Closing(entryTime)
  }

  /** The texts of the lines, joined. */
  function Render(lines: seq<Line>): string {
    if lines == [] then "" else Render(lines[..|lines| - 1]) + Text(lines[|lines| - 1])
  }

  /** The rendering of a non-empty list starts with its first line's text and ends with its
      last line's. */
  lemma {:induction false} RenderEnds(lines: seq<Line>)
    requires lines != []
    ensures Text(lines[0]) <= Render(lines)
    ensures var r := Render(lines); var last := Text(lines[|lines| - 1]);
      |last| <= |r| && r[|r| - |last|..] == last
  {
    var init := lines[..|lines| - 1];
    if init != [] {
      RenderEnds(init);
      assert init[0] == lines[0];
      var r0 := Render(init);
      assert Render(lines)[..|r0|] == r0;
    }
  }

  /** Rendering distributes over concatenation. */
  lemma {:induction false} RenderAppend(a: seq<Line>, b: seq<Line>)
    ensures Render(a + b) == Render(a) + Render(b)
    decreases |b|
  {
    if b == [] {
      assert a + b == a;
    } else {
      var init := b[..|b| - 1];
      assert (a + b)[..|a + b| - 1] == a + init;
      RenderAppend(a, init);
      ConcatAssoc(Render(a), Render(init), Text(b[|b| - 1]));
    }
  }

  /** Rendering one more line of the list adds that line's text. */
  lemma RenderStep(message: string, lines: seq<Line>, i: nat)
    requires i < |lines|
    ensures message + Render(lines[..i + 1]) == message + Render(lines[..i]) + Text(lines[i])
  {
    assert lines[..i + 1][..i] == lines[..i];
    ConcatAssoc(message, Render(lines[..i]), Text(lines[i]));
  }

  /** Appends the lines' texts to the message, one `+=` per line. */
  method AppendLines(message: string, lines: seq<Line>) returns (r: string)
    ensures r == message + Render(lines)
  {
    r := message;
    for i := 0 to |lines|
      invariant r == message + Render(lines[..i])
    {
      RenderStep(message, lines, i);
      r := r + Text(lines[i]);
    }
    assert lines[..|lines|] == lines;
  }

  /** The rendering of six sections is the six renderings joined. */
  lemma RenderSections(a: seq<Line>, b: seq<Line>, c: seq<Line>, d: seq<Line>, e: seq<Line>, f: seq<Line>)
    ensures Render(a + b + c + d + e + f)
      == Render(a) + Render(b) + Render(c) + Render(d) + Render(e) + Render(f)
  {
    RenderAppend(a, b);
    RenderAppend(a + b, c);
    RenderAppend(a + b + c, d);
    RenderAppend(a + b + c + d, e);
    RenderAppend(a + b + c + d + e, f);
  }

  /** Leaving out an empty section changes nothing. */
  lemma Nothing(message: string)
    ensures message + Render([]) == message
  {
    assert message + "" == message;
  }

  /** `generateConfirmationMessage`: the sections in order, the optional lines and the
      payment section only under their conditions. */
  method GenerateConfirmationMessage(h: Host, d: Confirmation, entryTime: string) returns (message: string)
    ensures message == Render(Lines(h, d, entryTime))
  {
    message := AppendLines("", Opening(h, d));
    if Truthy(d.email) {
      message := AppendLines(message, EmailPart(h, d));
    } else {
      Nothing(message);
    }
    if Truthy(d.referencePhone) {
      message := AppendLines(message, ReferencePart(h, d));
    } else {
      Nothing(message);
    }
    message := AppendLines(message, Profile(h, d));
    if Truthy(d.paymentRef) {
      message := AppendLines(message, Payment(h, d));
    } else {
      Nothing(message);
    }
    message := AppendLines(message, Closing(entryTime));
    RenderSections(Opening(h, d), EmailPart(h, d), ReferencePart(h, d), Profile(h, d), Payment(h, d), Closing(entryTime));
    assert "" + Render(Opening(h, d)) == Render(Opening(h, d));
  }

  // ---------------------------------------------------------------------------
  // Properties of the text
  // ---------------------------------------------------------------------------

  /** There is an entry with that title. */
  predicate HasEntry(lines: seq<Line>, title: string) {
    exists i :: 0 <= i < |lines| && lines[i].Entry? && lines[i].title == title
  }

  /** Every entry of the text is an entry of one of its sections: the closing has none. */
  lemma EntryTitles(h: Host, d: Confirmation, entryTime: string, i: nat)
    requires i < |Lines(h, d, entryTime)| && Lines(h, d, entryTime)[i].Entry?
    ensures var line := Lines(h, d, entryTime)[i];
      line in Opening(h, d) || line in EmailPart(h, d) || line in ReferencePart(h, d)
      || line in Profile(h, d) || line in Payment(h, d)
  {
    var L := Lines(h, d, entryTime);
    var o, e, r, p := |Opening(h, d)|, |EmailPart(h, d)|, |ReferencePart(h, d)|, |Profile(h, d)|;
    if i < o {
      assert L[i] == Opening(h, d)[i];
    } else if i < o + e {
      assert L[i] == EmailPart(h, d)[i - o];
    } else if i < o + e + r {
      assert L[i] == ReferencePart(h, d)[i - o - e];
    } else if i < o + e + r + p {
      assert L[i] == Profile(h, d)[i - o - e - r];
    } else if i < o + e + r + p + |Payment(h, d)| {
      assert L[i] == Payment(h, d)[i - o - e - r - p];
    }
  }

  /** The Email line appears exactly when the email is truthy, and then shows it. */
  lemma EmailLine(h: Host, d: Confirmation, entryTime: string)
    ensures Truthy(d.email) ==> Entry("Email", ToText(h, d.email), false) in Lines(h, d, entryTime)
    ensures HasEntry(Lines(h, d, entryTime), "Email") <==> Truthy(d.email)
  {
    var L := Lines(h, d, entryTime);
    if i :| 0 <= i < |L| && L[i].Entry? && L[i].title == "Email" {
      EntryTitles(h, d, entryTime, i);
    }
    if Truthy(d.email) {
      assert L[|Opening(h, d)|] == Entry("Email", ToText(h, d.email), false);
    }
  }

  /** The Reference Phone line appears exactly when the reference phone is truthy, and then
      shows it. */
  lemma ReferencePhoneLine(h: Host, d: Confirmation, entryTime: string)
    ensures Truthy(d.referencePhone) ==>
      Entry("Reference Phone", ToText(h, d.referencePhone), false) in Lines(h, d, entryTime)
    ensures HasEntry(Lines(h, d, entryTime), "Reference Phone") <==> Truthy(d.referencePhone)
  {
    var L := Lines(h, d, entryTime);
    if i :| 0 <= i < |L| && L[i].Entry? && L[i].title == "Reference Phone" {
      EntryTitles(h, d, entryTime, i);
    }
    if Truthy(d.referencePhone) {
      assert L[|Opening(h, d)| + |EmailPart(h, d)|] == Entry("Reference Phone", ToText(h, d.referencePhone), false);
    }
  }

  /** The car line reads Yes exactly when the answer is the string "yes", and No otherwise. */
  lemma HasCarLine(h: Host, d: Confirmation, entryTime: string)
    ensures Entry("Has Car", "Yes", false) in Lines(h, d, entryTime) <==> d.hasCar == Str("yes")
    ensures Entry("Has Car", "No", false) in Lines(h, d, entryTime) <==> d.hasCar != Str("yes")
  {
    var L := Lines(h, d, entryTime);
    var k := |Opening(h, d)| + |EmailPart(h, d)| + |ReferencePart(h, d)|;
    assert L[k] == Profile(h, d)[0];
    forall i | 0 <= i < |L| && L[i].Entry? && L[i].title == "Has Car"
      ensures L[i] == Profile(h, d)[0]
    {
      EntryTitles(h, d, entryTime, i);
      var o := Opening(h, d);
      assert L[i] !in o by {
        assert forall j :: 0 <= j < |o| && o[j].Entry? ==> o[j].title in {"Name", "Phone"};
      }
    }
  }

  /** The payment section, with its reference, amount and status, appears exactly when the
      payment reference is truthy. */
  lemma PaymentSection(h: Host, d: Confirmation, entryTime: string)
    ensures Truthy(d.paymentRef) ==>
      Entry("Payment Ref", ToText(h, d.paymentRef), false) in Lines(h, d, entryTime)
      && Entry("Amount", "\U{20B9}499", false) in Lines(h, d, entryTime)
      && Entry("Status", "Confirmed", true) in Lines(h, d, entryTime)
    ensures HasEntry(Lines(h, d, entryTime), "Payment Ref") <==> Truthy(d.paymentRef)
    ensures HasEntry(Lines(h, d, entryTime), "Amount") <==> Truthy(d.paymentRef)
    ensures HasEntry(Lines(h, d, entryTime), "Status") <==> Truthy(d.paymentRef)
  {
    var L := Lines(h, d, entryTime);
    var k := |Opening(h, d)| + |EmailPart(h, d)| + |ReferencePart(h, d)| + |Profile(h, d)|;
    if i :| 0 <= i < |L| && L[i].Entry? && L[i].title in {"Payment Ref", "Amount", "Status"} {
      EntryTitles(h, d, entryTime, i);
    }
    if Truthy(d.paymentRef) {
      assert L[k + 1] == Payment(h, d)[1] && L[k + 2] == Payment(h, d)[2] && L[k + 3] == Payment(h, d)[3];
    }
  }

  /** The message opens with the header and closes with the notice. */
  lemma Framed(h: Host, d: Confirmation, entryTime: string)
    ensures Header <= Render(Lines(h, d, entryTime))
    ensures var m := Render(Lines(h, d, entryTime));
      |Notice| <= |m| && m[|m| - |Notice|..] == Notice
  {
    var L := Lines(h, d, entryTime);
    assert L[0] == Fixed(Header);
    assert L[|L| - 1] == Fixed(Notice);
    RenderEnds(L);
  }

  // ---------------------------------------------------------------------------
  // Sending
  // ---------------------------------------------------------------------------

  /** The number the confirmation goes to. */
  const ConfirmationTo: string := "919958212050"

  const WaPrefix: string := "https://wa.me/"
  const TextQuery: string := "?text="

  /** The link `sendWhatsAppMessage` opens, from the recipient and the encoded message. */
  function SendUrl(to: string, encodedMessage: string): string {
    WaPrefix + to + TextQuery + encodedMessage
  }

  /** The link splits back into its prefix, the recipient, the query key and the encoded
      message. */
  lemma SendUrlParts(to: string, encodedMessage: string)
    ensures var u := SendUrl(to, encodedMessage); var n := |WaPrefix| + |to|;
      |u| == n + |TextQuery| + |encodedMessage|
      && u[..|WaPrefix|] == WaPrefix && u[|WaPrefix|..n] == to
      && u[n..n + |TextQuery|] == TextQuery && u[n + |TextQuery|..] == encodedMessage
  {
    var u := SendUrl(to, encodedMessage);
    var n := |WaPrefix| + |to|;
    assert u == (WaPrefix + to) + (TextQuery + encodedMessage);
    assert u[..n] == WaPrefix + to;
    assert u[n..] == TextQuery + encodedMessage;
  }

  /** The form value, or the text N/A when it is falsy (`value || 'N/A'`). */
  function OrNotAvailable(v: Value): (r: Value)
    ensures Truthy(v) ==> r == v
    ensures !Truthy(v) ==> r == Str("N/A")
  {
    if Truthy(v) then v else Str("N/A")
  }

  /** The confirmation `triggerWhatsAppConfirmation` builds from the submitted form. */
  function ConfirmationOf(formData: Record, ticketId: string, paymentRef: Option<string>): (d: Confirmation)
    ensures d.ticketId == ticketId
    ensures d.fullName == OrNotAvailable(Get(formData, "full_name"))
    ensures d.phone == OrNotAvailable(Get(formData, "phone"))
    ensures d.email == Get(formData, "email") && d.referencePhone == Get(formData, "reference_phone")
    ensures d.hasCar == OrNotAvailable(Get(formData, "has_car"))
    ensures d.incomeBracket == OrNotAvailable(Get(formData, "income_bracket"))
    ensures paymentRef.None? ==> d.paymentRef == Undef
    ensures paymentRef.Some? ==> d.paymentRef == Str(paymentRef.value)
  {
    Confirmation(
      ticketId,
      OrNotAvailable(Get(formData, "full_name")),
      OrNotAvailable(Get(formData, "phone")),
      Get(formData, "email"),
      Get(formData, "reference_phone"),
      OrNotAvailable(Get(formData, "has_car")),
      OrNotAvailable(Get(formData, "income_bracket")),
      if paymentRef.Some? then Str(paymentRef.value) else Undef)
  }

  /** `triggerWhatsAppConfirmation`: builds the confirmation and returns the link it opens
      for the confirmation number. */
  method TriggerWhatsAppConfirmation(h: Host, formData: Record, ticketId: string,
                                     paymentRef: Option<string>, entryTime: string)
    returns (url: string)
    ensures url == SendUrl(ConfirmationTo, h.encodeUri(Render(Lines(h, ConfirmationOf(formData, ticketId, paymentRef), entryTime))))
  {
    var message := GenerateConfirmationMessage(h, ConfirmationOf(formData, ticketId, paymentRef), entryTime);
    url := SendUrl(ConfirmationTo, h.encodeUri(message));
  }

  /** A missing name, phone or income bracket shows as N/A in the triggered confirmation, and
      a missing car answer reads No. */
  lemma TriggerDefaults(h: Host, formData: Record, ticketId: string, paymentRef: Option<string>,
                        entryTime: string)
    ensures var L := Lines(h, ConfirmationOf(formData, ticketId, paymentRef), entryTime);
      (!Truthy(Get(formData, "full_name")) ==> Entry("Name", "N/A", false) in L)
      && (!Truthy(Get(formData, "phone")) ==> Entry("Phone", "N/A", false) in L)
      && (!Truthy(Get(formData, "income_bracket")) ==> Entry("Income Bracket", "N/A", true) in L)
      && (!Truthy(Get(formData, "has_car")) ==> Entry("Has Car", "No", false) in L)
  {
    var d := ConfirmationOf(formData, ticketId, paymentRef);
    var L := Lines(h, d, entryTime);
    assert L[4] == Opening(h, d)[4] && L[5] == Opening(h, d)[5];
    var k := |Opening(h, d)| + |EmailPart(h, d)| + |ReferencePart(h, d)|;
    assert L[k] == Profile(h, d)[0] && L[k + 1] == Profile(h, d)[1];
    assert "N/A" !in BracketLabels;
  }

  /** A payment reference passed to the trigger puts the payment section in the message. */
  lemma TriggerPayment(h: Host, formData: Record, ticketId: string, paymentRef: Option<string>,
                       entryTime: string)
    ensures HasEntry(Lines(h, ConfirmationOf(formData, ticketId, paymentRef), entryTime), "Payment Ref")
      <==> paymentRef.Some? && paymentRef.value != ""
  {
    PaymentSection(h, ConfirmationOf(formData, ticketId, paymentRef), entryTime);
  }
}
