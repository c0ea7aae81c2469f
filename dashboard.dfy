/**
 * The dashboard (src/app/dashboard/page.tsx): the user's active ticket, a message and a
 * call to action that follow its payment status, and the share button.
 */
module Dashboard {
  import opened Wrappers
  import opened Tickets
  import opened LocalStore
  import opened Db

  /** The page's state. */
  class DashboardPage {
    var ticket: Option<Ticket>
    var isLoading: bool

    constructor()
      ensures ticket.None? && isLoading
    {
      ticket := None;
      isLoading := true;
    }

    /** The mount effect: no active ticket navigates home and leaves the page loading, so
        its "No ticket found" branch is never reached from here; otherwise the ticket is
        shown and loading ends. */
    method Mount(ls: LocalStorage, freshUid: string, timeOf: string -> int) returns (r: Outcome<Option<string>>)
      modifies this, ls
      ensures ls.writable == old(ls.writable)
      ensures ls.items == AfterUserId(old(ls.items), old(ls.writable), freshUid)
      ensures UserIdThrows(old(ls.items), old(ls.writable)) ==>
        r.Threw? && ticket == old(ticket) && isLoading == old(isLoading)
      ensures var active := ActiveTicket(GetTickets(old(ls.items)), CurrentUser(old(ls.items), freshUid), timeOf);
        !UserIdThrows(old(ls.items), old(ls.writable)) ==>
          if active.None? then r == Done(Some("/")) && ticket == old(ticket) && isLoading == old(isLoading)
          else r == Done(None) && ticket == active && !isLoading
    {
      var activeTicket := GetActiveTicket(ls, freshUid, timeOf);
      if activeTicket.Threw? {
        return Threw;
      }
      if activeTicket.value.None? {
        return Done(Some("/"));
      }
      ticket := activeTicket.value;
      isLoading := false;
      return Done(None);
    }
  }

  /** `getStatusMessage`: empty without a ticket, else one message per status. */
  function StatusMessage(ticket: Option<Ticket>): (m: string)
    ensures m == "" <==> ticket.None?
  {
    match ticket
    case None => ""
    case Some(t) =>
      match t.paymentStatus
      case Success => "Thanks! Your entry is confirmed."
      case Pending => "Complete your payment to confirm your entry."
      case Failed => "Payment failed. Please try again to confirm your entry."
  }

  /** The length of each status message. */
  function MessageLength(s: PaymentStatus): nat {
    match s
    case Success => 32
    case Pending => 44
    case Failed => 55
  }

  /** The status message tells the statuses apart, since their lengths differ: two tickets
      get the same message exactly when their payment status is the same. */
  lemma StatusMessageDistinguishes(a: Ticket, b: Ticket)
    ensures StatusMessage(Some(a)) == StatusMessage(Some(b)) <==> a.paymentStatus == b.paymentStatus
  {
    assert |StatusMessage(Some(a))| == MessageLength(a.paymentStatus);
    assert |StatusMessage(Some(b))| == MessageLength(b.paymentStatus);
  }

  /** `getActionButton`: a caption and the page it opens. */
  function ActionButton(ticket: Option<Ticket>): (b: Option<(string, string)>)
    ensures b.Some? <==> ticket.Some? && ticket.value.paymentStatus != Success
    ensures b.Some? ==> b.value.1 == "/checkout"
    ensures b.Some? ==>
      b.value.0 == if ticket.value.paymentStatus == Pending then "Complete Payment" else "Retry Payment"
  {
    match ticket
    case None => None
    case Some(t) =>
      match t.paymentStatus
      case Pending => Some(("Complete Payment", "/checkout"))
      case Failed => Some(("Retry Payment", "/checkout"))
      case Success => None
  }

  const SharePrefix: string := "I've entered the Thar Draw! My ticket ID: "
  const JoinSeparator: string := "\n\nJoin here: "

  /** The text shared: a fixed sentence, then the ticket id, which can be read back from it. */
  function ShareText(t: Ticket): (s: string)
    ensures |s| == |SharePrefix| + |t.ticketId|
    ensures s[..|SharePrefix|] == SharePrefix && s[|SharePrefix|..] == t.ticketId
  {
    SharePrefix + t.ticketId
  }

  /** The clipboard fallback: the share text, the separator and the origin, in that order. */
  function ClipboardText(t: Ticket, origin: string): (s: string)
    ensures |s| == |ShareText(t)| + |JoinSeparator| + |origin|
    ensures s[..|ShareText(t)|] == ShareText(t)
    ensures s[|ShareText(t)|..|ShareText(t)| + |JoinSeparator|] == JoinSeparator
    ensures s[|ShareText(t)| + |JoinSeparator|..] == origin
  {
    var s := ShareText(t) + JoinSeparator + origin;
    assert s[..|ShareText(t)|] == ShareText(t);
    s
  }

  /** What sharing does. */
  datatype ShareEffect =
    | NativeShare(title: string, text: string, url: string)
    | CopyToClipboard(text: string)
    | ShareToast(success: bool, message: string)

  /** `handleShare`: the native share sheet when the browser can share the data, the
      clipboard otherwise; a rejected share or copy ends in the error toast. `canShare`
      stands for `navigator.share && navigator.canShare(shareData)`, `fails` for the awaited
      call rejecting. */
  function HandleShare(ticket: Option<Ticket>, origin: string, canShare: bool, fails: bool): (e: seq<ShareEffect>)
    ensures ticket.None? ==> e == []
    ensures ticket.Some? ==> |e| >= 1
    ensures ticket.Some? && canShare ==> e[0] == NativeShare("Thar Draw - My Entry", ShareText(ticket.value), origin)
    ensures ticket.Some? && !canShare ==> e[0] == CopyToClipboard(ClipboardText(ticket.value, origin))
    ensures ticket.Some? && fails ==> e[|e| - 1] == ShareToast(false, "Failed to share")
    ensures ticket.Some? && !fails ==> (ShareToast(true, "Link copied to clipboard") in e <==> !canShare)
  {
    match ticket
    case None => []
    case Some(t) =>
      var first := if canShare then NativeShare("Thar Draw - My Entry", ShareText(t), origin)
                   else CopyToClipboard(ClipboardText(t, origin));
      if fails then [first, ShareToast(false, "Failed to share")]
      else if canShare then [first]
      else [first, ShareToast(true, "Link copied to clipboard")]
  }
}
