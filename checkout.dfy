/**
 * The checkout page (src/app/checkout/page.tsx): the mount guard that sends the user home
 * without a ticket and to the dashboard once paid, the price, and the modal's open state.
 */
module Checkout {
  import opened Wrappers
  import opened Js
  import opened Tickets
  import opened LocalStore
  import opened Db

  /** `Number(process.env.NEXT_PUBLIC_PRICE) || 499`: the configured price unless it is
      missing, zero or not a number. */
  function Amount(h: Host, price: Option<string>): (a: Number)
    ensures price.None? ==> a == Finite(499.0)
    ensures price.Some? ==>
      var n := h.stringToNumber(price.value);
      a == if n == NaN || n == Finite(0.0) then Finite(499.0) else n
  {
    var n := if price.Some? then h.stringToNumber(price.value) else NaN;
    if Truthy(Num(n)) then n else Finite(499.0)
  }

  /** The page's state. */
  class CheckoutPage {
    var ticket: Option<Ticket>
    var isModalOpen: bool

    constructor()
      ensures ticket.None? && !isModalOpen
    {
      ticket := None;
      isModalOpen := false;
    }

    /** The mount effect: no active ticket navigates home, a paid one to the dashboard, both
        without showing it; a pending or failed ticket is shown for payment. */
    method Mount(ls: LocalStorage, freshUid: string, timeOf: string -> int) returns (r: Outcome<Option<string>>)
      modifies this, ls
      ensures ls.writable == old(ls.writable)
      ensures ls.items == AfterUserId(old(ls.items), old(ls.writable), freshUid)
      ensures isModalOpen == old(isModalOpen)
      ensures UserIdThrows(old(ls.items), old(ls.writable)) ==> r.Threw? && ticket == old(ticket)
      ensures var active := ActiveTicket(GetTickets(old(ls.items)), CurrentUser(old(ls.items), freshUid), timeOf);
        !UserIdThrows(old(ls.items), old(ls.writable)) ==>
          if active.None? then r == Done(Some("/")) && ticket == old(ticket)
          else if active.value.paymentStatus == Success then r == Done(Some("/dashboard")) && ticket == old(ticket)
          else r == Done(None) && ticket == active
    {
      var activeTicket := GetActiveTicket(ls, freshUid, timeOf);
      if activeTicket.Threw? {
        return Threw;
      }
      if activeTicket.value.None? {
        return Done(Some("/"));
      }
      if activeTicket.value.value.paymentStatus == Success {
        return Done(Some("/dashboard"));
      }
      ticket := activeTicket.value;
      return Done(None);
    }

    /** The pay button opens the modal. */
    method OpenModal()
      modifies this
      ensures isModalOpen && ticket == old(ticket)
    {
      isModalOpen := true;
    }

    /** The modal's onClose. */
    method CloseModal()
      modifies this
      ensures !isModalOpen && ticket == old(ticket)
    {
      isModalOpen := false;
    }

    /** `handlePaymentSuccess`: closes the modal and navigates to the dashboard. */
    method HandlePaymentSuccess() returns (navigateTo: string)
      modifies this
      ensures !isModalOpen && ticket == old(ticket)
      ensures navigateTo == "/dashboard"
    {
      isModalOpen := false;
      navigateTo := "/dashboard";
    }
  }
}
