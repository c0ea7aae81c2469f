/** The ticket record of the lucky draw (src/lib/db.ts). */
module Tickets {
  import opened Wrappers

  /** `PaymentStatus`. */
  datatype PaymentStatus = Pending | Success | Failed

  /** `Ticket`: `createdAt` is an ISO timestamp, `paymentRef` optional. */
  datatype Ticket = Ticket(
    id: string,
    ticketId: string,
    userId: string,
    seed: string,
    createdAt: string,
    paymentStatus: PaymentStatus,
    paymentRef: Option<string>)
}
