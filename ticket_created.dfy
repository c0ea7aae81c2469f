/**
 * The ticket-created page (src/app/ticket-created/page.tsx): on mount it makes sure the user
 * has a ticket for the seed in the URL, reusing the active ticket when its seed matches and
 * creating one otherwise.
 */
module TicketCreated {
  import opened Wrappers
  import opened Tickets
  import opened LocalStore
  import opened Db

  /** A query parameter that is present and non-empty. */
  predicate Present(p: Option<string>) {
    p.Some? && p.value != ""
  }

  /** Every stored ticket was created before `now`. */
  predicate Later(now: string, ts: seq<Ticket>, timeOf: string -> int) {
    forall i :: 0 <= i < |ts| ==> timeOf(ts[i].createdAt) < timeOf(now)
  }

  /** The page's state. */
  class TicketCreatedPage {
    var ticket: Option<Ticket>
    var isLoading: bool

    constructor()
      ensures ticket.None? && isLoading
    {
      ticket := None;
      isLoading := true;
    }

    /** The mount effect. A missing seed or uid navigates home and touches nothing. Otherwise
        the active ticket is reused when its seed matches, and a new ticket is created when
        not; its userId is the stored user id, never the uid parameter. Loading ends once the
        ticket is set; an exception out of the store ends the effect early. */
    method Mount(ls: LocalStorage, seed: Option<string>, uid: Option<string>, freshUid: string,
                 id: string, ticketId: string, now: string, timeOf: string -> int)
      returns (r: Outcome<Option<string>>)
      modifies this, ls
      ensures ls.writable == old(ls.writable)
      ensures !Present(seed) || !Present(uid) ==>
        r == Done(Some("/")) && ls.items == old(ls.items) && ticket == old(ticket) && isLoading == old(isLoading)
      ensures Present(seed) && Present(uid) && UserIdThrows(old(ls.items), old(ls.writable)) ==>
        r.Threw? && ls.items == old(ls.items) && ticket == old(ticket) && isLoading == old(isLoading)
      ensures var existing := ActiveTicket(GetTickets(old(ls.items)), CurrentUser(old(ls.items), freshUid), timeOf);
        Present(seed) && Present(uid) && !UserIdThrows(old(ls.items), old(ls.writable))
        && existing.Some? && existing.value.seed == seed.value ==>
          r == Done(None) && ticket == existing && !isLoading
          && ls.items == AfterUserId(old(ls.items), old(ls.writable), freshUid)
      ensures var existing := ActiveTicket(GetTickets(old(ls.items)), CurrentUser(old(ls.items), freshUid), timeOf);
        Present(seed) && Present(uid) && !UserIdThrows(old(ls.items), old(ls.writable))
        && !(existing.Some? && existing.value.seed == seed.value) ==>
          if old(ls.writable) then
            r == Done(None) && !isLoading
            && ticket == Some(Ticket(id, ticketId, CurrentUser(old(ls.items), freshUid), seed.value, now, Pending, None))
            && GetTickets(ls.items) == GetTickets(old(ls.items)) + [ticket.value]
            && ls.items == AfterUserId(old(ls.items), true, freshUid)[TicketsKey := Json(TicketsDoc(GetTickets(old(ls.items)) + [ticket.value]))]
          else
            r.Threw? && ls.items == old(ls.items) && ticket == old(ticket) && isLoading == old(isLoading)
      ensures Present(seed) && Present(uid) && r == Done(None) && freshUid != "" && Later(now, GetTickets(old(ls.items)), timeOf) ==>
        ticket.Some? && ticket.value.seed == seed.value
        && StoredUserId(ls.items) == Some(ticket.value.userId)
        && ActiveTicket(GetTickets(ls.items), ticket.value.userId, timeOf) == ticket
    {
      if !Present(seed) || !Present(uid) {
        return Done(Some("/"));
      }
      ghost var start := ls.items;
      var existingTicket := GetActiveTicket(ls, freshUid, timeOf);
      if existingTicket.Threw? {
        return Threw;
      }
      if existingTicket.value.Some? && existingTicket.value.value.seed == seed.value {
        ticket := existingTicket.value;
        if freshUid != "" {
          UserIdKept(start, ls.writable, freshUid, []);
        }
      } else {
        var newTicket := CreateTicket(ls, id, ticketId, now, seed.value, freshUid);
        if newTicket.Threw? {
          return Threw;
        }
        ticket := Some(newTicket.value);
        if freshUid != "" && Later(now, GetTickets(start), timeOf) {
          UserIdKept(start, ls.writable, freshUid, GetTickets(start) + [newTicket.value]);
          NewestIsActive(GetTickets(start), newTicket.value, timeOf);
        }
      }
      isLoading := false;
      return Done(None);
    }

    /** The effect run twice (as React does in development) with the same seed, a clock that
        moves forward and a stable user id creates at most one ticket. */
    method MountTwice(ls: LocalStorage, seed: Option<string>, uid: Option<string>, freshUid: string,
                      ids: (string, string), ticketIds: (string, string), nows: (string, string), timeOf: string -> int)
      returns (first: Outcome<Option<string>>, second: Outcome<Option<string>>)
      requires freshUid != ""
      requires Later(nows.0, GetTickets(ls.items), timeOf)
      modifies this, ls
      ensures |GetTickets(ls.items)| <= |GetTickets(old(ls.items))| + 1
    {
      first := Mount(ls, seed, uid, freshUid, ids.0, ticketIds.0, nows.0, timeOf);
      ghost var middle := GetTickets(ls.items);
      second := Mount(ls, seed, uid, freshUid, ids.1, ticketIds.1, nows.1, timeOf);
      if first == Done(None) {
        assert GetTickets(ls.items) == middle;
      }
    }
  }
}
