/**
 * The ticket store (src/lib/db.ts): a lazily created user id and the list of tickets, both
 * in localStorage. A refused write throws out of the operation that makes it; the model
 * returns Threw for that.
 */
module Db {
  import opened Wrappers
  import opened Tickets
  import opened LocalStore

  const UserIdKey: string := "thardraw:userId"
  const TicketsKey: string := "thardraw:tickets"

  // ---------------------------------------------------------------------------
  // The user id
  // ---------------------------------------------------------------------------

  /** The stored user id, when it is there and truthy. */
  function StoredUserId(items: map<string, Item>): (r: Option<string>)
    ensures r.Some? <==> UserIdKey in items && items[UserIdKey].Raw? && items[UserIdKey].s != ""
    ensures r.Some? ==> items[UserIdKey] == Raw(r.value)
  {
    if UserIdKey in items && items[UserIdKey].Raw? && items[UserIdKey].s != "" then Some(items[UserIdKey].s)
    else None
  }

  /** The id `getUserId` answers with: the stored one, else the fresh one. */
  function CurrentUser(items: map<string, Item>, freshId: string): string {
    StoredUserId(items).GetOr(freshId)
  }

  /** `getUserId` throws only when it has to store a fresh id and the write is refused. */
  predicate UserIdThrows(items: map<string, Item>, writable: bool) {
    StoredUserId(items).None? && !writable
  }

  /** The items after `getUserId`: the fresh id stored when there was none. Only the user-id
      slot can change, and once `getUserId` has answered with a non-empty id that id is the
      stored one. */
  function AfterUserId(items: map<string, Item>, writable: bool, freshId: string): (r: map<string, Item>)
    ensures forall k :: k != UserIdKey ==> (k in r <==> k in items)
    ensures forall k :: k in items && k != UserIdKey ==> r[k] == items[k]
    ensures StoredUserId(items).Some? || !writable ==> r == items
    ensures !UserIdThrows(items, writable) && (StoredUserId(items).Some? || freshId != "") ==>
      StoredUserId(r) == Some(CurrentUser(items, freshId))
  {
    if StoredUserId(items).None? && writable then items[UserIdKey := Raw(freshId)] else items
  }

  /** `getUserId`: the stored id, or a fresh id that is stored first. */
  method GetUserId(ls: LocalStorage, freshId: string) returns (r: Outcome<string>)
    modifies ls
    ensures ls.writable == old(ls.writable)
    ensures ls.items == AfterUserId(old(ls.items), old(ls.writable), freshId)
    ensures r == if UserIdThrows(old(ls.items), old(ls.writable)) then Threw else Done(CurrentUser(old(ls.items), freshId))
  {
    var userId := if UserIdKey in ls.items && ls.items[UserIdKey].Raw? then ls.items[UserIdKey].s else "";
    if userId == "" {
      userId := freshId;
      var ok := ls.SetItem(UserIdKey, Raw(userId));
      if !ok {
        return Threw;
      }
    }
    return Done(userId);
  }

  /** `getUserId` is idempotent: once it has answered (with a non-empty id), later calls give
      the same id, whatever fresh id they are offered, and write nothing. */
  lemma UserIdStable(items: map<string, Item>, writable: bool, first: string, later: string)
    requires !UserIdThrows(items, writable)
    requires StoredUserId(items).Some? || first != ""
    ensures var after := AfterUserId(items, writable, first);
      CurrentUser(after, later) == CurrentUser(items, first)
      && !UserIdThrows(after, false)
      && AfterUserId(after, writable, later) == after
  {
  }

  /** After `getUserId` has answered with a non-empty id, that id is the stored one, also
      once the ticket list is rewritten, and the ticket list is as it was. */
  lemma UserIdKept(items: map<string, Item>, writable: bool, freshId: string, ts: seq<Ticket>)
    requires !UserIdThrows(items, writable)
    requires StoredUserId(items).Some? || freshId != ""
    ensures var after := AfterUserId(items, writable, freshId);
      StoredUserId(after) == Some(CurrentUser(items, freshId))
      && StoredUserId(after[TicketsKey := Json(TicketsDoc(ts))]) == Some(CurrentUser(items, freshId))
      && GetTickets(after) == GetTickets(items)
  {
  }

  // ---------------------------------------------------------------------------
  // Tickets
  // ---------------------------------------------------------------------------

  /** `getTickets`: the stored list, or `[]` when the slot is absent or unparsable. */
  function GetTickets(items: map<string, Item>): (r: seq<Ticket>)
    ensures TicketsKey !in items ==> r == []
    ensures TicketsKey in items && !(items[TicketsKey].Json? && items[TicketsKey].doc.TicketsDoc?) ==> r == []
    ensures forall ts :: TicketsKey in items && items[TicketsKey] == Json(TicketsDoc(ts)) ==> r == ts
  {
    if TicketsKey in items && items[TicketsKey].Json? && items[TicketsKey].doc.TicketsDoc? then
      items[TicketsKey].doc.tickets
    else []
  }

  /** Where the active ticket sits: the filter on the user followed by the stable sort on
      `createdAt`, newest first, picks the user's ticket with the latest time, the earliest
      in the list among equal times. The clock reading of a timestamp is `timeOf`. */
  function ActiveIndex(ts: seq<Ticket>, uid: string, timeOf: string -> int): (r: Option<nat>)
    ensures r.None? <==> forall j :: 0 <= j < |ts| ==> ts[j].userId != uid
    ensures r.Some? ==> r.value < |ts| && ts[r.value].userId == uid
    ensures r.Some? ==> forall j :: 0 <= j < |ts| && ts[j].userId == uid ==>
      timeOf(ts[j].createdAt) <= timeOf(ts[r.value].createdAt)
    ensures r.Some? ==> forall j :: 0 <= j < r.value && ts[j].userId == uid ==>
      timeOf(ts[j].createdAt) < timeOf(ts[r.value].createdAt)
  {
    if ts == [] then None
    else
      var rest := ActiveIndex(ts[1..], uid, timeOf);
      assert forall j :: 1 <= j < |ts| ==> ts[j] == ts[1..][j - 1];
      if ts[0].userId != uid then
        (if rest.Some? then Some(rest.value + 1) else None)
      else if rest.Some? && timeOf(ts[1..][rest.value].createdAt) > timeOf(ts[0].createdAt) then
        Some(rest.value + 1)
      else Some(0)
  }

  /** The active ticket of a user in a list, if the user has one: a ticket of the user that
      no ticket of the user is later than. */
  function ActiveTicket(ts: seq<Ticket>, uid: string, timeOf: string -> int): (r: Option<Ticket>)
    ensures r.None? <==> forall t :: t in ts ==> t.userId != uid
    ensures r.Some? ==> r.value in ts && r.value.userId == uid
    ensures r.Some? ==> forall t :: t in ts && t.userId == uid ==> timeOf(t.createdAt) <= timeOf(r.value.createdAt)
  {
    var i := ActiveIndex(ts, uid, timeOf);
    if i.Some? then Some(ts[i.value]) else None
  }

  /** A ticket appended for a user later than all of that user's tickets becomes the user's
      active ticket. */
  lemma {:induction false} NewestIsActive(ts: seq<Ticket>, t: Ticket, timeOf: string -> int)
    requires forall j :: 0 <= j < |ts| && ts[j].userId == t.userId ==> timeOf(ts[j].createdAt) < timeOf(t.createdAt)
    ensures ActiveIndex(ts + [t], t.userId, timeOf) == Some(|ts|)
    ensures ActiveTicket(ts + [t], t.userId, timeOf) == Some(t)
  {
    assert (ts + [t])[|ts|] == t;
    assert forall j :: 0 <= j < |ts| ==> (ts + [t])[j] == ts[j];
  }

  /** `getActiveTicket`: the list is read before the user id, which may be created here. */
  method GetActiveTicket(ls: LocalStorage, freshId: string, timeOf: string -> int)
    returns (r: Outcome<Option<Ticket>>)
    modifies ls
    ensures ls.writable == old(ls.writable)
    ensures ls.items == AfterUserId(old(ls.items), old(ls.writable), freshId)
    ensures r == if UserIdThrows(old(ls.items), old(ls.writable)) then Threw
      else Done(ActiveTicket(GetTickets(old(ls.items)), CurrentUser(old(ls.items), freshId), timeOf))
  {
    var tickets := GetTickets(ls.items);
    var userId := GetUserId(ls, freshId);
    if userId.Threw? {
      return Threw;
    }
    return Done(ActiveTicket(tickets, userId.value, timeOf));
  }

  /** `createTicket`: a pending ticket for the current user, without a payment reference,
      appended to the stored list. */
  method CreateTicket(ls: LocalStorage, id: string, ticketId: string, now: string, seed: string, freshUid: string)
    returns (r: Outcome<Ticket>)
    modifies ls
    ensures ls.writable == old(ls.writable)
    ensures r.Threw? <==> !old(ls.writable)
    ensures r.Threw? ==> ls.items == old(ls.items)
    ensures r.Done? ==> r.value == Ticket(id, ticketId, CurrentUser(old(ls.items), freshUid), seed, now, Pending, None)
    ensures r.Done? ==> GetTickets(ls.items) == GetTickets(old(ls.items)) + [r.value]
    ensures r.Done? ==>
      ls.items == AfterUserId(old(ls.items), true, freshUid)[TicketsKey := Json(TicketsDoc(GetTickets(old(ls.items)) + [r.value]))]
  {
    var userId := GetUserId(ls, freshUid);
    if userId.Threw? {
      return Threw;
    }
    var ticket := Ticket(id, ticketId, userId.value, seed, now, Pending, None);
    var tickets := GetTickets(ls.items);
    assert tickets == GetTickets(old(ls.items));
    tickets := tickets + [ticket];
    var ok := ls.SetItem(TicketsKey, Json(TicketsDoc(tickets)));
    if !ok {
      return Threw;
    }
    return Done(ticket);
  }

  /** `tickets.map(...)` of markPayment: every ticket with the given id gets the status and
      the reference (an absent reference clears it); the others are kept, in order. */
  function MarkAll(ts: seq<Ticket>, id: string, status: PaymentStatus, paymentRef: Option<string>): (r: seq<Ticket>)
    ensures |r| == |ts|
    ensures forall i :: 0 <= i < |ts| ==>
      r[i] == if ts[i].id == id then ts[i].(paymentStatus := status, paymentRef := paymentRef) else ts[i]
  {
    if ts == [] then []
    else
      [if ts[0].id == id then ts[0].(paymentStatus := status, paymentRef := paymentRef) else ts[0]]
        + MarkAll(ts[1..], id, status, paymentRef)
  }

  /** The first position whose ticket satisfies p. */
  function FindFirst(ts: seq<Ticket>, p: Ticket -> bool): (r: Option<nat>)
    ensures r.None? <==> forall i :: 0 <= i < |ts| ==> !p(ts[i])
    ensures r.Some? ==> r.value < |ts| && p(ts[r.value]) && forall i :: 0 <= i < r.value ==> !p(ts[i])
  {
    if ts == [] then None
    else if p(ts[0]) then Some(0)
    else
      var rest := FindFirst(ts[1..], p);
      assert forall i :: 1 <= i < |ts| ==> ts[i] == ts[1..][i - 1];
      if rest.Some? then Some(rest.value + 1) else None
  }

  /** `tickets.find(t => t.id === id) || null`: the first ticket with the id, or none when no
      ticket has it. */
  function FindById(ts: seq<Ticket>, id: string): (r: Option<Ticket>)
    ensures r.None? <==> forall t :: t in ts ==> t.id != id
    ensures r.Some? ==> r.value.id == id
    ensures r.Some? ==> exists k :: 0 <= k < |ts| && ts[k] == r.value && (forall j :: 0 <= j < k ==> ts[j].id != id)
  {
    var i := FindFirst(ts, (t: Ticket) => t.id == id);
    if i.Some? then Some(ts[i.value]) else None
  }

  /** `markPayment`: with no active ticket nothing is written to the list and null comes back;
      otherwise the marked list is stored and the first ticket with the active ticket's id
      comes back, marked. The user id may be created on the way. */
  method MarkPayment(ls: LocalStorage, status: PaymentStatus, paymentRef: Option<string>, freshUid: string, timeOf: string -> int)
    returns (r: Outcome<Option<Ticket>>)
    modifies ls
    ensures ls.writable == old(ls.writable)
    ensures UserIdThrows(old(ls.items), old(ls.writable)) ==> r.Threw? && ls.items == old(ls.items)
    ensures var active := ActiveTicket(GetTickets(old(ls.items)), CurrentUser(old(ls.items), freshUid), timeOf);
      !UserIdThrows(old(ls.items), old(ls.writable)) && active.None? ==>
        r == Done(None) && ls.items == AfterUserId(old(ls.items), old(ls.writable), freshUid)
    ensures var active := ActiveTicket(GetTickets(old(ls.items)), CurrentUser(old(ls.items), freshUid), timeOf);
      !UserIdThrows(old(ls.items), old(ls.writable)) && active.Some? ==>
        var marked := MarkAll(GetTickets(old(ls.items)), active.value.id, status, paymentRef);
        if old(ls.writable) then
          r == Done(FindById(marked, active.value.id)) && r.value.Some?
          && ls.items == AfterUserId(old(ls.items), true, freshUid)[TicketsKey := Json(TicketsDoc(marked))]
        else r.Threw? && ls.items == old(ls.items)
  {
    var tickets := GetTickets(ls.items);
    var activeTicket := GetActiveTicket(ls, freshUid, timeOf);
    if activeTicket.Threw? {
      return Threw;
    }
    if activeTicket.value.None? {
      return Done(None);
    }
    var active := activeTicket.value.value;
    var updated := MarkAll(tickets, active.id, status, paymentRef);
    var ok := ls.SetItem(TicketsKey, Json(TicketsDoc(updated)));
    if !ok {
      return Threw;
    }
    var i := ActiveIndex(tickets, CurrentUser(old(ls.items), freshUid), timeOf).value;
    assert updated[i].id == active.id;
    return Done(FindById(updated, active.id));
  }

  /** With distinct ticket ids, marking the ticket at k changes that ticket alone, and the
      ticket found under its id afterwards is it, with the new status and reference. */
  lemma MarkOnlyActive(ts: seq<Ticket>, k: nat, status: PaymentStatus, paymentRef: Option<string>)
    requires k < |ts|
    requires forall i, j :: 0 <= i < j < |ts| ==> ts[i].id != ts[j].id
    ensures var marked := MarkAll(ts, ts[k].id, status, paymentRef);
      |marked| == |ts|
      && (forall i :: 0 <= i < |ts| && i != k ==> marked[i] == ts[i])
      && marked[k] == ts[k].(paymentStatus := status, paymentRef := paymentRef)
      && FindById(marked, ts[k].id) == Some(marked[k])
  {
    var marked := MarkAll(ts, ts[k].id, status, paymentRef);
    var f := FindFirst(marked, (t: Ticket) => t.id == ts[k].id);
    assert marked[k].id == ts[k].id;
    assert f.Some?;
  }

  /** `getTicketById`: the first stored ticket with that ticket id, else null. */
  function GetTicketById(items: map<string, Item>, ticketId: string): (r: Option<Ticket>)
    ensures r.None? <==> forall i :: 0 <= i < |GetTickets(items)| ==> GetTickets(items)[i].ticketId != ticketId
    ensures r.Some? ==>
      r.value.ticketId == ticketId
      && exists i :: 0 <= i < |GetTickets(items)| && GetTickets(items)[i] == r.value && (forall j :: 0 <= j < i ==> GetTickets(items)[j].ticketId != ticketId)
  {
    var ts := GetTickets(items);
    var i := FindFirst(ts, (t: Ticket) => t.ticketId == ticketId);
    if i.Some? then Some(ts[i.value]) else None
  }
}
