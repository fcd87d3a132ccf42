/**
 * The ticket routes: the request schemas, the listing filter and its
 * pages, ticket creation, the update that strips a client's status and
 * stamps `closedAt`, and the message route that moves a ticket waiting on
 * its client back to IN_PROGRESS.
 */
module Tickets {
  import opened Common
  import opened Schema
  import opened Collections

  // ----- request bodies and their schemas -----

  /** `req.body` of a new ticket; a field the client left out is `None`. */
  datatype NewTicketBody = NewTicketBody(
    title: Option<string>, description: Option<string>, category: Option<string>, priority: Option<string>)

  /** The parsed body of a new ticket. */
  datatype NewTicket = NewTicket(title: string, description: string, category: string, priority: Option<Priority>)

  /** `createTicketSchema.parse`. */
  function ParseNewTicket(b: NewTicketBody): (r: Option<NewTicket>)
    ensures r.Some? <==>
      && b.title.Some? && |b.title.value| >= 5
      && b.description.Some? && |b.description.value| >= 10
      && b.category.Some? && |b.category.value| >= 1
      && (b.priority.Some? ==> ParsePriority(b.priority.value).Some?)
    ensures r.Some? ==>
      && r.value.title == b.title.value && r.value.description == b.description.value
      && r.value.category == b.category.value
      && (r.value.priority.Some? <==> b.priority.Some?)
      && (r.value.priority.Some? ==> PriorityName(r.value.priority.value) == b.priority.value)
  {
    if b.title.None? || |b.title.value| < 5 then None
    else if b.description.None? || |b.description.value| < 10 then None
    else if b.category.None? || |b.category.value| < 1 then None
    else if b.priority.None? then Some(NewTicket(b.title.value, b.description.value, b.category.value, None))
    else match ParsePriority(b.priority.value)
      case None => None
      case Some(p) => Some(NewTicket(b.title.value, b.description.value, b.category.value, Some(p)))
  }

  /** `req.body` of a ticket update. */
  datatype TicketPatchBody = TicketPatchBody(status: Option<string>, priority: Option<string>)

  /** The parsed update: the fields present in the request. */
  datatype TicketPatch = TicketPatch(status: Option<TicketStatus>, priority: Option<Priority>)

  /** `updateTicketSchema.parse`: each field is optional, but a present one must name a member of its enumeration. */
  function ParsePatch(b: TicketPatchBody): (r: Option<TicketPatch>)
    ensures r.Some? <==>
      (b.status.Some? ==> ParseTicketStatus(b.status.value).Some?)
      && (b.priority.Some? ==> ParsePriority(b.priority.value).Some?)
    ensures r.Some? ==>
      && (r.value.status.Some? <==> b.status.Some?)
      && (r.value.status.Some? ==> TicketStatusName(r.value.status.value) == b.status.value)
      && (r.value.priority.Some? <==> b.priority.Some?)
      && (r.value.priority.Some? ==> PriorityName(r.value.priority.value) == b.priority.value)
  {
    var s := if b.status.None? then Some(None) else
      match ParseTicketStatus(b.status.value) case None => None case Some(v) => Some(Some(v));
    var p := if b.priority.None? then Some(None) else
      match ParsePriority(b.priority.value) case None => None case Some(v) => Some(Some(v));
    if s.None? || p.None? then None else Some(TicketPatch(s.value, p.value))
  }

  /** `req.body` of a ticket message. */
  datatype MessageBody = MessageBody(content: Option<string>)

  /** `messageSchema.parse`: a non-empty content. */
  predicate ValidMessage(b: MessageBody)
  {
    b.content.Some? && |b.content.value| >= 1
  }

  // ----- the rows the handlers write -----

  /** The row `prisma.ticket.create` inserts for a parsed body. */
  function NewTicketRow(id: Id, data: NewTicket, owner: Id, now: Time): (t: Ticket)
    ensures t.id == id && t.userId == owner && t.createdAt == now
    ensures t.title == data.title && t.description == data.description && t.category == data.category
    ensures t.status == Open && t.closedAt.None?
    ensures data.priority.None? ==> t.priority == Medium
    ensures data.priority.Some? ==> t.priority == data.priority.value
  {
    Ticket(id, data.title, data.description, data.category, data.priority.GetOr(Medium), Open, owner, now, None)
  }

  /** `delete data.status` for a caller who is not an admin. */
  function MaskForRole(p: TicketPatch, role: Role): (r: TicketPatch)
    ensures r.priority == p.priority
    ensures role == Admin ==> r == p
    ensures role != Admin ==> r.status.None?
  {
    if role != Admin && p.status.Some? then p.(status := None) else p
  }

  /** The update `{ ...data, ...(data.status === 'CLOSED' && { closedAt: new Date() }) }`. */
  function ApplyPatch(t: Ticket, p: TicketPatch, now: Time): (r: Ticket)
    ensures p.status.Some? ==> r.status == p.status.value
    ensures p.status.None? ==> r.status == t.status
    ensures p.priority.Some? ==> r.priority == p.priority.value
    ensures p.priority.None? ==> r.priority == t.priority
    ensures r.closedAt == if p.status == Some(Closed) then Some(now) else t.closedAt
    ensures r.(status := t.status, priority := t.priority, closedAt := t.closedAt) == t
  {
    var r := t.(status := p.status.GetOr(t.status), priority := p.priority.GetOr(t.priority));
    if p.status == Some(Closed) then r.(closedAt := Some(now)) else r
  }

  /** The ticket after a message: a client's reply to a ticket waiting on them reopens work on it. */
  function AfterMessage(t: Ticket, role: Role): (r: Ticket)
    ensures role != Admin && t.status == WaitingClient ==> r.status == InProgress
    ensures !(role != Admin && t.status == WaitingClient) ==> r == t
    ensures r.(status := t.status) == t
  {
    if role != Admin && t.status == WaitingClient then t.(status := InProgress) else t
  }

  // ----- properties of the update rules -----

  /** A client's update can change the priority, never the status nor `closedAt`, whatever it asks for. */
  lemma ClientCannotChangeStatus(t: Ticket, p: TicketPatch, now: Time)
    ensures ApplyPatch(t, MaskForRole(p, Client), now).status == t.status
    ensures ApplyPatch(t, MaskForRole(p, Client), now).closedAt == t.closedAt
    ensures ApplyPatch(t, MaskForRole(p, Client), now).priority == p.priority.GetOr(t.priority)
  {
  }

  /** An admin can move a ticket to any of the five statuses, from any status. */
  lemma AdminSetsAnyStatus(t: Ticket, s: TicketStatus, now: Time)
    ensures ApplyPatch(t, MaskForRole(TicketPatch(Some(s), None), Admin), now).status == s
  {
  }

  /** `closedAt` changes only when the applied status is CLOSED, and then it is the current time. */
  lemma ClosedAtOnlyFromClosed(t: Ticket, p: TicketPatch, role: Role, now: Time)
    ensures var r := ApplyPatch(t, MaskForRole(p, role), now);
      r.closedAt != t.closedAt ==> role == Admin && p.status == Some(Closed) && r.closedAt == Some(now)
  {
  }

  /**
   * Reopening a closed ticket keeps its `closedAt`: "closed time is set
   * exactly when the status is CLOSED" is not an invariant of the code.
   */
  lemma ReopenedTicketKeepsClosedAt(t: Ticket, now: Time)
    requires t.status == Closed && t.closedAt.Some?
    ensures var r := ApplyPatch(t, MaskForRole(TicketPatch(Some(Open), None), Admin), now);
      r.status == Open && r.closedAt == t.closedAt
  {
  }

  /** Only a client's reply to a WAITING_CLIENT ticket changes its status; a CLOSED ticket stays CLOSED. */
  lemma MessageStatusRule(t: Ticket, role: Role)
    ensures AfterMessage(t, role).status != t.status <==> role == Client && t.status == WaitingClient
    ensures t.status == Closed ==> AfterMessage(t, role) == t
  {
  }

  // ----- GET /api/tickets -----

  /** The query string of a listing; `page` and `limit` already passed through `parseInt`, defaults 1 and 10. */
  datatype ListQuery = ListQuery(status: Option<string>, priority: Option<string>, page: Option<int>, limit: Option<int>)

  /** The `where` of the listing: own tickets for a client, plus the truthy filters, conjunctively. */
  predicate TicketMatches(t: Ticket, actor: Actor, q: ListQuery)
  {
    && (actor.role != Admin ==> t.userId == actor.id)
    && (q.status.Some? && q.status.value != "" ==> TicketStatusName(t.status) == q.status.value)
    && (q.priority.Some? && q.priority.value != "" ==> PriorityName(t.priority) == q.priority.value)
  }

  /** A non-empty filter that names no enumeration member makes the query throw. */
  predicate ListQueryValid(q: ListQuery)
  {
    && (q.status.Some? && q.status.value != "" ==> ParseTicketStatus(q.status.value).Some?)
    && (q.priority.Some? && q.priority.value != "" ==> ParsePriority(q.priority.value).Some?)
    && q.page.GetOr(1) >= 1 && q.limit.GetOr(10) >= 1
  }

  /** The `where` of the listing as the predicate `findMany` and `count` are given. */
  function Where(actor: Actor, q: ListQuery): Ticket -> bool
  {
    t => TicketMatches(t, actor, q)
  }

  /** `GET /api/tickets`: one page of the visible, matching tickets, newest first, and the `pagination` figures. */
  function ListTickets(tickets: seq<Ticket>, actor: Actor, q: ListQuery): (r: Reply<Listing<Ticket>>)
    ensures !ListQueryValid(q) <==> r == Err(500, Forwarded)
    ensures r.Ok? ==> r.code == 200 && r.value.page == q.page.GetOr(1) && r.value.limit == q.limit.GetOr(10)
    ensures r.Ok? ==> |r.value.items| <= r.value.limit
    ensures r.Ok? ==> forall i :: 0 <= i < |r.value.items| ==>
      r.value.items[i] in tickets && TicketMatches(r.value.items[i], actor, q)
    ensures r.Ok? ==> r.value.total == Count(tickets, Where(actor, q))
    ensures r.Ok? ==> r.value.pages * r.value.limit >= r.value.total
    ensures r.Ok? ==> r.value.pages > 0 ==> (r.value.pages - 1) * r.value.limit < r.value.total
  {
    if !ListQueryValid(q) then Err(500, Forwarded)
    else Ok(200, Listed(tickets, Where(actor, q), q.page.GetOr(1), q.limit.GetOr(10)))
  }

  /**
   * A ticket page is a contiguous run of the matching tickets: read oldest
   * first, page p of size l is the block that ends (p - 1) * l matching
   * tickets before the newest one.
   */
  lemma TicketPageIsBlock(tickets: seq<Ticket>, actor: Actor, q: ListQuery)
    requires ListQueryValid(q)
    ensures ListTickets(tickets, actor, q).Ok?
    ensures Reverse(ListTickets(tickets, actor, q).value.items) ==
      OldestFirstPage(Filter(tickets, Where(actor, q)), q.page.GetOr(1), q.limit.GetOr(10))
  {
    ListedPageIsBlock(tickets, Where(actor, q), q.page.GetOr(1), q.limit.GetOr(10));
  }

  /** A client's listing never shows someone else's ticket, whatever the filters. */
  lemma ClientSeesOwnTickets(tickets: seq<Ticket>, actor: Actor, q: ListQuery, i: nat)
    requires actor.role == Client
    requires ListTickets(tickets, actor, q).Ok? && i < |ListTickets(tickets, actor, q).value.items|
    ensures ListTickets(tickets, actor, q).value.items[i].userId == actor.id
  {
  }

  // ----- handlers that write -----

  /** `POST /api/tickets`. */
  method CreateTicket(db: Db, actor: Actor, body: NewTicketBody, now: Time) returns (r: Reply<Ticket>)
    requires db.Valid()
    modifies db`tickets
    ensures db.Valid()
    ensures ParseNewTicket(body).None? ==> r == Err(400, ValidationFailed) && db.tickets == old(db.tickets)
    ensures ParseNewTicket(body).Some? ==>
      var t := NewTicketRow(|old(db.tickets)|, ParseNewTicket(body).value, actor.id, now);
      db.tickets == old(db.tickets) + [t] && r == Ok(201, t)
  {
    var data := ParseNewTicket(body);
    if data.None? {
      return Err(400, ValidationFailed);
    }
    var t := NewTicketRow(|db.tickets|, data.value, actor.id, now);
    db.tickets := db.tickets + [t];
    r := Ok(201, t);
  }

  /** `PUT /api/tickets/:id`: the schema first, then existence, then ownership, then the write. */
  method UpdateTicket(db: Db, actor: Actor, id: Id, body: TicketPatchBody, now: Time) returns (r: Reply<Ticket>)
    requires db.Valid()
    modifies db`tickets
    ensures db.Valid()
    ensures ParsePatch(body).None? ==> r == Err(400, ValidationFailed) && db.tickets == old(db.tickets)
    ensures ParsePatch(body).Some? && id >= |old(db.tickets)| ==>
      r == Err(404, "Ticket not found") && db.tickets == old(db.tickets)
    ensures ParsePatch(body).Some? && id < |old(db.tickets)| && !CanAccess(actor, old(db.tickets)[id].userId) ==>
      r == Err(403, "Access denied") && db.tickets == old(db.tickets)
    ensures ParsePatch(body).Some? && id < |old(db.tickets)| && CanAccess(actor, old(db.tickets)[id].userId) ==>
      var t := ApplyPatch(old(db.tickets)[id], MaskForRole(ParsePatch(body).value, actor.role), now);
      db.tickets == old(db.tickets)[id := t] && r == Ok(200, t)
  {
    var data := ParsePatch(body);
    if data.None? {
      return Err(400, ValidationFailed);
    }
    if id >= |db.tickets| {
      return Err(404, "Ticket not found");
    }
    var ticket := db.tickets[id];
    if !CanAccess(actor, ticket.userId) {
      return Err(403, "Access denied");
    }
    var patch := data.value;
    if actor.role != Admin && patch.status.Some? {
      patch := patch.(status := None);
    }
    var updated := ApplyPatch(ticket, patch, now);
    db.tickets := db.tickets[id := updated];
    r := Ok(200, updated);
  }

  /** `POST /api/tickets/:id/messages`: a message insert, then the conditional status update. */
  method AddMessage(db: Db, actor: Actor, ticketId: Id, body: MessageBody, now: Time) returns (r: Reply<TicketMessage>)
    requires db.Valid()
    modifies db`ticketMessages, db`tickets
    ensures db.Valid()
    ensures !ValidMessage(body) ==>
      r == Err(400, ValidationFailed) && db.tickets == old(db.tickets) && db.ticketMessages == old(db.ticketMessages)
    ensures ValidMessage(body) && ticketId >= |old(db.tickets)| ==>
      r == Err(404, "Ticket not found") && db.tickets == old(db.tickets) && db.ticketMessages == old(db.ticketMessages)
    ensures ValidMessage(body) && ticketId < |old(db.tickets)| && !CanAccess(actor, old(db.tickets)[ticketId].userId) ==>
      r == Err(403, "Access denied") && db.tickets == old(db.tickets) && db.ticketMessages == old(db.ticketMessages)
    ensures ValidMessage(body) && ticketId < |old(db.tickets)| && CanAccess(actor, old(db.tickets)[ticketId].userId) ==>
      var m := TicketMessage(|old(db.ticketMessages)|, ticketId, body.content.value, actor.role == Admin, now);
      && db.ticketMessages == old(db.ticketMessages) + [m]
      && db.tickets == old(db.tickets)[ticketId := AfterMessage(old(db.tickets)[ticketId], actor.role)]
      && r == Ok(201, m)
  {
    if !ValidMessage(body) {
      return Err(400, ValidationFailed);
    }
    if ticketId >= |db.tickets| {
      return Err(404, "Ticket not found");
    }
    var ticket := db.tickets[ticketId];
    if !CanAccess(actor, ticket.userId) {
      return Err(403, "Access denied");
    }
    var m := TicketMessage(|db.ticketMessages|, ticketId, body.content.value, actor.role == Admin, now);
    db.ticketMessages := db.ticketMessages + [m];
    if actor.role != Admin && ticket.status == WaitingClient {
      db.tickets := db.tickets[ticketId := ticket.(status := InProgress)];
    }
    r := Ok(201, m);
  }
}
