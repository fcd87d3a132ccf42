/**
 * The portal's tables and their rows. The database is one object whose
 * tables are sequences in insertion order; a row's `id` is its position
 * (no route of the core deletes tickets, invoices, users or client
 * services). Defaults the database applies on insert (a ticket starts
 * OPEN, an invoice PENDING, a client service ACTIVE, a user CLIENT) are
 * written into the rows the handlers create.
 */
module Schema {
  import opened Common

  type Id = nat

  /** Milliseconds since the epoch: what `new Date()` and `Date.now()` supply. */
  type Time = int

  datatype Role = Client | Admin

  /** The authenticated caller `req.user`: its id and role. */
  datatype Actor = Actor(id: Id, role: Role)

  /** Admins see everything; anyone else only what they own. */
  predicate CanAccess(actor: Actor, owner: Id)
  {
    actor.role == Admin || owner == actor.id
  }

  datatype TicketStatus = Open | InProgress | WaitingClient | Resolved | Closed
  datatype Priority = Low | Medium | High | Urgent
  datatype InvoiceStatus = Draft | Pending | Paid | Overdue | Cancelled
  datatype ServiceStatus = Active | Paused | Cancelled
  datatype PriceType = Hourly | Monthly | OneTime

  function TicketStatusName(s: TicketStatus): string
  {
    match s
    case Open => "OPEN"
    case InProgress => "IN_PROGRESS"
    case WaitingClient => "WAITING_CLIENT"
    case Resolved => "RESOLVED"
    case Closed => "CLOSED"
  }

  /** `z.enum(['OPEN', 'IN_PROGRESS', 'WAITING_CLIENT', 'RESOLVED', 'CLOSED'])`. */
  function ParseTicketStatus(s: string): (r: Option<TicketStatus>)
    ensures r.Some? ==> TicketStatusName(r.value) == s
    ensures r.None? ==> forall t :: TicketStatusName(t) != s
  {
    if s == "OPEN" then Some(Open)
    else if s == "IN_PROGRESS" then Some(InProgress)
    else if s == "WAITING_CLIENT" then Some(WaitingClient)
    else if s == "RESOLVED" then Some(Resolved)
    else if s == "CLOSED" then Some(Closed)
    else None
  }

  function PriorityName(p: Priority): string
  {
    match p
    case Low => "LOW"
    case Medium => "MEDIUM"
    case High => "HIGH"
    case Urgent => "URGENT"
  }

  /** `z.enum(['LOW', 'MEDIUM', 'HIGH', 'URGENT'])`. */
  function ParsePriority(s: string): (r: Option<Priority>)
    ensures r.Some? ==> PriorityName(r.value) == s
    ensures r.None? ==> forall p :: PriorityName(p) != s
  {
    if s == "LOW" then Some(Low)
    else if s == "MEDIUM" then Some(Medium)
    else if s == "HIGH" then Some(High)
    else if s == "URGENT" then Some(Urgent)
    else None
  }

  function InvoiceStatusName(s: InvoiceStatus): string
  {
    match s
    case Draft => "DRAFT"
    case Pending => "PENDING"
    case Paid => "PAID"
    case Overdue => "OVERDUE"
    case Cancelled => "CANCELLED"
  }

  function ParseInvoiceStatus(s: string): (r: Option<InvoiceStatus>)
    ensures r.Some? ==> InvoiceStatusName(r.value) == s
    ensures r.None? ==> forall t :: InvoiceStatusName(t) != s
  {
    if s == "DRAFT" then Some(Draft)
    else if s == "PENDING" then Some(Pending)
    else if s == "PAID" then Some(Paid)
    else if s == "OVERDUE" then Some(Overdue)
    else if s == "CANCELLED" then Some(InvoiceStatus.Cancelled)
    else None
  }

  function ServiceStatusName(s: ServiceStatus): string
  {
    match s
    case Active => "ACTIVE"
    case Paused => "PAUSED"
    case Cancelled => "CANCELLED"
  }

  function ParseServiceStatus(s: string): (r: Option<ServiceStatus>)
    ensures r.Some? ==> ServiceStatusName(r.value) == s
    ensures r.None? ==> forall t :: ServiceStatusName(t) != s
  {
    if s == "ACTIVE" then Some(Active)
    else if s == "PAUSED" then Some(Paused)
    else if s == "CANCELLED" then Some(ServiceStatus.Cancelled)
    else None
  }

  function PriceTypeName(p: PriceType): string
  {
    match p
    case Hourly => "HOURLY"
    case Monthly => "MONTHLY"
    case OneTime => "ONE_TIME"
  }

  function ParsePriceType(s: string): (r: Option<PriceType>)
    ensures r.Some? ==> PriceTypeName(r.value) == s
    ensures r.None? ==> forall p :: PriceTypeName(p) != s
  {
    if s == "HOURLY" then Some(Hourly)
    else if s == "MONTHLY" then Some(Monthly)
    else if s == "ONE_TIME" then Some(OneTime)
    else None
  }

  /** Every enumeration value survives the trip through its wire name. */
  lemma EnumNamesRoundTrip(t: TicketStatus, p: Priority, i: InvoiceStatus, s: ServiceStatus, k: PriceType)
    ensures ParseTicketStatus(TicketStatusName(t)) == Some(t)
    ensures ParsePriority(PriorityName(p)) == Some(p)
    ensures ParseInvoiceStatus(InvoiceStatusName(i)) == Some(i)
    ensures ParseServiceStatus(ServiceStatusName(s)) == Some(s)
    ensures ParsePriceType(PriceTypeName(k)) == Some(k)
  {
  }

  // ----- password hashing, as an abstract injective function -----

  /** What `bcrypt.hash` stores: a digest, never the plain text itself. */
  datatype Digest = Digest(secret: string)

  /** `bcrypt.hash(password, 12)`; salting is not modelled, only that distinct passwords give distinct digests. */
  function Hash(password: string): Digest
  {
    Digest(password)
  }

  /** `bcrypt.compare(password, digest)`. */
  predicate Verify(password: string, d: Digest)
  {
    Hash(password) == d
  }

  lemma HashInjective(a: string, b: string)
    ensures Hash(a) == Hash(b) ==> a == b
  {
  }

  // ----- rows -----

  datatype User = User(
    id: Id, email: string, password: Digest, name: string,
    company: Option<string>, phone: Option<string>, role: Role, stripeId: Option<string>)

  datatype Ticket = Ticket(
    id: Id, title: string, description: string, category: string,
    priority: Priority, status: TicketStatus, userId: Id, createdAt: Time, closedAt: Option<Time>)

  datatype TicketMessage = TicketMessage(id: Id, ticketId: Id, content: string, isStaff: bool, createdAt: Time)

  /** Money is an exact decimal number of dollars. */
  datatype InvoiceItem = InvoiceItem(description: string, quantity: int, unitPrice: real)

  datatype Invoice = Invoice(
    id: Id, number: string, amount: real, description: string, status: InvoiceStatus,
    dueDate: Time, paidAt: Option<Time>, userId: Id, stripeId: Option<string>,
    items: seq<InvoiceItem>, createdAt: Time)

  /** Catalogue entries are keyed by a string id (the seed uses a slug of the name). */
  datatype Service = Service(
    id: string, name: string, description: string, priceType: PriceType,
    price: real, features: seq<string>, isActive: bool)

  datatype ClientService = ClientService(
    id: Id, userId: Id, serviceId: string, status: ServiceStatus,
    startDate: Time, endDate: Option<Time>, notes: Option<string>)

  datatype ChatRole = UserRole | AssistantRole

  datatype ChatMessage = ChatMessage(userId: Id, role: ChatRole, content: string, createdAt: Time)

  // ----- table invariants -----

  /** Row ids are positions and e-mail addresses are unique (`email @unique`). */
  predicate UsersValid(users: seq<User>)
  {
    && (forall i :: 0 <= i < |users| ==> users[i].id == i)
    && (forall i, j :: 0 <= i < j < |users| ==> users[i].email != users[j].email)
  }

  predicate TicketsValid(tickets: seq<Ticket>)
  {
    forall i :: 0 <= i < |tickets| ==> tickets[i].id == i
  }

  predicate TicketMessagesValid(messages: seq<TicketMessage>, tickets: seq<Ticket>)
  {
    forall i :: 0 <= i < |messages| ==> messages[i].id == i && messages[i].ticketId < |tickets|
  }

  /** Every invoice belongs to an existing user. */
  predicate InvoicesValid(invoices: seq<Invoice>, users: seq<User>)
  {
    forall i :: 0 <= i < |invoices| ==> invoices[i].id == i && invoices[i].userId < |users|
  }

  /** Service ids are unique (the primary key). */
  predicate ServicesValid(services: seq<Service>)
  {
    forall i, j :: 0 <= i < j < |services| ==> services[i].id != services[j].id
  }

  /** At most one client-service record per (userId, serviceId): the compound unique key. */
  predicate ClientServicesValid(records: seq<ClientService>)
  {
    && (forall i :: 0 <= i < |records| ==> records[i].id == i)
    && (forall i, j :: 0 <= i < j < |records| ==>
          !(records[i].userId == records[j].userId && records[i].serviceId == records[j].serviceId))
  }

  /** The application database. */
  class Db {
    var users: seq<User>
    var tickets: seq<Ticket>
    var ticketMessages: seq<TicketMessage>
    var invoices: seq<Invoice>
    var services: seq<Service>
    var clientServices: seq<ClientService>
    var chatMessages: seq<ChatMessage>

    ghost predicate Valid()
      reads this`users, this`tickets, this`ticketMessages, this`invoices, this`services, this`clientServices
    {
      && UsersValid(users)
      && TicketsValid(tickets)
      && TicketMessagesValid(ticketMessages, tickets)
      && InvoicesValid(invoices, users)
      && ServicesValid(services)
      && ClientServicesValid(clientServices)
    }

    /** An empty database. */
    constructor ()
      ensures Valid()
      ensures users == [] && tickets == [] && ticketMessages == [] && invoices == []
      ensures services == [] && clientServices == [] && chatMessages == []
    {
      users := [];
      tickets := [];
      ticketMessages := [];
      invoices := [];
      services := [];
      clientServices := [];
      chatMessages := [];
    }
  }
}
