/**
 * The assistant routes: validation of a chat message, the client context
 * and conversation window sent to the language model, storage of the
 * exchange, the paged history and its deletion. The model itself is an
 * outcome supplied by the caller.
 */
module AiChat {
  import opened Common
  import opened Schema
  import opened Collections
  import opened Text
  import Auth
  import Services
  import SystemPrompt

  // ----- validation -----

  const MessageRequired: string := "Message is required"
  const MessageTooLong: string := "Message too long (max 2000 characters)"
  const MaxLength: nat := 2000

  /** The error the route answers before doing anything, if any. */
  function ValidateChat(message: Option<string>): (r: Option<string>)
    ensures r == Some(MessageRequired) <==> message.None? || Trim(message.value) == ""
    ensures r == Some(MessageTooLong) <==> message.Some? && Trim(message.value) != "" && |message.value| > MaxLength
    ensures r.None? <==> message.Some? && Trim(message.value) != "" && |message.value| <= MaxLength
  {
    if message.None? || message.value == "" || Trim(message.value) == "" then Some(MessageRequired)
    else if |message.value| > MaxLength then Some(MessageTooLong)
    else None
  }

  // ----- client context -----

  /** The catalogue names of the given client-service records; `None` when one refers to a missing entry. */
  function ServiceNames(records: seq<ClientService>, services: seq<Service>): (r: Option<seq<string>>)
    ensures r.Some? ==> |r.value| == |records|
    ensures r.Some? ==> forall i :: 0 <= i < |records| ==>
      Services.FindService(services, records[i].serviceId).Some? &&
      r.value[i] == services[Services.FindService(services, records[i].serviceId).value].name
    ensures r.None? ==> exists i :: 0 <= i < |records| && Services.FindService(services, records[i].serviceId).None?
  {
    if |records| == 0 then Some([])
    else
      var last := records[|records| - 1];
      match Services.FindService(services, last.serviceId)
      case None => None
      case Some(k) =>
        match ServiceNames(records[..|records| - 1], services)
        case None => None
        case Some(names) => Some(names + [services[k].name])
  }

  /**
   * The client context: name and company of the caller, the names of the
   * caller's ACTIVE services, and the open-ticket and pending-invoice
   * counts. `None` when the query cannot produce it (the user row or a
   * referenced catalogue entry is missing), which makes the route throw.
   */
  function Context(db: Db, id: Id): (r: Option<SystemPrompt.ClientContext>)
    reads db`users, db`tickets, db`invoices, db`services, db`clientServices
    ensures r.Some? ==> id < |db.users| && r.value.name == db.users[id].name && r.value.company == db.users[id].company
    ensures r.Some? ==>
      && r.value.openTickets == Some(Auth.Counts(db, id).tickets)
      && r.value.pendingInvoices == Some(Auth.Counts(db, id).invoices)
    ensures r.Some? ==> r.value.services.Some? && |r.value.services.value| == Auth.Counts(db, id).services
    ensures r.Some? ==> r.value.services == ServiceNames(Filter(db.clientServices, Auth.ActiveServiceOf(id)), db.services)
    ensures r.None? <==> id >= |db.users| || ServiceNames(Filter(db.clientServices, Auth.ActiveServiceOf(id)), db.services).None?
  {
    if id >= |db.users| then None
    else
      var active := Filter(db.clientServices, Auth.ActiveServiceOf(id));
      match ServiceNames(active, db.services)
      case None => None
      case Some(names) =>
        CountIsFilterLength(db.tickets, Auth.OpenTicketOf(id));
        CountIsFilterLength(db.invoices, Auth.PendingInvoiceOf(id));
        Some(SystemPrompt.ClientContext(
          db.users[id].name, db.users[id].company, Some(names),
          Some(Count(db.tickets, Auth.OpenTicketOf(id))), Some(Count(db.invoices, Auth.PendingInvoiceOf(id)))))
  }

  // ----- the conversation window -----

  /** One entry of the `messages` array sent to the model. */
  datatype Turn = Turn(role: ChatRole, content: string)

  function Turns(ms: seq<ChatMessage>): (r: seq<Turn>)
    ensures |r| == |ms| && forall i :: 0 <= i < |ms| ==> r[i] == Turn(ms[i].role, ms[i].content)
  {
    seq(|ms|, i requires 0 <= i < |ms| => Turn(ms[i].role, ms[i].content))
  }

  function Mine(id: Id): ChatMessage -> bool
  {
    (m: ChatMessage) => m.userId == id
  }

  const Window: nat := 10

  /** The caller's ten newest stored messages (newest first, `take: 10`), reversed, then the new message. */
  function Conversation(messages: seq<ChatMessage>, id: Id, message: string): seq<Turn>
  {
    var newest := Reverse(Filter(messages, Mine(id)));
    Turns(Reverse(newest[..Min(Window, |newest|)])) + [Turn(UserRole, message)]
  }

  /**
   * The window is the caller's last (at most ten) messages in the order
   * they were stored, followed by the new message, which is always last.
   */
  lemma ConversationSpec(messages: seq<ChatMessage>, id: Id, message: string)
    ensures var h := Conversation(messages, id, message);
      && 1 <= |h| <= Window + 1
      && h[|h| - 1] == Turn(UserRole, message)
      && h[..|h| - 1] == Turns(Last(Filter(messages, Mine(id)), Window))
  {
    var f := Filter(messages, Mine(id));
    var n := Min(Window, |f|);
    ReverseSlice(f, 0, n);
    assert Reverse(f)[..n] == Reverse(f)[0..n];
    var h := Conversation(messages, id, message);
    assert h[..|h| - 1] == Turns(Reverse(Reverse(f)[..n]));
  }

  // ----- POST /api/ai/chat -----

  /** What the model call yields: the reply text, or an error with its HTTP status if it has one. */
  datatype ModelOutcome = Replied(text: string) | Failed(status: Option<nat>)

  /**
   * What the route sends to the model: the client context the system
   * prompt is rendered from, and the conversation window.
   */
  datatype ModelRequest = ModelRequest(context: SystemPrompt.ClientContext, messages: seq<Turn>)
  {
    /** The `system` text of the request, `getSystemPrompt(context)`. */
    function System(): string
    {
      SystemPrompt.Prompt(context)
    }
  }

  const RateLimited: string := "AI service rate limited. Please try again in a moment."

  /**
   * `POST /api/ai/chat`. After validation and the context query the model
   * is called once; only a reply stores anything, and then exactly the
   * caller's message followed by the reply.
   */
  method Chat(db: Db, actor: Actor, message: Option<string>, model: ModelOutcome, now: Time)
    returns (r: Reply<string>, sent: Option<ModelRequest>)
    requires db.Valid()
    modifies db`chatMessages
    ensures db.Valid()
    ensures ValidateChat(message).Some? ==>
      r == Err(400, ValidateChat(message).value) && sent.None? && db.chatMessages == old(db.chatMessages)
    ensures ValidateChat(message).None? && Context(db, actor.id).None? ==>
      r == Err(500, Forwarded) && sent.None? && db.chatMessages == old(db.chatMessages)
    ensures ValidateChat(message).None? && Context(db, actor.id).Some? ==>
      && sent == Some(ModelRequest(Context(db, actor.id).value,
                                   Conversation(old(db.chatMessages), actor.id, message.value)))
      && match model
         case Replied(text) =>
           && r == Ok(200, text)
           && db.chatMessages == old(db.chatMessages) +
                [ChatMessage(actor.id, UserRole, message.value, now), ChatMessage(actor.id, AssistantRole, text, now)]
         case Failed(status) =>
           && r == (if status == Some(429) then Err(429, RateLimited) else Err(500, Forwarded))
           && db.chatMessages == old(db.chatMessages)
  {
    sent := None;
    var invalid := ValidateChat(message);
    if invalid.Some? {
      return Err(400, invalid.value), None;
    }
    var context := Context(db, actor.id);
    if context.None? {
      return Err(500, Forwarded), None;
    }
    var request := ModelRequest(context.value, Conversation(db.chatMessages, actor.id, message.value));
    sent := Some(request);
    match model {
      case Failed(status) =>
        if status == Some(429) {
          r := Err(429, RateLimited);
        } else {
          r := Err(500, Forwarded);
        }
      case Replied(text) =>
        db.chatMessages := db.chatMessages +
          [ChatMessage(actor.id, UserRole, message.value, now), ChatMessage(actor.id, AssistantRole, text, now)];
        r := Ok(200, text);
    }
  }

  /** A stored exchange becomes the last two turns the next window sees, before the next message. */
  lemma ExchangeEntersWindow(messages: seq<ChatMessage>, id: Id, question: string, answer: string, now: Time, next: string)
    ensures var after := messages + [ChatMessage(id, UserRole, question, now), ChatMessage(id, AssistantRole, answer, now)];
      var h := Conversation(after, id, next);
      |h| >= 3 && h[|h| - 3] == Turn(UserRole, question) && h[|h| - 2] == Turn(AssistantRole, answer)
  {
    var q := ChatMessage(id, UserRole, question, now);
    var a := ChatMessage(id, AssistantRole, answer, now);
    var after := messages + [q, a];
    var f := Filter(messages, Mine(id));
    StoredPairFiltered(messages, q, a, id);
    LastOfAppended(f, q, a, Window);
    ConversationSpec(after, id, next);
    var h := Conversation(after, id, next);
    var w := Last(f + [q, a], Window);
    assert h[..|h| - 1] == Turns(w);
    assert h[|h| - 3] == h[..|h| - 1][|w| - 2];
    assert h[|h| - 2] == h[..|h| - 1][|w| - 1];
  }

  /** Both turns of a stored exchange belong to its author. */
  lemma StoredPairFiltered(messages: seq<ChatMessage>, q: ChatMessage, a: ChatMessage, id: Id)
    requires q.userId == id && a.userId == id
    ensures Filter(messages + [q, a], Mine(id)) == Filter(messages, Mine(id)) + [q, a]
  {
    FilterAppend(messages, [q, a], Mine(id));
    FilterAppend([q], [a], Mine(id));
    assert [q, a] == [q] + [a];
  }

  // ----- GET /api/ai/history -----

  /** `req.query` of the history; absent values default to page 1 and 50 per page. */
  datatype HistoryQuery = HistoryQuery(page: Option<int>, limit: Option<int>)

  predicate HistoryQueryValid(q: HistoryQuery)
  {
    q.page.GetOr(1) >= 1 && q.limit.GetOr(50) >= 1
  }

  /**
   * `GET /api/ai/history`: a page of the caller's messages taken newest
   * first, handed back oldest first.
   */
  function History(messages: seq<ChatMessage>, actor: Actor, q: HistoryQuery): (r: Reply<Listing<ChatMessage>>)
    ensures r.Ok? <==> HistoryQueryValid(q)
    ensures r.Err? ==> r == Err(500, Forwarded)
    ensures r.Ok? ==> r.code == 200 && r.value.page == q.page.GetOr(1) && r.value.limit == q.limit.GetOr(50)
    ensures r.Ok? ==> r.value.total == Count(messages, Mine(actor.id))
    ensures r.Ok? ==> r.value.pages * r.value.limit >= r.value.total
    ensures r.Ok? ==> r.value.pages > 0 ==> (r.value.pages - 1) * r.value.limit < r.value.total
  {
    if !HistoryQueryValid(q) then Err(500, Forwarded)
    else
      var l := Listed(messages, Mine(actor.id), q.page.GetOr(1), q.limit.GetOr(50));
      Ok(200, l.(items := Reverse(l.items)))
  }

  /**
   * A history page is a contiguous run of the caller's messages in stored
   * order: page p of size l holds the block that ends (p - 1) * l
   * messages before the newest one.
   */
  lemma HistoryPageIsBlock(messages: seq<ChatMessage>, actor: Actor, q: HistoryQuery)
    requires HistoryQueryValid(q)
    ensures History(messages, actor, q).Ok?
    ensures History(messages, actor, q).value.items == OldestFirstPage(Filter(messages, Mine(actor.id)), q.page.GetOr(1), q.limit.GetOr(50))
  {
    ListedPageIsBlock(messages, Mine(actor.id), q.page.GetOr(1), q.limit.GetOr(50));
  }

  // ----- DELETE /api/ai/history -----

  function Others(id: Id): ChatMessage -> bool
  {
    (m: ChatMessage) => m.userId != id
  }

  /** `DELETE /api/ai/history`: every message of the caller goes, every other message stays. */
  method ClearHistory(db: Db, actor: Actor) returns (r: Reply<string>)
    requires db.Valid()
    modifies db`chatMessages
    ensures db.Valid()
    ensures r == Ok(200, "Chat history cleared")
    ensures db.chatMessages == Filter(old(db.chatMessages), Others(actor.id))
  {
    db.chatMessages := Filter(db.chatMessages, Others(actor.id));
    r := Ok(200, "Chat history cleared");
  }

  /** After clearing, the caller has no history and nobody else lost a message. */
  lemma ClearedHistory(messages: seq<ChatMessage>, actor: Actor)
    ensures Count(Filter(messages, Others(actor.id)), Mine(actor.id)) == 0
    ensures forall m :: m in messages && m.userId != actor.id ==> m in Filter(messages, Others(actor.id))
  {
    var rest := Filter(messages, Others(actor.id));
    CountIsFilterLength(rest, Mine(actor.id));
    forall m | m in messages && m.userId != actor.id ensures m in rest {
      var i :| 0 <= i < |messages| && messages[i] == m;
    }
  }
}
