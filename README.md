# Pedro IT Portal — a Dafny model of the portal's core

This project models the request handlers and client-side state of the
Pedro IT Solutions customer portal and proves properties about them:

- **tickets**: the request schemas; the listing filter and its pages; creation; the update that drops a client's status change and sets `closedAt`; the message route that moves a WAITING_CLIENT ticket back to IN_PROGRESS.
- **invoices**: the amount, the `PIT-<year>-<nnnn>` number and the defaults on creation; the guards of the pay request and its checkout lines; the admin status override that sets `paidAt`.
- **the payment webhook**: the dispatch on the event type, and marking the invoice paid.
- **the support page's keyword bot**: normalisation, the fifteen ordered rules and the default reply; the page state of `handleSubmit` and `clearHistory`.
- **the catalogue and client services**: the public and own listings, create and update, and assignment with one record per (user, service).
- **registration, login, `/me`, profile and password change.**
- **the AI chat route**: validation, the client context, the ten-message window, the stored exchange, the history pages and clearing; also the system-prompt template.
- **the two front-end stores**: chat and authentication.
- **the seeding script**: the service id made from the name, upsert by that id, and the two accounts.

## How the model is built

- **The database.** The database is one object, `Schema.Db`, whose tables are sequences in insertion order. For users, tickets, ticket messages, invoices and client services, a row's id is its position; none of the modelled routes deletes those rows. Catalogue services are keyed by a unique string id. `Db.Valid()` states the unique keys: user e-mail, service id, and (user, service) for client services.
- **"Newest first".** "Newest first" is the reverse of insertion order.
- **Inputs.** The acting user (`Actor`: id and role), the current time and the calendar year are parameters.
- **Answers.** A route's answer is a `Reply`: `Ok(code, value)` or `Err(code, message)`. An exception that the route passes to the error middleware is `Err(500, Forwarded)`.
- **External services.** Their answers are oracles passed in as parameters. A handler that sends a request to the payment provider or the language model also returns that request (`sent`), `None` when a guard answered first:
  - the payment provider (checkout sessions, customers, webhook signatures);
  - password hashing, modelled as an injective `Hash` and `Verify`;
  - the language model.
- **Form of each file.**
  - Handlers that write are methods that modify the database's tables. Computations without side effects are functions. The properties are lemmas about those functions.
  - The support page and the two stores are classes whose fields are the component or store state.
  - The seeding loop is a `for` loop whose invariant ties the catalogue to a specification over the entries processed so far.
- **JavaScript semantics modelled.**
  - Truthiness: an absent or empty string is falsy.
  - `x || default`.
  - Prisma ignoring `undefined` fields.
  - `Math.ceil` and `Math.round`.
  - `padStart`.
  - ECMAScript white space for `trim` and `\s`.
  - `toLowerCase` on Latin-1.

### Where the code and its documentation differ (the model follows the code)

- **Webhook duplicates.** The webhook has no guard against duplicate deliveries. A redelivered `checkout.session.completed` marks the invoice paid again and moves `paidAt` to the later time (`Webhooks.RedeliveryOverwritesPaidAt`, `Webhooks.DuplicateDelivery`). It also overrides a CANCELLED status (`Webhooks.CompletionOverridesStatus`).
- **`closedAt`.** "`closedAt` is set exactly when a ticket is CLOSED" is not an invariant. Reopening keeps the old `closedAt` (`Tickets.ReopenedTicketKeepsClosedAt`).
- **Messages on CLOSED tickets.** They are accepted and leave the ticket CLOSED (`Tickets.MessageStatusRule`).
- **`paidAt` on invoices.** The admin status override rewrites `paidAt` whenever PAID is set again. It never clears it (`Invoices.PaidAtOverwritten`, `Invoices.PaidAtNeverCleared`).
- **The pay request.** It accepts any status other than PAID, CANCELLED included (`Invoices.PayAcceptsAnyUnpaidStatus`).
- **HIPAA questions.** The support bot answers any message mentioning "hipaa" with the greeting: "hi" occurs in "hipaa", and the greeting rule comes first (`Support.HipaaIsShadowed`).
- **Bad pagination.** A negative `skip`, i.e. `(page - 1) * limit < 0`, makes Prisma throw, and so does an unparseable `page` or `limit`. The model answers `Err(500, Forwarded)` for every `page < 1` and for every `limit < 1`; for a `limit` of zero or below this is an approximation, listed under "Left out".
- **Webhook database errors.** An error in the webhook's database update escapes the handler. Under Express 4 it is not answered by the handler; it is modelled as `Err(500, Forwarded)` with nothing written.

## Model

| member | source | states |
|---|---|---|
| Schema.ParseTicketStatus | pedro-it-portal/pedro-it-portal/backend/src/routes/tickets.js:20 | a status string parses exactly when it is the wire name of one of the five statuses |
| Schema.ParsePriority | pedro-it-portal/pedro-it-portal/backend/src/routes/tickets.js:16 | a priority string parses exactly when it is LOW, MEDIUM, HIGH or URGENT |
| Schema.ParseInvoiceStatus | pedro-it-portal/pedro-it-portal/backend/src/routes/invoices.js:192-199 | a status string parses exactly when it names an invoice status; anything else makes the update throw |
| Schema.ParseServiceStatus | pedro-it-portal/pedro-it-portal/backend/src/routes/services.js:185 | a status string parses exactly when it names a client-service status |
| Schema.ParsePriceType | pedro-it-portal/pedro-it-portal/backend/src/routes/services.js:71 | a price type parses exactly when it is HOURLY, MONTHLY or ONE_TIME |
| Schema.EnumNamesRoundTrip | pedro-it-portal/pedro-it-portal/backend/src/routes/tickets.js:16-20 | every enumeration value parses back from its wire name |
| Schema.HashInjective | pedro-it-portal/pedro-it-portal/backend/src/routes/auth.js:39 | distinct passwords give distinct stored digests |
| Collections.Listed | pedro-it-portal/pedro-it-portal/backend/src/routes/tickets.js:39-63 | a listing page holds at most `limit` matching rows, `total` is the count of all matching rows and `pages` is Math.ceil(total / limit) |
| Collections.PageCount | pedro-it-portal/pedro-it-portal/backend/src/routes/tickets.js:61 | `pages` is the least number whose product with `limit` covers `total` |
| Collections.ListedCoversAll | pedro-it-portal/pedro-it-portal/backend/src/routes/tickets.js:48-52 | the pages 1..pages, laid end to end, are all matching rows newest first |
| Collections.PageAfterLastIsEmpty | pedro-it-portal/pedro-it-portal/backend/src/routes/tickets.js:49-50 | a page past the last one is empty |
| Collections.SortByPermutes | pedro-it-portal/pedro-it-portal/backend/src/routes/services.js:12 | ordering a listing neither loses nor adds a row |
| Collections.SortBySorted | pedro-it-portal/pedro-it-portal/backend/src/routes/services.js:12 | ordering under a total preorder gives a sorted listing |
| Collections.ReverseSlice | pedro-it-portal/pedro-it-portal/backend/src/routes/ai.js:58-63 | taking rows newest first and reversing gives the original chronological block |
| Collections.CountIsFilterLength | pedro-it-portal/pedro-it-portal/backend/src/routes/auth.js:144-150 | a count equals the length of the filtered table |
| Text.TrimSpec | pedro-it-portal/pedro-it-portal/backend/src/routes/ai.js:24 | `trim` drops exactly the ECMAScript white space at both ends; the result is empty iff the text is all white space |
| Text.ContainsIff | pedro-it-portal/pedro-it-portal/frontend/src/pages/portal/Support.jsx:218 | `includes` holds iff the keyword occurs at some offset |
| Text.DecimalRoundTrip | pedro-it-portal/pedro-it-portal/backend/src/routes/invoices.js:101 | `String(n)` is a numeral that denotes n |
| Text.PadStart | pedro-it-portal/pedro-it-portal/backend/src/routes/invoices.js:101 | `padStart(4, '0')` pads on the left to four characters and never truncates |
| Text.JoinEmptyIff | pedro-it-portal/pedro-it-portal/backend/src/config/ai.js:16 | `join(', ')` is empty exactly for no name or a single empty name |
| Tickets.ParseNewTicket | pedro-it-portal/pedro-it-portal/backend/src/routes/tickets.js:12-17 | a body parses iff title has 5+, description 10+ and category 1+ characters and a present priority is one of the four; parsed fields are the body's |
| Tickets.ParsePatch | pedro-it-portal/pedro-it-portal/backend/src/routes/tickets.js:19-22 | an update body parses iff each present field names a member of its enumeration |
| Tickets.NewTicketRow | pedro-it-portal/pedro-it-portal/backend/src/routes/tickets.js:74-81 | the created ticket is owned by the caller, OPEN, without closedAt, with priority MEDIUM when none was given |
| Tickets.MaskForRole | pedro-it-portal/pedro-it-portal/backend/src/routes/tickets.js:149-152 | a non-admin's status is removed while the priority is kept; an admin's patch is unchanged |
| Tickets.ApplyPatch | pedro-it-portal/pedro-it-portal/backend/src/routes/tickets.js:154-159 | given fields are written, others kept, and closedAt is set to now exactly when the patch status is CLOSED |
| Tickets.AfterMessage | pedro-it-portal/pedro-it-portal/backend/src/routes/tickets.js:204-210 | a client's message to a WAITING_CLIENT ticket moves it to IN_PROGRESS; otherwise the ticket is unchanged |
| Tickets.ClientCannotChangeStatus | pedro-it-portal/pedro-it-portal/backend/src/routes/tickets.js:149-159 | a client's update never changes status or closedAt, and applies the requested priority |
| Tickets.AdminSetsAnyStatus | pedro-it-portal/pedro-it-portal/backend/src/routes/tickets.js:154-159 | an admin can set any of the five statuses from any status |
| Tickets.ClosedAtOnlyFromClosed | pedro-it-portal/pedro-it-portal/backend/src/routes/tickets.js:158 | closedAt changes only when an admin sets CLOSED, and then to the current time |
| Tickets.ReopenedTicketKeepsClosedAt | pedro-it-portal/pedro-it-portal/backend/src/routes/tickets.js:154-159 | reopening a CLOSED ticket keeps its old closedAt |
| Tickets.MessageStatusRule | pedro-it-portal/pedro-it-portal/backend/src/routes/tickets.js:205 | a message changes the status iff a client answers a WAITING_CLIENT ticket; a CLOSED ticket stays CLOSED |
| Tickets.ListTickets | pedro-it-portal/pedro-it-portal/backend/src/routes/tickets.js:29-63 | invalid filters or pagination give 500; otherwise at most `limit` visible, matching tickets, the total of matching tickets, and `pages` equal to `Math.ceil(total / limit)` |
| Tickets.TicketPageIsBlock | pedro-it-portal/pedro-it-portal/backend/src/routes/tickets.js:40-50 | a page, read oldest first, is the block of matching tickets that ends (page - 1) * limit tickets before the newest, as `orderBy: createdAt desc` with `skip` and `take` select it |
| Tickets.ClientSeesOwnTickets | pedro-it-portal/pedro-it-portal/backend/src/routes/tickets.js:34 | a client's listing holds only their own tickets |
| Tickets.CreateTicket | pedro-it-portal/pedro-it-portal/backend/src/routes/tickets.js:70-99 | an invalid body gives 400 and writes nothing; a valid one appends the new row and answers 201 |
| Tickets.UpdateTicket | pedro-it-portal/pedro-it-portal/backend/src/routes/tickets.js:132-177 | in order: 400 for the schema, 404 for a missing ticket, 403 for another user's ticket, each before any write; otherwise the masked patch is applied |
| Tickets.AddMessage | pedro-it-portal/pedro-it-portal/backend/src/routes/tickets.js:180-222 | 400, 404 and 403 before any write; otherwise the message is appended with isStaff for admins and the ticket follows AfterMessage |
| Invoices.AmountAppend | pedro-it-portal/pedro-it-portal/backend/src/routes/invoices.js:95-97 | the amount of items laid end to end is the sum of their amounts |
| Invoices.AmountNonNegative | pedro-it-portal/pedro-it-portal/backend/src/routes/invoices.js:95-97 | non-negative quantities and prices give a non-negative amount |
| Invoices.InvoiceNumberFormat | pedro-it-portal/pedro-it-portal/backend/src/routes/invoices.js:101 | the number reads PIT-, the year, a dash, and count+1 padded to at least four digits |
| Invoices.InvoiceNumberInjective | pedro-it-portal/pedro-it-portal/backend/src/routes/invoices.js:101 | distinct (year, count) pairs give distinct numbers |
| Invoices.DueDate | pedro-it-portal/pedro-it-portal/backend/src/routes/invoices.js:108 | a missing or zero due date defaults to now plus 30 days |
| Invoices.Description | pedro-it-portal/pedro-it-portal/backend/src/routes/invoices.js:107 | a missing or empty description defaults to 'Servicios de IT' |
| Invoices.NewInvoiceRow | pedro-it-portal/pedro-it-portal/backend/src/routes/invoices.js:95-117 | the new invoice carries the summed amount, the generated number, PENDING status and the given items |
| Invoices.CreateInvoice | pedro-it-portal/pedro-it-portal/backend/src/routes/invoices.js:78-130 | 400 without a user id or items, 404 for an unknown user, otherwise the row is appended and 201 |
| Invoices.RoundHalfUp | pedro-it-portal/pedro-it-portal/backend/src/routes/invoices.js:165 | `Math.round` gives the integer within half of x |
| Invoices.CheckoutLines | pedro-it-portal/pedro-it-portal/backend/src/routes/invoices.js:159-168 | one checkout line per item, in item order |
| Invoices.CheckoutChargesAmount | pedro-it-portal/pedro-it-portal/backend/src/routes/invoices.js:159-168 | when prices are whole cents, the checkout charges exactly 100 times the invoice amount |
| Invoices.WithSession | pedro-it-portal/pedro-it-portal/backend/src/routes/invoices.js:178-181 | only stripeId changes, to the session id |
| Invoices.PayInvoice | pedro-it-portal/pedro-it-portal/backend/src/routes/invoices.js:133-187 | 404, 403 and 400 (already PAID) before any call; otherwise the checkout request is sent and the session id stored on success |
| Invoices.PayRefusal | pedro-it-portal/pedro-it-portal/backend/src/routes/invoices.js:143-153 | the guards answer 404, 403 and 400 'Invoice already paid' in this order; nothing refuses exactly an existing, accessible invoice that is not PAID |
| Invoices.PayAcceptsAnyUnpaidStatus | pedro-it-portal/pedro-it-portal/backend/src/routes/invoices.js:151 | every status other than PAID passes the guard, CANCELLED and OVERDUE included |
| Invoices.ApplyStatus | pedro-it-portal/pedro-it-portal/backend/src/routes/invoices.js:196-199 | the status is written and paidAt is set to now exactly when the status is PAID |
| Invoices.PaidAtOverwritten | pedro-it-portal/pedro-it-portal/backend/src/routes/invoices.js:198 | setting PAID twice keeps the second time |
| Invoices.PaidAtNeverCleared | pedro-it-portal/pedro-it-portal/backend/src/routes/invoices.js:196-199 | no status update clears a recorded paidAt |
| Invoices.UpdateInvoiceStatus | pedro-it-portal/pedro-it-portal/backend/src/routes/invoices.js:190-212 | an unknown status or a missing invoice gives 500 with nothing written; otherwise ApplyStatus is applied |
| Invoices.ListInvoices | pedro-it-portal/pedro-it-portal/backend/src/routes/invoices.js:11-48 | invalid status or pagination gives 500; otherwise `page` and `limit` as given, at most `limit` visible invoices with the requested status, their total, and `pages` equal to `Math.ceil(total / limit)` |
| Invoices.InvoicePageIsBlock | pedro-it-portal/pedro-it-portal/backend/src/routes/invoices.js:21-31 | a page, read oldest first, is the block of matching invoices that ends (page - 1) * limit invoices before the newest, as `orderBy: createdAt desc` with `skip` and `take` select it |
| Invoices.TwoItemInvoice | pedro-it-portal/pedro-it-portal/backend/src/routes/invoices.js:95-97 | 2 x 50.00 plus 1 x 75.00 totals 175.00 and is charged as 5000 and 7500 cents |
| Webhooks.Classify | pedro-it-portal/pedro-it-portal/backend/src/routes/webhooks.js:25-67 | each event type is routed to its case; any other type is unhandled |
| Webhooks.MarkPaid | pedro-it-portal/pedro-it-portal/backend/src/routes/webhooks.js:30-37 | the invoice becomes PAID, paidAt is now and stripeId is the payment intent; nothing else changes |
| Webhooks.HandleWebhook | pedro-it-portal/pedro-it-portal/backend/src/routes/webhooks.js:8-70 | a bad signature gives 400 'Webhook Error: ...'; a completed checkout with an invoice id marks it paid; every verified event is acknowledged |
| Webhooks.RedeliveryOverwritesPaidAt | pedro-it-portal/pedro-it-portal/backend/src/routes/webhooks.js:30-37 | a redelivered event moves paidAt to the later delivery |
| Webhooks.CompletionOverridesStatus | pedro-it-portal/pedro-it-portal/backend/src/routes/webhooks.js:33 | a completion marks even a CANCELLED invoice PAID |
| Webhooks.DuplicateDelivery | pedro-it-portal/pedro-it-portal/backend/src/routes/webhooks.js:8-70 | both deliveries of the same event are acknowledged and the invoice ends with the second paidAt |
| Support.StripMarks | pedro-it-portal/pedro-it-portal/frontend/src/pages/portal/Support.jsx:6 | the result has no combining mark; every other character is kept in order |
| Support.NormalizeIdempotent | pedro-it-portal/pedro-it-portal/frontend/src/pages/portal/Support.jsx:6 | normalising a normalised message changes nothing |
| Support.RulesDistinct | pedro-it-portal/pedro-it-portal/frontend/src/pages/portal/Support.jsx:8-213 | the fifteen rules have distinct replies, none of them the default |
| Support.FindResponseSpec | pedro-it-portal/pedro-it-portal/frontend/src/pages/portal/Support.jsx:5-236 | the default reply comes iff no rule matches the normalised text; otherwise the reply is that of the first matching rule |
| Support.FirstMatchWins | pedro-it-portal/pedro-it-portal/frontend/src/pages/portal/Support.jsx:216-222 | rule i answers iff it matches and no earlier rule does |
| Support.FindResponseOfNormalized | pedro-it-portal/pedro-it-portal/frontend/src/pages/portal/Support.jsx:6 | a normalised message gets the same reply as the original |
| Support.HipaaIsShadowed | pedro-it-portal/pedro-it-portal/frontend/src/pages/portal/Support.jsx:104 | a message mentioning hipaa gets the greeting, because 'hi' occurs in it and its rule comes first |
| Support.CuantoIsPricing | pedro-it-portal/pedro-it-portal/frontend/src/pages/portal/Support.jsx:23 | a message without 'h', 'b' or 'd' that asks 'cuanto' gets the pricing reply |
| Support.RemoteSupportPriceQuestion | pedro-it-portal/pedro-it-portal/frontend/src/pages/portal/Support.jsx:23 | the pricing rule wins over the support and remote rules for a question naming all three |
| Support.SupportChat.Submit | pedro-it-portal/pedro-it-portal/frontend/src/pages/portal/Support.jsx:272-286 | an empty trimmed input or a pending reply leaves everything as it was; otherwise the trimmed text is appended, the box cleared and typing starts |
| Support.SupportChat.DeliverReply | pedro-it-portal/pedro-it-portal/frontend/src/pages/portal/Support.jsx:288-298 | the reply for the pending text is appended and typing ends |
| Support.SupportChat.ClearHistory | pedro-it-portal/pedro-it-portal/frontend/src/pages/portal/Support.jsx:301-306 | the list is emptied only when the user confirms |
| Support.SupportChat.SetInput | pedro-it-portal/pedro-it-portal/frontend/src/pages/portal/Support.jsx:435 | the input box holds exactly the typed text, and nothing else of the page changes |
| Services.LexLeTotal | pedro-it-portal/pedro-it-portal/backend/src/routes/services.js:12 | the name order is total |
| Services.LexLeTrans | pedro-it-portal/pedro-it-portal/backend/src/routes/services.js:12 | the name order is transitive |
| Services.PublicCatalogSpec | pedro-it-portal/pedro-it-portal/backend/src/routes/services.js:10-13 | the public catalogue is sorted by name, a permutation of the active services, and holds exactly the active ones |
| Services.MyServicesSpec | pedro-it-portal/pedro-it-portal/backend/src/routes/services.js:24-33 | a client's listing is newest start first and holds exactly their ACTIVE records |
| Services.FindService | pedro-it-portal/pedro-it-portal/backend/src/routes/services.js:115-121 | the found position holds the service id; None means no row has it |
| Services.CreateService | pedro-it-portal/pedro-it-portal/backend/src/routes/services.js:59-81 | 400 'Missing required fields' for a falsy name, description or price type or no price; otherwise the row is appended with features defaulting to [] and 201 |
| Services.PatchService | pedro-it-portal/pedro-it-portal/backend/src/routes/services.js:88-98 | each truthy or defined field is written and every other field kept |
| Services.EmptyPatchIsIdentity | pedro-it-portal/pedro-it-portal/backend/src/routes/services.js:90-97 | an empty body changes nothing |
| Services.UpdateService | pedro-it-portal/pedro-it-portal/backend/src/routes/services.js:84-104 | a missing id or a bad price type gives 500 with nothing written; otherwise the patch is applied |
| Services.FindPair | pedro-it-portal/pedro-it-portal/backend/src/routes/services.js:132-139 | the found record has the (user, service) pair; None means no record has it |
| Services.Assign | pedro-it-portal/pedro-it-portal/backend/src/routes/services.js:145-162 | the pair's record is created or reactivated with the new start date; one record per pair is kept |
| Services.AssignService | pedro-it-portal/pedro-it-portal/backend/src/routes/services.js:107-175 | 400 without a user id, 404 for an unknown service, then for an unknown user, 400 if already ACTIVE; otherwise Assign and 201 |
| Services.AssignTwiceConflicts | pedro-it-portal/pedro-it-portal/backend/src/routes/services.js:141-143 | after an assignment the pair's record is ACTIVE, so assigning again is refused |
| Services.PatchClientService | pedro-it-portal/pedro-it-portal/backend/src/routes/services.js:184-188 | a truthy status and a defined notes are written, and CANCELLED sets endDate to now |
| Services.CancelThenReassign | pedro-it-portal/pedro-it-portal/backend/src/routes/services.js:145-162 | a cancelled record is reactivated in place, endDate cleared, without a new row |
| Services.UpdateClientService | pedro-it-portal/pedro-it-portal/backend/src/routes/services.js:178-201 | a missing record or a bad status gives 500 with nothing written; otherwise the patch is applied |
| Auth.ParseRegister | pedro-it-portal/pedro-it-portal/backend/src/routes/auth.js:11-17 | a body parses iff the e-mail is well formed, the password has 8+ and the name 2+ characters |
| Auth.FindByEmail | pedro-it-portal/pedro-it-portal/backend/src/routes/auth.js:30-32 | the found user has the e-mail; None means no user has it |
| Auth.FindByEmailUnique | pedro-it-portal/pedro-it-portal/backend/src/routes/auth.js:30-32 | with unique e-mails the lookup finds exactly that user |
| Auth.NewUser | pedro-it-portal/pedro-it-portal/backend/src/routes/auth.js:51-59 | the new user has the hashed password, the provider customer id and the role CLIENT |
| Auth.Register | pedro-it-portal/pedro-it-portal/backend/src/routes/auth.js:25-86 | 400 for the schema and 400 'Email already registered' with no provider call; then the customer request (address, name, company or '') is sent; 500 when the provider fails; otherwise the user is appended and 201 |
| Auth.Login | pedro-it-portal/pedro-it-portal/backend/src/routes/auth.js:89-129 | an invalid body gives 400, and a success is 200 |
| Auth.LoginSucceedsIff | pedro-it-portal/pedro-it-portal/backend/src/routes/auth.js:93-105 | a login succeeds iff some user has the e-mail and the password verifies, and it then returns the account of the user holding that e-mail |
| Auth.LoginFailsUniformly | pedro-it-portal/pedro-it-portal/backend/src/routes/auth.js:97-105 | an unknown e-mail and a wrong password give the same 401 'Invalid credentials' |
| Auth.RegisteredUserLogsIn | pedro-it-portal/pedro-it-portal/backend/src/routes/auth.js:25-129 | a newly registered user can log in with the registered password |
| Auth.Counts | pedro-it-portal/pedro-it-portal/backend/src/routes/auth.js:144-150 | the counts are the caller's OPEN or IN_PROGRESS tickets, PENDING invoices and ACTIVE services |
| Auth.CountOwnRows | pedro-it-portal/pedro-it-portal/backend/src/routes/auth.js:144-150 | a more selective filter never counts more rows |
| Auth.ClosingDropsOpenCount | pedro-it-portal/pedro-it-portal/backend/src/routes/auth.js:146 | closing one of the caller's open tickets lowers the open count by one |
| Auth.CountUpdate | pedro-it-portal/pedro-it-portal/backend/src/routes/auth.js:144-150 | replacing one row changes a count by that row's contribution only |
| Auth.Me | pedro-it-portal/pedro-it-portal/backend/src/routes/auth.js:132-158 | the caller's row and counts, when the caller exists |
| Auth.MergeProfile | pedro-it-portal/pedro-it-portal/backend/src/routes/auth.js:165-171 | a truthy name, a defined company and a defined phone are written; the other fields stay |
| Auth.MergeProfileIdempotent | pedro-it-portal/pedro-it-portal/backend/src/routes/auth.js:165-171 | applying the same profile update twice equals applying it once |
| Auth.UpdateProfile | pedro-it-portal/pedro-it-portal/backend/src/routes/auth.js:161-194 | the row is updated first; a user with a provider id causes the customer update, and its failure gives 500 after the write |
| Auth.ChangePassword | pedro-it-portal/pedro-it-portal/backend/src/routes/auth.js:197-230 | 400 for missing passwords, 400 for a short new one, 401 for a wrong current one; otherwise only the digest changes |
| Auth.PasswordChangeSwapsLogin | pedro-it-portal/pedro-it-portal/backend/src/routes/auth.js:197-230 | after a change the new password logs in and the old one gives 401 |
| AiChat.ValidateChat | pedro-it-portal/pedro-it-portal/backend/src/routes/ai.js:24-30 | 400 'Message is required' for a missing or blank message, then 'Message too long' above 2000 characters; valid exactly otherwise |
| AiChat.ServiceNames | pedro-it-portal/pedro-it-portal/backend/src/routes/ai.js:36-38 | one name per active assignment, looked up in the catalogue |
| AiChat.Context | pedro-it-portal/pedro-it-portal/backend/src/routes/ai.js:33-53 | the caller's name and company, the open-ticket and pending-invoice counts, and the catalogue names of the caller's ACTIVE records in order, one per record; `None` exactly when the caller's row or one of those catalogue entries is missing |
| AiChat.Turns | pedro-it-portal/pedro-it-portal/backend/src/routes/ai.js:63-66 | one role and content per stored message, in order |
| AiChat.ConversationSpec | pedro-it-portal/pedro-it-portal/backend/src/routes/ai.js:56-72 | the history is the caller's last ten messages in chronological order, followed by the new user turn |
| AiChat.Chat | pedro-it-portal/pedro-it-portal/backend/src/routes/ai.js:20-108 | 400s first, then one model request whose system text is the prompt for the caller's context and whose turns are the conversation; a reply stores the user and assistant messages and answers 200; 429 and other failures store nothing |
| AiChat.ExchangeEntersWindow | pedro-it-portal/pedro-it-portal/backend/src/routes/ai.js:56-72 | a stored exchange is the last pair of the next conversation's history |
| AiChat.History | pedro-it-portal/pedro-it-portal/backend/src/routes/ai.js:111-139 | invalid pagination gives 500; otherwise `page` and `limit` as given, the caller's message total, and `pages` equal to `Math.ceil(total / limit)` |
| Collections.ListedPageIsBlock | pedro-it-portal/pedro-it-portal/backend/src/routes/ai.js:115-128 | a page of a newest-first listing, put back in order, is a contiguous block of the matching rows |
| AiChat.HistoryPageIsBlock | pedro-it-portal/pedro-it-portal/backend/src/routes/ai.js:115-128 | a page is the matching block of the caller's messages, in chronological order |
| AiChat.ClearHistory | pedro-it-portal/pedro-it-portal/backend/src/routes/ai.js:142-152 | every message of the caller is deleted, others kept, and 'Chat history cleared' is answered |
| AiChat.ClearedHistory | pedro-it-portal/pedro-it-portal/backend/src/routes/ai.js:144-146 | after clearing, the caller has no message, and every other user's message remains |
| SystemPrompt.CompanyText | pedro-it-portal/pedro-it-portal/backend/src/config/ai.js:15 | a truthy company is shown; otherwise 'Cliente individual' |
| SystemPrompt.ServicesTextDefault | pedro-it-portal/pedro-it-portal/backend/src/config/ai.js:16 | the default 'Ninguno aún' shows exactly when the joined names are empty (or equal the default) |
| SystemPrompt.CountText | pedro-it-portal/pedro-it-portal/backend/src/config/ai.js:17-18 | a count shows as a numeral of its value, 0 when missing |
| SystemPrompt.PromptFrame | pedro-it-portal/pedro-it-portal/backend/src/config/ai.js:10-70 | every prompt begins with the fixed header and ends with the fixed footer |
| SystemPrompt.PromptsDifferOnlyInClientLines | pedro-it-portal/pedro-it-portal/backend/src/config/ai.js:14-18 | two prompts are equal iff their client lines are equal |
| SystemPrompt.PromptNamesClient | pedro-it-portal/pedro-it-portal/backend/src/config/ai.js:14 | the prompt contains the line naming the client |
| ChatStore.ErrorText | pedro-it-portal/pedro-it-portal/frontend/src/stores/chatStore.js:57 | the error is the failure's message when truthy, else 'Error sending message' |
| ChatStore.ChatStore.constructor | pedro-it-portal/pedro-it-portal/frontend/src/stores/chatStore.js:5-8 | no messages, not loading, closed, no error |
| ChatStore.ChatStore.Toggle | pedro-it-portal/pedro-it-portal/frontend/src/stores/chatStore.js:10-12 | the widget's open flag flips |
| ChatStore.ChatStore.Open | pedro-it-portal/pedro-it-portal/frontend/src/stores/chatStore.js:14 | the widget is open |
| ChatStore.ChatStore.Close | pedro-it-portal/pedro-it-portal/frontend/src/stores/chatStore.js:15 | the widget is closed |
| ChatStore.ChatStore.LoadHistory | pedro-it-portal/pedro-it-portal/frontend/src/stores/chatStore.js:17-24 | fetched messages replace the list; a failed fetch keeps it |
| ChatStore.ChatStore.BeginSend | pedro-it-portal/pedro-it-portal/frontend/src/stores/chatStore.js:27-38 | the user message is appended, loading starts and the error is cleared |
| ChatStore.ChatStore.CompleteSend | pedro-it-portal/pedro-it-portal/frontend/src/stores/chatStore.js:40-59 | a reply is appended; a failure sets the error text; loading ends either way |
| ChatStore.ChatStore.SendMessage | pedro-it-portal/pedro-it-portal/frontend/src/stores/chatStore.js:26-60 | the user message always stays; the reply follows it on success, the error is set on failure |
| ChatStore.ChatStore.ClearHistory | pedro-it-portal/pedro-it-portal/frontend/src/stores/chatStore.js:62-69 | the list is emptied only when the server call succeeds |
| AuthStore.MergeUser | pedro-it-portal/pedro-it-portal/frontend/src/stores/authStore.js:43-47 | supplied keys are overwritten, every other key of the user kept, and no other key added |
| AuthStore.MergeUserIdempotent | pedro-it-portal/pedro-it-portal/frontend/src/stores/authStore.js:43-47 | merging the same data twice equals merging it once |
| AuthStore.AuthStore.constructor | pedro-it-portal/pedro-it-portal/frontend/src/stores/authStore.js:5-7 | no user, loading, not authenticated |
| AuthStore.AuthStore.Initialize | pedro-it-portal/pedro-it-portal/frontend/src/stores/authStore.js:9-24 | no token: not authenticated; a /me answer: authenticated with that user; a failure: the token is dropped; loading ends |
| AuthStore.AuthStore.SignIn | pedro-it-portal/pedro-it-portal/frontend/src/stores/authStore.js:26-36 | a successful login or registration stores the user and token and authenticates; a failure changes nothing |
| AuthStore.AuthStore.Logout | pedro-it-portal/pedro-it-portal/frontend/src/stores/authStore.js:38-41 | no user, no token, not authenticated |
| AuthStore.AuthStore.UpdateUser | pedro-it-portal/pedro-it-portal/frontend/src/stores/authStore.js:43-47 | the user becomes the shallow merge with the data |
| Seed.DashesShape | pedro-it-portal/pedro-it-portal/backend/prisma/seed.js:136 | the result has no white space, and every character other than a dash comes from the text |
| Seed.DashesKeepsSpaceFree | pedro-it-portal/pedro-it-portal/backend/prisma/seed.js:136 | text without white space is returned unchanged |
| Seed.DashesRun | pedro-it-portal/pedro-it-portal/backend/prisma/seed.js:136 | a maximal run of white space between a word and the rest becomes a single '-' |
| Seed.SlugOfWords | pedro-it-portal/pedro-it-portal/backend/prisma/seed.js:136 | a name whose lower-cased form is words separated by single spaces gets the words joined by dashes as its id |
| Seed.SlugShape | pedro-it-portal/pedro-it-portal/backend/prisma/seed.js:136 | an id has no white space and no capital letter |
| Seed.SlugIdempotent | pedro-it-portal/pedro-it-portal/backend/prisma/seed.js:136 | computing the id of an id gives it back |
| Seed.LastSeed | pedro-it-portal/pedro-it-portal/backend/prisma/seed.js:133-144 | the last entry with that id is the one whose fields remain; None iff no entry has the id |
| Seed.UpsertValid | pedro-it-portal/pedro-it-portal/backend/prisma/seed.js:134-143 | an upsert keeps service ids unique |
| Seed.UpsertService | pedro-it-portal/pedro-it-portal/backend/prisma/seed.js:134-143 | one upsert keeps service ids unique, writes exactly the upserted catalogue, and extends the loop's specification by one entry |
| Seed.SeedServices | pedro-it-portal/pedro-it-portal/backend/prisma/seed.js:133-144 | after the loop every id is present, existing rows are refreshed in place, new rows come from new ids, and no row is added when all ids existed |
| Seed.SeededStep | pedro-it-portal/pedro-it-portal/backend/prisma/seed.js:133-144 | each upsert preserves the loop invariant |
| Seed.SeededIsStable | pedro-it-portal/pedro-it-portal/backend/prisma/seed.js:133-144 | after one run every row already holds what another run would write |
| Seed.SecondRunIsIdentity | pedro-it-portal/pedro-it-portal/backend/prisma/seed.js:133-144 | a second run leaves the catalogue exactly as the first left it |
| Seed.SeedServicesTwice | pedro-it-portal/pedro-it-portal/backend/prisma/seed.js:133-144 | running the upsert loop twice still meets the seeding specification for the entries, relative to the catalogue before the first run |
| Seed.SeedUser | pedro-it-portal/pedro-it-portal/backend/prisma/seed.js:11-21 | an existing e-mail leaves the users unchanged; a new one appends the row |
| Seed.SeedAll | pedro-it-portal/pedro-it-portal/backend/prisma/seed.js:6-161 | after the script both the admin and the demo account exist and the catalogue is seeded |

## Left out

- **Express and middleware.** Routing, middleware, JSON encoding and the `include`/`select` projections are left out: they are transport and presentation. The authenticated caller is an input, and admin-only routes assume `requireAdmin` passed.
- **GET routes and statistics.** `GET /:id` for tickets, invoices and services, the two `admin/stats` routes and `GET /api/services/admin/clients` are left out. They are single lookups or aggregates outside the modelled core.
- **External services.** Payment-provider calls, bcrypt and JWT generation, and the language-model call are oracles. Salting, token contents, prompt caching and the model's `usage` figures are not modelled.
- **The AI rate limiter.** The `express-rate-limit` middleware on the chat route is configuration of a library and is left out. Only the 429 answer of the model provider is modelled.
- **Concurrency.** An invoice number is computed from `count + 1` and can race with a concurrent insert; this is not modelled. Neither is the interleaving of a chat-store send with other store actions.
- **Timestamps.** Equal `createdAt` values are not distinguished: insertion order stands for time order. Chat message ids made from `Date.now()` are not modelled, and nor is the random reply delay of the support page.
- **Lengths.** String lengths count code points, not UTF-16 code units. This only matters for the 2000-character limit with characters outside the Basic Multilingual Plane.
- **Text handling.**
  - `toLowerCase` and NFD decomposition cover only Basic Latin and Latin-1 letters.
  - Sorting by name is code-point order, not database collation.
- **E-mail validation.** `Auth.IsEmail` approximates the schema library's e-mail check: one '@' with text before it, a '.' in the domain, and no white space. It does not reproduce that library's regular expression.
- **Type validation.** A wrong value type that Prisma rejects (a number where a string is expected) is not modelled. Only enumeration strings are checked.
- **Absent fields.** JSON `null` and an absent field are both `None`.
- **Numbers.** Ids are natural numbers, so a falsy id 0 is not modelled. Money is an exact decimal (`real`), not a floating-point number.
- **`dueDate` parsing.** The date is given as a time in milliseconds.
- **Environment values.** `FRONTEND_URL`, the webhook secret and the currency are not modelled.
- **Support page.**
  - Each reply is represented by the rule it comes from (`Support.Intent`), not by its text.
  - Loading and saving the history in `localStorage`, scrolling and `formatTime` are left out.
- **Auth store.** A `/me` answer without a user counts as a failure in `AuthStore.AuthStore.Initialize`. The auth middleware that produces that answer is not part of this model.
- **Seed data.**
  - Only the names matter to the keys, so the descriptions, prices and features of the eight catalogue entries are inputs, not constants.
  - That the eight names give eight distinct ids is not proved. Checking it needs the id of each literal name to be computed in full, which is beyond the solver budget. The upsert lemmas hold for any list of entries, repeated ids included.
- **Database defaults.** The defaults applied on insert (ticket OPEN, invoice PENDING, client service ACTIVE from now, user CLIENT, service active) are written into the rows the handlers create. The database schema that declares them is not part of this model.
- **Failed HTTP calls.** Store and page actions whose HTTP call fails get an outcome parameter. The error objects themselves are not modelled.
- Auth.Login: its own contract states only the validation failure and the success code; the full behaviour is stated by `Auth.LoginSucceedsIff` and `Auth.LoginFailsUniformly`.
- Tickets.ListTickets: a `limit` of zero or below is answered 500. Prisma accepts `take: 0` (no rows, and `pages` is `Math.ceil(total / 0)`, sent as `null`), and with a `skip` of zero or above a negative `take` counts rows from the end; neither is modelled.
- Invoices.ListInvoices: a `limit` of zero or below is answered 500, with the same Prisma behaviour left out as for `Tickets.ListTickets`.
- AiChat.History: a `limit` of zero or below is answered 500, with the same Prisma behaviour left out as for `Tickets.ListTickets`.
- Seed.SeedServicesTwice: its contract states only that the two runs together satisfy the seeding specification; that the second run changes nothing is the lemma `Seed.SecondRunIsIdentity`, which it calls.
