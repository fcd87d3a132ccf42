/**
 * The invoice routes: the listing filter, creation (total, sequential
 * number, defaults), the pay request that turns items into checkout lines
 * in cents, and the admin status override that stamps `paidAt`.
 */
module Invoices {
  import opened Common
  import opened Schema
  import opened Collections
  import opened Text

  // ----- the amount -----

  /** `items.reduce((sum, item) => sum + item.quantity * item.unitPrice, 0)`. */
  function Amount(items: seq<InvoiceItem>): real
  {
    if |items| == 0 then 0.0
    else Amount(items[..|items| - 1]) + items[|items| - 1].quantity as real * items[|items| - 1].unitPrice
  }

  /** The total of two lists of items laid end to end is the sum of their totals. */
  lemma {:induction false} AmountAppend(a: seq<InvoiceItem>, b: seq<InvoiceItem>)
    ensures Amount(a + b) == Amount(a) + Amount(b)
    decreases |b|
  {
    if |b| > 0 {
      var b' := b[..|b| - 1];
      assert (a + b)[..|a + b| - 1] == a + b';
      AmountAppend(a, b');
    } else {
      assert a + b == a;
    }
  }

  /** Items of non-negative quantity and price give a non-negative total. */
  lemma {:induction false} AmountNonNegative(items: seq<InvoiceItem>)
    requires forall i :: 0 <= i < |items| ==> items[i].quantity >= 0 && items[i].unitPrice >= 0.0
    ensures Amount(items) >= 0.0
  {
    if |items| > 0 {
      AmountNonNegative(items[..|items| - 1]);
    }
  }

  // ----- the invoice number -----

  /** `` `PIT-${year}-${String(count + 1).padStart(4, '0')}` ``. */
  function InvoiceNumber(year: nat, count: nat): string
  {
    "PIT-" + Decimal(year) + "-" + PadStart(Decimal(count + 1), 4, '0')
  }

  /**
   * The number reads back: "PIT-", the year's digits, a dash, then a block
   * of at least four digits (more once the ordinal passes 9999) whose value
   * is the ordinal `count + 1`.
   */
  lemma InvoiceNumberFormat(year: nat, count: nat)
    ensures var n, y := InvoiceNumber(year, count), Decimal(year);
      && |n| > 5 + |y| && n[..4] == "PIT-" && n[4..4 + |y|] == y && n[4 + |y|] == '-'
      && AllDigits(n[5 + |y|..]) && ValueOf(n[5 + |y|..]) == count + 1
      && |n[5 + |y|..]| == (if |Decimal(count + 1)| >= 4 then |Decimal(count + 1)| else 4)
  {
    var y := Decimal(year);
    var tail := PadStart(Decimal(count + 1), 4, '0');
    PaddedValue(Decimal(count + 1));
    DecimalRoundTrip(count + 1);
    NumberLayout(y, tail);
  }

  /** Padding a numeral with zeros keeps it a numeral of the same value. */
  lemma PaddedValue(d: string)
    requires AllDigits(d)
    ensures AllDigits(PadStart(d, 4, '0')) && ValueOf(PadStart(d, 4, '0')) == ValueOf(d)
  {
    var r := PadStart(d, 4, '0');
    var z := r[..|r| - |d|];
    assert r == z + d;
    LeadingZeros(z, d);
  }

  /** Two different (year, ordinal) pairs never share a number. */
  lemma InvoiceNumberInjective(y1: nat, c1: nat, y2: nat, c2: nat)
    requires InvoiceNumber(y1, c1) == InvoiceNumber(y2, c2)
    ensures y1 == y2 && c1 == c2
  {
    var a1, b1 := Decimal(y1), PadStart(Decimal(c1 + 1), 4, '0');
    var a2, b2 := Decimal(y2), PadStart(Decimal(c2 + 1), 4, '0');
    NumberTail(y1, c1);
    NumberTail(y2, c2);
    assert a1 + "-" + b1 == a2 + "-" + b2 by {
      assert InvoiceNumber(y1, c1)[4..] == InvoiceNumber(y2, c2)[4..];
    }
    SplitAtDash(a1, b1, a2, b2);
    DecimalInjective(y1, y2);
    PaddedInjective(c1 + 1, c2 + 1);
  }

  lemma NumberTail(year: nat, count: nat)
    ensures AllDigits(PadStart(Decimal(count + 1), 4, '0'))
    ensures InvoiceNumber(year, count)[4..] == Decimal(year) + "-" + PadStart(Decimal(count + 1), 4, '0')
  {
    PaddedValue(Decimal(count + 1));
    NumberLayout(Decimal(year), PadStart(Decimal(count + 1), 4, '0'));
  }

  lemma DecimalInjective(a: nat, b: nat)
    requires Decimal(a) == Decimal(b)
    ensures a == b
  {
    DecimalRoundTrip(a);
    DecimalRoundTrip(b);
  }

  lemma PaddedInjective(a: nat, b: nat)
    requires PadStart(Decimal(a), 4, '0') == PadStart(Decimal(b), 4, '0')
    ensures a == b
  {
    PaddedValue(Decimal(a));
    PaddedValue(Decimal(b));
    DecimalRoundTrip(a);
    DecimalRoundTrip(b);
  }

  /** A numeral, a dash and a numeral: the dash marks the split. */
  lemma SplitAtDash(a1: string, b1: string, a2: string, b2: string)
    requires AllDigits(a1) && AllDigits(a2) && AllDigits(b1) && AllDigits(b2)
    requires a1 + "-" + b1 == a2 + "-" + b2
    ensures a1 == a2 && b1 == b2
  {
    if |a1| < |a2| {
      CharBefore(a2, b2, |a1|);
      DashAfter(a1, b1);
      assert false;
    } else if |a2| < |a1| {
      CharBefore(a1, b1, |a2|);
      DashAfter(a2, b2);
      assert false;
    } else {
      DashParts(a1, b1);
      DashParts(a2, b2);
    }
  }

  lemma DashAfter(a: string, b: string)
    ensures (a + "-" + b)[|a|] == '-'
  {
  }

  lemma CharBefore(a: string, b: string, i: nat)
    requires i < |a|
    ensures (a + "-" + b)[i] == a[i]
  {
  }

  lemma DashParts(a: string, b: string)
    ensures (a + "-" + b)[..|a|] == a && (a + "-" + b)[|a| + 1..] == b
  {
  }

  /** The pieces of a number laid out as "PIT-", year, dash, ordinal. */
  lemma NumberLayout(y: string, tail: string)
    ensures var n := "PIT-" + y + "-" + tail;
      && |n| == 5 + |y| + |tail| && n[..4] == "PIT-" && n[4..4 + |y|] == y && n[4 + |y|] == '-'
      && n[5 + |y|..] == tail && n[4..] == y + "-" + tail
  {
    var n := "PIT-" + y + "-" + tail;
    assert n == "PIT-" + (y + "-" + tail);
  }

  // ----- creation -----

  /** Thirty days in milliseconds: the default payment term. */
  const PaymentTerm: int := 30 * 24 * 60 * 60 * 1000

  const DefaultDescription: string := "Servicios de IT"

  /** `new Date(dueDate || Date.now() + 30 days)`: a missing or zero due date falls back to the term. */
  function DueDate(dueDate: Option<Time>, now: Time): (r: Time)
    ensures dueDate.Some? && dueDate.value != 0 ==> r == dueDate.value
    ensures dueDate.None? || dueDate.value == 0 ==> r == now + 2592000000
  {
    if dueDate.Some? && dueDate.value != 0 then dueDate.value else now + PaymentTerm
  }

  /** `description || 'Servicios de IT'`: a missing or empty description falls back to the default. */
  function Description(description: Option<string>): (r: string)
    ensures description.Some? && description.value != "" ==> r == description.value
    ensures description.None? || description.value == "" ==> r == "Servicios de IT"
  {
    if description.Some? && description.value != "" then description.value else DefaultDescription
  }

  /** `req.body` of a new invoice. */
  datatype NewInvoiceBody = NewInvoiceBody(
    userId: Option<Id>, description: Option<string>, dueDate: Option<Time>, items: Option<seq<InvoiceItem>>)

  /** The row `prisma.invoice.create` inserts; `count` is the number of invoices before it. */
  function NewInvoiceRow(count: nat, userId: Id, body: NewInvoiceBody, items: seq<InvoiceItem>, year: nat, now: Time): (v: Invoice)
    ensures v.id == count && v.userId == userId && v.items == items && v.amount == Amount(items)
    ensures v.number == InvoiceNumber(year, count)
    ensures v.status == Pending && v.paidAt.None? && v.stripeId.None? && v.createdAt == now
    ensures v.description == Description(body.description) && v.dueDate == DueDate(body.dueDate, now)
  {
    Invoice(count, InvoiceNumber(year, count), Amount(items), Description(body.description),
      Pending, DueDate(body.dueDate, now), None, userId, None, items, now)
  }

  /** `POST /api/invoices` (admin only): the required fields, then the user, then the insert. */
  method CreateInvoice(db: Db, body: NewInvoiceBody, year: nat, now: Time) returns (r: Reply<Invoice>)
    requires db.Valid()
    modifies db`invoices
    ensures db.Valid()
    ensures body.userId.None? || body.items.None? || |body.items.value| == 0 ==>
      r == Err(400, "User ID and items are required") && db.invoices == old(db.invoices)
    ensures body.userId.Some? && body.items.Some? && |body.items.value| > 0 && body.userId.value >= |db.users| ==>
      r == Err(404, "User not found") && db.invoices == old(db.invoices)
    ensures body.userId.Some? && body.items.Some? && |body.items.value| > 0 && body.userId.value < |db.users| ==>
      var v := NewInvoiceRow(|old(db.invoices)|, body.userId.value, body, body.items.value, year, now);
      db.invoices == old(db.invoices) + [v] && r == Ok(201, v)
  {
    if body.userId.None? || body.items.None? || |body.items.value| == 0 {
      return Err(400, "User ID and items are required");
    }
    var userId := body.userId.value;
    if userId >= |db.users| {
      return Err(404, "User not found");
    }
    var v := NewInvoiceRow(|db.invoices|, userId, body, body.items.value, year, now);
    db.invoices := db.invoices + [v];
    r := Ok(201, v);
  }

  // ----- the pay request -----

  /** `Math.round`: the nearest integer, halves rounded up. */
  function RoundHalfUp(x: real): (n: int)
    ensures x - 0.5 < n as real <= x + 0.5
  {
    (x + 0.5).Floor
  }

  /** One of the `line_items` sent to the payment provider, with its price in cents. */
  datatype CheckoutLine = CheckoutLine(name: string, unitAmount: int, quantity: int)

  /** What `stripe.checkout.sessions.create` is asked for: card payment in USD of these lines. */
  datatype CheckoutRequest = CheckoutRequest(customer: Option<string>, lines: seq<CheckoutLine>, invoiceId: Id)

  /** What the payment provider answers: the session's id and the page to send the client to. */
  datatype CheckoutSession = CheckoutSession(id: string, url: string)

  function CheckoutLineOf(item: InvoiceItem): CheckoutLine
  {
    CheckoutLine(item.description, RoundHalfUp(item.unitPrice * 100.0), item.quantity)
  }

  /** `invoice.items.map(...)`: one checkout line per item, in item order. */
  function CheckoutLines(items: seq<InvoiceItem>): (lines: seq<CheckoutLine>)
    ensures |lines| == |items|
    ensures forall i :: 0 <= i < |items| ==> lines[i] == CheckoutLineOf(items[i])
  {
    if |items| == 0 then [] else CheckoutLines(items[..|items| - 1]) + [CheckoutLineOf(items[|items| - 1])]
  }

  /** What the checkout charges for its lines, in cents. */
  function LinesTotal(lines: seq<CheckoutLine>): int
  {
    if |lines| == 0 then 0 else LinesTotal(lines[..|lines| - 1]) + lines[|lines| - 1].unitAmount * lines[|lines| - 1].quantity
  }

  /** A price that is a whole number of cents. */
  predicate CentsExact(price: real)
  {
    (price * 100.0).Floor as real == price * 100.0
  }

  /** Rounding a whole number gives it back. */
  lemma RoundWhole(k: int)
    ensures RoundHalfUp(k as real) == k
  {
    assert k as real <= k as real + 0.5 < (k + 1) as real;
  }

  lemma RoundWholeCents(price: real)
    requires CentsExact(price)
    ensures RoundHalfUp(price * 100.0) as real == price * 100.0
  {
    var x := price * 100.0;
    RoundWhole(x.Floor);
  }

  /** One line's charge in cents, when its price is a whole number of cents. */
  lemma LineCharge(c: int, q: int, p: real)
    requires c as real == p * 100.0
    ensures (c * q) as real == 100.0 * (q as real * p)
  {
    assert (c * q) as real == c as real * q as real;
  }

  /** When every price is a whole number of cents, the checkout charges exactly the invoice amount. */
  lemma {:induction false} CheckoutChargesAmount(items: seq<InvoiceItem>)
    requires forall i :: 0 <= i < |items| ==> CentsExact(items[i].unitPrice)
    ensures LinesTotal(CheckoutLines(items)) as real == 100.0 * Amount(items)
  {
    if |items| > 0 {
      var init := items[..|items| - 1];
      var last := items[|items| - 1];
      CheckoutChargesAmount(init);
      CheckoutStep(items);
    }
  }

  /** If the checkout matches the amount for all items but the last, it matches it for all of them. */
  lemma {:induction false} CheckoutStep(items: seq<InvoiceItem>)
    requires |items| > 0 && CentsExact(items[|items| - 1].unitPrice)
    requires LinesTotal(CheckoutLines(items[..|items| - 1])) as real == 100.0 * Amount(items[..|items| - 1])
    ensures LinesTotal(CheckoutLines(items)) as real == 100.0 * Amount(items)
  {
    var init := items[..|items| - 1];
    var last := items[|items| - 1];
    var cents, centsBefore, lineCents := LinesTotal(CheckoutLines(items)), LinesTotal(CheckoutLines(init)), CheckoutLineOf(last).unitAmount * last.quantity;
    var amount, amountBefore, lineAmount := Amount(items), Amount(init), last.quantity as real * last.unitPrice;
    assert cents == centsBefore + lineCents by { LinesTotalLast(items); }
    assert amount == amountBefore + lineAmount;
    assert lineCents as real == 100.0 * lineAmount by { LineChargeOf(last); }
    ScaledSum(cents, centsBefore, lineCents, amount, amountBefore, lineAmount);
  }

  /** The checkout line of an item priced in whole cents charges its amount exactly. */
  lemma LineChargeOf(item: InvoiceItem)
    requires CentsExact(item.unitPrice)
    ensures (CheckoutLineOf(item).unitAmount * item.quantity) as real == 100.0 * (item.quantity as real * item.unitPrice)
  {
    RoundWholeCents(item.unitPrice);
    LineCharge(CheckoutLineOf(item).unitAmount, item.quantity, item.unitPrice);
  }

  /** The checkout total grows by the last item's line. */
  lemma {:induction false} LinesTotalLast(items: seq<InvoiceItem>)
    requires |items| > 0
    ensures LinesTotal(CheckoutLines(items)) ==
      LinesTotal(CheckoutLines(items[..|items| - 1])) + CheckoutLineOf(items[|items| - 1]).unitAmount * items[|items| - 1].quantity
  {
    var lines := CheckoutLines(items);
    assert lines[..|lines| - 1] == CheckoutLines(items[..|items| - 1]);
  }

  /** Two sums in cents that match their amounts in dollars add up to the sum of the amounts. */
  lemma ScaledSum(x: int, t: int, u: int, y: real, a: real, b: real)
    requires x == t + u && y == a + b
    requires t as real == 100.0 * a && u as real == 100.0 * b
    ensures x as real == 100.0 * y
  {
  }

  /** The invoice after its checkout session exists: only `stripeId` changes. */
  function WithSession(v: Invoice, session: CheckoutSession): (r: Invoice)
    ensures r.stripeId == Some(session.id) && r.status == v.status && r.(stripeId := v.stripeId) == v
  {
    v.(stripeId := Some(session.id))
  }

  /** The guards of the pay request, in order: the answer given before the provider is called, if any. */
  function PayRefusal(invoices: seq<Invoice>, actor: Actor, id: Id): (r: Option<Reply<string>>)
    ensures r.None? <==> id < |invoices| && CanAccess(actor, invoices[id].userId) && invoices[id].status != Paid
    ensures id >= |invoices| ==> r == Some(Err(404, "Invoice not found"))
    ensures id < |invoices| && !CanAccess(actor, invoices[id].userId) ==> r == Some(Err(403, "Access denied"))
    ensures id < |invoices| && CanAccess(actor, invoices[id].userId) && invoices[id].status == Paid ==>
      r == Some(Err(400, "Invoice already paid"))
  {
    if id >= |invoices| then Some(Err(404, "Invoice not found"))
    else if !CanAccess(actor, invoices[id].userId) then Some(Err(403, "Access denied"))
    else if invoices[id].status == Paid then Some(Err(400, "Invoice already paid"))
    else None
  }

  /**
   * `POST /api/invoices/:id/pay`. `stripe` is the payment provider's answer
   * to `sent` (`None`: the call failed); `sent` is what the handler asked
   * for, `None` when a guard answered first.
   */
  method PayInvoice(db: Db, actor: Actor, id: Id, stripe: Option<CheckoutSession>)
    returns (r: Reply<string>, sent: Option<CheckoutRequest>)
    requires db.Valid()
    modifies db`invoices
    ensures db.Valid()
    ensures sent.Some? <==> PayRefusal(old(db.invoices), actor, id).None?
    ensures id >= |old(db.invoices)| ==> r == Err(404, "Invoice not found") && sent.None? && db.invoices == old(db.invoices)
    ensures id < |old(db.invoices)| && !CanAccess(actor, old(db.invoices)[id].userId) ==>
      r == Err(403, "Access denied") && sent.None? && db.invoices == old(db.invoices)
    ensures id < |old(db.invoices)| && CanAccess(actor, old(db.invoices)[id].userId) && old(db.invoices)[id].status == Paid ==>
      r == Err(400, "Invoice already paid") && sent.None? && db.invoices == old(db.invoices)
    ensures id < |old(db.invoices)| && CanAccess(actor, old(db.invoices)[id].userId) && old(db.invoices)[id].status != Paid ==>
      var v := old(db.invoices)[id];
      && sent == Some(CheckoutRequest(db.users[v.userId].stripeId, CheckoutLines(v.items), id))
      && (stripe.None? ==> r == Err(500, Forwarded) && db.invoices == old(db.invoices))
      && (stripe.Some? ==> r == Ok(200, stripe.value.url) && db.invoices == old(db.invoices)[id := WithSession(v, stripe.value)])
  {
    var refusal := PayRefusal(db.invoices, actor, id);
    if refusal.Some? {
      return refusal.value, None;
    }
    var v := db.invoices[id];
    sent := Some(CheckoutRequest(db.users[v.userId].stripeId, CheckoutLines(v.items), id));
    if stripe.None? {
      return Err(500, Forwarded), sent;
    }
    db.invoices := db.invoices[id := WithSession(v, stripe.value)];
    r := Ok(200, stripe.value.url);
  }

  /**
   * For an invoice the caller may see, the guards let through every status
   * but PAID: a CANCELLED or OVERDUE invoice goes on to the checkout.
   */
  lemma PayAcceptsAnyUnpaidStatus(invoices: seq<Invoice>, actor: Actor, id: Id)
    requires id < |invoices| && CanAccess(actor, invoices[id].userId)
    ensures PayRefusal(invoices, actor, id).None? <==> invoices[id].status in {Draft, Pending, Overdue, InvoiceStatus.Cancelled}
  {
  }

  // ----- the admin status override -----

  /** The update `{ status, ...(status === 'PAID' && { paidAt: new Date() }) }`; an absent status writes nothing. */
  function ApplyStatus(v: Invoice, status: Option<InvoiceStatus>, now: Time): (r: Invoice)
    ensures r.status == status.GetOr(v.status)
    ensures r.paidAt == if status == Some(Paid) then Some(now) else v.paidAt
    ensures r.(status := v.status, paidAt := v.paidAt) == v
  {
    match status
    case None => v
    case Some(s) => if s == Paid then v.(status := s, paidAt := Some(now)) else v.(status := s)
  }

  /** Marking PAID twice keeps the second time: the earlier `paidAt` is overwritten. */
  lemma PaidAtOverwritten(v: Invoice, t1: Time, t2: Time)
    ensures ApplyStatus(ApplyStatus(v, Some(Paid), t1), Some(Paid), t2).paidAt == Some(t2)
  {
  }

  /** No status override clears a recorded payment time, even one that leaves PAID. */
  lemma PaidAtNeverCleared(v: Invoice, status: Option<InvoiceStatus>, now: Time)
    requires v.paidAt.Some?
    ensures ApplyStatus(v, status, now).paidAt.Some?
  {
  }

  /** `PUT /api/invoices/:id` (admin only). A missing invoice or an unknown status string makes Prisma throw. */
  method UpdateInvoiceStatus(db: Db, id: Id, status: Option<string>, now: Time) returns (r: Reply<Invoice>)
    requires db.Valid()
    modifies db`invoices
    ensures db.Valid()
    ensures status.Some? && ParseInvoiceStatus(status.value).None? ==> r == Err(500, Forwarded) && db.invoices == old(db.invoices)
    ensures id >= |old(db.invoices)| ==> r == Err(500, Forwarded) && db.invoices == old(db.invoices)
    ensures id < |old(db.invoices)| && (status.None? || ParseInvoiceStatus(status.value).Some?) ==>
      var s := if status.None? then None else ParseInvoiceStatus(status.value);
      var v := ApplyStatus(old(db.invoices)[id], s, now);
      db.invoices == old(db.invoices)[id := v] && r == Ok(200, v)
  {
    var s: Option<InvoiceStatus> := None;
    if status.Some? {
      s := ParseInvoiceStatus(status.value);
      if s.None? {
        return Err(500, Forwarded);
      }
    }
    if id >= |db.invoices| {
      return Err(500, Forwarded);
    }
    var v := ApplyStatus(db.invoices[id], s, now);
    db.invoices := db.invoices[id := v];
    r := Ok(200, v);
  }

  // ----- GET /api/invoices -----

  datatype ListQuery = ListQuery(status: Option<string>, page: Option<int>, limit: Option<int>)

  /** The `where` of the listing: own invoices for a client, plus the status filter when it is non-empty. */
  predicate InvoiceMatches(v: Invoice, actor: Actor, q: ListQuery)
  {
    && (actor.role != Admin ==> v.userId == actor.id)
    && (q.status.Some? && q.status.value != "" ==> InvoiceStatusName(v.status) == q.status.value)
  }

  function Where(actor: Actor, q: ListQuery): Invoice -> bool
  {
    v => InvoiceMatches(v, actor, q)
  }

  predicate ListQueryValid(q: ListQuery)
  {
    && (q.status.Some? && q.status.value != "" ==> ParseInvoiceStatus(q.status.value).Some?)
    && q.page.GetOr(1) >= 1 && q.limit.GetOr(10) >= 1
  }

  /** `GET /api/invoices`: one page of the visible invoices with the requested status, newest first. */
  function ListInvoices(invoices: seq<Invoice>, actor: Actor, q: ListQuery): (r: Reply<Listing<Invoice>>)
    ensures !ListQueryValid(q) <==> r == Err(500, Forwarded)
    ensures r.Ok? ==> r.code == 200 && r.value.page == q.page.GetOr(1) && r.value.limit == q.limit.GetOr(10)
    ensures r.Ok? ==> |r.value.items| <= r.value.limit
    ensures r.Ok? ==> forall i :: 0 <= i < |r.value.items| ==>
      r.value.items[i] in invoices && InvoiceMatches(r.value.items[i], actor, q)
    ensures r.Ok? ==> r.value.total == Count(invoices, Where(actor, q))
    ensures r.Ok? ==> r.value.pages * r.value.limit >= r.value.total
    ensures r.Ok? ==> r.value.pages > 0 ==> (r.value.pages - 1) * r.value.limit < r.value.total
  {
    if !ListQueryValid(q) then Err(500, Forwarded)
    else Ok(200, Listed(invoices, Where(actor, q), q.page.GetOr(1), q.limit.GetOr(10)))
  }

  /**
   * An invoice page is a contiguous run of the matching invoices: read
   * oldest first, page p of size l is the block that ends (p - 1) * l
   * matching invoices before the newest one.
   */
  lemma InvoicePageIsBlock(invoices: seq<Invoice>, actor: Actor, q: ListQuery)
    requires ListQueryValid(q)
    ensures ListInvoices(invoices, actor, q).Ok?
    ensures Reverse(ListInvoices(invoices, actor, q).value.items) ==
      OldestFirstPage(Filter(invoices, Where(actor, q)), q.page.GetOr(1), q.limit.GetOr(10))
  {
    ListedPageIsBlock(invoices, Where(actor, q), q.page.GetOr(1), q.limit.GetOr(10));
  }

  // ----- a worked example -----

  /** Two hours of remote support at 50.00 and one on-site visit at 75.00. */
  lemma TwoItemInvoice()
    ensures var items := [InvoiceItem("Soporte remoto", 2, 50.0), InvoiceItem("Visita", 1, 75.0)];
      && Amount(items) == 175.0
      && CheckoutLines(items) == [CheckoutLine("Soporte remoto", 5000, 2), CheckoutLine("Visita", 7500, 1)]
  {
    var items := [InvoiceItem("Soporte remoto", 2, 50.0), InvoiceItem("Visita", 1, 75.0)];
    assert items[..1] == [items[0]];
    assert items[..1][..0] == [];
  }
}
