/**
 * The payment provider's webhook: signature check, dispatch on the event
 * type, and the one state change, marking the paid invoice.
 */
module Webhooks {
  import opened Common
  import opened Schema

  /** The parts of a provider event the handler reads. */
  datatype StripeEvent = StripeEvent(kind: string, invoiceId: Option<Id>, paymentIntent: Option<string>)

  /** What `stripe.webhooks.constructEvent` yields: the event, or the reason the signature was refused. */
  datatype Delivery = Verified(event: StripeEvent) | Rejected(reason: string)

  /** The branches of the `switch (event.type)`. */
  datatype EventKind = CheckoutCompleted | PaymentFailed | SubscriptionChanged | SubscriptionDeleted | Unhandled

  function Classify(kind: string): (k: EventKind)
    ensures k == CheckoutCompleted <==> kind == "checkout.session.completed"
    ensures k == PaymentFailed <==> kind == "payment_intent.payment_failed"
    ensures k == SubscriptionChanged <==> kind == "customer.subscription.created" || kind == "customer.subscription.updated"
    ensures k == SubscriptionDeleted <==> kind == "customer.subscription.deleted"
  {
    if kind == "checkout.session.completed" then CheckoutCompleted
    else if kind == "payment_intent.payment_failed" then PaymentFailed
    else if kind == "customer.subscription.created" || kind == "customer.subscription.updated" then SubscriptionChanged
    else if kind == "customer.subscription.deleted" then SubscriptionDeleted
    else Unhandled
  }

  /** The update `{ status: 'PAID', paidAt: new Date(), stripeId: session.payment_intent }`. */
  function MarkPaid(v: Invoice, paymentIntent: Option<string>, now: Time): (r: Invoice)
    ensures r.status == Paid && r.paidAt == Some(now) && r.stripeId == paymentIntent
    ensures r.(status := v.status, paidAt := v.paidAt, stripeId := v.stripeId) == v
  {
    v.(status := Paid, paidAt := Some(now), stripeId := paymentIntent)
  }

  /** Whether a delivery writes to the invoice table at all. */
  predicate Acts(d: Delivery)
  {
    d.Verified? && Classify(d.event.kind) == CheckoutCompleted && d.event.invoiceId.Some?
  }

  /**
   * `POST /api/webhooks/stripe`. A verified event is acknowledged with
   * `{ received: true }` (here `Ok(200, true)`) whatever its type; the
   * update of an invoice that does not exist throws and is not answered
   * by the handler.
   */
  method HandleWebhook(db: Db, d: Delivery, now: Time) returns (r: Reply<bool>)
    requires db.Valid()
    modifies db`invoices
    ensures db.Valid()
    ensures d.Rejected? ==> r == Err(400, "Webhook Error: " + d.reason) && db.invoices == old(db.invoices)
    ensures d.Verified? && !Acts(d) ==> r == Ok(200, true) && db.invoices == old(db.invoices)
    ensures Acts(d) && d.event.invoiceId.value >= |old(db.invoices)| ==>
      r == Err(500, Forwarded) && db.invoices == old(db.invoices)
    ensures Acts(d) && d.event.invoiceId.value < |old(db.invoices)| ==>
      var id := d.event.invoiceId.value;
      r == Ok(200, true) && db.invoices == old(db.invoices)[id := MarkPaid(old(db.invoices)[id], d.event.paymentIntent, now)]
  {
    if d.Rejected? {
      return Err(400, "Webhook Error: " + d.reason);
    }
    var event := d.event;
    match Classify(event.kind) {
      case CheckoutCompleted =>
        if event.invoiceId.Some? {
          var id := event.invoiceId.value;
          if id >= |db.invoices| {
            return Err(500, Forwarded);
          }
          db.invoices := db.invoices[id := MarkPaid(db.invoices[id], event.paymentIntent, now)];
        }
      case PaymentFailed =>
      case SubscriptionChanged =>
      case SubscriptionDeleted =>
      case Unhandled =>
    }
    r := Ok(200, true);
  }

  /** A redelivered completion keeps the invoice PAID but moves `paidAt` to the later delivery. */
  lemma RedeliveryOverwritesPaidAt(v: Invoice, pi: Option<string>, t1: Time, t2: Time)
    ensures var twice := MarkPaid(MarkPaid(v, pi, t1), pi, t2);
      twice.status == Paid && twice.paidAt == Some(t2)
  {
  }

  /** A completion marks the invoice PAID whatever its status was, CANCELLED included. */
  lemma CompletionOverridesStatus(v: Invoice, pi: Option<string>, now: Time)
    requires v.status == InvoiceStatus.Cancelled
    ensures MarkPaid(v, pi, now).status == Paid
  {
  }

  /** The same event delivered twice: the second delivery is not recognised as a repeat. */
  method DuplicateDelivery(db: Db, e: StripeEvent, t1: Time, t2: Time) returns (r1: Reply<bool>, r2: Reply<bool>)
    requires db.Valid()
    requires Classify(e.kind) == CheckoutCompleted && e.invoiceId.Some? && e.invoiceId.value < |db.invoices|
    modifies db`invoices
    ensures db.Valid()
    ensures r1 == Ok(200, true) && r2 == Ok(200, true)
    ensures |db.invoices| == |old(db.invoices)|
    ensures db.invoices[e.invoiceId.value].status == Paid && db.invoices[e.invoiceId.value].paidAt == Some(t2)
  {
    r1 := HandleWebhook(db, Verified(e), t1);
    r2 := HandleWebhook(db, Verified(e), t2);
  }
}
