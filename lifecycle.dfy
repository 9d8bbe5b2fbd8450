/**
 * The subscription lifecycle across operations: a purchase followed by the
 * processor's completion event, under the handler as written and as
 * corrected; the correlation of the event with the purchase that opened the
 * session; repurchase after activation, cancellation and expiry; and a price
 * change of a synchronised plan.
 */
module Lifecycle {
  import opened Wrappers
  import opened Calendar
  import opened Processor
  import opened SubscriptionModels
  import opened StripeService
  import opened SubscriptionViews
  import opened StripeWebhook
  import Text

  /** The event the processor sends once the checkout opened with `params` has been paid. */
  function CompletionEvent(params: SessionParams, sessionId: string, paymentIntent: Option<string>): Event
  {
    Event(CompletedEvent, Session(Some(sessionId), Some(params.mode), Some("paid"),
                                  Some(params.clientReferenceId), params.metadata, paymentIntent, params.customer))
  }

  /** The completion event of a session opened for (user, plan) is routed back to that user and plan. */
  lemma CorrelationRoundTrip(customer: Option<string>, price: Option<string>, u: nat, p: nat,
                             sessionId: string, paymentIntent: Option<string>,
                             users: set<nat>, plans: map<nat, Plan>)
    requires u in users && p in plans
    ensures Route(CompletionEvent(CheckoutParams(customer, price, u, p), sessionId, paymentIntent), users, plans) == Deliver(u, p)
  {
    var params := CheckoutParams(customer, price, u, p);
    assert PlanIdField(CompletionEvent(params, sessionId, paymentIntent).session) == Some(params.metadata["plan_id"]);
  }

  /** What a successful purchase leaves behind: the request that opened the session, and the id it saved. */
  lemma PurchaseRecordsSession(plans: map<nat, Plan>, subs: map<nat, Record>, g: GatewayState, user: User, planId: nat, now: int)
    requires PurchaseSpec(plans, subs, g, user, planId, now).0.CheckoutCreated?
    ensures var (resp, subs1, g1) := PurchaseSpec(plans, subs, g, user, planId, now);
            && Purchasable(plans, planId)
            && |g1.log| > 0 && g1.log[|g1.log| - 1].CreateCheckoutSession?
            && g1.log[|g1.log| - 1].params == CheckoutParams(subs1[user.id].customerId, plans[planId].priceId, user.id, plans[planId].id)
            && subs1[user.id].sessionId.Some?
            && subs1[user.id].status != Active
  {
  }

  /** The completion event of the session a successful purchase opened. */
  function EventAfterPurchase(plans: map<nat, Plan>, subs: map<nat, Record>, g: GatewayState, user: User, planId: nat, now: int,
                              paymentIntent: Option<string>): Event
    requires PurchaseSpec(plans, subs, g, user, planId, now).0.CheckoutCreated?
  {
    PurchaseRecordsSession(plans, subs, g, user, planId, now);
    var (resp, subs1, g1) := PurchaseSpec(plans, subs, g, user, planId, now);
    CompletionEvent(g1.log[|g1.log| - 1].params, subs1[user.id].sessionId.value, paymentIntent)
  }

  /**
   * The handler as written, after an ordinary purchase: the purchase has
   * already saved the session's id, so the completion event of that very
   * session is taken for a duplicate and nothing is activated.
   */
  lemma PurchaseThenWebhookAsWrittenIsDuplicate(plans: map<nat, Plan>, subs: map<nat, Record>, g: GatewayState,
                                                user: User, planId: nat, now: int,
                                                users: set<nat>, paymentIntent: Option<string>, clock: Instant)
    requires ValidInstant(clock) && user.id in users
    requires planId in plans ==> plans[planId].id == planId
    requires PurchaseSpec(plans, subs, g, user, planId, now).0.CheckoutCreated?
    ensures var subs1 := PurchaseSpec(plans, subs, g, user, planId, now).1;
            var e := EventAfterPurchase(plans, subs, g, user, planId, now, paymentIntent);
            && Route(e, users, plans) == Deliver(user.id, planId)
            && WebhookAsWrittenSpec(Some(e), users, plans, subs1, clock) == (Http200, Duplicate, subs1)
            && !IsActiveAt(subs1[user.id], Ticks(clock))
  {
    PurchaseRecordsSession(plans, subs, g, user, planId, now);
    var (resp, subs1, g1) := PurchaseSpec(plans, subs, g, user, planId, now);
    var params := g1.log[|g1.log| - 1].params;
    CorrelationRoundTrip(subs1[user.id].customerId, plans[planId].priceId, user.id, planId,
                         subs1[user.id].sessionId.value, paymentIntent, users, plans);
    assert WithRow(subs1, user.id) == subs1;
  }

  /**
   * The corrected handler, after an ordinary purchase: the completion event
   * activates the user's row for the purchased plan, from the webhook's clock
   * to the plan's number of calendar months later; a second purchase at that
   * time is then a conflict and reaches no processor.
   */
  lemma PurchaseThenWebhookActivates(plans: map<nat, Plan>, subs: map<nat, Record>, g: GatewayState,
                                     user: User, planId: nat, now: int,
                                     users: set<nat>, paymentIntent: Option<string>, clock: Instant, g2: GatewayState)
    requires ValidInstant(clock) && user.id in users
    requires planId in plans ==> plans[planId].id == planId && plans[planId].durationMonths > 0
    requires planId in plans ==> AddMonthsInstant(clock, plans[planId].durationMonths).Some?
    requires PurchaseSpec(plans, subs, g, user, planId, now).0.CheckoutCreated?
    ensures var subs1 := PurchaseSpec(plans, subs, g, user, planId, now).1;
            var e := EventAfterPurchase(plans, subs, g, user, planId, now, paymentIntent);
            var (status, trace, subs2) := WebhookSpec(Some(e), users, plans, subs1, clock);
            var end := AddMonthsInstant(clock, plans[planId].durationMonths).value;
            && status == Http200 && trace == Activated
            && subs2[user.id].plan == Some(planId)
            && subs2[user.id].start == Some(Ticks(clock)) && subs2[user.id].end == Some(Ticks(end))
            && subs2[user.id].sessionId == subs1[user.id].sessionId
            && subs2[user.id].paymentIntentId == paymentIntent
            && IsActiveAt(subs2[user.id], Ticks(clock))
            && PurchaseSpec(plans, subs2, g2, user, planId, Ticks(clock)) == (Conflict, subs2, g2)
  {
    PurchaseRecordsSession(plans, subs, g, user, planId, now);
    var (resp, subs1, g1) := PurchaseSpec(plans, subs, g, user, planId, now);
    CorrelationRoundTrip(subs1[user.id].customerId, plans[planId].priceId, user.id, planId,
                         subs1[user.id].sessionId.value, paymentIntent, users, plans);
    var e := EventAfterPurchase(plans, subs, g, user, planId, now, paymentIntent);
    assert WithRow(subs1, user.id) == subs1;
    var (status, trace, subs2) := WebhookSpec(Some(e), users, plans, subs1, clock);
    ActivationWindow(subs1[user.id], planId, plans[planId], e.session, clock, Ticks(clock));
    assert WithRow(subs2, user.id) == subs2;
  }

  /**
   * A fresh purchase: a user without a row buys a three-month plan; the row is
   * created inactive, the customer and session ids are saved, and the
   * corrected completion event makes it active from now until three calendar
   * months later.
   */
  lemma FreshPurchaseScenario(plans: map<nat, Plan>, subs: map<nat, Record>, g: GatewayState,
                              user: User, planId: nat, now: int,
                              users: set<nat>, paymentIntent: Option<string>, clock: Instant)
    requires ValidInstant(clock) && user.id in users && user.id !in subs
    requires Purchasable(plans, planId) && plans[planId].id == planId && plans[planId].durationMonths == 3
    requires AddMonthsInstant(clock, 3).Some?
    requires |g.replies| >= 2 && g.replies[0].Done? && g.replies[1].Done?
    ensures var (resp, subs1, g1) := PurchaseSpec(plans, subs, g, user, planId, now);
            && resp == CheckoutCreated(g.replies[1].url)
            && subs1[user.id] == NewRecord(user.id).(customerId := Some(g.replies[0].id), sessionId := Some(g.replies[1].id))
            && var e := EventAfterPurchase(plans, subs, g, user, planId, now, paymentIntent);
               var subs2 := WebhookSpec(Some(e), users, plans, subs1, clock).2;
               && subs2[user.id].status == Active
               && subs2[user.id].start == Some(Ticks(clock))
               && subs2[user.id].end == Some(Ticks(AddMonthsInstant(clock, 3).value))
  {
    PurchaseThenWebhookActivates(plans, subs, g, user, planId, now, users, paymentIntent, clock, g);
  }

  /** A canceled subscription no longer blocks a purchase, whenever it is attempted. */
  lemma CanceledUserCanPurchaseAgain(plans: map<nat, Plan>, subs: map<nat, Record>, g: GatewayState,
                                     user: User, planId: nat, now: int, later: int)
    requires Purchasable(plans, planId) && CancelSpec(subs, user.id, now).0 == Ok
    ensures PurchaseSpec(plans, CancelSpec(subs, user.id, now).1, g, user, planId, later).0 != Conflict
  {
    var subs1 := CancelSpec(subs, user.id, now).1;
    assert WithRow(subs1, user.id)[user.id] == AfterCancel(subs[user.id], now);
  }

  /**
   * An active subscription past its end no longer blocks a purchase; the
   * purchase's read saves it as inactive, whatever the processor then does.
   */
  lemma ExpiredUserCanPurchaseAgain(plans: map<nat, Plan>, subs: map<nat, Record>, g: GatewayState,
                                    user: User, planId: nat, now: int)
    requires Purchasable(plans, planId) && user.id in subs && ExpiredAt(subs[user.id], now)
    ensures var (resp, subs1, g1) := PurchaseSpec(plans, subs, g, user, planId, now);
            resp != Conflict && subs1[user.id].status == Inactive
  {
  }

  /**
   * A price change of a synchronised plan (10.00 to 15.00, nothing else
   * changed): the old price is retired first, a new one of 1500 cents is
   * created on the same product, and its id replaces the old one locally.
   */
  lemma PriceChangeScenario(store: PlanStore, g: GatewayState, pk: nat, input: PlanInput, product: string, oldPrice: string)
    requires Wellformed(store) && pk in store.rows
    requires store.rows[pk].amount == 1000 && store.rows[pk].productId == Some(product) && store.rows[pk].priceId == Some(oldPrice)
    requires product != "" && oldPrice != ""
    requires input.amount == 1500 && input.durationMonths > 0
    requires input.name == store.rows[pk].name && input.description == store.rows[pk].description
    requires input.active == store.rows[pk].active && input.currency == store.rows[pk].currency
    requires |g.replies| >= 2 && g.replies[0].Done? && g.replies[1].Done? && g.replies[1].id != ""
    ensures var (resp, store', g') := UpdatePlanSpec(store, g, pk, input);
            && resp == Updated
            && g'.log == g.log + [DeactivatePrice(oldPrice), CreatePrice(Some(product), 1500, input.currency)]
            && store'.rows[pk].priceId == Some(g.replies[1].id)
            && store'.rows[pk].amount == 1500
  {
    var plan := ApplyInput(store.rows[pk], input);
    var changes := Diff(store.rows[pk], plan);
    assert changes == Changes(false, false, false, true);
    assert ProductUpdates(plan, changes) == map[];
  }

  /**
   * An event naming a plan that does not exist is acknowledged and leaves
   * every row as it was.
   */
  lemma UnresolvableWebhookScenario(e: Event, users: set<nat>, plans: map<nat, Plan>,
                                    subs: map<nat, Record>, clock: Instant)
    requires ValidInstant(clock)
    requires "plan_id" in e.session.metadata && Text.ParseNat(e.session.metadata["plan_id"]).Some?
    requires Text.ParseNat(e.session.metadata["plan_id"]).value !in plans
    ensures WebhookSpec(Some(e), users, plans, subs, clock) == (Http200, Ignored, subs)
  {
  }
}
