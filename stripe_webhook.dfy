/**
 * `stripe_webhook`: the processor's notification that a checkout completed.
 * The signature check is an oracle verdict (`None` when the payload or the
 * signature is refused). A verified event is filtered by type and payment
 * status, correlated with a user and a plan through the two fields the
 * checkout session carries, and then checked against an idempotency gate
 * before the subscription would be activated.
 *
 * `WebhookAsWrittenSpec` is the handler as it stands: its gate compares the
 * session id only, and its activation assigns to the read-only `is_active`
 * property, which raises before anything is saved. `WebhookSpec` is the
 * handler with both defects corrected; the rest of the model uses it.
 */
module StripeWebhook {
  import opened Wrappers
  import opened Calendar
  import opened SubscriptionModels
  import Text

  /** The fields of the event's `data.object` the handler reads; an absent attribute is `None`. */
  datatype Session = Session(
    id: Option<string>,
    mode: Option<string>,
    paymentStatus: Option<string>,
    clientReferenceId: Option<string>,
    metadata: map<string, string>,
    paymentIntent: Option<string>,
    customer: Option<string>)

  datatype Event = Event(eventType: string, session: Session)

  datatype HttpStatus = Http200 | Http400

  datatype FailReason = EndDateOutOfRange | ReadOnlyIsActive

  /** Which way the handler went. */
  datatype Trace = Rejected | Ignored | Duplicate | Failed(reason: FailReason) | Activated

  /** The outcome of filtering and correlation: ignore the event, or deliver it to this user's row for this plan. */
  datatype Routing = Ignore | Deliver(user: nat, planId: nat)

  const CompletedEvent := "checkout.session.completed"

  /** `metadata.get("plan_id")`. */
  function PlanIdField(s: Session): Option<string>
  {
    if "plan_id" in s.metadata then Some(s.metadata["plan_id"]) else None
  }

  /**
   * Only a completed, paid session with both correlation fields present is
   * delivered, and only when they name an existing user and an existing plan
   * (active or not); anything else is acknowledged and ignored.
   */
  function Route(e: Event, users: set<nat>, plans: map<nat, Plan>): (r: Routing)
    ensures r.Deliver? ==> r.user in users && r.planId in plans
  {
    if e.eventType != CompletedEvent then Ignore
    else if e.session.paymentStatus != Some("paid") then Ignore
    else
      var userRef, planRef := e.session.clientReferenceId, PlanIdField(e.session);
      if !Truthy(userRef) || !Truthy(planRef) then Ignore
      else
        var u, p := Text.ParseNat(userRef.value), Text.ParseNat(planRef.value);
        if u.None? || u.value !in users || p.None? || p.value !in plans then Ignore
        else Deliver(u.value, p.value)
  }

  method RouteEvent(e: Event, users: set<nat>, plans: PlanTable) returns (r: Routing)
    ensures r == Route(e, users, plans.rows)
  {
    if e.eventType != CompletedEvent {
      return Ignore;
    }
    if e.session.paymentStatus != Some("paid") {
      return Ignore;
    }
    var userRef := e.session.clientReferenceId;
    var planRef := PlanIdField(e.session);
    if !Truthy(userRef) || !Truthy(planRef) {
      return Ignore;
    }
    var u := Text.ParseNat(userRef.value);
    if u.None? || u.value !in users {
      return Ignore;
    }
    var p := Text.ParseNat(planRef.value);
    if p.None? || p.value !in plans.rows {
      return Ignore;
    }
    return Deliver(u.value, p.value);
  }

  /** Delivery needs every filter and lookup to pass. */
  lemma DeliveryNeedsPaidCompletedSession(e: Event, users: set<nat>, plans: map<nat, Plan>)
    requires Route(e, users, plans).Deliver?
    ensures e.eventType == CompletedEvent && e.session.paymentStatus == Some("paid")
    ensures Truthy(e.session.clientReferenceId) && Truthy(PlanIdField(e.session))
    ensures Text.ParseNat(e.session.clientReferenceId.value) == Some(Route(e, users, plans).user)
    ensures Text.ParseNat(e.session.metadata["plan_id"]) == Some(Route(e, users, plans).planId)
  {
  }

  // ---------------------------------------------------------------- as written

  /** The handler's decision on the user's row, as written: a row is never saved. */
  function AsWrittenStep(row: Record, plan: Plan, session: Session, clock: Instant): (trace: Trace)
    requires ValidInstant(clock)
    ensures trace == Duplicate <==> row.sessionId == session.id
    ensures trace != Activated
  {
    if row.sessionId == session.id then Duplicate
    else if AddMonthsInstant(clock, plan.durationMonths).None? then Failed(EndDateOutOfRange)
    else Failed(ReadOnlyIsActive)
  }

  function WebhookAsWrittenSpec(verdict: Option<Event>, users: set<nat>, plans: map<nat, Plan>,
                                subs: map<nat, Record>, clock: Instant): (HttpStatus, Trace, map<nat, Record>)
    requires ValidInstant(clock)
  {
    if verdict.None? then (Http400, Rejected, subs)
    else match Route(verdict.value, users, plans)
      case Ignore => (Http200, Ignored, subs)
      case Deliver(u, p) =>
        var m := WithRow(subs, u);
        (Http200, AsWrittenStep(m[u], plans[p], verdict.value.session, clock), m)
  }

  method AsWrittenRow(s: UserSubscription, plan: Plan, session: Session, clock: Instant) returns (trace: Trace)
    requires ValidInstant(clock)
    ensures trace == AsWrittenStep(s.Snapshot(), plan, session, clock)
  {
    if s.sessionId == session.id {
      return Duplicate;
    }
    var end := AddMonthsInstant(clock, plan.durationMonths);
    if end.None? {
      return Failed(EndDateOutOfRange);
    }
    // Lines 332-333 change only the instance in memory; the assignment to the
    // read-only property `is_active` then raises before `save`, and the
    // handler's `except` answers 200.
    return Failed(ReadOnlyIsActive);
  }

  method StripeWebhookAsWritten(verdict: Option<Event>, users: set<nat>, plans: PlanTable,
                                subs: SubscriptionTable, clock: Instant) returns (status: HttpStatus, trace: Trace)
    requires subs.Valid() && ValidInstant(clock)
    modifies subs
    ensures subs.Valid()
    ensures (status, trace, subs.Abstract()) == WebhookAsWrittenSpec(verdict, users, plans.rows, old(subs.Abstract()), clock)
  {
    if verdict.None? {
      return Http400, Rejected;
    }
    var routing := RouteEvent(verdict.value, users, plans);
    if routing.Ignore? {
      return Http200, Ignored;
    }
    var s := subs.GetOrCreate(routing.user);
    trace := AsWrittenRow(s, plans.rows[routing.planId], verdict.value.session, clock);
    status := Http200;
  }

  /**
   * The handler as written never activates anything: whatever the event, every
   * row is as it was, and the only possible change is a default row that
   * `get_or_create` adds for the correlated user.
   */
  lemma AsWrittenNeverActivates(verdict: Option<Event>, users: set<nat>, plans: map<nat, Plan>,
                                subs: map<nat, Record>, clock: Instant)
    requires ValidInstant(clock)
    ensures var (status, trace, subs') := WebhookAsWrittenSpec(verdict, users, plans, subs, clock);
            && trace != Activated
            && subs.Keys <= subs'.Keys
            && (forall v | v in subs' :: subs'[v] == if v in subs then subs[v] else NewRecord(v))
            && (forall v | v in subs' :: subs'[v].status == Active ==> v in subs && subs[v].status == Active)
  {
  }

  /** A new session for the row passes the gate, and then the read-only assignment fails the activation. */
  lemma AsWrittenFailsAfterGate(row: Record, plan: Plan, session: Session, clock: Instant)
    requires ValidInstant(clock) && row.sessionId != session.id
    requires AddMonthsInstant(clock, plan.durationMonths).Some?
    ensures AsWrittenStep(row, plan, session, clock) == Failed(ReadOnlyIsActive)
  {
  }

  // ---------------------------------------------------------------- corrected

  /** The row the activation saves: plan, active status, period, and the event's three processor ids. */
  function Activation(row: Record, planId: nat, session: Session, start: int, end: int): (r: Record)
    ensures r == AfterActivate(row.(plan := Some(planId), paymentIntentId := session.paymentIntent,
                                    sessionId := session.id, customerId := session.customer),
                               Some(start), Some(end), start)
  {
    row.(plan := Some(planId), status := Active, start := Some(start), end := Some(end),
         paymentIntentId := session.paymentIntent, sessionId := session.id, customerId := session.customer)
  }

  /**
   * The corrected decision: an event is a duplicate only when its session is
   * the one the row was activated with and the row is still active; otherwise
   * the row is activated from now for the plan's number of calendar months,
   * unless that end date does not exist.
   */
  function CorrectedStep(row: Record, planId: nat, plan: Plan, session: Session, clock: Instant): (Trace, Record)
    requires ValidInstant(clock)
  {
    if row.sessionId == session.id && row.status == Active then (Duplicate, row)
    else match AddMonthsInstant(clock, plan.durationMonths)
      case None => (Failed(EndDateOutOfRange), row)
      case Some(end) => (Activated, Activation(row, planId, session, Ticks(clock), Ticks(end)))
  }

  function WebhookSpec(verdict: Option<Event>, users: set<nat>, plans: map<nat, Plan>,
                       subs: map<nat, Record>, clock: Instant): (HttpStatus, Trace, map<nat, Record>)
    requires ValidInstant(clock)
  {
    if verdict.None? then (Http400, Rejected, subs)
    else match Route(verdict.value, users, plans)
      case Ignore => (Http200, Ignored, subs)
      case Deliver(u, p) =>
        var m := WithRow(subs, u);
        var (trace, row') := CorrectedStep(m[u], p, plans[p], verdict.value.session, clock);
        (Http200, trace, m[u := row'])
  }

  method ActivateRow(s: UserSubscription, planId: nat, plan: Plan, session: Session, clock: Instant) returns (trace: Trace)
    requires ValidInstant(clock)
    modifies s
    ensures (trace, s.Snapshot()) == CorrectedStep(old(s.Snapshot()), planId, plan, session, clock)
  {
    if s.sessionId == session.id && s.status == Active {
      return Duplicate;
    }
    var end := AddMonthsInstant(clock, plan.durationMonths);
    if end.None? {
      return Failed(EndDateOutOfRange);
    }
    s.plan := Some(planId);
    s.status := Active;
    s.start := Some(Ticks(clock));
    s.end := Some(Ticks(end.value));
    s.paymentIntentId := session.paymentIntent;
    s.sessionId := session.id;
    s.customerId := session.customer;
    return Activated;
  }

  method StripeWebhook(verdict: Option<Event>, users: set<nat>, plans: PlanTable,
                       subs: SubscriptionTable, clock: Instant) returns (status: HttpStatus, trace: Trace)
    requires subs.Valid() && ValidInstant(clock)
    modifies subs, subs.rows.Values
    ensures subs.Valid()
    ensures (status, trace, subs.Abstract()) == WebhookSpec(verdict, users, plans.rows, old(subs.Abstract()), clock)
  {
    if verdict.None? {
      return Http400, Rejected;
    }
    var routing := RouteEvent(verdict.value, users, plans);
    if routing.Ignore? {
      return Http200, Ignored;
    }
    var s := subs.GetOrCreate(routing.user);
    ghost var m := subs.Abstract();
    label fetched:
    trace := ActivateRow(s, routing.planId, plans.rows[routing.planId], verdict.value.session, clock);
    subs.OneRowChanged@fetched(routing.user);
    status := Http200;
  }

  /** Both handlers answer 400 exactly when the event cannot be constructed, and 200 on every other path. */
  lemma StatusIs400OnlyForBadSignature(verdict: Option<Event>, users: set<nat>, plans: map<nat, Plan>,
                                       subs: map<nat, Record>, clock: Instant)
    requires ValidInstant(clock)
    ensures WebhookSpec(verdict, users, plans, subs, clock).0 == Http400 <==> verdict.None?
    ensures WebhookAsWrittenSpec(verdict, users, plans, subs, clock).0 == Http400 <==> verdict.None?
    ensures WebhookSpec(verdict, users, plans, subs, clock).0 == Http200 <==> verdict.Some?
  {
  }

  /**
   * The table changes only for a verified, completed, paid session whose two
   * correlation fields name an existing user and plan; then at most that
   * user's row changes.
   */
  lemma WebhookUntouchedUnlessDelivered(verdict: Option<Event>, users: set<nat>, plans: map<nat, Plan>,
                                        subs: map<nat, Record>, clock: Instant)
    requires ValidInstant(clock)
    ensures var (status, trace, subs') := WebhookSpec(verdict, users, plans, subs, clock);
            && (verdict.None? || Route(verdict.value, users, plans).Ignore? ==> subs' == subs && trace != Activated)
            && (subs' != subs ==>
                  && verdict.Some?
                  && verdict.value.eventType == CompletedEvent
                  && verdict.value.session.paymentStatus == Some("paid")
                  && Truthy(verdict.value.session.clientReferenceId)
                  && Truthy(PlanIdField(verdict.value.session))
                  && var u := Route(verdict.value, users, plans).user;
                     && u in users
                     && (forall v | v in subs && v != u :: v in subs' && subs'[v] == subs[v])
                     && subs'.Keys == subs.Keys + {u})
  {
    if verdict.Some? && Route(verdict.value, users, plans).Deliver? {
      DeliveryNeedsPaidCompletedSession(verdict.value, users, plans);
    }
  }

  /**
   * An activation saves the plan, the active status, a start of now and an end
   * the plan's number of calendar months later, and the event's payment,
   * session and customer ids. The row then reads as active from now up to,
   * and including, its end; for a plan of one month or more the end lies
   * after now.
   */
  lemma ActivationWindow(row: Record, planId: nat, plan: Plan, session: Session, clock: Instant, t: int)
    requires ValidInstant(clock)
    requires CorrectedStep(row, planId, plan, session, clock).0 == Activated
    ensures var row' := CorrectedStep(row, planId, plan, session, clock).1;
            var end := AddMonthsInstant(clock, plan.durationMonths);
            && end.Some?
            && row'.plan == Some(planId) && row'.status == Active
            && row'.start == Some(Ticks(clock)) && row'.end == Some(Ticks(end.value))
            && row'.paymentIntentId == session.paymentIntent && row'.sessionId == session.id
            && row'.customerId == session.customer && row'.user == row.user
            && (IsActiveAt(row', t) <==> t <= Ticks(end.value))
            && (plan.durationMonths > 0 ==> Ticks(clock) < Ticks(end.value) && IsActiveAt(row', Ticks(clock)))
  {
    if plan.durationMonths > 0 {
      AddMonthsAdvancesTicks(clock, plan.durationMonths);
    }
  }

  /**
   * The corrected gate lets an event through exactly when the row is not
   * active or was activated by a different session; when it stops one, the
   * row is left exactly as it was.
   */
  lemma CorrectedGate(row: Record, planId: nat, plan: Plan, session: Session, clock: Instant)
    requires ValidInstant(clock)
    ensures CorrectedStep(row, planId, plan, session, clock).0 == Duplicate
            <==> row.sessionId == session.id && row.status == Active
    ensures CorrectedStep(row, planId, plan, session, clock).0 == Duplicate
            ==> CorrectedStep(row, planId, plan, session, clock).1 == row
  {
  }

  /**
   * No double extension: once an event has activated a row, the same event
   * delivered again, at any later time, is a duplicate and changes nothing.
   */
  lemma RedeliveryAfterActivationIsNoOp(verdict: Option<Event>, users: set<nat>, plans: map<nat, Plan>,
                                        subs: map<nat, Record>, clock: Instant, later: Instant)
    requires ValidInstant(clock) && ValidInstant(later)
    requires WebhookSpec(verdict, users, plans, subs, clock).1 == Activated
    ensures var subs1 := WebhookSpec(verdict, users, plans, subs, clock).2;
            WebhookSpec(verdict, users, plans, subs1, later) == (Http200, Duplicate, subs1)
  {
    var subs1 := WebhookSpec(verdict, users, plans, subs, clock).2;
    var u := Route(verdict.value, users, plans).user;
    assert WithRow(subs1, u) == subs1;
    assert subs1[u := subs1[u]] == subs1;
  }

  /** Delivering the same event twice at the same time leaves the table as delivering it once. */
  lemma WebhookIsIdempotent(verdict: Option<Event>, users: set<nat>, plans: map<nat, Plan>,
                            subs: map<nat, Record>, clock: Instant)
    requires ValidInstant(clock)
    ensures var subs1 := WebhookSpec(verdict, users, plans, subs, clock).2;
            WebhookSpec(verdict, users, plans, subs1, clock).2 == subs1
  {
    var (status, trace, subs1) := WebhookSpec(verdict, users, plans, subs, clock);
    if trace == Activated {
      RedeliveryAfterActivationIsNoOp(verdict, users, plans, subs, clock, clock);
    } else if verdict.Some? && Route(verdict.value, users, plans).Deliver? {
      var u := Route(verdict.value, users, plans).user;
      var m := WithRow(subs, u);
      assert m[u := m[u]] == m;
      assert WithRow(subs1, u) == subs1;
      assert subs1[u := subs1[u]] == subs1;
    }
  }
}
