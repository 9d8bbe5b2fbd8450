/**
 * The `subscription` app's views: plan creation with its compensating delete,
 * plan update with its change diff, purchase, the user's own subscription,
 * and cancellation. Each view is a method over the tables and the processor,
 * proved equal to a specification function over their values; the
 * properties the views promise are lemmas about those functions.
 */
module SubscriptionViews {
  import opened Wrappers
  import opened Processor
  import opened SubscriptionModels
  import opened StripeService
  import opened SubscriptionSerializers

  /** The kind of response a view returns (the JSON envelope is not modelled). */
  datatype Response =
    | Ok
    | Created
    | Updated
    | CheckoutCreated(checkoutUrl: string)
    | Conflict
    | BadRequest
    | NotFound
    | ServerError
    | GenericError

  /** The requesting user, as the views read it. */
  datatype User = User(id: nat, email: string, fullName: string, username: string)

  /** `user.get_full_name() or user.username`: the name given to the processor's customer. */
  function DisplayName(user: User): (name: string)
    ensures user.fullName != "" ==> name == user.fullName
    ensures user.fullName == "" ==> name == user.username
  {
    if user.fullName != "" then user.fullName else user.username
  }

  // ================================================================ plan create / update

  /** The writable fields of the admin plan serializer, as submitted. */
  datatype PlanInput = PlanInput(
    planType: string,
    name: string,
    description: string,
    amount: int,
    durationMonths: int,
    currency: string,
    active: bool)

  /** The serializer's own validators both accept. */
  predicate InputValid(input: PlanInput)
  {
    ValidateAmount(input.amount).Success? && ValidateDurationMonths(input.durationMonths).Success?
  }

  /** `serializer.save()` on an existing plan: the submitted fields replace the old ones; id and processor ids are read-only. */
  function ApplyInput(p: Plan, input: PlanInput): Plan
  {
    p.(planType := input.planType, name := input.name, description := input.description,
       amount := input.amount, durationMonths := input.durationMonths,
       currency := input.currency, active := input.active)
  }

  /** `serializer.save()` of a new plan under id `id`, not yet known to the processor. */
  function NewPlan(id: nat, input: PlanInput): Plan
  {
    ApplyInput(Plan(id, "", "", "", 0, 0, None, None, "", true), input)
  }

  /**
   * `SubscriptionPlanCreateAPIView.post`: invalid input is refused before
   * anything is stored; otherwise the plan is inserted, registered with the
   * processor, and either given its two processor ids or deleted again.
   */
  function CreatePlanSpec(store: PlanStore, g: GatewayState, input: PlanInput): (Response, PlanStore, GatewayState)
  {
    if !InputValid(input) then (BadRequest, store, g)
    else
      var id := store.nextId;
      var plan := NewPlan(id, input);
      var inserted := PlanStore(store.rows[id := plan], id + 1);
      var (r, g1) := CreateProductAndPriceSpec(g, plan);
      if r.Failure? then (ServerError, inserted.(rows := inserted.rows - {id}), g1)
      else (Created, inserted.(rows := inserted.rows[id := plan.(productId := Some(r.value.0), priceId := Some(r.value.1))]), g1)
  }

  method CreatePlan(plans: PlanTable, gw: Gateway, input: PlanInput) returns (resp: Response)
    requires plans.Valid()
    modifies plans, gw
    ensures plans.Valid()
    ensures (resp, plans.State(), gw.State()) == CreatePlanSpec(old(plans.State()), old(gw.State()), input)
  {
    if !InputValid(input) {
      return BadRequest;
    }
    var id := plans.nextId;
    var plan := NewPlan(id, input);
    plans.rows := plans.rows[id := plan];
    plans.nextId := id + 1;
    var r := CreateProductAndPrice(gw, plan);
    if r.Failure? {
      plans.rows := plans.rows - {id};
      return ServerError;
    }
    plans.rows := plans.rows[id := plan.(productId := Some(r.value.0), priceId := Some(r.value.1))];
    return Created;
  }

  /**
   * Creating a plan: invalid input stores nothing and calls nobody. Valid input
   * ends in `Created` exactly when both processor requests succeed, and then the
   * new row holds the submitted fields and the two ids the processor returned,
   * with a price of the plan's amount in cents. Otherwise the compensating delete
   * leaves exactly the plans there were before; only the id counter has moved on.
   */
  lemma CreatePlanOutcome(store: PlanStore, g: GatewayState, input: PlanInput)
    requires Wellformed(store)
    ensures var (resp, store', g') := CreatePlanSpec(store, g, input);
            && Wellformed(store')
            && (!InputValid(input) ==> resp == BadRequest && store' == store && g' == g)
            && (InputValid(input) ==> store'.nextId == store.nextId + 1)
            && (resp == Created <==> InputValid(input) && |g.replies| >= 2 && g.replies[0].Done? && g.replies[1].Done?)
            && (resp == Created ==>
                  && store'.rows.Keys == store.rows.Keys + {store.nextId}
                  && store.nextId !in store.rows
                  && (forall k | k in store.rows :: store'.rows[k] == store.rows[k])
                  && store'.rows[store.nextId] == NewPlan(store.nextId, input).(productId := Some(g.replies[0].id), priceId := Some(g.replies[1].id))
                  && g'.log[|g.log| + 1].unitAmount == input.amount > 0)
            && (InputValid(input) && resp != Created ==> resp == ServerError && store'.rows == store.rows)
  {
    if InputValid(input) {
      var id := store.nextId;
      var plan := NewPlan(id, input);
      assert id !in store.rows;
      assert store.rows[id := plan] - {id} == store.rows;
    }
  }

  /** `changes` at update time: which of the fields the processor knows about the save altered. */
  function Diff(before: Plan, after: Plan): Changes
  {
    Changes(after.name != before.name, after.description != before.description,
            after.active != before.active,
            after.amount != before.amount || after.currency != before.currency)
  }

  predicate AnyChange(c: Changes)
  {
    c.name || c.description || c.active || c.price
  }

  /** The fields of a plan that the processor's product and price reflect. */
  function ProcessorView(p: Plan): (string, string, bool, int, string)
  {
    (p.name, p.description, p.active, p.amount, p.currency)
  }

  /**
   * The diff flags a change exactly when the processor's view of the plan
   * changed; the price flag is set exactly when the amount or the currency changed.
   */
  lemma DiffDetectsProcessorChanges(before: Plan, after: Plan)
    ensures AnyChange(Diff(before, after)) <==> ProcessorView(before) != ProcessorView(after)
    ensures Diff(before, after).price <==> before.amount != after.amount || before.currency != after.currency
    ensures Diff(before, after).price ==> PriceCall(after.productId, after).unitAmount != PriceCall(before.productId, before).unitAmount
                                          || PriceCall(after.productId, after).currency != PriceCall(before.productId, before).currency
  {
  }

  /**
   * `SubscriptionPlanUpdateAPIView.put`: a missing plan is a 404 before
   * validation; the submitted fields are saved before the processor is
   * consulted, and stay saved when it fails; the price id is replaced only by
   * a new one the service returns.
   */
  function UpdatePlanSpec(store: PlanStore, g: GatewayState, pk: nat, input: PlanInput): (Response, PlanStore, GatewayState)
  {
    if pk !in store.rows then (NotFound, store, g)
    else if !InputValid(input) then (BadRequest, store, g)
    else
      var before := store.rows[pk];
      var plan := ApplyInput(before, input);
      var saved := store.(rows := store.rows[pk := plan]);
      var changes := Diff(before, plan);
      if !AnyChange(changes) then (Updated, saved, g)
      else
        var (r, g1) := UpdateProductAndPriceSpec(g, plan, changes);
        if r.Failure? then (ServerError, saved, g1)
        else if Truthy(r.value.newPriceId) then (Updated, saved.(rows := saved.rows[pk := plan.(priceId := r.value.newPriceId)]), g1)
        else (Updated, saved, g1)
  }

  method UpdatePlan(plans: PlanTable, gw: Gateway, pk: nat, input: PlanInput) returns (resp: Response)
    requires plans.Valid()
    modifies plans, gw
    ensures plans.Valid()
    ensures (resp, plans.State(), gw.State()) == UpdatePlanSpec(old(plans.State()), old(gw.State()), pk, input)
  {
    if pk !in plans.rows {
      return NotFound;
    }
    if !InputValid(input) {
      return BadRequest;
    }
    var before := plans.rows[pk];
    var plan := ApplyInput(before, input);
    plans.rows := plans.rows[pk := plan];
    var changes := Diff(before, plan);
    if AnyChange(changes) {
      var r := UpdateProductAndPrice(gw, plan, changes);
      if r.Failure? {
        return ServerError;
      }
      if Truthy(r.value.newPriceId) {
        plans.rows := plans.rows[pk := plan.(priceId := r.value.newPriceId)];
      }
    }
    return Updated;
  }

  /**
   * Updating a plan touches one plan at most: a missing plan or invalid input
   * changes nothing and reaches no processor; otherwise no other plan, not the
   * set of plans and not the id counter move.
   */
  lemma UpdatePlanFrame(store: PlanStore, g: GatewayState, pk: nat, input: PlanInput)
    requires Wellformed(store)
    ensures var (resp, store', g') := UpdatePlanSpec(store, g, pk, input);
            && Wellformed(store')
            && (pk !in store.rows ==> resp == NotFound && store' == store && g' == g)
            && (pk in store.rows && !InputValid(input) ==> resp == BadRequest && store' == store && g' == g)
            && store'.nextId == store.nextId && store'.rows.Keys == store.rows.Keys
            && (forall k | k in store.rows && k != pk :: store'.rows[k] == store.rows[k])
  {
  }

  /**
   * A valid update of an existing plan: the plan holds the submitted fields
   * afterwards, whatever the processor did; the processor is consulted only
   * when a field it knows about changed; the answer is `Updated` exactly when
   * nothing needed syncing or every planned request succeeded, and then a
   * flagged price's new id is stored; otherwise the stored price id is the old one.
   */
  lemma UpdatePlanOutcome(store: PlanStore, g: GatewayState, pk: nat, input: PlanInput)
    requires pk in store.rows && InputValid(input)
    ensures var (resp, store', g') := UpdatePlanSpec(store, g, pk, input);
            var before := store.rows[pk];
            var plan := ApplyInput(before, input);
            && (resp == Updated || resp == ServerError)
            && store'.rows[pk].(priceId := plan.priceId) == plan
            && (ProcessorView(before) == ProcessorView(plan) ==> resp == Updated && g' == g && store'.rows[pk] == plan)
            && (resp == Updated <==> (!AnyChange(Diff(before, plan))
                                      || RepliesSucceed(g, |PlannedCalls(plan, Diff(before, plan))|)))
            && (resp == Updated && Diff(before, plan).price ==>
                  var id := g.replies[|PlannedCalls(plan, Diff(before, plan))| - 1].id;
                  store'.rows[pk].priceId == if id != "" then Some(id) else before.priceId)
            && (!Diff(before, plan).price ==> store'.rows[pk].priceId == before.priceId)
            && (store'.rows[pk].priceId != before.priceId ==>
                  resp == Updated && Diff(before, plan).price
                  && |PlannedCalls(plan, Diff(before, plan))| > 0
                  && store'.rows[pk].priceId == Some(g.replies[|PlannedCalls(plan, Diff(before, plan))| - 1].id))
  {
    var before := store.rows[pk];
    var plan := ApplyInput(before, input);
    var changes := Diff(before, plan);
    DiffDetectsProcessorChanges(before, plan);
    if AnyChange(changes) {
      UpdateFollowsPlan(g, plan, changes);
      if !changes.price {
        PriceUntouchedWithoutPriceFlag(g, plan, changes);
      }
    }
  }

  // ================================================================ purchase

  /**
   * `PurchaseSubscriptionAPIView.post`. A missing or inactive plan raises a 404
   * inside the outer `try` and so comes back as a generic error. The row is
   * fetched or created and its `is_active` read (which may save an expiry).
   * An active subscription is a conflict. A customer is created only when the
   * row has no customer id; then a checkout session is opened and its id saved.
   */
  function PurchaseSpec(plans: map<nat, Plan>, subs: map<nat, Record>, g: GatewayState, user: User, planId: nat, now: int)
    : (Response, map<nat, Record>, GatewayState)
  {
    if planId !in plans || !plans[planId].active then (GenericError, subs, g)
    else FetchedPurchaseSpec(WithRow(subs, user.id), g, plans[planId], user, now)
  }

  /** The purchase once the user's row exists: the conflict check, then the checkout. */
  function FetchedPurchaseSpec(m: map<nat, Record>, g: GatewayState, plan: Plan, user: User, now: int)
    : (Response, map<nat, Record>, GatewayState)
    requires user.id in m
  {
    var row := m[user.id];
    if IsActiveAt(row, now) then (Conflict, m, g)
    else
      var (resp, row', g') := CheckoutSpec(AfterRead(row, now), g, plan, user);
      (resp, m[user.id := row'], g')
  }

  /** The part of the purchase after the conflict check, on the user's row alone. */
  function CheckoutSpec(row: Record, g: GatewayState, plan: Plan, user: User): (Response, Record, GatewayState)
  {
    var (c, g1) := if Truthy(row.customerId) then (Success(row.customerId.value), g)
                   else CreateCustomerSpec(g, user.email, DisplayName(user));
    if c.Failure? then (ServerError, row, g1)
    else
      var row1 := row.(customerId := Some(c.value));
      var (s, g2) := CheckoutSessionSpec(g1, row1.customerId, plan.priceId, user.id, plan.id);
      if s.Failure? then (ServerError, row1, g2)
      else (CheckoutCreated(s.value.url), row1.(sessionId := Some(s.value.id)), g2)
  }

  method Purchase(plans: PlanTable, subs: SubscriptionTable, gw: Gateway, user: User, planId: nat, now: int)
    returns (resp: Response)
    requires subs.Valid()
    modifies subs, subs.rows.Values, gw
    ensures subs.Valid()
    ensures (resp, subs.Abstract(), gw.State()) == PurchaseSpec(plans.rows, old(subs.Abstract()), old(gw.State()), user, planId, now)
  {
    if planId !in plans.rows || !plans.rows[planId].active {
      return GenericError;
    }
    var s := subs.GetOrCreate(user.id);
    resp := PurchaseFetched(subs, gw, plans.rows[planId], user, now);
  }

  method PurchaseFetched(subs: SubscriptionTable, gw: Gateway, plan: Plan, user: User, now: int) returns (resp: Response)
    requires subs.Valid() && user.id in subs.rows
    modifies subs.rows.Values, gw
    ensures subs.Valid()
    ensures (resp, subs.Abstract(), gw.State()) == FetchedPurchaseSpec(old(subs.Abstract()), old(gw.State()), plan, user, now)
  {
    var s := subs.rows[user.id];
    ghost var m := subs.Abstract();
    var active := s.IsActive(now);
    subs.OneRowChanged(user.id);
    if active {
      assert s.Snapshot() == m[user.id];
      assert m[user.id := m[user.id]] == m;
      return Conflict;
    }
    label read:
    resp := Checkout(s, gw, plan, user);
    subs.OneRowChanged@read(user.id);
    assert subs.Abstract() == m[user.id := s.Snapshot()];
  }

  method Checkout(s: UserSubscription, gw: Gateway, plan: Plan, user: User) returns (resp: Response)
    modifies s, gw
    ensures (resp, s.Snapshot(), gw.State()) == CheckoutSpec(old(s.Snapshot()), old(gw.State()), plan, user)
  {
    if !Truthy(s.customerId) {
      var c := CreateCustomerCall(gw, user.email, DisplayName(user));
      if c.Failure? {
        return ServerError;
      }
      s.customerId := Some(c.value);
    }
    var session := CreateCheckoutSessionCall(gw, s.customerId, plan.priceId, user.id, plan.id);
    if session.Failure? {
      return ServerError;
    }
    s.sessionId := Some(session.value.id);
    return CheckoutCreated(session.value.url);
  }

  /** The plan can be bought: it exists and is active. */
  predicate Purchasable(plans: map<nat, Plan>, planId: nat)
  {
    planId in plans && plans[planId].active
  }

  /**
   * A purchase is a conflict exactly when the plan can be bought and the user's
   * subscription reads as active; then no request reaches the processor and
   * the only change to the table is the row `get_or_create` may have added.
   */
  lemma PurchaseConflictIffActive(plans: map<nat, Plan>, subs: map<nat, Record>, g: GatewayState, user: User, planId: nat, now: int)
    ensures var (resp, subs', g') := PurchaseSpec(plans, subs, g, user, planId, now);
            && (resp == Conflict <==> Purchasable(plans, planId) && IsActiveAt(WithRow(subs, user.id)[user.id], now))
            && (resp == Conflict ==> g' == g && subs' == WithRow(subs, user.id))
  {
  }

  /**
   * The customer is check-then-create: an existing customer id is reused and
   * the only request is the checkout session, for that customer; without one,
   * the first request creates a customer, and if that fails the purchase stops
   * with a server error, nothing more is requested and no session id is saved.
   */
  lemma PurchaseCustomerReuse(plans: map<nat, Plan>, subs: map<nat, Record>, g: GatewayState, user: User, planId: nat, now: int)
    requires Purchasable(plans, planId)
    requires !IsActiveAt(WithRow(subs, user.id)[user.id], now)
    ensures var (resp, subs', g') := PurchaseSpec(plans, subs, g, user, planId, now);
            var row := WithRow(subs, user.id)[user.id];
            var plan := plans[planId];
            && |g.log| <= |g'.log|
            && (Truthy(row.customerId) ==>
                  NewCalls(g, g') == [CreateCheckoutSession(CheckoutParams(row.customerId, plan.priceId, user.id, plan.id))])
            && (!Truthy(row.customerId) ==>
                  |NewCalls(g, g')| >= 1 && NewCalls(g, g')[0] == CreateCustomer(user.email, DisplayName(user)))
            && (!Truthy(row.customerId) && (|g.replies| == 0 || g.replies[0].Fail?) ==>
                  resp == ServerError && |NewCalls(g, g')| == 1 && subs'[user.id].sessionId == row.sessionId)
  {
    var (resp, subs', g') := PurchaseSpec(plans, subs, g, user, planId, now);
    assert g'.log[..|g.log|] == g.log;
  }

  /**
   * A purchase never changes the subscription's lifecycle: its status, period
   * and plan are exactly what reading `is_active` left, and no other user's row
   * changes. A checkout URL comes back only after the session's id was saved on
   * the row, next to a customer id.
   */
  lemma PurchaseKeepsLifecycle(plans: map<nat, Plan>, subs: map<nat, Record>, g: GatewayState, user: User, planId: nat, now: int)
    requires Purchasable(plans, planId)
    ensures var (resp, subs', g') := PurchaseSpec(plans, subs, g, user, planId, now);
            var row := AfterRead(WithRow(subs, user.id)[user.id], now);
            && subs'.Keys == subs.Keys + {user.id}
            && (forall v | v in subs && v != user.id :: subs'[v] == subs[v])
            && subs'[user.id].status == row.status
            && subs'[user.id].start == row.start && subs'[user.id].end == row.end
            && subs'[user.id].plan == row.plan && subs'[user.id].paymentIntentId == row.paymentIntentId
            && (resp.CheckoutCreated? ==>
                  && |g'.replies| < |g.replies|
                  && subs'[user.id].customerId.Some?
                  && subs'[user.id].sessionId == Some(g.replies[|g.replies| - |g'.replies| - 1].id)
                  && resp.checkoutUrl == g.replies[|g.replies| - |g'.replies| - 1].url)
  {
    var m := WithRow(subs, user.id);
    var row := AfterRead(m[user.id], now);
    if !IsActiveAt(m[user.id], now) && !Truthy(row.customerId) && |g.replies| > 0 && g.replies[0].Done? {
      assert g.replies[1..] == g.replies[1..];
    }
  }

  /**
   * A purchase that is not a conflict returns the checkout URL exactly when the
   * processor answers every request it needs: the session alone for a row that
   * has a customer id, the customer and then the session otherwise. Any other
   * outcome is a server error.
   */
  lemma PurchaseSucceedsWhenProcessorAnswers(plans: map<nat, Plan>, subs: map<nat, Record>, g: GatewayState,
                                             user: User, planId: nat, now: int)
    requires Purchasable(plans, planId)
    requires !IsActiveAt(WithRow(subs, user.id)[user.id], now)
    ensures var (resp, subs', g') := PurchaseSpec(plans, subs, g, user, planId, now);
            var row := AfterRead(WithRow(subs, user.id)[user.id], now);
            && (resp.CheckoutCreated? <==>
                  if Truthy(row.customerId) then |g.replies| >= 1 && g.replies[0].Done?
                  else |g.replies| >= 2 && g.replies[0].Done? && g.replies[1].Done?)
            && (resp.CheckoutCreated? || resp == ServerError)
  {
  }

  // ================================================================ my subscription / cancel

  /** `MySubscriptionAPIView.get`: fetch or create the row and render it. */
  function MySubscriptionSpec(subs: map<nat, Record>, u: nat, now: int): (RenderedSubscription, map<nat, Record>)
  {
    var m := WithRow(subs, u);
    var (out, row) := RenderSpec(m[u], now);
    (out, m[u := row])
  }

  method MySubscription(subs: SubscriptionTable, u: nat, now: int) returns (resp: Response, data: RenderedSubscription)
    requires subs.Valid()
    modifies subs, subs.rows.Values
    ensures subs.Valid() && resp == Ok
    ensures (data, subs.Abstract()) == MySubscriptionSpec(old(subs.Abstract()), u, now)
  {
    var s := subs.GetOrCreate(u);
    ghost var m := subs.Abstract();
    data := Render(s, now);
    assert subs.Abstract() == m[u := s.Snapshot()];
    resp := Ok;
  }

  /**
   * A user without a row gets the default, inactive one; a user with one sees
   * it as it was stored, with `is_active` answering for `now` and the expiry
   * that read observes saved.
   */
  lemma MySubscriptionShowsRow(subs: map<nat, Record>, u: nat, now: int)
    ensures var (out, subs') := MySubscriptionSpec(subs, u, now);
            && subs'.Keys == subs.Keys + {u}
            && (u !in subs ==> out == RenderedSubscription(None, Inactive, None, None, false) && subs'[u] == NewRecord(u))
            && (u in subs ==> out.status == subs[u].status && out.isActive == IsActiveAt(subs[u], now)
                              && subs'[u] == AfterRead(subs[u], now))
            && (forall v | v in subs && v != u :: subs'[v] == subs[v])
  {
  }

  /**
   * `CancelSubscriptionAPIView.post`: the user's row if there is one; no row,
   * or a row that does not read as active, is a bad request (after the read's
   * expiry write); otherwise the row is canceled.
   */
  function CancelSpec(subs: map<nat, Record>, u: nat, now: int): (Response, map<nat, Record>)
  {
    if u !in subs then (BadRequest, subs)
    else if !IsActiveAt(subs[u], now) then (BadRequest, subs[u := AfterRead(subs[u], now)])
    else (Ok, subs[u := AfterCancel(subs[u], now)])
  }

  method Cancel(subs: SubscriptionTable, u: nat, now: int) returns (resp: Response)
    requires subs.Valid()
    modifies subs.rows.Values
    ensures subs.Valid()
    ensures (resp, subs.Abstract()) == CancelSpec(old(subs.Abstract()), u, now)
  {
    if u !in subs.rows {
      return BadRequest;
    }
    var s := subs.rows[u];
    ghost var m := subs.Abstract();
    var active := s.IsActive(now);
    assert subs.Abstract() == m[u := s.Snapshot()];
    if !active {
      return BadRequest;
    }
    s.Cancel(now);
    assert subs.Abstract() == m[u := s.Snapshot()];
    return Ok;
  }

  /**
   * Cancellation succeeds exactly when the user has a row that reads as
   * active. A rejected cancel leaves every row as reading it left it. After a
   * successful one the row never reads as active again and its customer,
   * session, payment and plan columns are as they were; no other row changes.
   */
  lemma CancelOutcome(subs: map<nat, Record>, u: nat, now: int, t: int)
    ensures var (resp, subs') := CancelSpec(subs, u, now);
            && subs'.Keys == subs.Keys
            && (resp == Ok <==> u in subs && IsActiveAt(subs[u], now))
            && (resp != Ok ==> resp == BadRequest && (u in subs ==> subs'[u] == AfterRead(subs[u], now)))
            && (resp == Ok ==> !IsActiveAt(subs'[u], t) && subs'[u].end == Some(now)
                               && subs'[u].plan == subs[u].plan && subs'[u].customerId == subs[u].customerId
                               && subs'[u].sessionId == subs[u].sessionId
                               && subs'[u].paymentIntentId == subs[u].paymentIntentId)
            && (forall v | v in subs && v != u :: subs'[v] == subs[v])
  {
  }
}
