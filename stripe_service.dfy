/**
 * `StripeService`: the four operations the views use to talk to the payment
 * processor. Each is a method on the `Gateway` that issues its requests in
 * order and stops at the first failure, which it hands back to the caller
 * (the source logs and re-raises). Each method is proved equal to a
 * specification function over `GatewayState`, which the views' own
 * specifications compose.
 */
module StripeService {
  import opened Wrappers
  import opened Processor
  import opened SubscriptionModels
  import Text

  datatype ProcessorError = StripeError

  datatype CheckoutSession = CheckoutSession(id: string, url: string)

  /** What `update_product_and_price` returns: the new price id, if one was created, and whether the product was modified. */
  datatype PriceUpdate = PriceUpdate(newPriceId: Option<string>, updated: bool)

  /** The `changes` flags the plan-update view hands to the service. */
  datatype Changes = Changes(name: bool, description: bool, active: bool, price: bool)

  // ---------------------------------------------------------------- create_customer

  function CreateCustomerSpec(g: GatewayState, email: string, name: string): (r: (Result<string, ProcessorError>, GatewayState))
    ensures r.1.log == g.log + [CreateCustomer(email, name)]
    ensures r.0.Success? <==> |g.replies| > 0 && g.replies[0].Done?
    ensures r.0.Success? ==> r.0.value == g.replies[0].id
  {
    var (reply, g1) := Exchange(g, CreateCustomer(email, name));
    if reply.Fail? then (Failure(StripeError), g1) else (Success(reply.id), g1)
  }

  method CreateCustomerCall(gw: Gateway, email: string, name: string) returns (r: Result<string, ProcessorError>)
    modifies gw
    ensures (r, gw.State()) == CreateCustomerSpec(old(gw.State()), email, name)
  {
    var reply := gw.Send(CreateCustomer(email, name));
    if reply.Fail? {
      return Failure(StripeError);
    }
    return Success(reply.id);
  }

  // ---------------------------------------------------------------- create_product_and_price

  /** `stripe.Product.create(...)` for a plan. */
  function ProductCall(plan: Plan): Call
  {
    CreateProduct(plan.name, NoneIfEmpty(plan.description), plan.active, map["plan_type" := plan.planType])
  }

  /** `stripe.Price.create(product=..., unit_amount=plan.price_in_cents, currency=plan.currency)`. */
  function PriceCall(product: Option<string>, plan: Plan): (c: Call)
    ensures c.CreatePrice? && c.product == product
    ensures c.unitAmount == PriceInCents(plan.amount) && c.currency == plan.currency
  {
    CreatePrice(product, PriceInCents(plan.amount), plan.currency)
  }

  /**
   * The product is created first and the price is attached to the id the
   * processor gave the product; both ids come back only when both requests succeed.
   */
  function CreateProductAndPriceSpec(g: GatewayState, plan: Plan): (r: (Result<(string, string), ProcessorError>, GatewayState))
    ensures r.0.Success? <==> |g.replies| >= 2 && g.replies[0].Done? && g.replies[1].Done?
    ensures r.0.Success? ==> r.0.value == (g.replies[0].id, g.replies[1].id)
    ensures r.0.Success? ==> r.1.log == g.log + [ProductCall(plan), PriceCall(Some(g.replies[0].id), plan)]
    ensures r.0.Failure? && (|g.replies| == 0 || g.replies[0].Fail?) ==> r.1.log == g.log + [ProductCall(plan)]
  {
    var (product, g1) := Exchange(g, ProductCall(plan));
    if product.Fail? then (Failure(StripeError), g1)
    else
      var (price, g2) := Exchange(g1, PriceCall(Some(product.id), plan));
      if price.Fail? then (Failure(StripeError), g2) else (Success((product.id, price.id)), g2)
  }

  method CreateProductAndPrice(gw: Gateway, plan: Plan) returns (r: Result<(string, string), ProcessorError>)
    modifies gw
    ensures (r, gw.State()) == CreateProductAndPriceSpec(old(gw.State()), plan)
  {
    var product := gw.Send(ProductCall(plan));
    if product.Fail? {
      return Failure(StripeError);
    }
    var price := gw.Send(PriceCall(Some(product.id), plan));
    if price.Fail? {
      return Failure(StripeError);
    }
    return Success((product.id, price.id));
  }

  // ---------------------------------------------------------------- update_product_and_price

  /** The keyword arguments of `stripe.Product.modify`: exactly the flagged fields, with the plan's current values. */
  function ProductUpdates(plan: Plan, changes: Changes): (u: map<string, FieldValue>)
    ensures u.Keys == (if changes.name then {"name"} else {})
                      + (if changes.description then {"description"} else {})
                      + (if changes.active then {"active"} else {})
    ensures "name" in u ==> u["name"] == Text(Some(plan.name))
    ensures "description" in u ==> u["description"] == Text(NoneIfEmpty(plan.description))
    ensures "active" in u ==> u["active"] == Flag(plan.active)
  {
    var u0: map<string, FieldValue> := map[];
    var u1 := if changes.name then u0["name" := Text(Some(plan.name))] else u0;
    var u2 := if changes.description then u1["description" := Text(NoneIfEmpty(plan.description))] else u1;
    if changes.active then u2["active" := Flag(plan.active)] else u2
  }

  /** Whether the service modifies the product: it has a product id and some product field is flagged. */
  predicate ModifyWanted(plan: Plan, changes: Changes)
  {
    Truthy(plan.productId) && ProductUpdates(plan, changes) != map[]
  }

  /**
   * The requests the service makes when every one succeeds: the product
   * modification if wanted; then, when the price is flagged, the old price
   * is retired (if there is one) before a new price is created.
   */
  function PlannedCalls(plan: Plan, changes: Changes): (calls: seq<Call>)
    ensures !changes.price ==> forall i :: 0 <= i < |calls| ==> calls[i].ModifyProduct?
    ensures changes.price ==> |calls| >= 1 && calls[|calls| - 1] == PriceCall(plan.productId, plan)
    ensures changes.price && Truthy(plan.priceId) ==>
              |calls| >= 2 && calls[|calls| - 2] == DeactivatePrice(plan.priceId.value)
    ensures (exists i :: 0 <= i < |calls| && calls[i].ModifyProduct?) <==> ModifyWanted(plan, changes)
    ensures forall i :: 0 <= i < |calls| && calls[i].ModifyProduct? ==>
              calls[i] == ModifyProduct(plan.productId.value, ProductUpdates(plan, changes))
  {
    var modification := if ModifyWanted(plan, changes)
                  then [ModifyProduct(plan.productId.value, ProductUpdates(plan, changes))] else [];
    var retire := if Truthy(plan.priceId) then [DeactivatePrice(plan.priceId.value)] else [];
    var calls := if changes.price then modification + retire + [PriceCall(plan.productId, plan)] else modification;
    assert ModifyWanted(plan, changes) ==> calls[0].ModifyProduct?;
    calls
  }

  function UpdateProductAndPriceSpec(g: GatewayState, plan: Plan, changes: Changes): (r: (Result<PriceUpdate, ProcessorError>, GatewayState))
  {
    var (modifyFailed, updated, g1) :=
      if ModifyWanted(plan, changes) then
        var (reply, g') := Exchange(g, ModifyProduct(plan.productId.value, ProductUpdates(plan, changes)));
        (reply.Fail?, true, g')
      else (false, false, g);
    if modifyFailed then (Failure(StripeError), g1)
    else if !changes.price then (Success(PriceUpdate(None, updated)), g1)
    else
      var (retireFailed, g2) :=
        if Truthy(plan.priceId) then
          var (reply, g') := Exchange(g1, DeactivatePrice(plan.priceId.value));
          (reply.Fail?, g')
        else (false, g1);
      if retireFailed then (Failure(StripeError), g2)
      else
        var (price, g3) := Exchange(g2, PriceCall(plan.productId, plan));
        if price.Fail? then (Failure(StripeError), g3) else (Success(PriceUpdate(Some(price.id), updated)), g3)
  }

  method UpdateProductAndPrice(gw: Gateway, plan: Plan, changes: Changes) returns (r: Result<PriceUpdate, ProcessorError>)
    modifies gw
    ensures (r, gw.State()) == UpdateProductAndPriceSpec(old(gw.State()), plan, changes)
  {
    var updated := false;
    if Truthy(plan.productId) {
      var productUpdates: map<string, FieldValue> := map[];
      if changes.name {
        productUpdates := productUpdates["name" := Text(Some(plan.name))];
      }
      if changes.description {
        productUpdates := productUpdates["description" := Text(NoneIfEmpty(plan.description))];
      }
      if changes.active {
        productUpdates := productUpdates["active" := Flag(plan.active)];
      }
      assert productUpdates == ProductUpdates(plan, changes);
      if productUpdates != map[] {
        var reply := gw.Send(ModifyProduct(plan.productId.value, productUpdates));
        if reply.Fail? {
          return Failure(StripeError);
        }
        updated := true;
      }
    }
    if changes.price {
      if Truthy(plan.priceId) {
        var reply := gw.Send(DeactivatePrice(plan.priceId.value));
        if reply.Fail? {
          return Failure(StripeError);
        }
      }
      var price := gw.Send(PriceCall(plan.productId, plan));
      if price.Fail? {
        return Failure(StripeError);
      }
      return Success(PriceUpdate(Some(price.id), updated));
    }
    return Success(PriceUpdate(None, updated));
  }

  /** Every scripted reply among the first n is a success. */
  predicate RepliesSucceed(g: GatewayState, n: nat)
  {
    |g.replies| >= n && forall i :: 0 <= i < n ==> g.replies[i].Done?
  }

  /**
   * The service follows its plan: it issues a prefix of `PlannedCalls`, all
   * of them when every reply succeeds, and otherwise stops right after the
   * first failed request and reports the failure. On success it reports the
   * product as updated exactly when it modified it, and returns the id of the
   * price it created (none when the price was not flagged).
   */
  predicate FollowsPlan(g: GatewayState, plan: Plan, changes: Changes)
  {
    var (r, g') := UpdateProductAndPriceSpec(g, plan, changes);
    var calls := PlannedCalls(plan, changes);
    && |g.log| <= |g'.log|
    && var issued := NewCalls(g, g');
    && |issued| <= |calls| && issued == calls[..|issued|]
    && (r.Success? <==> RepliesSucceed(g, |calls|))
    && (r.Success? ==> issued == calls)
    && (r.Failure? ==> |issued| > 0 && RepliesSucceed(g, |issued| - 1)
                       && (|g.replies| < |issued| || g.replies[|issued| - 1].Fail?))
    && (r.Success? ==> r.value.updated == ModifyWanted(plan, changes))
    && (r.Success? ==> r.value.newPriceId == if changes.price then Some(g.replies[|calls| - 1].id) else None)
  }

  lemma UpdateFollowsPlan(g: GatewayState, plan: Plan, changes: Changes)
    ensures FollowsPlan(g, plan, changes)
  {
    if changes.price {
      PricedUpdateFollowsPlan(g, plan, changes);
    } else {
      UnpricedUpdateFollowsPlan(g, plan, changes);
    }
  }

  /** Without the price flag the plan is at most the product modification. */
  lemma UnpricedUpdateFollowsPlan(g: GatewayState, plan: Plan, changes: Changes)
    requires !changes.price
    ensures FollowsPlan(g, plan, changes)
  {
    var (r, g') := UpdateProductAndPriceSpec(g, plan, changes);
    assert g'.log[..|g.log|] == g.log;
  }

  /** With the price flag the plan is the modification, the retirement of the old price, then the new price. */
  lemma PricedUpdateFollowsPlan(g: GatewayState, plan: Plan, changes: Changes)
    requires changes.price
    ensures FollowsPlan(g, plan, changes)
  {
    var modification := if ModifyWanted(plan, changes)
                  then [ModifyProduct(plan.productId.value, ProductUpdates(plan, changes))] else [];
    if Truthy(plan.priceId) {
      assert PlannedCalls(plan, changes) == modification + [DeactivatePrice(plan.priceId.value), PriceCall(plan.productId, plan)];
      RetiringUpdateFollowsPlan(g, plan, changes);
    } else {
      assert PlannedCalls(plan, changes) == modification + [PriceCall(plan.productId, plan)];
      FirstPriceUpdateFollowsPlan(g, plan, changes);
    }
  }

  /** A flagged price with an old price to retire. */
  lemma RetiringUpdateFollowsPlan(g: GatewayState, plan: Plan, changes: Changes)
    requires changes.price && Truthy(plan.priceId)
    requires PlannedCalls(plan, changes) == (if ModifyWanted(plan, changes)
                  then [ModifyProduct(plan.productId.value, ProductUpdates(plan, changes))] else [])
                  + [DeactivatePrice(plan.priceId.value), PriceCall(plan.productId, plan)]
    ensures FollowsPlan(g, plan, changes)
  {
    if ModifyWanted(plan, changes) {
      ModifyingRetiringUpdateFollowsPlan(g, plan, changes);
    } else {
      var (r, g') := UpdateProductAndPriceSpec(g, plan, changes);
      assert g'.log[..|g.log|] == g.log;
    }
  }

  /** A flagged price with an old price to retire, after a product modification. */
  lemma ModifyingRetiringUpdateFollowsPlan(g: GatewayState, plan: Plan, changes: Changes)
    requires changes.price && Truthy(plan.priceId) && ModifyWanted(plan, changes)
    requires PlannedCalls(plan, changes) == [ModifyProduct(plan.productId.value, ProductUpdates(plan, changes)),
                                             DeactivatePrice(plan.priceId.value), PriceCall(plan.productId, plan)]
    ensures FollowsPlan(g, plan, changes)
  {
    var (r, g') := UpdateProductAndPriceSpec(g, plan, changes);
    assert g'.log[..|g.log|] == g.log;
  }

  /** A flagged price on a plan without one yet. */
  lemma FirstPriceUpdateFollowsPlan(g: GatewayState, plan: Plan, changes: Changes)
    requires changes.price && !Truthy(plan.priceId)
    requires PlannedCalls(plan, changes) == (if ModifyWanted(plan, changes)
                  then [ModifyProduct(plan.productId.value, ProductUpdates(plan, changes))] else [])
                  + [PriceCall(plan.productId, plan)]
    ensures FollowsPlan(g, plan, changes)
  {
    var (r, g') := UpdateProductAndPriceSpec(g, plan, changes);
    assert g'.log[..|g.log|] == g.log;
  }

  /** When the price is not flagged no price is retired or created and no price id comes back. */
  lemma PriceUntouchedWithoutPriceFlag(g: GatewayState, plan: Plan, changes: Changes)
    requires !changes.price
    ensures var (r, g') := UpdateProductAndPriceSpec(g, plan, changes);
            && |g.log| <= |g'.log|
            && (forall i :: 0 <= i < |NewCalls(g, g')| ==> NewCalls(g, g')[i].ModifyProduct?)
            && (r.Success? ==> r.value.newPriceId.None?)
  {
    UpdateFollowsPlan(g, plan, changes);
  }

  // ---------------------------------------------------------------- create_checkout_session

  /**
   * The session parameters: one line item of quantity 1, a one-off payment,
   * and the user and plan ids written as decimal strings in the two fields
   * the webhook reads back, from which they parse to the same ids.
   */
  function CheckoutParams(customer: Option<string>, price: Option<string>, userId: nat, planId: nat): (p: SessionParams)
    ensures p.customer == customer && p.paymentMethodTypes == ["card"]
    ensures p.lineItems == [LineItem(price, 1)] && p.mode == "payment"
    ensures Text.ParseNat(p.clientReferenceId) == Some(userId)
    ensures p.metadata.Keys == {"plan_id"} && Text.ParseNat(p.metadata["plan_id"]) == Some(planId)
  {
    Text.ParseNatToString(userId);
    Text.ParseNatToString(planId);
    SessionParams(customer, ["card"], [LineItem(price, 1)], "payment",
                  Text.NatToString(userId), map["plan_id" := Text.NatToString(planId)])
  }

  function CheckoutSessionSpec(g: GatewayState, customer: Option<string>, price: Option<string>, userId: nat, planId: nat)
    : (r: (Result<CheckoutSession, ProcessorError>, GatewayState))
    ensures r.1.log == g.log + [CreateCheckoutSession(CheckoutParams(customer, price, userId, planId))]
    ensures r.0.Success? <==> |g.replies| > 0 && g.replies[0].Done?
    ensures r.0.Success? ==> r.0.value == CheckoutSession(g.replies[0].id, g.replies[0].url)
  {
    var (reply, g1) := Exchange(g, CreateCheckoutSession(CheckoutParams(customer, price, userId, planId)));
    if reply.Fail? then (Failure(StripeError), g1) else (Success(CheckoutSession(reply.id, reply.url)), g1)
  }

  method CreateCheckoutSessionCall(gw: Gateway, customer: Option<string>, price: Option<string>, userId: nat, planId: nat)
    returns (r: Result<CheckoutSession, ProcessorError>)
    modifies gw
    ensures (r, gw.State()) == CheckoutSessionSpec(old(gw.State()), customer, price, userId, planId)
  {
    var reply := gw.Send(CreateCheckoutSession(CheckoutParams(customer, price, userId, planId)));
    if reply.Fail? {
      return Failure(StripeError);
    }
    return Success(CheckoutSession(reply.id, reply.url));
  }
}
