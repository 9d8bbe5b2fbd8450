/**
 * The `subscription` app's serializers: the two plan validators, the public
 * and admin field sets, and the rendering of a user's subscription, which
 * reads the `is_active` property and so can write the row it renders.
 */
module SubscriptionSerializers {
  import opened Wrappers
  import opened SubscriptionModels

  /** The shape both plan validators share: a positive value passes unchanged, any other is refused with `message`. */
  function ValidatePositive(value: int, message: string): (r: Result<int, string>)
    ensures r.Success? <==> value > 0
    ensures r.Success? ==> r.value == value
    ensures r.Failure? ==> r.error == message
  {
    if value <= 0 then Failure(message) else Success(value)
  }

  /** `validate_amount`: a price must be positive. */
  function ValidateAmount(value: int): Result<int, string>
  {
    ValidatePositive(value, "Amount must be positive.")
  }

  /** `validate_duration_months`: a duration must be positive. */
  function ValidateDurationMonths(value: int): Result<int, string>
  {
    ValidatePositive(value, "Duration must be positive.")
  }

  /** An amount that passes validation is charged a positive number of cents. */
  lemma ValidAmountChargesPositiveCents(amount: int)
    requires ValidateAmount(amount).Success?
    ensures PriceInCents(amount) > 0
  {
  }

  const PublicFields: seq<string> := [
    "id", "plan_type", "name", "description", "amount", "duration_months",
    "details", "currency", "active", "created_at", "updated_at", "price_in_cents"]

  const AdminOnlyFields: seq<string> := ["stripe_product_id", "stripe_price_id"]

  /** The admin serializer's `Meta.fields`: the public list, extended. */
  const AdminFields: seq<string> := PublicFields + AdminOnlyFields

  datatype PlanSerializer = PublicPlanSerializer | AdminPlanSerializer

  /** Fields a client cannot write: the model's automatic columns, the computed price, and for admins the two processor ids. */
  predicate ReadOnly(s: PlanSerializer, field: string)
  {
    field in ["id", "created_at", "updated_at", "price_in_cents"]
    || (s == AdminPlanSerializer && field in AdminOnlyFields)
  }

  function Fields(s: PlanSerializer): seq<string>
  {
    if s == PublicPlanSerializer then PublicFields else AdminFields
  }

  /**
   * The admin serializer shows exactly the public fields plus the two processor
   * ids, and lets an admin write exactly what the public one lets a client write.
   */
  lemma AdminFieldsExtendPublic(field: string)
    ensures field in Fields(AdminPlanSerializer) <==> field in PublicFields || field in AdminOnlyFields
    ensures field in AdminOnlyFields ==> field !in PublicFields && ReadOnly(AdminPlanSerializer, field)
    ensures (field in Fields(AdminPlanSerializer) && !ReadOnly(AdminPlanSerializer, field))
            <==> (field in Fields(PublicPlanSerializer) && !ReadOnly(PublicPlanSerializer, field))
  {
  }

  /** `UserSubscriptionSerializer(subscription).data`, without the nested plan body and the audit timestamps. */
  datatype RenderedSubscription = RenderedSubscription(
    plan: Option<nat>, status: Status, start: Option<int>, end: Option<int>, isActive: bool)

  /**
   * The fields are read in the order of `Meta.fields`: `status` before
   * `is_active`. The rendering therefore shows the stored status as it was,
   * `is_active` as the property answers, and the row is left as that read leaves it.
   */
  function RenderSpec(r: Record, now: int): (out: (RenderedSubscription, Record))
    ensures out.0.status == r.status && out.0.isActive == IsActiveAt(r, now)
    ensures out.0.plan == r.plan && out.0.start == r.start && out.0.end == r.end
    ensures out.1 == AfterRead(r, now)
  {
    (RenderedSubscription(r.plan, r.status, r.start, r.end, IsActiveAt(r, now)), AfterRead(r, now))
  }

  method Render(s: UserSubscription, now: int) returns (out: RenderedSubscription)
    modifies s
    ensures (out, s.Snapshot()) == RenderSpec(old(s.Snapshot()), now)
  {
    var plan, status, start, end := s.plan, s.status, s.start, s.end;
    var active := s.IsActive(now);
    out := RenderedSubscription(plan, status, start, end, active);
  }

  /**
   * Rendering an active row past its end shows `status` "active" next to
   * `is_active` false, and saves the row as inactive.
   */
  lemma ExpiredRowRendersStaleStatus(r: Record, now: int)
    requires ExpiredAt(r, now)
    ensures RenderSpec(r, now).0.status == Active && !RenderSpec(r, now).0.isActive
    ensures RenderSpec(r, now).1.status == Inactive
  {
  }
}
