# Subscription lifecycle of a dating-app backend, in Dafny

This project models the subscription and payment-reconciliation core of a
Django/Stripe dating-app backend, and proves properties of that model. It
also models the profile-validation logic of the account serializers.

Each user has one subscription row, with status `inactive`, `active` or
`canceled` and lazy expiry. An administrator's plan catalogue is kept in step
with the payment processor. A purchase opens a hosted checkout session, and
the processor's `checkout.session.completed` webhook is what activates the
subscription.

Layout, one module per file:

| file | module | models |
|---|---|---|
| `wrappers.dfy` | `Wrappers` | `Option`, `Result`, Python truthiness of optional strings |
| `calendar.dfy` | `Calendar` | civil dates and instants, `relativedelta(months=+n)`, integer timestamps |
| `text.dfy` | `Text` | `str(n)` and its inverse for ids, `split(",")` and `",".join` |
| `processor.dfy` | `Processor` | the payment processor as an oracle: a log of requests and a script of replies |
| `subscription_models.dfy` | `SubscriptionModels` | plans, `price_in_cents`, the subscription row (`is_active`, `activate`, `cancel`), the tables |
| `stripe_service.dfy` | `StripeService` | the four processor operations the views use |
| `subscription_serializers.dfy` | `SubscriptionSerializers` | plan validators, field sets, rendering of a subscription |
| `subscription_views.dfy` | `SubscriptionViews` | plan create and update, purchase, my-subscription, cancel |
| `stripe_webhook.dfy` | `StripeWebhook` | the webhook: routing, the handler as written, the corrected handler |
| `lifecycle.dfy` | `Lifecycle` | properties across operations: purchase then webhook, repurchase, price change |
| `account_serializers.dfy` | `AccountSerializers` | pop-image cap, validators, age, list columns, profile update, sign-up, OTP |

How the model is built:
- **Operations that change state are methods.** Each method works on classes
  for the rows it writes (`UserSubscription`, `SubscriptionTable`,
  `PlanTable`, `Gateway`, `UserRow`). Each is proved equal to a specification
  function over the values of that state, in the form
  `ensures (resp, table.Abstract(), gw.State()) == XSpec(old(...), ...)`.
  The properties are lemmas about those functions.
- **Time is a parameter.** Stored timestamps are integers (microsecond ticks).
  The webhook takes the current instant as a civil `Instant`, because it adds
  calendar months to it, and stores its `Ticks`.
- **Amounts are integer hundredths.**
- **The processor is a scripted oracle.** Its replies are fixed in advance and
  each is either an id (and URL) or a failure. A processor failure propagates
  to the view, which turns it into a server error.

Where the code and its design intent disagree, the model follows the code:
- The purchase view's plan lookup sits inside the outer `try`, so a missing or
  inactive plan is answered with the generic error, not a 404.
- The webhook as written is modelled as it stands. Its two defects are listed
  under "## Findings", and the rest of the model uses the corrected handler
  `StripeWebhook.WebhookSpec`.
- The corrected idempotency gate is the documented one: the same session id
  and status active. An old event replayed after its subscription was
  canceled, or after its expiry was saved, therefore activates the row again.
  Only a saved, still-active activation is recognised as a duplicate.

## Model

| member | source | states |
|---|---|---|
| Wrappers.NoneIfEmpty | subscription/services.py:26 | `description or None`: `None` exactly for the empty string, the string itself otherwise |
| Calendar.AddMonths | subscription/views.py:330 | n calendar months later, day clamped to the target month's length; `None` exactly when the target year leaves 1..9999; result valid and exactly n months on |
| Calendar.AddMonthsInstant | subscription/views.py:329-330 | the same on an instant; time of day kept; defined exactly when the date addition is |
| Calendar.AddMonthsIsLater | subscription/views.py:330 | adding a positive number of months gives a strictly later date |
| Calendar.AddMonthsDoesNotCompose | subscription/views.py:330 | clamping: Jan 31 + 1 month is Feb 28, then Mar 28, but Jan 31 + 2 months is Mar 31 |
| Calendar.TicksOrder | subscription/models.py:76 | timestamps order instants exactly as the calendar does, both directions |
| Calendar.AddMonthsAdvancesTicks | subscription/views.py:329-330 | the end of a period of n > 0 months has a strictly larger timestamp than its start |
| Text.NatToString | subscription/services.py:78-79 | `str(n)` is a non-empty digit string |
| Text.ParseNat | subscription/views.py:314-315 | an id string is read back exactly when it is a non-empty digit string |
| Text.ParseNatToString | subscription/services.py:78-79 | `int(str(n)) == n` for every id |
| Text.Split | account/serializers.py:89 | `split` always yields at least one piece |
| Text.SplitPiecesHaveNoSeparator | account/serializers.py:190 | no piece of a split contains the comma |
| Text.JoinSplit | account/serializers.py:190 | joining the pieces of a split restores the string |
| Text.SplitJoin | account/serializers.py:190 | splitting the join of comma-free pieces restores the pieces |
| Processor.Gateway.Send | subscription/services.py:14 | a request is logged and answered with the next scripted reply, or a failure when none is left |
| SubscriptionModels.PriceInCents | subscription/models.py:39-41 | `int(amount * 100)` on a two-place amount equals the amount in hundredths; positive exactly when the amount is |
| SubscriptionModels.NewRecord | subscription/models.py:51-60 | a created row is inactive with every optional column empty |
| SubscriptionModels.AfterRead | subscription/models.py:72-80 | reading `is_active` saves `inactive` exactly for an active row past its end, and changes nothing else |
| SubscriptionModels.AfterActivate | subscription/models.py:82-86 | `activate`: active, start = given start or now, end = given end; other columns kept |
| SubscriptionModels.AfterCancel | subscription/models.py:88-91 | `cancel`: canceled, end = now; other columns kept |
| SubscriptionModels.NotActiveReadsFalse | subscription/models.py:73-75 | a row not active reads false and is not written |
| SubscriptionModels.ExpiryIsPersistedOnce | subscription/models.py:76-79 | an active row read past its end reads false and is saved inactive; later reads answer false and write nothing |
| SubscriptionModels.ActiveUntilEnd | subscription/models.py:76-80 | an active row with no end or not past it (`now == end` included) reads true and is not written |
| SubscriptionModels.ReadIsIdempotent | subscription/models.py:72-80 | reading twice is reading once, and the read does not change its own answer |
| SubscriptionModels.ActiveIsDownwardClosed | subscription/models.py:76 | a row active at some time was active at every earlier time |
| SubscriptionModels.CancelEndsAccess | subscription/models.py:88-91 | after `cancel` the row reads false at every time |
| SubscriptionModels.ActivatedWindow | subscription/models.py:82-86 | after `activate` the row reads true exactly up to its end, at every time when there is none |
| SubscriptionModels.UserSubscription.IsActive | subscription/models.py:72-80 | the property's answer and the row it leaves are `IsActiveAt` and `AfterRead` |
| SubscriptionModels.UserSubscription.Activate | subscription/models.py:82-86 | the row becomes `AfterActivate` of the old row |
| SubscriptionModels.UserSubscription.Cancel | subscription/models.py:88-91 | the row becomes `AfterCancel` of the old row |
| SubscriptionModels.WithRow | subscription/views.py:155 | `get_or_create`: the user's row is the existing one or a new default; every other row kept |
| SubscriptionModels.SubscriptionTable.GetOrCreate | subscription/views.py:155 | the table becomes `WithRow`; an existing row object is returned, otherwise a fresh one is added |
| SubscriptionModels.SubscriptionTable.OneRowChanged | subscription/models.py:51 | rows belong to distinct users, so writing one row object leaves every other row as it was |
| StripeService.CreateCustomerSpec | subscription/services.py:12-19 | one customer request with email and name; success exactly when the processor answers, with its id |
| StripeService.CreateCustomerCall | subscription/services.py:12-19 | the method's result and the processor's new state are `CreateCustomerSpec` |
| StripeService.PriceCall | subscription/services.py:30-34 | the price's unit amount is `price_in_cents` and its currency the plan's |
| StripeService.CreateProductAndPriceSpec | subscription/services.py:22-39 | product first, then a price on the product id the processor returned; both ids only when both succeed; a product failure issues no price request |
| StripeService.CreateProductAndPrice | subscription/services.py:22-39 | the method is `CreateProductAndPriceSpec` |
| StripeService.ProductUpdates | subscription/services.py:45-51 | the modification payload holds exactly the flagged fields, with the plan's current values |
| StripeService.PlannedCalls | subscription/services.py:42-66 | product modification exactly when there is a product id and a payload; with the price flag, the old price is retired before the new one is created, last |
| StripeService.UpdateProductAndPrice | subscription/services.py:42-66 | the method, building the payload in place and flipping `updated`, is `UpdateProductAndPriceSpec` |
| StripeService.UpdateFollowsPlan | subscription/services.py:42-66 | the requests issued are a prefix of `PlannedCalls`; success exactly when every reply succeeds; a failure stops right after the failed request; `updated` exactly when the product was modified; the new price id is the last reply's |
| StripeService.PriceUntouchedWithoutPriceFlag | subscription/services.py:56-66 | without the price flag no price is retired or created and no price id is returned |
| StripeService.CheckoutParams | subscription/services.py:71-80 | one line item of quantity 1, mode `payment`, card only; the client reference and `metadata.plan_id` parse back to the user and plan ids |
| StripeService.CheckoutSessionSpec | subscription/services.py:68-85 | one session request with those parameters; success exactly when the processor answers, with its id and URL |
| StripeService.CreateCheckoutSessionCall | subscription/services.py:68-85 | the method is `CheckoutSessionSpec` |
| SubscriptionSerializers.ValidatePositive | subscription/serializers.py:16-24 | the shape of both plan validators: refused with the given message exactly when the value is not positive; a positive value returned unchanged |
| SubscriptionSerializers.ValidateAmount | subscription/serializers.py:16-19 | `ValidatePositive` with the message "Amount must be positive.": refused exactly when the amount is not positive |
| SubscriptionSerializers.ValidateDurationMonths | subscription/serializers.py:21-24 | `ValidatePositive` with the message "Duration must be positive.": refused exactly when the duration is not positive |
| SubscriptionSerializers.ValidAmountChargesPositiveCents | subscription/serializers.py:16-19 | a validated amount is charged a positive number of cents |
| SubscriptionSerializers.AdminFieldsExtendPublic | subscription/serializers.py:6-32 | admin fields are the public ones plus the two processor ids, both read-only; admins can write exactly what the public serializer can |
| SubscriptionSerializers.RenderSpec | subscription/serializers.py:35-44 | `status` is rendered as stored before `is_active` is read; `is_active` is the read's answer and the row is left as the read leaves it |
| SubscriptionSerializers.Render | subscription/serializers.py:35-44 | the method is `RenderSpec` on the row object |
| SubscriptionSerializers.ExpiredRowRendersStaleStatus | subscription/serializers.py:37-43 | an expired active row renders status `active` next to `is_active` false, and is saved inactive |
| SubscriptionViews.DisplayName | subscription/views.py:165 | the full name when non-empty, otherwise the username |
| SubscriptionViews.CreatePlan | subscription/views.py:63-91 | the method is `CreatePlanSpec` and keeps the plan table well formed |
| SubscriptionViews.CreatePlanOutcome | subscription/views.py:63-91 | invalid input stores and requests nothing; `Created` exactly when both processor requests succeed, with the submitted fields and both ids and a price of the amount in cents; otherwise the compensating delete leaves the plans as before |
| SubscriptionViews.Diff | subscription/views.py:109-124 | the `changes` flags of the old and new field values; `DiffDetectsProcessorChanges` proves them against the processor-visible fields |
| SubscriptionViews.DiffDetectsProcessorChanges | subscription/views.py:119-124 | some flag is set exactly when a field the processor knows changed; the price flag exactly when amount or currency changed |
| SubscriptionViews.UpdatePlan | subscription/views.py:97-142 | the method is `UpdatePlanSpec` and keeps the plan table well formed |
| SubscriptionViews.UpdatePlanFrame | subscription/views.py:101-142 | missing plan 404 and invalid input change nothing and reach no processor; otherwise the set of plans, every other plan and the id counter are kept |
| SubscriptionViews.UpdatePlanOutcome | subscription/views.py:106-142 | the submitted fields stay saved even on processor failure; the processor is called only on a change; `Updated` exactly when nothing needed syncing or every planned request succeeded, and then a flagged price's new id is stored when non-empty; the price id changes only to the newly created price, and only with the price flag |
| SubscriptionViews.Purchase | subscription/views.py:148-195 | the method is `PurchaseSpec` |
| SubscriptionViews.PurchaseFetched | subscription/views.py:157-192 | the purchase on an existing row is `FetchedPurchaseSpec` |
| SubscriptionViews.Checkout | subscription/views.py:162-192 | the checkout on the row object is `CheckoutSpec` |
| SubscriptionViews.PurchaseConflictIffActive | subscription/views.py:157-160 | conflict exactly when the plan can be bought and the row reads active; then no processor request and no change beyond `get_or_create` |
| SubscriptionViews.PurchaseCustomerReuse | subscription/views.py:162-181 | an existing customer id is reused and the only request is the session for it; without one a customer is created first; if that fails, server error, nothing more requested, no session id saved |
| SubscriptionViews.PurchaseKeepsLifecycle | subscription/views.py:155-192 | status, period, plan and payment id are exactly what the read left; no other row changes; a checkout URL comes back only with the session's id saved and a customer id set |
| SubscriptionViews.PurchaseSucceedsWhenProcessorAnswers | subscription/views.py:162-192 | no conflict: the checkout URL comes back exactly when the processor answers the session request and, for a row without a customer id, the customer request before it; otherwise a server error |
| SubscriptionViews.MySubscription | subscription/views.py:201-214 | the method is `MySubscriptionSpec` and answers OK |
| SubscriptionViews.MySubscriptionShowsRow | subscription/views.py:206-211 | a user without a row sees the default inactive one; otherwise the stored status and the read's `is_active`, with the expiry saved |
| SubscriptionViews.Cancel | subscription/views.py:220-249 | the method is `CancelSpec` |
| SubscriptionViews.CancelOutcome | subscription/views.py:225-231 | success exactly when the user has a row reading active; a refusal leaves the read's result only; after success the row never reads active again, ends now, keeps its ids and plan; no other row changes |
| StripeWebhook.Route | subscription/views.py:292-319 | a delivered event names an existing user and plan |
| StripeWebhook.RouteEvent | subscription/views.py:292-319 | the method's early returns compute `Route` |
| StripeWebhook.DeliveryNeedsPaidCompletedSession | subscription/views.py:292-315 | delivery requires type `checkout.session.completed`, status `paid`, both correlation fields present, and both parsing to the delivered ids |
| StripeWebhook.AsWrittenStep | subscription/views.py:322-334 | as written: duplicate exactly when the stored session id equals the event's; never an activation |
| StripeWebhook.AsWrittenRow | subscription/views.py:322-350 | as written: duplicate when the stored session id equals the event's; otherwise a failure, from the end date or from the assignment to `is_active` |
| StripeWebhook.StripeWebhookAsWritten | subscription/views.py:270-356 | the handler as written is `WebhookAsWrittenSpec` |
| StripeWebhook.AsWrittenNeverActivates | subscription/views.py:316-350 | as written, no event activates anything: every row is kept, the only change a default row from `get_or_create` |
| StripeWebhook.AsWrittenFailsAfterGate | subscription/views.py:328-350 | as written, an event that passes the gate with a valid end date fails on the read-only assignment |
| StripeWebhook.Activation | subscription/views.py:332-339 | the saved activation is `activate(start, end)` plus the plan and the event's payment, session and customer ids |
| StripeWebhook.ActivateRow | subscription/views.py:322-345 | the corrected activation on the row object is `CorrectedStep` |
| StripeWebhook.StripeWebhook | subscription/views.py:270-356 | the corrected handler is `WebhookSpec` |
| StripeWebhook.StatusIs400OnlyForBadSignature | subscription/views.py:277-356 | 400 exactly when the event cannot be constructed; 200 on every other path, as written and corrected |
| StripeWebhook.WebhookUntouchedUnlessDelivered | subscription/views.py:292-319 | the table changes only for a completed, paid, correlated event naming an existing user and plan, and then only that user's row |
| StripeWebhook.ActivationWindow | subscription/views.py:329-339 | an activation saves plan, active, start now, end the plan's months later, and the event's ids; active exactly up to the end; for a plan of a month or more the end is after now |
| StripeWebhook.CorrectedGate | subscription/views.py:322-325 | duplicate exactly when the session is the row's and the row is active; a duplicate changes nothing |
| StripeWebhook.RedeliveryAfterActivationIsNoOp | subscription/views.py:322-325 | once an event activated a row, redelivering it at any later time is a duplicate with no change: no double extension |
| StripeWebhook.WebhookIsIdempotent | subscription/views.py:322-350 | delivering the same event twice at the same time leaves the table as delivering it once |
| Lifecycle.CorrelationRoundTrip | subscription/services.py:78-79 | the completion event of a session opened for (user, plan) is routed to that user and plan |
| Lifecycle.PurchaseRecordsSession | subscription/views.py:176-181 | a successful purchase logged the session request for that row's customer and saved a session id on a row that is not active |
| Lifecycle.PurchaseThenWebhookAsWrittenIsDuplicate | subscription/views.py:323-325 | as written, the completion event of the session an ordinary purchase opened is taken for a duplicate: nothing changes |
| Lifecycle.PurchaseThenWebhookActivates | subscription/views.py:329-345 | corrected, that event activates the row for the purchased plan over its calendar months; a second purchase is then a conflict with no processor request |
| Lifecycle.FreshPurchaseScenario | subscription/views.py:148-192 | a user without a row buys a 3-month plan: a new row with customer and session ids; the completion event makes it active from now to 3 calendar months later |
| Lifecycle.CanceledUserCanPurchaseAgain | subscription/views.py:157-160 | after a successful cancel a purchase is never a conflict |
| Lifecycle.ExpiredUserCanPurchaseAgain | subscription/views.py:157-160 | an expired active row is no conflict and the purchase saves it inactive |
| Lifecycle.PriceChangeScenario | subscription/services.py:56-65 | 10.00 to 15.00 on a synced plan: the old price is retired, a 1500-cent price created on the product, and its id stored |
| Lifecycle.UnresolvableWebhookScenario | subscription/views.py:312-319 | an event naming a plan that does not exist is acknowledged with no change |
| AccountSerializers.ValidatePopImage | account/serializers.py:28-32 | refused exactly when creating with 7 or more images; updates never capped |
| AccountSerializers.UploadsStayWithinCap | account/serializers.py:28-32 | k successive creations from c images are all accepted exactly when c + k <= 7 |
| AccountSerializers.ValidateChoices | account/serializers.py:142-154 | accepted exactly when every value is a choice, then returned unchanged; otherwise the first invalid value is reported |
| AccountSerializers.ValidateDob | account/serializers.py:133-136 | refused exactly when the date of birth is after today; otherwise returned unchanged |
| AccountSerializers.Age | account/serializers.py:172-179 | at least 0 for a date of birth not after today; `AgeCountsCompletedYears` and `AgeIsUnique` characterise it as the number of birthdays reached |
| AccountSerializers.AgeCountsCompletedYears | account/serializers.py:173-179 | the age is the number of birthdays reached: that one reached, the next not; at least 0 for a date of birth not after today |
| AccountSerializers.AgeIsUnique | account/serializers.py:173-179 | the age is the only number of completed years |
| AccountSerializers.ProfileListField | account/serializers.py:184-195 | a stored comma string read back as its list, a list kept; `ListColumnRoundTrip` proves it inverts the stored join |
| AccountSerializers.UserLookingFor | account/serializers.py:85-90 | only a string value is rewritten, into the same list as the profile rendering; stated by `ListColumnRoundTrip` |
| AccountSerializers.ListColumnRoundTrip | account/serializers.py:187-194 | a stored list of comma-free items renders back as itself; both normalisers agree on strings; a non-empty string is the join of its rendering |
| AccountSerializers.CopyFields | account/serializers.py:157-170 | the copy step of the update; `CopyFieldsWritesSubmitted` proves it writes exactly the provided fields and keeps the rest |
| AccountSerializers.CopyFieldsWritesSubmitted | account/serializers.py:157-170 | the copy step writes exactly the validated fields, skipping a list column popped as `None`, and keeps every other column |
| AccountSerializers.ProfileUpdateCopiesFields | account/serializers.py:156-182 | written fields take their submitted values, list columns only when not null; all other columns keep theirs; the age follows the date of birth whenever there is one |
| AccountSerializers.UserRow.UpdateProfile | account/serializers.py:156-182 | the `setattr` loop and list assignments give `ProfileAfterUpdate`; email, username, verification and OTP untouched |
| AccountSerializers.UserRow.VerifySave | account/serializers.py:251-259 | the row becomes `VerifiedAccount` of itself |
| AccountSerializers.ValidateSignup | account/serializers.py:203-212 | accepted exactly with both passwords of length 6 or more, equal, and an unregistered email; a mismatch reported before a registered email |
| AccountSerializers.SignupUsername | account/serializers.py:218-219 | a supplied non-empty username is kept, otherwise the generated one is used |
| AccountSerializers.SignupCreate | account/serializers.py:214-227 | the new row is unverified with the OTP and expiry; the username is always generated, since the serializer declares no username field |
| AccountSerializers.VerifyOtp | account/serializers.py:239-249 | invalid exactly when no row has that unexpired OTP; a single match is accepted exactly when unverified, otherwise already verified; several matches exactly when more than one row matches |
| AccountSerializers.VerifiedAccount | account/serializers.py:254-258 | verified, OTP and expiry cleared, email, username and profile untouched |
| AccountSerializers.OtpIsSingleUse | account/serializers.py:239-258 | after the save the same code no longer verifies that user |
| AccountSerializers.SignupThenVerify | account/serializers.py:214-258 | a fresh sign-up with an unshared OTP verifies until it expires; a second attempt is refused |

## Left out

- Signature verification (`stripe.Webhook.construct_event`) is a foreign library. It becomes an oracle verdict: `None` when the payload or signature is refused, otherwise the event.
- Every processor request (`stripe.Customer/Product/Price/checkout.Session`) is network I/O. Each becomes an entry in a request log answered by a scripted reply. The API key and the `success_url`/`cancel_url` settings are not modelled.
- `timezone.now()` is a parameter: an integer timestamp in the views and a civil instant in the webhook. Time zones and clock drift are not modelled.
- ORM atomicity, transactions, the uniqueness constraint on the checkout session id, and concurrent requests are the database's business. The model is one sequential store keyed by user, so a save that would violate uniqueness is not modelled.
- DRF's generic field handling is not modelled: types, `required`, `max_length`, `ChoiceField` children, email format, `partial` updates, and `CharField`'s default `trim_whitespace`. Only the serializers' own validators and the declared `min_length` of 6 are.
- `AccountSerializers.ValidateSignup`: the passwords are checked as submitted. DRF's `CharField` strips surrounding whitespace before `min_length` and the match are checked, so `" 12345 "` is refused by the serializer but accepted by the model.
- Logging and the response envelopes (`ResponseHandler`, `HttpResponse`) are reduced to the kind of response. Messages and response data are not modelled; the purchase's checkout URL is the exception.
- The plan list and detail views (subscription/views.py:22-57) are read-only queries with no lifecycle logic.
- `SubscriptionSerializers.RenderSpec`: the nested plan body, the two audit timestamps and the plan's `details` JSON field are not rendered. The plan appears by id.
- `StripeWebhook.Route`: only plain ASCII decimal digit strings are read as ids. Django's integer lookup goes through Python's `int()`, which also accepts a sign, surrounding whitespace, underscores between digits (`"1_2"` is 12) and non-ASCII Unicode decimal digits; the model ignores events whose ids are written in those forms.
- `AccountSerializers.VerifyOtp`: several rows matching the same OTP make `get` raise an error the serializer does not catch. It is modelled as the outcome `MultipleMatches`; the resulting HTTP error is not.
- The commented-out refund code (subscription/views.py:234-242) is inert.
- The decimal column bound (`max_digits=10`) on plan amounts is not modelled; amounts are unbounded integers of hundredths.
- Foreign helpers are not modelled: password hashing, OTP and expiry generation, username generation, email sending, image validation and token generation. Their results, where used, are parameters.
- A user's full name (`get_full_name`) is a given string parameter.
- account/views.py is not part of this model. It holds HTTP views that delegate to the serializers.
- The notification app, the account signals, the URL routing, the admin configuration, the management command and the commented-out chat app are not part of this model. They are CRUD, configuration or inert code.
- The remaining account serializers after line 262 (resend OTP, login, password reset, listings) are not part of this model.

## Findings

| source | as written | input that shows it | evidently intended | confidence | as-written member | corrected member |
|---|---|---|---|---|---|---|
| subscription/views.py:323 | the idempotency gate compares only the session id, which the purchase already saved at lines 180-181 | an ordinary purchase that returned a checkout URL, followed by the paid completion event of that same session | treat the event as a duplicate only when the row is already active for that session | not executed | Lifecycle.PurchaseThenWebhookAsWrittenIsDuplicate | Lifecycle.PurchaseThenWebhookActivates |
| subscription/views.py:334 | assigns to `is_active`, a read-only property (subscription/models.py:72), which raises before `save`; the handler catches it at line 348 and answers 200 | any completed, paid, correlated event that passes the gate and whose end date exists | save plan, status, period and the event's ids in one write, with no assignment to the property and without `"is_active"` in the `update_fields` list at line 341, which `save` would refuse as not a concrete field | not executed | StripeWebhook.AsWrittenFailsAfterGate | StripeWebhook.ActivationWindow |
