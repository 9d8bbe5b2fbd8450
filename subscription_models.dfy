/**
 * The `subscription` app's two models: a plan of the catalogue and the
 * per-user subscription row with its three states and lazy expiry.
 * Times are integer timestamps (`Calendar.Ticks`); `now` is always a parameter.
 */
module SubscriptionModels {
  import opened Wrappers

  /** A plan row. `amount` is the decimal price with two places, held as an integer number of hundredths. */
  datatype Plan = Plan(
    id: nat,
    planType: string,
    name: string,
    description: string,
    amount: int,
    durationMonths: int,
    productId: Option<string>,
    priceId: Option<string>,
    currency: string,
    active: bool)

  /** `int(x)`: truncation toward zero of a quotient, as Python's `int` does for a Decimal. */
  function TruncDiv(a: int, b: int): int
    requires b > 0
  {
    if a >= 0 then a / b else -((-a) / b)
  }

  /**
   * `price_in_cents`: `int(amount * 100)`. The product `amount * 100` is the
   * decimal whose hundredths are `amount * 100`, and `int` drops its fraction.
   */
  function PriceInCents(amount: int): (cents: int)
    ensures cents == amount
    ensures cents > 0 <==> amount > 0
  {
    TruncDiv(amount * 100, 100)
  }

  datatype Status = Inactive | Active | Canceled

  /** The stored columns of one `UserSubscription` row. */
  datatype Record = Record(
    user: nat,
    plan: Option<nat>,
    status: Status,
    customerId: Option<string>,
    sessionId: Option<string>,
    paymentIntentId: Option<string>,
    start: Option<int>,
    end: Option<int>)

  /** The row `get_or_create` inserts: every column at its default. */
  function NewRecord(user: nat): (r: Record)
    ensures r.user == user && r.status == Inactive
    ensures r.plan.None? && r.customerId.None? && r.sessionId.None? && r.paymentIntentId.None?
    ensures r.start.None? && r.end.None?
  {
    Record(user, None, Inactive, None, None, None, None, None)
  }

  /** The answer the `is_active` property gives at time `now`. */
  predicate IsActiveAt(r: Record, now: int)
  {
    r.status == Active && !(r.end.Some? && now > r.end.value)
  }

  /** An active row whose end has passed: the case in which reading `is_active` writes. */
  predicate ExpiredAt(r: Record, now: int)
  {
    r.status == Active && r.end.Some? && now > r.end.value
  }

  /** The row after `is_active` was read at `now`: an expired active row is saved as inactive. */
  function AfterRead(r: Record, now: int): (r': Record)
    ensures ExpiredAt(r, now) ==> r'.status == Inactive
    ensures !ExpiredAt(r, now) ==> r' == r
    ensures r' == r.(status := r'.status)
  {
    if ExpiredAt(r, now) then r.(status := Inactive) else r
  }

  /** `activate(start, end)`: active from `start or now`, until `end`. */
  function AfterActivate(r: Record, start: Option<int>, end: Option<int>, now: int): (r': Record)
    ensures r'.status == Active && r'.end == end
    ensures r'.start == Some(if start.Some? then start.value else now)
    ensures r' == r.(status := Active, start := r'.start, end := end)
  {
    r.(status := Active, start := Some(if start.Some? then start.value else now), end := end)
  }

  /** `cancel()`: canceled, ending now. */
  function AfterCancel(r: Record, now: int): (r': Record)
    ensures r'.status == Canceled && r'.end == Some(now)
    ensures r' == r.(status := Canceled, end := Some(now))
  {
    r.(status := Canceled, end := Some(now))
  }

  /** A row that is not active reads as inactive and the read writes nothing. */
  lemma NotActiveReadsFalse(r: Record, now: int)
    requires r.status != Active
    ensures !IsActiveAt(r, now) && AfterRead(r, now) == r
  {
  }

  /**
   * Once an active row is read past its end it is stored as inactive; from then
   * on every read, at any time, answers false and writes nothing more.
   */
  lemma ExpiryIsPersistedOnce(r: Record, now: int, later: int)
    requires ExpiredAt(r, now)
    ensures !IsActiveAt(r, now)
    ensures AfterRead(r, now).status == Inactive
    ensures !IsActiveAt(AfterRead(r, now), later)
    ensures AfterRead(AfterRead(r, now), later) == AfterRead(r, now)
  {
  }

  /** An active row with no end, or not yet past it, reads as active and is not written; `now == end` still counts. */
  lemma ActiveUntilEnd(r: Record, now: int)
    requires r.status == Active && (r.end.None? || now <= r.end.value)
    ensures IsActiveAt(r, now) && AfterRead(r, now) == r
  {
  }

  /** Reading twice is reading once, and the read does not change its own answer. */
  lemma ReadIsIdempotent(r: Record, now: int)
    ensures AfterRead(AfterRead(r, now), now) == AfterRead(r, now)
    ensures IsActiveAt(AfterRead(r, now), now) == IsActiveAt(r, now)
  {
  }

  /** A row active at some time was active at every earlier time. */
  lemma ActiveIsDownwardClosed(r: Record, earlier: int, now: int)
    requires earlier <= now && IsActiveAt(r, now)
    ensures IsActiveAt(r, earlier)
  {
  }

  /** After `cancel()` the row reads inactive at every time. */
  lemma CancelEndsAccess(r: Record, now: int, t: int)
    ensures !IsActiveAt(AfterCancel(r, now), t)
  {
  }

  /** After `activate(start, None)` the row reads active at every time; with an end, exactly up to that end. */
  lemma ActivatedWindow(r: Record, start: Option<int>, end: Option<int>, now: int, t: int)
    ensures IsActiveAt(AfterActivate(r, start, end, now), t) <==> (end.None? || t <= end.value)
  {
  }

  /** One `UserSubscription` row; `is_active`, `activate` and `cancel` update it in place. */
  class UserSubscription {
    const user: nat
    var plan: Option<nat>
    var status: Status
    var customerId: Option<string>
    var sessionId: Option<string>
    var paymentIntentId: Option<string>
    var start: Option<int>
    var end: Option<int>

    function Snapshot(): Record
      reads this
    {
      Record(user, plan, status, customerId, sessionId, paymentIntentId, start, end)
    }

    constructor (user: nat)
      ensures Snapshot() == NewRecord(user)
    {
      this.user := user;
      plan, status := None, Inactive;
      customerId, sessionId, paymentIntentId := None, None, None;
      start, end := None, None;
    }

    /** The `is_active` property: a read that saves the expiry it observes. */
    method IsActive(now: int) returns (active: bool)
      modifies this
      ensures active == IsActiveAt(old(Snapshot()), now)
      ensures Snapshot() == AfterRead(old(Snapshot()), now)
    {
      if status != Active {
        return false;
      }
      if end.Some? && now > end.value {
        status := Inactive;
        return false;
      }
      return true;
    }

    method Activate(startArg: Option<int>, endArg: Option<int>, now: int)
      modifies this
      ensures Snapshot() == AfterActivate(old(Snapshot()), startArg, endArg, now)
    {
      status := Active;
      start := Some(if startArg.Some? then startArg.value else now);
      end := endArg;
    }

    method Cancel(now: int)
      modifies this
      ensures Snapshot() == AfterCancel(old(Snapshot()), now)
    {
      status := Canceled;
      end := Some(now);
    }
  }

  /** `get_or_create(user=u)` on the rows as values. */
  function WithRow(m: map<nat, Record>, u: nat): (m': map<nat, Record>)
    ensures m'.Keys == m.Keys + {u}
    ensures m'[u] == if u in m then m[u] else NewRecord(u)
    ensures forall v | v in m :: m'[v] == m[v]
  {
    if u in m then m else m[u := NewRecord(u)]
  }

  /** The `UserSubscription` table: at most one row per user, keyed by the user. */
  class SubscriptionTable {
    var rows: map<nat, UserSubscription>

    ghost predicate Valid()
      reads this, rows.Values
    {
      forall u | u in rows :: rows[u].user == u
    }

    function Abstract(): map<nat, Record>
      reads this, rows.Values
    {
      map u | u in rows :: rows[u].Snapshot()
    }

    constructor ()
      ensures Valid() && rows == map[]
    {
      rows := map[];
    }

    /** Rows belong to distinct users, so changing one row object leaves every other row as it was. */
    twostate lemma OneRowChanged(u: nat)
      requires old(Valid()) && u in old(rows) && rows == old(rows)
      requires forall v | v in rows && v != u :: unchanged(rows[v])
      ensures Valid()
      ensures Abstract() == old(Abstract())[u := rows[u].Snapshot()]
    {
    }

    method GetOrCreate(u: nat) returns (s: UserSubscription)
      requires Valid()
      modifies this
      ensures Valid()
      ensures u in rows && s == rows[u]
      ensures Abstract() == WithRow(old(Abstract()), u)
      ensures u in old(rows) ==> rows == old(rows)
      ensures u !in old(rows) ==> fresh(s) && rows == old(rows)[u := s]
    {
      if u in rows {
        s := rows[u];
      } else {
        s := new UserSubscription(u);
        rows := rows[u := s];
      }
    }
  }

  /** The plan table as a value: its rows by id and the next id the database will assign. */
  datatype PlanStore = PlanStore(rows: map<nat, Plan>, nextId: nat)

  /** Every row is stored under its own id, and every id in use is below the next one to be assigned. */
  predicate Wellformed(s: PlanStore)
  {
    forall k | k in s.rows :: k < s.nextId && s.rows[k].id == k
  }

  /** The `SubscriptionPlan` table. */
  class PlanTable {
    var rows: map<nat, Plan>
    var nextId: nat

    function State(): PlanStore
      reads this
    {
      PlanStore(rows, nextId)
    }

    ghost predicate Valid()
      reads this
    {
      Wellformed(State())
    }

    constructor ()
      ensures Valid() && State() == PlanStore(map[], 1)
    {
      rows, nextId := map[], 1;
    }
  }
}
