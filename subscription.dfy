/**
 * Plan gating: what each plan unlocks and how much of each resource it
 * allows, and whether a subscription's state blocks the app.
 *
 * Dates enter as millisecond timestamps; `now` stands for `new Date()` and
 * `Date.now()`. A missing or empty date string is `None`.
 */
module Subscription {
  import opened Wrappers

  datatype Plan = Basico | Avancado | Profissional

  datatype Status = Active | Cancelled | Expired | Trial | PendingPix

  datatype Sub = Sub(planType: Plan, status: Status, trialEndsAt: Option<int>, currentPeriodEnd: Option<int>)

  datatype Feature =
    | Dashboard | Orders | Products | Categories | Kitchen | Deliveries | Inventory | Loyalty | Coupons
    | Reports | ExportPdf | SalesPrediction | DigitalMenu | Customization | Bills | CashFlow | Addons | ActionHistory

  /** A table cell: a flag, or a level name such as 'basic', 'advanced' or 'full'. */
  datatype FeatureValue = Flag(on: bool) | Level(name: string)

  datatype Resource = ProductsLimit | CategoriesLimit | EmployeesLimit | AddonsLimit

  /** A resource limit: a count, or `Infinity`. */
  datatype Limit = Finite(n: nat) | Unlimited

  /** The plans from cheapest to dearest. */
  function Rank(p: Plan): nat
  {
    match p
    case Basico => 0
    case Avancado => 1
    case Profissional => 2
  }

  /** `PLAN_LIMITS`. */
  function PlanLimit(p: Plan, r: Resource): Limit
  {
    match p
    case Basico =>
      (match r
       case ProductsLimit => Finite(25)
       case CategoriesLimit => Finite(5)
       case EmployeesLimit => Finite(1)
       case AddonsLimit => Finite(5))
    case Avancado =>
      (match r
       case ProductsLimit => Finite(100)
       case CategoriesLimit => Finite(15)
       case EmployeesLimit => Finite(5)
       case AddonsLimit => Unlimited)
    case Profissional => Unlimited
  }

  /** `PLAN_FEATURES`. */
  function PlanFeature(p: Plan, f: Feature): FeatureValue
  {
    match f
    case Dashboard => Flag(true)
    case Orders => Flag(true)
    case Products => Flag(true)
    case Categories => Flag(true)
    case Kitchen => Flag(p != Basico)
    case Deliveries => Flag(p != Basico)
    case Inventory => Flag(p != Basico)
    case Loyalty => Flag(p != Basico)
    case Coupons => Flag(p == Profissional)
    case Reports => (match p case Basico => Flag(false) case Avancado => Level("advanced") case Profissional => Level("full"))
    case ExportPdf => Flag(p != Basico)
    case SalesPrediction => Flag(p == Profissional)
    case DigitalMenu => Flag(p != Basico)
    case Customization => if p == Basico then Level("basic") else Level("full")
    case Bills => Flag(p != Basico)
    case CashFlow => Flag(p != Basico)
    case Addons => Flag(true)
    case ActionHistory => Flag(p != Basico)
  }

  /** What `canAccess` accepts from a cell: `true`, or a level other than 'none'. */
  predicate Grants(v: FeatureValue)
  {
    v == Flag(true) || (v.Level? && v.name != "none")
  }

  /** JavaScript truthiness of a cell, which `getMinimumPlanForFeature` tests. */
  predicate Truthy(v: FeatureValue)
  {
    match v
    case Flag(b) => b
    case Level(name) => name != ""
  }

  // ------------------------------------------------------- derived state

  /** `plan`: the subscription's plan, or 'Basico' without one. */
  function CurrentPlan(sub: Option<Sub>): (p: Plan)
    ensures sub.None? ==> p == Basico
    ensures sub.Some? ==> p == sub.value.planType
  {
    if sub.Some? then sub.value.planType else Basico
  }

  /** `isTrialExpired`: a trial whose end date has passed. */
  predicate IsTrialExpired(sub: Option<Sub>, now: int)
  {
    sub.Some? && sub.value.status == Trial && sub.value.trialEndsAt.Some? && sub.value.trialEndsAt.value < now
  }

  /** `isSubscriptionExpired`: a period end in the past, unless the subscription is active or a trial. */
  predicate IsSubscriptionExpired(sub: Option<Sub>, now: int)
  {
    sub.Some? && sub.value.currentPeriodEnd.Some? && sub.value.currentPeriodEnd.value < now
    && sub.value.status != Active && sub.value.status != Trial
  }

  const DayMs := 1000 * 60 * 60 * 24

  /** `Math.max(0, Math.ceil((t - now) / DayMs))`: whole days left, counting a started day as a whole one. */
  function DaysLeft(t: int, now: int): (days: nat)
    ensures t <= now ==> days == 0
    ensures t > now ==> (days - 1) * DayMs < t - now <= days * DayMs
  {
    if t <= now then 0 else (t - now + DayMs - 1) / DayMs
  }

  /** `daysLeftInTrial`. */
  function DaysLeftInTrial(sub: Option<Sub>, now: int): nat
  {
    if sub.Some? && sub.value.status == Trial && sub.value.trialEndsAt.Some? then DaysLeft(sub.value.trialEndsAt.value, now) else 0
  }

  /** `daysUntilExpiration`. */
  function DaysUntilExpiration(sub: Option<Sub>, now: int): nat
  {
    if sub.Some? && sub.value.currentPeriodEnd.Some? then DaysLeft(sub.value.currentPeriodEnd.value, now) else 0
  }

  /** `isBlocked`. */
  function IsBlocked(sub: Option<Sub>, loading: bool, now: int): (blocked: bool)
    ensures sub.Some? && sub.value.status in {Expired, Cancelled, PendingPix} ==> blocked
    ensures sub.None? ==> (blocked <==> !loading)
    ensures sub.Some? && sub.value.status == Active ==> !blocked
    ensures IsTrialExpired(sub, now) ==> blocked
  {
    IsTrialExpired(sub, now) || IsSubscriptionExpired(sub, now)
    || (sub.Some? && sub.value.status in {Expired, Cancelled, PendingPix})
    || (sub.None? && !loading)
  }

  /** A live subscription is never "expired" by its period end; a trial is blocked only once its trial end passes. */
  lemma ActiveOrTrialNeverPeriodExpired(sub: Sub, loading: bool, now: int)
    requires sub.status == Active || sub.status == Trial
    ensures !IsSubscriptionExpired(Some(sub), now)
    ensures sub.status == Trial ==> (IsBlocked(Some(sub), loading, now) <==> IsTrialExpired(Some(sub), now))
  {
  }

  // ----------------------------------------------------------- decisions

  /** `canAccess`. */
  function CanAccess(sub: Option<Sub>, now: int, f: Feature): (ok: bool)
    ensures IsTrialExpired(sub, now) ==> !ok
    ensures !IsTrialExpired(sub, now) ==> (ok <==> Grants(PlanFeature(CurrentPlan(sub), f)))
  {
    if IsTrialExpired(sub, now) then false
    else
      var v := PlanFeature(CurrentPlan(sub), f);
      v == Flag(true) || (v.Level? && v.name != "none")
  }

  /** `getFeatureValue`: `false` once the trial is over. */
  function GetFeatureValue(sub: Option<Sub>, now: int, f: Feature): (v: FeatureValue)
    ensures IsTrialExpired(sub, now) ==> v == Flag(false)
    ensures !IsTrialExpired(sub, now) ==> v == PlanFeature(CurrentPlan(sub), f)
    ensures CanAccess(sub, now, f) <==> Grants(v)
  {
    if IsTrialExpired(sub, now) then Flag(false) else PlanFeature(CurrentPlan(sub), f)
  }

  /** `isWithinLimit`. */
  function IsWithinLimit(sub: Option<Sub>, now: int, r: Resource, currentCount: int): (ok: bool)
    ensures IsTrialExpired(sub, now) ==> !ok
    ensures !IsTrialExpired(sub, now) ==>
      (ok <==> PlanLimit(CurrentPlan(sub), r).Unlimited? || currentCount < PlanLimit(CurrentPlan(sub), r).n)
  {
    if IsTrialExpired(sub, now) then false
    else
      match PlanLimit(CurrentPlan(sub), r)
      case Unlimited => true
      case Finite(limit) => currentCount < limit
  }

  /** `getRemainingLimit`: no trial check here. */
  function GetRemainingLimit(sub: Option<Sub>, r: Resource, currentCount: int): (rest: Limit)
    ensures PlanLimit(CurrentPlan(sub), r).Unlimited? <==> rest.Unlimited?
    ensures rest.Finite? && currentCount >= 0 ==> rest.n <= PlanLimit(CurrentPlan(sub), r).n
    ensures rest.Finite? && currentCount <= PlanLimit(CurrentPlan(sub), r).n ==>
      currentCount + rest.n == PlanLimit(CurrentPlan(sub), r).n
    ensures rest.Finite? && currentCount >= PlanLimit(CurrentPlan(sub), r).n ==> rest.n == 0
  {
    match PlanLimit(CurrentPlan(sub), r)
    case Unlimited => Unlimited
    case Finite(limit) => if limit - currentCount > 0 then Finite(limit - currentCount) else Finite(0)
  }

  /** Something is left exactly when one more is within the limit, while the trial runs. */
  lemma RemainingAgreesWithLimit(sub: Option<Sub>, now: int, r: Resource, currentCount: int)
    requires !IsTrialExpired(sub, now)
    ensures IsWithinLimit(sub, now, r, currentCount) <==>
      (GetRemainingLimit(sub, r, currentCount).Unlimited? || GetRemainingLimit(sub, r, currentCount).n > 0)
  {
  }

  // ------------------------------------------------------------- tables

  predicate LimitAtMost(a: Limit, b: Limit)
  {
    b.Unlimited? || (a.Finite? && a.n <= b.n)
  }

  /** A dearer plan grants every feature a cheaper one does, and allows at least as much of every resource. */
  lemma PlansMonotone(p: Plan, q: Plan, f: Feature, r: Resource)
    requires Rank(p) <= Rank(q)
    ensures Grants(PlanFeature(p, f)) ==> Grants(PlanFeature(q, f))
    ensures Truthy(PlanFeature(p, f)) ==> Truthy(PlanFeature(q, f))
    ensures LimitAtMost(PlanLimit(p, r), PlanLimit(q, r))
  {
  }

  /** Profissional grants everything without limits. */
  lemma TopPlanGrantsAll(f: Feature, r: Resource)
    ensures Grants(PlanFeature(Profissional, f)) && PlanLimit(Profissional, r).Unlimited?
  {
  }

  /** `getMinimumPlanForFeature`: the first plan, cheapest first, whose cell is truthy. */
  function MinimumPlanForFeature(f: Feature): (p: Plan)
    ensures Truthy(PlanFeature(p, f))
    ensures forall q :: Rank(q) < Rank(p) ==> !Truthy(PlanFeature(q, f))
  {
    if Truthy(PlanFeature(Basico, f)) then Basico
    else if Truthy(PlanFeature(Avancado, f)) then Avancado
    else Profissional
  }

  /** A plan can use a feature exactly when it is at least the feature's minimum plan. */
  lemma MinimumPlanIsThreshold(f: Feature, q: Plan)
    ensures Grants(PlanFeature(q, f)) <==> Rank(MinimumPlanForFeature(f)) <= Rank(q)
  {
    var p := MinimumPlanForFeature(f);
    if Rank(p) <= Rank(q) {
      PlansMonotone(p, q, f, ProductsLimit);
    }
  }
}
