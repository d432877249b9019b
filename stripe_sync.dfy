/**
 * Reconciling a customer's Stripe subscription with the local
 * `subscriptions` row: which Stripe subscription is taken, how its status
 * and price become the local status and plan, and what the sync writes.
 */
module StripeSync {
  import opened Wrappers
  import opened Subscription

  // ---------------------------------------------------------------------------
  // Status
  // ---------------------------------------------------------------------------

  /** `mapStripeStatus`. */
  function MapStripeStatus(stripeStatus: string): (r: string)
    ensures stripeStatus !in {"trialing", "canceled", "past_due", "unpaid"} ==> r == stripeStatus
  {
    match stripeStatus
    case "trialing" => "trial"
    case "active" => "active"
    case "canceled" => "cancelled"
    case "cancelled" => "cancelled"
    case "past_due" => "expired"
    case "unpaid" => "expired"
    case _ => stripeStatus
  }

  /** The local status a `status` column value names, if any. */
  function StatusNamed(name: string): (r: Option<Status>)
  {
    match name
    case "active" => Some(Active)
    case "cancelled" => Some(Cancelled)
    case "expired" => Some(Expired)
    case "trial" => Some(Trial)
    case "pending_pix" => Some(PendingPix)
    case _ => None
  }

  /**
   * Each Stripe status the mapping knows becomes a local status: a trial, an
   * active subscription, a cancelled one, or an expired one for an unpaid or
   * overdue subscription.
   */
  lemma KnownStatusesMapToLocal()
    ensures StatusNamed(MapStripeStatus("trialing")) == Some(Trial)
    ensures StatusNamed(MapStripeStatus("active")) == Some(Active)
    ensures StatusNamed(MapStripeStatus("canceled")) == Some(Cancelled)
    ensures StatusNamed(MapStripeStatus("cancelled")) == Some(Cancelled)
    ensures StatusNamed(MapStripeStatus("past_due")) == Some(Expired)
    ensures StatusNamed(MapStripeStatus("unpaid")) == Some(Expired)
  {
  }

  /** Mapping an already mapped status changes nothing, so a repeated sync is stable. */
  lemma MapStripeStatusIdempotent(s: string)
    ensures MapStripeStatus(MapStripeStatus(s)) == MapStripeStatus(s)
  {
  }

  // ---------------------------------------------------------------------------
  // Plan
  // ---------------------------------------------------------------------------

  /** The three configured Stripe price ids; an unset variable is `None`. */
  datatype PriceIds = PriceIds(basic: Option<string>, professional: Option<string>, enterprise: Option<string>)

  /** `priceId === process.env.X`: never true for an unset variable. */
  predicate IsPrice(priceId: string, configured: Option<string>)
  {
    configured == Some(priceId)
  }

  /** `getPlanTypeFromPriceId` of the sync route. */
  function PlanTypeFromPriceId(prices: PriceIds, priceId: string): (r: string)
    ensures (!IsPrice(priceId, prices.basic) && !IsPrice(priceId, prices.professional)
             && !IsPrice(priceId, prices.enterprise)) ==> r == "Basico"
  {
    if IsPrice(priceId, prices.basic) then "Basico"
    else if IsPrice(priceId, prices.professional) then "Avançado"
    else if IsPrice(priceId, prices.enterprise) then "Profissional"
    else "Basico"
  }

  /** The plan a `plan_type` column value names, as the plan tables are keyed. */
  function PlanNamed(name: string): (r: Option<Plan>)
  {
    match name
    case "Basico" => Some(Basico)
    case "Avançado" => Some(Avancado)
    case "Profissional" => Some(Profissional)
    case _ => None
  }

  /**
   * Every price id gives a plan the plan tables know; each configured price
   * of its own gives that price's plan, and any other price the basic plan.
   */
  lemma PlanTypeIsKnown(prices: PriceIds, priceId: string)
    ensures PlanNamed(PlanTypeFromPriceId(prices, priceId)).Some?
    ensures IsPrice(priceId, prices.professional) && !IsPrice(priceId, prices.basic) ==>
      PlanNamed(PlanTypeFromPriceId(prices, priceId)) == Some(Avancado)
    ensures (IsPrice(priceId, prices.enterprise) && !IsPrice(priceId, prices.basic)
             && !IsPrice(priceId, prices.professional)) ==>
      PlanNamed(PlanTypeFromPriceId(prices, priceId)) == Some(Profissional)
  {
  }

  /** `getPlanTypeFromPriceId` of the webhook route as written: its mid plan name is mis-encoded. */
  function WebhookPlanTypeAsWritten(prices: PriceIds, priceId: string): (r: string)
    ensures r in {"Basico", "Avan\U{C3}\U{A7}ado", "Profissional"}
  {
    if IsPrice(priceId, prices.basic) then "Basico"
    else if IsPrice(priceId, prices.professional) then "Avan\U{C3}\U{A7}ado"
    else if IsPrice(priceId, prices.enterprise) then "Profissional"
    else "Basico"
  }

  /**
   * For the professional price the webhook writes a plan name the plan
   * tables do not have, while the sync route writes the right one.
   */
  lemma WebhookProfessionalPlanUnknown()
    ensures var prices := PriceIds(Some("price_basic"), Some("price_pro"), Some("price_ent"));
      PlanNamed(WebhookPlanTypeAsWritten(prices, "price_pro")).None?
      && PlanNamed(PlanTypeFromPriceId(prices, "price_pro")) == Some(Avancado)
  {
  }

  /** The two routes agree on every price id but the professional one. */
  lemma WebhookAgreesElsewhere(prices: PriceIds, priceId: string)
    requires IsPrice(priceId, prices.basic) || !IsPrice(priceId, prices.professional)
    ensures WebhookPlanTypeAsWritten(prices, priceId) == PlanTypeFromPriceId(prices, priceId)
  {
  }

  // ---------------------------------------------------------------------------
  // Choosing the subscription
  // ---------------------------------------------------------------------------

  /** A subscription as the Stripe list returns it; `priceId` is its first item's price. */
  datatype StripeSub = StripeSub(id: string, status: string, priceId: string)

  /** `data.find(s => s.status === st)`, as an index. */
  function FindStatus(subs: seq<StripeSub>, st: string): (r: Option<nat>)
    ensures r.Some? ==> (r.value < |subs| && subs[r.value].status == st
                         && forall j :: 0 <= j < r.value ==> subs[j].status != st)
    ensures r.None? ==> forall j :: 0 <= j < |subs| ==> subs[j].status != st
  {
    if subs == [] then None
    else if subs[0].status == st then Some(0)
    else
      var rest := FindStatus(subs[1..], st);
      if rest.Some? then Some(rest.value + 1) else None
  }

  /** The subscription the sync takes: the first active, else the first trialing, else the newest. */
  function ChooseSubscription(subs: seq<StripeSub>): (r: Option<StripeSub>)
    ensures r.None? <==> subs == []
    ensures r.Some? ==> r.value in subs
    ensures r.Some? && r.value.status != "active" ==> forall j :: 0 <= j < |subs| ==> subs[j].status != "active"
  {
    var active := FindStatus(subs, "active");
    if active.Some? then Some(subs[active.value])
    else
      var trialing := FindStatus(subs, "trialing");
      if trialing.Some? then Some(subs[trialing.value])
      else if |subs| > 0 then Some(subs[0])
      else None
  }

  /**
   * Nothing is chosen only from an empty list; an active subscription, when
   * there is one, wins over every other, the first of them in list order;
   * without one, the first trialing subscription; otherwise the first listed.
   */
  lemma ChoicePriority(subs: seq<StripeSub>)
    ensures ChooseSubscription(subs).None? <==> subs == []
    ensures ChooseSubscription(subs).Some? ==> ChooseSubscription(subs).value in subs
    ensures (exists i :: 0 <= i < |subs| && subs[i].status == "active") ==>
      (exists i :: 0 <= i < |subs| && ChooseSubscription(subs) == Some(subs[i]) && subs[i].status == "active"
         && forall j :: 0 <= j < i ==> subs[j].status != "active")
    ensures ((forall i :: 0 <= i < |subs| ==> subs[i].status != "active")
             && (exists i :: 0 <= i < |subs| && subs[i].status == "trialing")) ==>
      (exists i :: 0 <= i < |subs| && ChooseSubscription(subs) == Some(subs[i]) && subs[i].status == "trialing"
         && forall j :: 0 <= j < i ==> subs[j].status != "trialing")
    ensures ((forall i :: 0 <= i < |subs| ==> subs[i].status != "active" && subs[i].status != "trialing")
             && subs != []) ==> ChooseSubscription(subs) == Some(subs[0])
  {
    var active := FindStatus(subs, "active");
    var trialing := FindStatus(subs, "trialing");
    if active.Some? {
      assert subs[active.value].status == "active";
    } else if trialing.Some? {
      assert subs[trialing.value].status == "trialing";
    }
  }

  // ---------------------------------------------------------------------------
  // The sync request
  // ---------------------------------------------------------------------------

  /** The `subscriptions` row the sync upserts, keyed by user. */
  datatype SyncRow = SyncRow(
    userId: string,
    customerId: string,
    subscriptionId: string,
    priceId: string,
    status: string,
    planType: string)

  datatype SyncOutcome =
    | Unauthorized
    | NoCustomer
    | NoSubscriptions
    | Upsert(row: SyncRow)

  /** `!value`: a missing or empty id. */
  predicate Falsy(value: Option<string>)
  {
    value.None? || value.value == []
  }

  /**
   * `POST` of the sync route. `localCustomerId` is the stored Stripe customer
   * id; `emailCustomerId` is the first customer Stripe lists for the user's
   * email; `subs` is the customer's subscription list.
   */
  function Sync(
    userId: Option<string>, localCustomerId: Option<string>, emailCustomerId: Option<string>,
    subs: seq<StripeSub>, prices: PriceIds): (o: SyncOutcome)
    ensures userId.None? <==> o == Unauthorized
    ensures o.Upsert? ==> subs != [] && o.row.userId == userId.value && o.row.customerId != []
  {
    if userId.None? then Unauthorized
    else
      var customer := if Falsy(localCustomerId) then emailCustomerId else localCustomerId;
      if Falsy(customer) then NoCustomer
      else
        var chosen := ChooseSubscription(subs);
        if chosen.None? then NoSubscriptions
        else
          var s := chosen.value;
          Upsert(SyncRow(userId.value, customer.value, s.id, s.priceId,
                         MapStripeStatus(s.status), PlanTypeFromPriceId(prices, s.priceId)))
  }

  /**
   * The sync writes a row exactly when there is a user, a customer id and a
   * subscription; the row is the chosen subscription's, with its mapped
   * status and a plan the plan tables know. A stored customer id is used
   * before the email lookup.
   */
  lemma SyncWrites(
    userId: Option<string>, localCustomerId: Option<string>, emailCustomerId: Option<string>,
    subs: seq<StripeSub>, prices: PriceIds)
    ensures var o := Sync(userId, localCustomerId, emailCustomerId, subs, prices);
      o.Upsert? <==> userId.Some? && !(Falsy(localCustomerId) && Falsy(emailCustomerId)) && subs != []
    ensures var o := Sync(userId, localCustomerId, emailCustomerId, subs, prices);
      o.Upsert? ==>
        ChooseSubscription(subs).Some?
        && o.row.subscriptionId == ChooseSubscription(subs).value.id
        && o.row.status == MapStripeStatus(ChooseSubscription(subs).value.status)
        && PlanNamed(o.row.planType).Some?
        && o.row.customerId == (if Falsy(localCustomerId) then emailCustomerId else localCustomerId).value
  {
    ChoicePriority(subs);
    var o := Sync(userId, localCustomerId, emailCustomerId, subs, prices);
    if o.Upsert? {
      PlanTypeIsKnown(prices, ChooseSubscription(subs).value.priceId);
    }
  }
}
