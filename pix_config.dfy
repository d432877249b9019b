/**
 * Subscription plans and their prices for Pix payments: monthly and annual
 * prices in reais, the same prices in centavos, and the length of a billing
 * period.
 */
module PixConfig {
  import opened Wrappers
  import Pix
  import Strings

  datatype Plan = Basico | Avancado | Profissional

  datatype Period = Monthly | Annual

  /** The receiving key, name and city of the subscription Pix code. */
  const ConfigPixKey: string := "07632364978"
  const ConfigMerchantName: string := "Cola Ai"
  const ConfigMerchantCity: string := "Guaratuba"

  /** `PLAN_PRICES`, in reais. */
  function MonthlyPrice(plan: Plan): nat
  {
    match plan
    case Basico => 49
    case Avancado => 79
    case Profissional => 149
  }

  /** `PLAN_PRICES_ANNUAL`, in reais. */
  function AnnualPrice(plan: Plan): nat
  {
    match plan
    case Basico => 490
    case Avancado => 790
    case Profissional => 1490
  }

  /** `PLAN_PRICES_CENTS`, a table of its own. */
  function PriceCents(period: Period, plan: Plan): nat
  {
    match (period, plan)
    case (Monthly, Basico) => 4900
    case (Monthly, Avancado) => 7900
    case (Monthly, Profissional) => 14900
    case (Annual, Basico) => 49000
    case (Annual, Avancado) => 79000
    case (Annual, Profissional) => 149000
  }

  /** `getPlanPrice`; an omitted period means monthly. */
  function GetPlanPrice(plan: Plan, period: Option<Period>): (r: nat)
    ensures period == Some(Annual) ==> r == 10 * MonthlyPrice(plan)
    ensures period != Some(Annual) ==> r == MonthlyPrice(plan)
  {
    if period == Some(Annual) then AnnualPrice(plan) else MonthlyPrice(plan)
  }

  /** `getPlanPriceCents`; an omitted period means monthly. */
  function GetPlanPriceCents(plan: Plan, period: Option<Period>): (r: nat)
    ensures r == 100 * GetPlanPrice(plan, period)
  {
    PriceCents(period.GetOr(Monthly), plan)
  }

  /** `getPeriodDays`. */
  function GetPeriodDays(period: Period): (r: nat)
    ensures r == 365 <==> period == Annual
    ensures period == Monthly ==> r == 30
  {
    if period == Annual then 365 else 30
  }

  /** Every annual price is ten monthly prices (two months free). */
  lemma AnnualIsTenMonths(plan: Plan)
    ensures AnnualPrice(plan) == 10 * MonthlyPrice(plan)
    ensures PriceCents(Annual, plan) == 10 * PriceCents(Monthly, plan)
  {
  }

  /** Dearer plans cost more, in every period. */
  lemma PricesIncreaseWithPlan(period: Option<Period>)
    ensures GetPlanPrice(Basico, period) < GetPlanPrice(Avancado, period) < GetPlanPrice(Profissional, period)
  {
  }

  /** The configured receiving key passes the Pix CPF key check. */
  lemma ConfigKeyIsCpf()
    ensures Pix.ValidatePixKey(ConfigPixKey, "cpf")
  {
    var key := ConfigPixKey;
    assert |key| == 11 && Strings.AllDigits(key);
    Pix.DigitStringCpfKey(key);
  }
}
