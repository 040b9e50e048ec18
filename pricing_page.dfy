/**
  The pricing page: the published `plan_features` rows formatted as pricing
  cards, the buttons relabelled against the user's current tier, and the
  checkout request a subscription starts.

  The queries and the checkout endpoint are inputs; the page's `setPlans`
  and `setUserSettings` only store what these functions compute.
 */
module PricingPage {
  import opened Wrappers
  import opened JsText
  import opened Pricing

  /** A `plan_features` row; `features` is `None` when the stored value is not an array. */
  datatype PlanFeature = PlanFeature(planTier: string, monthlyPriceUsd: nat, features: Option<seq<string>>, description: string)

  /**
    A plan on the page: the card fields plus the tier, whether the button is
    disabled, and the tier a click subscribes to (the `onClick` handler), if any.
   */
  datatype PagePlan = PagePlan(card: PricingPlan, planTier: string, buttonDisabled: bool, subscribeTo: Option<string>)

  /** `tier.charAt(0).toUpperCase() + tier.slice(1)` */
  function Capitalize(tier: string): (name: string)
    ensures |name| == |tier|
    ensures tier != [] ==> name[0] == UpperChar(tier[0]) && name[1..] == tier[1..]
  {
    if tier == [] then [] else [UpperChar(tier[0])] + tier[1..]
  }

  /** The button wording of a tier's card. */
  function TierButtonText(tier: string): string {
    if tier == "free" then "Get Started" else if tier == "enterprise" then "Contact Sales" else "Upgrade"
  }

  /** Where a tier's card links. */
  function TierHref(tier: string): string {
    if tier == "free" then "/auth/register" else if tier == "enterprise" then "/contact" else "#"
  }

  /**
    A row formatted for the pricing component: the capitalised tier as the
    name, the monthly price and ten times it as the yearly price, billed by the
    month, no features unless an array is stored, and the button by tier.
   */
  function FormatPlan(row: PlanFeature): (plan: PagePlan)
    ensures plan.card.name == Capitalize(row.planTier)
    ensures plan.card.price == NatToDecimal(row.monthlyPriceUsd)
    ensures plan.card.yearlyPrice == NatToDecimal(10 * row.monthlyPriceUsd)
    ensures plan.card.period == "month"
    ensures plan.card.features == if row.features.Some? then row.features.value else []
    ensures plan.card.description == row.description
    ensures row.planTier == "free" ==> plan.card.buttonText == "Get Started" && plan.card.href == "/auth/register"
    ensures row.planTier == "enterprise" ==> plan.card.buttonText == "Contact Sales" && plan.card.href == "/contact"
    ensures row.planTier != "free" && row.planTier != "enterprise" ==> plan.card.buttonText == "Upgrade" && plan.card.href == "#"
    ensures plan.card.isPopular <==> row.planTier == "professional"
    ensures plan.planTier == row.planTier && !plan.buttonDisabled && plan.subscribeTo.None?
  {
    var card := PricingPlan(
      Capitalize(row.planTier),
      NatToDecimal(row.monthlyPriceUsd),
      NatToDecimal(row.monthlyPriceUsd * 10),
      "month",
      if row.features.Some? then row.features.value else [],
      row.description,
      TierButtonText(row.planTier),
      TierHref(row.planTier),
      row.planTier == "professional");
    PagePlan(card, row.planTier, false, None)
  }

  /** The yearly price reads back as ten times the monthly price ("2 months free"). */
  lemma YearlyIsTenMonths(row: PlanFeature)
    ensures DigitsValue(FormatPlan(row).card.yearlyPrice, 10) == 10 * DigitsValue(FormatPlan(row).card.price, 10)
  {
    DecimalValue(row.monthlyPriceUsd);
    DecimalValue(10 * row.monthlyPriceUsd);
  }

  /** The rows formatted one for one, in order. */
  function FormatPlans(rows: seq<PlanFeature>): (plans: seq<PagePlan>)
    ensures |plans| == |rows|
    ensures forall i :: 0 <= i < |rows| ==> plans[i] == FormatPlan(rows[i])
  {
    seq(|rows|, i requires 0 <= i < |rows| => FormatPlan(rows[i]))
  }

  /** The plans query: the rows (possibly `null`), an error, or an exception. */
  datatype PlansReply = PlansData(rows: Option<seq<PlanFeature>>) | PlansError | PlansThrew

  /** `fetchPlans`: the formatted rows when data came back; otherwise the plans stay as they were. */
  function FetchPlans(reply: PlansReply, before: seq<PagePlan>): (plans: seq<PagePlan>)
    ensures reply.PlansData? && reply.rows.Some? ==> plans == FormatPlans(reply.rows.value)
    ensures !(reply.PlansData? && reply.rows.Some?) ==> plans == before
  {
    if reply.PlansData? && reply.rows.Some? then FormatPlans(reply.rows.value) else before
  }

  /** The part of a `user_settings` row the page reads: `plan_tier`, which may be absent. */
  datatype StoredSettings = StoredSettings(planTier: Option<string>)

  /** The settings query: the row, if any, or an error. */
  datatype SettingsReply = SettingsData(row: Option<StoredSettings>) | SettingsError

  /** `fetchUserSettings`: a signed-in user's row replaces the settings; nothing else changes them. */
  function FetchUserSettings(userId: Option<string>, reply: SettingsReply, before: Option<StoredSettings>): (settings: Option<StoredSettings>)
    ensures userId.Some? && userId.value != [] && reply.SettingsData? && reply.row.Some? ==> settings == reply.row
    ensures !(userId.Some? && userId.value != [] && reply.SettingsData? && reply.row.Some?) ==> settings == before
  {
    if userId.Some? && userId.value != [] && reply.SettingsData? && reply.row.Some? then reply.row else before
  }

  /** `userSettings.plan_tier === plan.planTier` */
  predicate IsCurrent(planTier: string, userTier: Option<string>) {
    userTier == Some(planTier)
  }

  /** The downgrade condition of `getCustomizedPlans`. */
  predicate IsDowngrade(planTier: string, userTier: Option<string>) {
    (planTier == "free" && userTier != Some("free")) || (planTier == "professional" && userTier == Some("enterprise"))
  }

  /** The upgrade condition of `getCustomizedPlans`. */
  predicate IsUpgrade(planTier: string, userTier: Option<string>) {
    (planTier == "professional" && userTier == Some("free")) || (planTier == "enterprise" && userTier != Some("enterprise"))
  }

  /**
    One plan relabelled for the user's tier: "Current Plan" and disabled for
    the matching tier, checked first; then "Downgrade" or "Upgrade" with a
    click that subscribes to the plan's tier; otherwise the plan is unchanged.
    Everything but the button text, the disabled flag and the click stays.
   */
  function Customize(plan: PagePlan, userTier: Option<string>): (r: PagePlan)
    ensures r.card == plan.card.(buttonText := r.card.buttonText) && r.planTier == plan.planTier
    ensures IsCurrent(plan.planTier, userTier) ==>
      r.card.buttonText == "Current Plan" && r.buttonDisabled && r.subscribeTo == plan.subscribeTo
    ensures !IsCurrent(plan.planTier, userTier) && IsDowngrade(plan.planTier, userTier) ==>
      r.card.buttonText == "Downgrade" && r.subscribeTo == Some(plan.planTier) && r.buttonDisabled == plan.buttonDisabled
    ensures !IsCurrent(plan.planTier, userTier) && !IsDowngrade(plan.planTier, userTier) && IsUpgrade(plan.planTier, userTier) ==>
      r.card.buttonText == "Upgrade" && r.subscribeTo == Some(plan.planTier) && r.buttonDisabled == plan.buttonDisabled
    ensures !IsCurrent(plan.planTier, userTier) && !IsDowngrade(plan.planTier, userTier) && !IsUpgrade(plan.planTier, userTier) ==>
      r == plan
  {
    if IsCurrent(plan.planTier, userTier) then
      plan.(card := plan.card.(buttonText := "Current Plan"), buttonDisabled := true)
    else if IsDowngrade(plan.planTier, userTier) then
      plan.(card := plan.card.(buttonText := "Downgrade"), subscribeTo := Some(plan.planTier))
    else if IsUpgrade(plan.planTier, userTier) then
      plan.(card := plan.card.(buttonText := "Upgrade"), subscribeTo := Some(plan.planTier))
    else plan
  }

  /**
    `getCustomizedPlans`: the plans unchanged without settings or plans;
    otherwise each plan relabelled for the user's tier, in the same order.
   */
  function GetCustomizedPlans(settings: Option<StoredSettings>, plans: seq<PagePlan>): (r: seq<PagePlan>)
    ensures settings.None? || plans == [] ==> r == plans
    ensures |r| == |plans|
    ensures settings.Some? ==> forall i :: 0 <= i < |plans| ==> r[i] == Customize(plans[i], settings.value.planTier)
  {
    if settings.None? || |plans| == 0 then plans
    else seq(|plans|, i requires 0 <= i < |plans| => Customize(plans[i], settings.value.planTier))
  }

  /** The order of the three known tiers. */
  function Rank(tier: string): nat {
    if tier == "free" then 0 else if tier == "professional" then 1 else 2
  }

  predicate KnownTier(tier: string) {
    tier == "free" || tier == "professional" || tier == "enterprise"
  }

  /**
    Between known tiers the labels follow the tier order: the user's own tier
    is current, a lower tier a downgrade, and a higher one an upgrade.
   */
  lemma LabelsFollowTierOrder(plan: PagePlan, userTier: string)
    requires KnownTier(plan.planTier) && KnownTier(userTier)
    ensures Customize(plan, Some(userTier)).card.buttonText ==
      if Rank(plan.planTier) == Rank(userTier) then "Current Plan"
      else if Rank(plan.planTier) < Rank(userTier) then "Downgrade"
      else "Upgrade"
    ensures Customize(plan, Some(userTier)).buttonDisabled <==> Rank(plan.planTier) == Rank(userTier) || plan.buttonDisabled
  {
  }

  /**
    Settings without a `plan_tier` are not the free tier: the free plan then
    reads "Downgrade", the enterprise plan "Upgrade", and the professional plan
    keeps its button.
   */
  lemma MissingTier(plan: PagePlan)
    ensures plan.planTier == "free" ==> Customize(plan, None).card.buttonText == "Downgrade"
    ensures plan.planTier == "enterprise" ==> Customize(plan, None).card.buttonText == "Upgrade"
    ensures plan.planTier == "professional" ==> Customize(plan, None) == plan
  {
  }

  /** A tier outside the three known ones is never relabelled unless it is the user's own. */
  lemma UnknownPlanTierUnchanged(plan: PagePlan, userTier: Option<string>)
    requires !KnownTier(plan.planTier) && userTier != Some(plan.planTier)
    ensures Customize(plan, userTier) == plan
  {
  }

  /**
    Whatever the user's tier and the billing period, the professional plan's
    card shows "Get Started": the component's fixed label for the plan named
    "Professional" hides the page's "Current Plan", "Downgrade" or "Upgrade".
   */
  lemma ProfessionalAlwaysGetStarted(row: PlanFeature, settings: Option<StoredSettings>, isMonthly: bool)
    requires row.planTier == "professional"
    ensures CardOf(GetCustomizedPlans(settings, [FormatPlan(row)])[0].card, isMonthly).button == "Get Started"
  {
    var name := Capitalize(row.planTier);
    assert name == "Professional" by {
      assert name[0] == UpperChar('p') == 'P';
      assert name[1..] == "rofessional";
    }
  }

  // ---------------------------------------------------------------------------
  // handleSubscribe
  // ---------------------------------------------------------------------------

  /** The body posted to the checkout endpoint. */
  datatype CheckoutRequest = CheckoutRequest(planTier: string, userId: string, successUrl: string, cancelUrl: string)

  /** The endpoint's JSON answer (`error` is its truthiness), or an exception. */
  datatype CheckoutReply = CheckoutJson(url: Option<string>, error: bool) | CheckoutThrew

  /** A client-side route change, or a full page load of a URL. */
  datatype Navigation = Route(path: string) | Location(url: string)

  /** What a subscribe click does: where it goes, and the request it sends. */
  datatype SubscribeEffect = SubscribeEffect(navigate: Option<Navigation>, request: Option<CheckoutRequest>)

  /**
    `handleSubscribe`: without a user, a redirect to the login page and no
    request; otherwise a checkout request for the tier and the user, and a
    redirect to the returned URL only when there is one and no error.
    `origin` is `window.location.origin`.
   */
  function HandleSubscribe(userId: Option<string>, origin: string, planTier: string, reply: CheckoutReply): (e: SubscribeEffect)
    ensures userId.None? <==> e.request.None?
    ensures userId.None? ==> e.navigate == Some(Route("/auth/login"))
    ensures e.request.Some? ==>
      && e.request.value.planTier == planTier && e.request.value.userId == userId.value
      && e.request.value.successUrl == origin + "/settings?subscription=success"
      && e.request.value.cancelUrl == origin + "/pricing?subscription=canceled"
    ensures userId.Some? ==>
      (e.navigate.Some? <==> reply.CheckoutJson? && !reply.error && reply.url.Some? && reply.url.value != [])
    ensures userId.Some? && e.navigate.Some? ==> e.navigate == Some(Location(reply.url.value))
  {
    if userId.None? then SubscribeEffect(Some(Route("/auth/login")), None)
    else
      var request := CheckoutRequest(planTier, userId.value,
        origin + "/settings?subscription=success", origin + "/pricing?subscription=canceled");
      var navigate :=
        if reply.CheckoutJson? && !reply.error && reply.url.Some? && reply.url.value != [] then Some(Location(reply.url.value))
        else None;
      SubscribeEffect(navigate, Some(request))
  }
}
