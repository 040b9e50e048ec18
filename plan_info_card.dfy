/**
  The card that shows the user's plan: the badge of the tier, the inactive
  notice, the usage lines with their progress bars, the subscription dates and
  the footer button.
 */
module PlanInfoCard {
  import opened Wrappers
  import opened JsText
  import opened SupabaseClient

  /** The badge of a tier: its name and colour classes. */
  datatype Badge = Badge(name: string, color: string)

  /** `getPlanDetails`: professional and enterprise have their own badge, every other tier the free one. */
  function PlanDetails(planTier: string): (b: Badge)
    ensures b.name == (if planTier == "professional" then "Professional" else if planTier == "enterprise" then "Enterprise" else "Free")
  {
    if planTier == "professional" then Badge("Professional", "bg-primary/10 text-primary")
    else if planTier == "enterprise" then Badge("Enterprise", "bg-amber-500/10 text-amber-500")
    else Badge("Free", "bg-slate-500/10 text-slate-500")
  }

  /** A date as shown: `N/A`, or the date in the browser's long US form. */
  datatype ShownDate = NotAvailable | LongDate(date: string)

  /** `formatDate`: a missing or empty date is `N/A`. */
  function FormatDate(date: Option<string>): (shown: ShownDate)
    ensures shown.NotAvailable? <==> date.None? || date.value == []
  {
    if date.None? || date.value == [] then NotAvailable else LongDate(date.value)
  }

  /** A progress bar: its value and whether its indicator is amber. */
  datatype Bar = Bar(value: nat, amber: bool)

  /** One usage line: the text on the right and the bar below, if any. */
  datatype UsageLine = UsageLine(text: string, bar: Option<Bar>)

  datatype Unit = ReportCount | Megabytes

  /** The usage text and bar of one resource. */
  function Line(usage: UsageInfo, unit: Unit): (line: UsageLine)
    ensures line.bar.Some? <==> !usage.isUnlimited
    ensures usage.isUnlimited <==> line.text == "Unlimited"
    ensures line.bar.Some? ==> line.bar.value.value == (if usage.percentUsed.Some? then usage.percentUsed.value else 0)
    ensures line.bar.Some? ==> (line.bar.value.amber <==> usage.percentUsed.Some? && usage.percentUsed.value > 80)
  {
    var text :=
      if usage.isUnlimited then "Unlimited"
      else if unit == ReportCount then NatToDecimal(usage.currentUsage) + " / " + LimitText(usage.limit) + " reports"
      else NatToDecimal(usage.currentUsage) + " MB / " + LimitText(usage.limit) + " MB";
    assert !usage.isUnlimited ==> text[|text| - 1] == 's' || text[|text| - 1] == 'B';
    if usage.isUnlimited then UsageLine(text, None)
    else
      var p := if usage.percentUsed.Some? then usage.percentUsed.value else 0;
      UsageLine(text, Some(Bar(p, usage.percentUsed.Some? && usage.percentUsed.value > 80)))
  }

  /** The subscription dates block: the start, and the end when there is one. */
  datatype Dates = Dates(started: ShownDate, ends: Option<ShownDate>)

  /** What the card shows. */
  datatype Card = Card(badge: Badge, inactiveNotice: bool, reports: UsageLine, storage: UsageLine, dates: Option<Dates>, footer: string)

  /** The card's properties. */
  datatype PlanProps = PlanProps(
    planTier: string,
    isSubscriptionActive: bool,
    reportUsage: UsageInfo,
    storageUsage: UsageInfo,
    subscriptionStartsAt: Option<string>,
    subscriptionEndsAt: Option<string>)

  function Truthy(s: Option<string>): bool {
    s.Some? && s.value != []
  }

  /** `PlanInfoCard` */
  function PlanCard(props: PlanProps): (card: Card)
    ensures card.inactiveNotice <==> !props.isSubscriptionActive
    ensures card.dates.Some? <==> Truthy(props.subscriptionStartsAt)
    ensures card.dates.Some? ==> card.dates.value.started.LongDate? && (card.dates.value.ends.Some? <==> Truthy(props.subscriptionEndsAt))
    ensures card.dates.Some? && card.dates.value.ends.Some? ==> card.dates.value.ends.value.LongDate?
    ensures card.footer == "Upgrade Plan" <==> props.planTier == "free"
    ensures card.reports == Line(props.reportUsage, ReportCount) && card.storage == Line(props.storageUsage, Megabytes)
  {
    var dates :=
      if Truthy(props.subscriptionStartsAt) then
        Some(Dates(FormatDate(props.subscriptionStartsAt), if Truthy(props.subscriptionEndsAt) then Some(FormatDate(props.subscriptionEndsAt)) else None))
      else None;
    Card(
      PlanDetails(props.planTier),
      !props.isSubscriptionActive,
      Line(props.reportUsage, ReportCount),
      Line(props.storageUsage, Megabytes),
      dates,
      if props.planTier == "free" then "Upgrade Plan" else "Manage Subscription")
  }

  /** A tier the card does not know shows the free badge but offers to manage the subscription. */
  lemma UnknownTier(props: PlanProps)
    requires props.planTier !in {"free", "professional", "enterprise"}
    ensures PlanCard(props).badge.name == "Free" && PlanCard(props).footer == "Manage Subscription"
  {
  }

  /** The dates block shows `N/A` nowhere: it is shown only for dates that are present. */
  lemma DatesNeverNotAvailable(props: PlanProps)
    ensures PlanCard(props).dates.Some? ==> PlanCard(props).dates.value.started != NotAvailable
  {
  }

  /** An amber bar is full beyond 80%: 80% itself is not amber. */
  lemma AmberAbove80(usage: UsageInfo)
    requires !usage.isUnlimited
    ensures usage.percentUsed == Some(80) ==> !Line(usage, ReportCount).bar.value.amber
    ensures usage.percentUsed == Some(81) ==> Line(usage, ReportCount).bar.value.amber
  {
  }
}
