/**
  The usage summary of the account page: reports this month and storage
  against the plan's limits, derived from three query results, each of which
  is an input here; and the report permission from the backend's answer.
 */
module SupabaseClient {
  import opened Wrappers
  import opened JsText

  /** The columns of `user_settings` the summary reads; a `null` limit means no limit. */
  datatype PlanSettings = PlanSettings(
    monthlyReportLimit: Option<nat>,
    storageLimitMb: Option<nat>,
    planTier: string,
    isSubscriptionActive: Option<bool>)

  /** The count of this month's report generations: a count (possibly `null`), or an error. */
  datatype CountReply = Counted(count: Option<nat>) | CountFailed

  /** The `file_size_kb` of each report generation (the rows possibly `null`), or an error. */
  datatype SizesReply = Sizes(rows: Option<seq<Option<nat>>>) | SizesFailed

  /** One resource's usage; `None` stands for `null`. */
  datatype UsageInfo = UsageInfo(currentUsage: nat, limit: Option<nat>, isUnlimited: bool, percentUsed: Option<nat>)

  /** The summary `getUserUsageInfo` returns. */
  datatype Summary = Summary(reports: UsageInfo, storage: UsageInfo, planTier: string, isActive: Option<bool>)

  /** A limit as a template literal writes it: its digits, or `null`. */
  function LimitText(limit: Option<nat>): string {
    if limit.Some? then NatToDecimal(limit.value) else "null"
  }

  /** The usage shown when nothing can be counted. */
  const NoUsage := UsageInfo(0, Some(0), false, Some(0))

  /** `Math.round(num / den)` for a whole numerator and a positive denominator: halves round up. */
  function Round(num: nat, den: nat): nat
    requires den > 0
  {
    (2 * num + den) / (2 * den)
  }

  /** The rounded value is the whole number nearest to `num / den`, a half going up. */
  lemma RoundIsNearest(num: nat, den: nat)
    requires den > 0
    ensures 2 * num < (2 * Round(num, den) + 1) * den
    ensures (2 * Round(num, den) - 1) * den <= 2 * num
  {
    var q := Round(num, den);
    assert q * (2 * den) <= 2 * num + den < (q + 1) * (2 * den);
  }

  /** `Math.round(usage / limit * 100)`, or `null` when the limit is `null` or 0. */
  function Percent(usage: nat, limit: Option<nat>, scale: nat): (p: Option<nat>)
    requires scale > 0
    ensures p.None? <==> limit.None? || limit.value == 0
  {
    if limit.Some? && limit.value > 0 then Some(Round(100 * usage, scale * limit.value)) else None
  }

  /** The usage of one resource against its limit. */
  function Usage(current: nat, raw: nat, limit: Option<nat>, scale: nat): (u: UsageInfo)
    requires scale > 0
    ensures u.currentUsage == current && u.limit == limit
    ensures u.isUnlimited <==> limit.None?
    ensures u.percentUsed == Percent(raw, limit, scale)
  {
    UsageInfo(current, limit, limit.None?, Percent(raw, limit, scale))
  }

  /** `reduce((acc, item) => acc + (item.file_size_kb || 0), 0)` */
  function TotalKb(sizes: seq<Option<nat>>): nat {
    if sizes == [] then 0 else TotalKb(sizes[..|sizes| - 1]) + (if sizes[|sizes| - 1].Some? then sizes[|sizes| - 1].value else 0)
  }

  /** The total of two runs of rows is the sum of their totals. */
  lemma {:induction false} TotalKbAppend(a: seq<Option<nat>>, b: seq<Option<nat>>)
    ensures TotalKb(a + b) == TotalKb(a) + TotalKb(b)
    decreases |b|
  {
    if b == [] {
      assert a + b == a;
    } else {
      var init := b[..|b| - 1];
      assert (a + b)[..|a + b| - 1] == a + init;
      TotalKbAppend(a, init);
    }
  }

  /** Rows without a size add nothing. */
  lemma {:induction false} TotalKbOfMissing(sizes: seq<Option<nat>>)
    requires forall k :: 0 <= k < |sizes| ==> sizes[k].None?
    ensures TotalKb(sizes) == 0
  {
    if sizes != [] {
      TotalKbOfMissing(sizes[..|sizes| - 1]);
    }
  }

  /** The storage used in KB: 0 when the query fails or answers `null`. */
  function StorageKb(reply: SizesReply): nat {
    if reply.Sizes? && reply.rows.Some? then TotalKb(reply.rows.value) else 0
  }

  /**
    `getUserUsageInfo`: no settings row gives the fallback summary; a failed
    report count gives zero usage with the row's tier and (raw) activity flag;
    otherwise the usage is measured against the row's limits, with storage in
    MB rounded to a whole number.
   */
  function GetUserUsageInfo(settings: Option<PlanSettings>, reports: CountReply, sizes: SizesReply): (s: Summary)
    ensures settings.None? ==> s == Summary(NoUsage, NoUsage, "free", Some(true))
    ensures settings.Some? && reports.CountFailed? ==>
      s == Summary(NoUsage, NoUsage, settings.value.planTier, settings.value.isSubscriptionActive)
    ensures settings.Some? && reports.Counted? ==>
      && s.planTier == settings.value.planTier
      && s.isActive == Some(settings.value.isSubscriptionActive != Some(false))
      && s.reports.currentUsage == (if reports.count.Some? then reports.count.value else 0)
      && s.reports.limit == settings.value.monthlyReportLimit
      && s.storage.currentUsage == Round(StorageKb(sizes), 1024)
      && s.storage.limit == settings.value.storageLimitMb
    ensures s.reports.isUnlimited <==> settings.Some? && reports.Counted? && settings.value.monthlyReportLimit.None?
    ensures s.storage.isUnlimited <==> settings.Some? && reports.Counted? && settings.value.storageLimitMb.None?
  {
    if settings.None? then Summary(NoUsage, NoUsage, "free", Some(true))
    else
      var row := settings.value;
      match reports
      case CountFailed => Summary(NoUsage, NoUsage, row.planTier, row.isSubscriptionActive)
      case Counted(count) =>
        var used := if count.Some? then count.value else 0;
        var kb := StorageKb(sizes);
        Summary(
          Usage(used, used, row.monthlyReportLimit, 1),
          Usage(Round(kb, 1024), kb, row.storageLimitMb, 1024),
          row.planTier,
          Some(if row.isSubscriptionActive.Some? then row.isSubscriptionActive.value else true))
  }

  /** A zero limit is not "unlimited", yet it has no percentage either. */
  lemma ZeroLimitHasNoPercent(row: PlanSettings, count: Option<nat>, sizes: SizesReply)
    requires row.monthlyReportLimit == Some(0)
    ensures var s := GetUserUsageInfo(Some(row), Counted(count), sizes);
      !s.reports.isUnlimited && s.reports.percentUsed.None?
  {
  }

  /** The report percentage is the usage over the limit, rounded to the nearest whole percent. */
  lemma ReportPercentNearest(row: PlanSettings, count: nat, sizes: SizesReply)
    requires row.monthlyReportLimit.Some? && row.monthlyReportLimit.value > 0
    ensures var p := GetUserUsageInfo(Some(row), Counted(Some(count)), sizes).reports.percentUsed;
      var limit := row.monthlyReportLimit.value;
      p.Some? && 200 * count < (2 * p.value + 1) * limit && (2 * p.value - 1) * limit <= 200 * count
  {
    RoundIsNearest(100 * count, row.monthlyReportLimit.value);
  }

  /** The storage percentage is measured on the unrounded KB, not on the rounded MB shown. */
  lemma StoragePercentOfKb(row: PlanSettings, count: Option<nat>, sizes: SizesReply)
    requires row.storageLimitMb.Some? && row.storageLimitMb.value > 0
    ensures GetUserUsageInfo(Some(row), Counted(count), sizes).storage.percentUsed
         == Some(Round(100 * StorageKb(sizes), 1024 * row.storageLimitMb.value))
  {
  }

  /** The reply of the `can_generate_report` call: the truthiness of its data, or an error. */
  datatype PermissionReply = Permission(truthy: bool) | PermissionFailed

  /** `error ? false : !!data` */
  function CanGenerateReport(reply: PermissionReply): bool {
    reply.Permission? && reply.truthy
  }
}
