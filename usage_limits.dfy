/**
  The free-tier quotas: how many reports a month and how many stored scripts a
  user may have, the remaining allowance, and the recording of a report
  generation that the quota guards.

  The backend queries are inputs: the settings row (absent when the query
  finds none or fails, since both give `null` data), the count reply, and the
  insert's outcome. A reply that throws stands for an exception reaching the
  function's `catch`.
 */
module UsageLimits {
  import opened Wrappers

  /** A quota: a number, or `Infinity`. */
  datatype Limit = Finite(n: nat) | Unlimited

  const ReportQuota: nat := 10
  const ScriptQuota: nat := 5

  /** The `current_plan` column of a `user_settings` row, which may be `null`. */
  datatype SettingsRow = SettingsRow(currentPlan: Option<string>)

  /** The settings query: the row, if one came back, or an exception. */
  datatype SettingsReply = Settings(row: Option<SettingsRow>) | SettingsThrew

  /** A count query: the count (possibly `null`), an error, or an exception. */
  datatype CountReply = Counted(count: Option<nat>) | CountFailed | CountThrew

  /** What the limit checks return; `failed` says whether an `error` is attached. */
  datatype LimitInfo = LimitInfo(hasReachedLimit: bool, currentCount: nat, limit: Limit, remaining: Limit, failed: bool)

  /** `!settings || settings.current_plan === 'free'` */
  predicate IsFreeTier(row: Option<SettingsRow>) {
    row.None? || row.value.currentPlan == Some("free")
  }

  /** The quota of a plan: `quota` for the free tier, no limit otherwise. */
  function PlanLimit(row: Option<SettingsRow>, quota: nat): (limit: Limit)
    ensures limit.Finite? <==> IsFreeTier(row)
    ensures limit.Finite? ==> limit.n == quota
  {
    if IsFreeTier(row) then Finite(quota) else Unlimited
  }

  /** `count || 0` */
  function CountOf(count: Option<nat>): nat {
    if count.Some? then count.value else 0
  }

  /** `limit === Infinity ? Infinity : Math.max(0, limit - count)` */
  function Remaining(limit: Limit, count: nat): (remaining: Limit)
    ensures remaining.Finite? <==> limit.Finite?
  {
    match limit
    case Finite(n) => Finite(if count <= n then n - count else 0)
    case Unlimited => Unlimited
  }

  /** The allowance left is what the quota leaves after the count, and none once the count reaches it. */
  lemma RemainingComplements(n: nat, count: nat)
    ensures count <= n ==> Remaining(Finite(n), count).n + count == n
    ensures count >= n ==> Remaining(Finite(n), count).n == 0
    ensures Remaining(Finite(n), count).n <= n
  {
  }

  /**
    The shared shape of `checkReportGenerationLimit` and `getScriptUsage` for
    a quota: an exception reports the bare quota, a failed count allows the
    action, and otherwise the limit is reached once a free-tier count meets the
    quota.
   */
  function CheckLimit(settings: SettingsReply, reply: CountReply, quota: nat): (info: LimitInfo)
    ensures info.failed <==> settings.SettingsThrew? || !reply.Counted?
    ensures info.hasReachedLimit <==>
      settings.Settings? && reply.Counted? && IsFreeTier(settings.row) && CountOf(reply.count) >= quota
    ensures !info.failed ==> info.limit == PlanLimit(settings.row, quota) && info.currentCount == CountOf(reply.count)
    ensures settings.SettingsThrew? || reply.CountThrew? ==> info.limit == Finite(quota)
    ensures settings.Settings? && reply.CountFailed? ==> info.limit == PlanLimit(settings.row, quota)
    ensures info.remaining == Remaining(info.limit, info.currentCount)
  {
    if settings.SettingsThrew? || reply.CountThrew? then
      LimitInfo(false, 0, Finite(quota), Finite(quota), true)
    else
      var limit := PlanLimit(settings.row, quota);
      if reply.CountFailed? then LimitInfo(false, 0, limit, limit, true)
      else
        var count := CountOf(reply.count);
        LimitInfo(IsFreeTier(settings.row) && count >= quota, count, limit, Remaining(limit, count), false)
  }

  /** `checkReportGenerationLimit`: the monthly report quota. */
  function CheckReportGenerationLimit(settings: SettingsReply, reply: CountReply): (info: LimitInfo)
    ensures info.limit.Finite? ==> info.limit.n == ReportQuota
    ensures settings.SettingsThrew? || reply.CountThrew? ==> info.limit == Finite(ReportQuota)
  {
    CheckLimit(settings, reply, ReportQuota)
  }

  /** `getScriptUsage`: the stored-script quota. */
  function GetScriptUsage(settings: SettingsReply, reply: CountReply): (info: LimitInfo)
    ensures info.limit.Finite? ==> info.limit.n == ScriptQuota
    ensures settings.SettingsThrew? || reply.CountThrew? ==> info.limit == Finite(ScriptQuota)
  {
    CheckLimit(settings, reply, ScriptQuota)
  }

  /** A paid plan never reaches a limit and has no limit. */
  lemma PaidNeverLimited(row: SettingsRow, reply: CountReply, quota: nat)
    requires row.currentPlan != Some("free")
    ensures !CheckLimit(Settings(Some(row)), reply, quota).hasReachedLimit
    ensures reply.Counted? ==> CheckLimit(Settings(Some(row)), reply, quota).limit == Unlimited
  {
  }

  /** A settings row whose plan is `null` counts as a paid plan, unlike a missing row. */
  lemma NullPlanIsPaid()
    ensures !IsFreeTier(Some(SettingsRow(None)))
    ensures IsFreeTier(None)
  {
  }

  /**
    A failed or throwing query allows the action and leaves the whole allowance.
    An exception reports the bare quota even for a paid plan; a failed count
    reports the plan's own limit.
   */
  lemma FailOpen(settings: SettingsReply, reply: CountReply, quota: nat)
    requires settings.SettingsThrew? || !reply.Counted?
    ensures var info := CheckLimit(settings, reply, quota);
      !info.hasReachedLimit && info.currentCount == 0 && info.remaining == info.limit
    ensures settings.SettingsThrew? || reply.CountThrew? ==> CheckLimit(settings, reply, quota).limit == Finite(quota)
    ensures settings.Settings? && reply.CountFailed? ==> CheckLimit(settings, reply, quota).limit == PlanLimit(settings.row, quota)
  {
  }

  /** With a count in hand, the limit is reached exactly when nothing remains of a finite quota. */
  lemma ReachedIffNoneRemaining(row: Option<SettingsRow>, count: Option<nat>, quota: nat)
    ensures var info := CheckLimit(Settings(row), Counted(count), quota);
      info.hasReachedLimit <==> info.remaining == Finite(0)
  {
  }

  // ---------------------------------------------------------------------------
  // recordReportGeneration
  // ---------------------------------------------------------------------------

  /** The optional details of an export. */
  datatype Details = Details(
    fileName: Option<string>,
    fileSize: Option<nat>,
    templateId: Option<string>,
    duration: Option<nat>,
    isScheduled: Option<bool>)

  /** The row inserted into `report_generations`. */
  datatype GenerationRow = GenerationRow(
    userId: string,
    reportId: Option<string>,
    exportType: string,
    fileName: Option<string>,
    fileSizeKb: Option<nat>,
    templateId: Option<string>,
    durationMs: Option<nat>,
    isScheduled: bool)

  /** The insert's outcome. */
  datatype InsertReply = Inserted | InsertFailed | InsertThrew

  datatype RecordError = UserIdRequired | UsageError | LimitReached | InsertError | Unexpected

  /** The text of the errors the function words itself; the others carry the backend's error object. */
  function ErrorText(e: RecordError): Option<string> {
    match e
    case UserIdRequired => Some("User ID is required")
    case LimitReached => Some("Monthly report generation limit reached. Please upgrade to generate more reports.")
    case _ => None
  }

  /** The result of `recordReportGeneration` and the row it asked to insert, if it got that far. */
  datatype Recorded = Recorded(success: bool, error: Option<RecordError>, insert: Option<GenerationRow>)

  /** `details.isScheduled || false` */
  function Scheduled(isScheduled: Option<bool>): bool {
    isScheduled.Some? && isScheduled.value
  }

  /** The row a recorded generation inserts. */
  function GenerationOf(userId: string, reportId: Option<string>, exportType: string, details: Details): (row: GenerationRow)
    ensures row.userId == userId && row.exportType == exportType && row.fileName == details.fileName
    ensures row.isScheduled <==> details.isScheduled == Some(true)
  {
    GenerationRow(userId, reportId, exportType, details.fileName, details.fileSize, details.templateId, details.duration, Scheduled(details.isScheduled))
  }

  /**
    `recordReportGeneration`: the user id is checked first, then the monthly
    count, then the plan; a free-tier user at the quota is refused before the
    insert, and success is reported only when the insert succeeds.
   */
  function RecordReportGeneration(
    userId: string, reportId: Option<string>, exportType: string, details: Details,
    usage: CountReply, settings: SettingsReply, insert: InsertReply): (r: Recorded)
    ensures r.success <==> r.error.None?
    ensures r.success <==> r.insert.Some? && insert.Inserted?
    ensures userId == [] ==> r.error == Some(UserIdRequired) && r.insert.None?
    ensures r.insert.Some? ==> r.insert.value == GenerationOf(userId, reportId, exportType, details)
    ensures r.insert.Some? <==>
      && userId != [] && usage.Counted? && settings.Settings?
      && !(IsFreeTier(settings.row) && CountOf(usage.count) >= ReportQuota)
  {
    if userId == [] then Recorded(false, Some(UserIdRequired), None)
    else if usage.CountThrew? then Recorded(false, Some(Unexpected), None)
    else if usage.CountFailed? then Recorded(false, Some(UsageError), None)
    else if settings.SettingsThrew? then Recorded(false, Some(Unexpected), None)
    else if IsFreeTier(settings.row) && CountOf(usage.count) >= ReportQuota then Recorded(false, Some(LimitReached), None)
    else
      var row := GenerationOf(userId, reportId, exportType, details);
      match insert
      case Inserted => Recorded(true, None, Some(row))
      case InsertFailed => Recorded(false, Some(InsertError), Some(row))
      case InsertThrew => Recorded(false, Some(Unexpected), Some(row))
  }

  /**
    On the same answers from the backend, `recordReportGeneration` refuses for
    the quota exactly when `checkReportGenerationLimit` says the limit is reached.
   */
  lemma RecordAgreesWithCheck(userId: string, reportId: Option<string>, exportType: string, details: Details,
                              count: Option<nat>, row: Option<SettingsRow>, insert: InsertReply)
    requires userId != []
    ensures RecordReportGeneration(userId, reportId, exportType, details, Counted(count), Settings(row), insert).error == Some(LimitReached)
        <==> CheckReportGenerationLimit(Settings(row), Counted(count)).hasReachedLimit
  {
  }
}
