/**
  The banner that warns about a resource nearing or at its limit: when it
  shows, whether it is the destructive "limit reached" kind, and what it says.
 */
module UsageLimitAlert {
  import opened Wrappers
  import opened JsText
  import opened SupabaseClient

  /** The `resourceType` property. */
  datatype Resource = Reports | Storage

  const DefaultWarningAt: nat := 80

  /** What the alert shows. */
  datatype AlertView = AlertView(destructive: bool, title: string, description: string, progress: nat, upgradeButton: bool)

  function ResourceName(resource: Resource): string {
    if resource == Reports then "Report" else "Storage"
  }

  function Description(usage: UsageInfo, resource: Resource): string {
    if resource == Reports then
      "You've used " + NatToDecimal(usage.currentUsage) + " out of " + LimitText(usage.limit) + " monthly reports."
    else
      "You're using " + NatToDecimal(usage.currentUsage) + "MB out of " + LimitText(usage.limit) + "MB storage."
  }

  /** `UsageLimitAlert`: nothing for unlimited usage or a falsy or low percentage; else the warning or the limit alert. */
  function Alert(usage: UsageInfo, resource: Resource, showWarningAt: nat): (view: Option<AlertView>)
    ensures view.Some? <==>
      !usage.isUnlimited && usage.percentUsed.Some? && usage.percentUsed.value != 0 && usage.percentUsed.value >= showWarningAt
    ensures view.Some? ==> (view.value.destructive <==> usage.percentUsed.value >= 100)
    ensures view.Some? ==> view.value.title == ResourceName(resource) + if view.value.destructive then " limit reached" else " limit warning"
    ensures view.Some? ==> view.value.upgradeButton == view.value.destructive
    ensures view.Some? ==> view.value.progress <= 100 && view.value.progress <= usage.percentUsed.value
    ensures view.Some? ==> view.value.progress == 100 || view.value.progress == usage.percentUsed.value
    ensures view.Some? ==> view.value.description == Description(usage, resource)
  {
    if usage.isUnlimited || usage.percentUsed.None? || usage.percentUsed.value == 0 || usage.percentUsed.value < showWarningAt then None
    else
      var p := usage.percentUsed.value;
      var atLimit := p >= 100;
      var name := ResourceName(resource);
      Some(AlertView(
        atLimit,
        if atLimit then name + " limit reached" else name + " limit warning",
        Description(usage, resource),
        if p < 100 then p else 100,
        atLimit))
  }

  /** The reports alert is worded in monthly reports, the storage alert in MB. */
  lemma ResourceWording(usage: UsageInfo)
    ensures IsPrefix("You've used ", Description(usage, Reports))
    ensures IsPrefix("You're using ", Description(usage, Storage))
    ensures ResourceName(Reports) == "Report" && ResourceName(Storage) == "Storage"
  {
    var r, t := Description(usage, Reports), Description(usage, Storage);
    assert r[..|"You've used "|] == "You've used ";
    assert t[..|"You're using "|] == "You're using ";
  }

  /** With the default threshold a usage below 80% shows nothing, and a usage of 100% or more the limit alert. */
  lemma DefaultThreshold(usage: UsageInfo, resource: Resource)
    requires !usage.isUnlimited && usage.percentUsed.Some?
    ensures usage.percentUsed.value < 80 ==> Alert(usage, resource, DefaultWarningAt).None?
    ensures usage.percentUsed.value >= 100 ==>
      Alert(usage, resource, DefaultWarningAt).Some? && Alert(usage, resource, DefaultWarningAt).value.destructive
  {
  }

  /** A zero threshold still shows nothing at 0%, since 0 is falsy. */
  lemma ZeroPercentNeverAlerts(usage: UsageInfo, resource: Resource, showWarningAt: nat)
    requires usage.percentUsed == Some(0)
    ensures Alert(usage, resource, showWarningAt).None?
  {
  }
}
