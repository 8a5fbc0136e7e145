/** The quota indicator in the page header: which services it lists, their
 *  usage percentages, the overall mean and the colour bands
 *  (src/components/header/index.tsx). */
module QuotaIndicator {
  import opened Wrappers
  import opened JsObject
  import opened ConfigData
  import opened Text
  import UseQuota
  import opened Lists

  type UsageEntry = UseQuota.UsageEntry

  datatype ServiceUsage = ServiceUsage(key: string, used: int, limit: int, name: string, percentage: real)

  /** What the component renders: a loading placeholder, nothing, or the
   *  listed services with their mean percentage. */
  datatype View = Placeholder | Hidden | Shown(services: seq<ServiceUsage>, totalPercentage: real)

  /** `serviceNames`, whose key order is the display order. */
  const ServiceNames: Obj<string> := [
    ("HUNTER_EMAILSEARCH", "InsightLink\U{2122}"),
    ("GENAI_RESUME", "Resume AI"),
    ("GENAI_COVERLETTER", "Cover Letter AI"),
    ("GENAI_JOBMATCH", "JobMatch AI"),
    ("JOBS_COUNT", "Applications")
  ]

  /** `quotaUsage.find(q => q.quotaKey === key)?.usageCount || 0`. */
  function UsageFor(usages: seq<UsageEntry>, key: string): (r: int)
    ensures (forall i :: 0 <= i < |usages| ==> usages[i].quotaKey != key) ==> r == 0
    ensures forall i :: (0 <= i < |usages| && usages[i].quotaKey == key &&
      (forall j :: 0 <= j < i ==> usages[j].quotaKey != key)) ==> r == usages[i].usageCount
  {
    if |usages| == 0 then 0
    else if usages[0].quotaKey == key then usages[0].usageCount
    else
      var r := UsageFor(usages[1..], key);
      assert forall i :: 1 <= i < |usages| ==> usages[i] == usages[1..][i - 1];
      r
  }

  function Percentage(used: int, limit: int): real
  {
    if limit > 0 then (used as real / limit as real) * 100.0 else 0.0
  }

  /** `getServiceUsage`: an inactive or unknown service, a service the tier
   *  has no limit for, and a zero limit are all left out. */
  function GetServiceUsage(config: Config, tier: string, usages: seq<UsageEntry>, key: string): (r: Option<ServiceUsage>)
    ensures !ServiceActive(config, key) ==> r.None?
    ensures r.Some? <==>
      ServiceActive(config, key) && HasKey(config.tierLimits, tier) && HasKey(Get(config.tierLimits, tier).value, key)
      && Get(Get(config.tierLimits, tier).value, key).value.limit != 0
    ensures r.Some? ==> (r.value.key == key && r.value.used == UsageFor(usages, key)
      && r.value.limit == Get(Get(config.tierLimits, tier).value, key).value.limit)
    ensures r.Some? ==> r.value.percentage == Percentage(r.value.used, r.value.limit)
    ensures r.Some? && r.value.limit == Unlimited ==> r.value.percentage == 0.0
  {
    if !ServiceActive(config, key) then None
    else
      match Get(config.tierLimits, tier)
      case None => None
      case Some(limits) =>
        match Get(limits, key)
        case None => None
        case Some(q) =>
          if q.limit == 0 then None
          else
            var used := UsageFor(usages, key);
            var name := match Get(ServiceNames, key) case Some(n) => if n == "" then key else n case None => key;
            Some(ServiceUsage(key, used, q.limit, name, Percentage(used, q.limit)))
  }

  /** `Object.keys(serviceNames).map(getServiceUsage).filter(s => s !== null)`. */
  function Services(config: Config, tier: string, usages: seq<UsageEntry>): seq<ServiceUsage>
  {
    FilterMap(Keys(ServiceNames), k => GetServiceUsage(config, tier, usages, k))
  }

  /** A service is listed exactly when it qualifies: each listed entry is what
   *  `getServiceUsage` gives for some display key, and every display key that
   *  qualifies is listed. */
  lemma ServicesExact(config: Config, tier: string, usages: seq<UsageEntry>, s: ServiceUsage)
    ensures s in Services(config, tier, usages) <==>
      exists j :: 0 <= j < |ServiceNames| && GetServiceUsage(config, tier, usages, ServiceNames[j].0) == Some(s)
  {
    var keys := Keys(ServiceNames);
    var f := k => GetServiceUsage(config, tier, usages, k);
    if s in Services(config, tier, usages) {
      var i :| 0 <= i < |Services(config, tier, usages)| && Services(config, tier, usages)[i] == s;
      FilterMapSound(keys, f, i);
    }
    if exists j :: 0 <= j < |ServiceNames| && GetServiceUsage(config, tier, usages, ServiceNames[j].0) == Some(s) {
      var j :| 0 <= j < |ServiceNames| && GetServiceUsage(config, tier, usages, ServiceNames[j].0) == Some(s);
      FilterMapComplete(keys, f, j);
    }
  }

  /** Display order is `serviceNames` order: services from the first k keys
   *  come before those from the rest. */
  lemma ServicesInKeyOrder(config: Config, tier: string, usages: seq<UsageEntry>, k: nat)
    requires k <= |ServiceNames|
    ensures var keys := Keys(ServiceNames);
      var f := key => GetServiceUsage(config, tier, usages, key);
      Services(config, tier, usages) == FilterMap(keys[..k], f) + FilterMap(keys[k..], f)
  {
    var keys := Keys(ServiceNames);
    assert keys == keys[..k] + keys[k..];
    FilterMapAppend(keys[..k], keys[k..], key => GetServiceUsage(config, tier, usages, key));
  }

  function Sum(xs: seq<ServiceUsage>): real
  {
    if |xs| == 0 then 0.0 else xs[0].percentage + Sum(xs[1..])
  }

  /** The whole component. */
  function Render(isLoading: bool, config: Option<Config>, usages: Option<seq<UsageEntry>>, tier: string): (v: View)
    ensures isLoading || config.None? || usages.None? ==> v == Placeholder
    ensures v.Shown? ==> |v.services| > 0 && v.totalPercentage == Sum(v.services) / (|v.services| as real)
    ensures v.Shown? ==> v.services == Services(config.value, tier, usages.value)
    ensures v.Hidden? <==> (!isLoading && config.Some? && usages.Some?
      && Services(config.value, tier, usages.value) == [])
  {
    if isLoading || config.None? then Placeholder
    else if usages.None? then Placeholder
    else
      var services := Services(config.value, tier, usages.value);
      if |services| == 0 then Hidden
      else Shown(services, Sum(services) / (|services| as real))
  }

  /** `getStatusColor`. */
  function StatusColor(percentage: real): string
  {
    if percentage >= 100.0 then "text-destructive"
    else if percentage >= 80.0 then "text-yellow-500"
    else "text-green-500"
  }

  /** The progress bar: hidden for unlimited, otherwise capped at 100. */
  function ProgressValue(s: ServiceUsage): (r: Option<real>)
    ensures r.None? <==> s.limit == Unlimited
    ensures r.Some? ==> r.value <= 100.0 && (s.percentage <= 100.0 ==> r.value == s.percentage)
  {
    if s.limit == Unlimited then None
    else if s.percentage < 100.0 then Some(s.percentage) else Some(100.0)
  }

  /** The header colours agree with the notification levels of
   *  `checkQuotaLimits`: red exactly when exceeded, yellow exactly when
   *  warned, for every positive limit. */
  lemma ColourMatchesNotification(used: int, limit: int)
    requires limit > 0
    ensures StatusColor(Percentage(used, limit)) == "text-destructive"
            <==> UseQuota.Classify(used, Some(limit)) == Some(UseQuota.Exceeded)
    ensures StatusColor(Percentage(used, limit)) == "text-yellow-500"
            <==> UseQuota.Classify(used, Some(limit)) == Some(UseQuota.Warning)
  {
    var p := Percentage(used, limit);
    assert p * (limit as real) == 100.0 * (used as real);
    assert p >= 100.0 <==> used >= limit;
    assert p >= 80.0 <==> 5 * used >= 4 * limit;
  }

  lemma {:induction false} SumBounds(xs: seq<ServiceUsage>)
    requires forall i :: 0 <= i < |xs| ==> 0.0 <= xs[i].percentage <= 100.0
    ensures 0.0 <= Sum(xs) <= 100.0 * (|xs| as real)
  {
    if |xs| > 0 {
      SumBounds(xs[1..]);
    }
  }

  /** With every service within its limit the mean is a percentage too. */
  lemma MeanWithinRange(services: seq<ServiceUsage>)
    requires |services| > 0
    requires forall i :: 0 <= i < |services| ==> 0.0 <= services[i].percentage <= 100.0
    ensures 0.0 <= Sum(services) / (|services| as real) <= 100.0
  {
    SumBounds(services);
    var n := |services| as real;
    assert Sum(services) / n * n == Sum(services);
  }
}
