/** Fixed per-tier storage limits, downgrade eligibility, limit enforcement
 *  and the subscription label (src/lib/subscription.ts). */
module Subscription {
  import opened Wrappers
  import opened Text

  datatype Tier = Free | Pro | Power
  {
    function Name(): string
    {
      match this
      case Free => "free"
      case Pro => "pro"
      case Power => "power"
    }
  }

  datatype Limits = Limits(maxApplications: nat, maxNotes: nat, maxDocuments: nat)

  datatype Usage = Usage(applications: int, notes: int, documents: int)

  datatype DowngradeCheck = DowngradeCheck(canDowngrade: bool, reason: Option<string>, currentUsage: Option<Usage>)

  /** `TIER_LIMITS`. */
  function TierLimits(t: Tier): Limits
  {
    match t
    case Free => Limits(25, 100, 5)
    case Pro => Limits(100, 500, 25)
    case Power => Limits(1000, 5000, 100)
  }

  /** The tier a stored string names, if any. */
  function ParseTier(s: string): (r: Option<Tier>)
    ensures r.Some? ==> r.value.Name() == s
  {
    if s == "free" then Some(Free) else if s == "pro" then Some(Pro) else if s == "power" then Some(Power) else None
  }

  function Rank(t: Tier): nat
  {
    match t
    case Free => 0
    case Pro => 1
    case Power => 2
  }

  /** A higher tier allows strictly more of everything. */
  lemma TierLimitsIncrease(a: Tier, b: Tier)
    requires Rank(a) < Rank(b)
    ensures TierLimits(a).maxApplications < TierLimits(b).maxApplications
    ensures TierLimits(a).maxNotes < TierLimits(b).maxNotes
    ensures TierLimits(a).maxDocuments < TierLimits(b).maxDocuments
  {
  }

  /** `Number(usage.x || 0)` over the stored usage object. */
  function UsageOf(usage: map<string, int>): Usage
  {
    Usage(if "applications" in usage then usage["applications"] else 0,
          if "notes" in usage then usage["notes"] else 0,
          if "documents" in usage then usage["documents"] else 0)
  }

  predicate Fits(u: Usage, l: Limits)
  {
    u.applications <= l.maxApplications && u.notes <= l.maxNotes && u.documents <= l.maxDocuments
  }

  function Reason(count: int, what: string, newTier: Tier, max: nat): string
  {
    "You have " + IntToString(count) + " " + what + ", but " + newTier.Name() + " tier only allows " + NatToString(max)
  }

  /** `canDowngradeTier`: allowed without a quota; otherwise refused by the
   *  first of applications, notes, documents whose usage is strictly above
   *  the new tier's limit. */
  function CanDowngradeTier(quota: Option<map<string, int>>, newTier: Tier): (r: DowngradeCheck)
    ensures quota.None? ==> r == DowngradeCheck(true, None, None)
    ensures quota.Some? ==> r.currentUsage == Some(UsageOf(quota.value))
    ensures quota.Some? ==> (r.canDowngrade <==> Fits(UsageOf(quota.value), TierLimits(newTier)))
    ensures r.canDowngrade <==> r.reason.None?
    ensures quota.Some? && !r.canDowngrade ==>
      var u := UsageOf(quota.value);
      var l := TierLimits(newTier);
      r.reason.value ==
        if u.applications > l.maxApplications then Reason(u.applications, "applications", newTier, l.maxApplications)
        else if u.notes > l.maxNotes then Reason(u.notes, "notes", newTier, l.maxNotes)
        else Reason(u.documents, "documents", newTier, l.maxDocuments)
  {
    match quota
    case None => DowngradeCheck(true, None, None)
    case Some(usage) =>
      var u := UsageOf(usage);
      var l := TierLimits(newTier);
      if u.applications > l.maxApplications then
        DowngradeCheck(false, Some(Reason(u.applications, "applications", newTier, l.maxApplications)), Some(u))
      else if u.notes > l.maxNotes then
        DowngradeCheck(false, Some(Reason(u.notes, "notes", newTier, l.maxNotes)), Some(u))
      else if u.documents > l.maxDocuments then
        DowngradeCheck(false, Some(Reason(u.documents, "documents", newTier, l.maxDocuments)), Some(u))
      else DowngradeCheck(true, None, Some(u))
  }

  /** Usage exactly at the new limits still allows the downgrade. */
  lemma DowngradeAtLimitAllowed(newTier: Tier)
    ensures var l := TierLimits(newTier);
      CanDowngradeTier(Some(map["applications" := l.maxApplications as int, "notes" := l.maxNotes as int,
                                "documents" := l.maxDocuments as int]), newTier).canDowngrade
  {
  }

  /** A move that is allowed to some tier is allowed to every higher one. */
  lemma DowngradeMonotone(quota: Option<map<string, int>>, a: Tier, b: Tier)
    requires Rank(a) <= Rank(b)
    requires CanDowngradeTier(quota, a).canDowngrade
    ensures CanDowngradeTier(quota, b).canDowngrade
  {
  }

  /** `enforceQuotaLimits`: a missing user fails, a missing quota passes, a
   *  tier without limits fails (the thrown error is caught), otherwise pass
   *  iff the usage fits. */
  function EnforceQuotaLimits(userTier: Option<string>, quota: Option<map<string, int>>): (r: bool)
    ensures userTier.None? ==> !r
    ensures userTier.Some? && quota.None? ==> r
    ensures userTier.Some? && quota.Some? ==>
      (r <==> ParseTier(userTier.value).Some? && Fits(UsageOf(quota.value), TierLimits(ParseTier(userTier.value).value)))
  {
    match userTier
    case None => false
    case Some(t) =>
      if quota.None? then true
      else
        match ParseTier(t)
        case None => false
        case Some(tier) =>
          var u := UsageOf(quota.value);
          var l := TierLimits(tier);
          !(u.applications > l.maxApplications || u.notes > l.maxNotes || u.documents > l.maxDocuments)
  }

  /** Enforcement and downgrade agree: a user passes enforcement exactly when
   *  a downgrade to their own tier would be allowed. */
  lemma EnforceAgreesWithDowngrade(t: Tier, quota: Option<map<string, int>>)
    ensures EnforceQuotaLimits(Some(t.Name()), quota) == CanDowngradeTier(quota, t).canDowngrade
  {
  }

  /** `getSubscriptionStatusDisplay`. `formattedEnd` is the period end as
   *  `toLocaleDateString` prints it. */
  function StatusDisplay(tier: string, isCanceled: bool, formattedEnd: Option<string>): (r: string)
    ensures tier == "free" ==> r == "Free"
    ensures tier != "free" ==> Capitalize(tier) <= r
    ensures tier != "free" && isCanceled && formattedEnd.Some? ==>
      r == Capitalize(tier) + " (Cancels on " + formattedEnd.value + ")"
    ensures tier != "free" && !(isCanceled && formattedEnd.Some?) ==> r == Capitalize(tier)
  {
    if tier == "free" then "Free"
    else if isCanceled && formattedEnd.Some? then Capitalize(tier) + " (Cancels on " + formattedEnd.value + ")"
    else Capitalize(tier)
  }
}
