/** Usage accounting against the configured per-tier service limits
 *  (src/lib/tierlimits.ts). A limit of -1 is unlimited; a service with no
 *  entry in the tier's limits has limit 0. */
module TierLimits {
  import opened Wrappers
  import opened JsObject
  import opened ConfigData

  /** A user's quota document: usage counters per service key. */
  datatype UsageQuota = UsageQuota(usage: map<string, int>, quotaResetDate: int, dateUpdated: int)

  datatype QuotaInfo = QuotaInfo(used: int, limit: int, remaining: int)

  datatype AddResult = AddResult(ok: bool, quota: Option<UsageQuota>)

  /** `user.tier || 'free'`. */
  function EffectiveTier(tier: string): string
  {
    if tier == "" then "free" else tier
  }

  /** `tierLimits[serviceKey]?.limit ?? 0`. */
  function LimitOf(limits: Obj<QuotaLimit>, key: string): int
  {
    match Get(limits, key)
    case None => 0
    case Some(q) => q.limit
  }

  /** `usage[serviceKey] || 0`. */
  function Used(q: UsageQuota, key: string): int
  {
    if key in q.usage then q.usage[key] else 0
  }

  /** The limit both operations work with, or `None` when they give up first:
   *  user or configuration missing, service unknown or inactive, or no limits
   *  for the user's tier (reading a field of `undefined` throws, and the
   *  error is caught). */
  function ApplicableLimit(userTier: Option<string>, config: Option<Config>, key: string): (r: Option<int>)
    ensures r.Some? ==> userTier.Some? && config.Some? && ServiceActive(config.value, key)
    ensures r.Some? ==> HasKey(config.value.tierLimits, EffectiveTier(userTier.value))
  {
    if userTier.None? || config.None? then None
    else if !ServiceActive(config.value, key) then None
    else
      match Get(config.value.tierLimits, EffectiveTier(userTier.value))
      case None => None
      case Some(limits) => Some(LimitOf(limits, key))
  }

  /** `srv_addServiceUsage`. A missing quota document is created (with empty
   *  usage) before the limit is checked, so it exists afterwards even when the
   *  increment is refused. */
  function AddServiceUsage(userTier: Option<string>, config: Option<Config>, quota: Option<UsageQuota>,
                           key: string, amount: int, now: int, nextReset: int): (r: AddResult)
    ensures ApplicableLimit(userTier, config, key).None? ==> r == AddResult(false, quota)
    ensures ApplicableLimit(userTier, config, key).Some? ==>
      var limit := ApplicableLimit(userTier, config, key).value;
      var base := quota.GetOr(UsageQuota(map[], nextReset, now));
      && r.quota.Some?
      && (r.ok <==> limit == Unlimited || Used(base, key) + amount <= limit)
      && (r.ok ==> r.quota.value.usage == base.usage[key := Used(base, key) + amount])
      && (!r.ok ==> r.quota.value == base)
  {
    match ApplicableLimit(userTier, config, key)
    case None => AddResult(false, quota)
    case Some(limit) =>
      var base := quota.GetOr(UsageQuota(map[], nextReset, now));
      var current := Used(base, key);
      if limit != Unlimited && current + amount > limit then AddResult(false, Some(base))
      else AddResult(true, Some(base.(usage := base.usage[key := current + amount], dateUpdated := now)))
  }

  /** `srv_getServiceQuota`. */
  function GetServiceQuota(userTier: Option<string>, config: Option<Config>, quota: Option<UsageQuota>,
                           key: string): (r: Option<QuotaInfo>)
    ensures r.Some? <==> ApplicableLimit(userTier, config, key).Some?
    ensures r.Some? ==> r.value.limit == ApplicableLimit(userTier, config, key).value
    ensures r.Some? ==> r.value.used == (if quota.Some? then Used(quota.value, key) else 0)
    ensures r.Some? ==> (r.value.remaining == -1 <==> r.value.limit == Unlimited)
    ensures r.Some? && r.value.limit != Unlimited ==>
      r.value.remaining >= 0 && r.value.remaining >= r.value.limit - r.value.used
      && (r.value.remaining == 0 || r.value.remaining == r.value.limit - r.value.used)
  {
    match ApplicableLimit(userTier, config, key)
    case None => None
    case Some(limit) =>
      var used := if quota.Some? then Used(quota.value, key) else 0;
      Some(QuotaInfo(used, limit, Remaining(limit, used)))
  }

  /** `srv_resetAllQuotas`: every quota document gets empty usage, the next
   *  reset date and a fresh update time. */
  function ResetAllQuotas(quotas: map<string, UsageQuota>, now: int, nextReset: int): (r: map<string, UsageQuota>)
    ensures r.Keys == quotas.Keys
    ensures forall u :: u in r ==> r[u].usage == map[] && r[u].quotaResetDate == nextReset
  {
    map u | u in quotas :: UsageQuota(map[], nextReset, now)
  }

  /** `srv_addServiceUsage` as written. The quota schema declares no `usage`
   *  path: a found document is hydrated without a `usage` accessor, and a
   *  created one has had its `usage: {}` removed by strict mode. Either way
   *  `userQuota.usage[serviceKey]` reads a field of `undefined`; the
   *  TypeError is caught and the answer is false. A missing document is
   *  still created first, with no counters. */
  function AddServiceUsageAsWritten(userTier: Option<string>, config: Option<Config>, quota: Option<UsageQuota>,
                                    key: string, amount: int, now: int, nextReset: int): (r: AddResult)
    ensures !r.ok
    ensures ApplicableLimit(userTier, config, key).None? || quota.Some? ==> r.quota == quota
    ensures ApplicableLimit(userTier, config, key).Some? && quota.None? ==>
      r.quota.Some? && r.quota.value.usage == map[] && r.quota.value.quotaResetDate == nextReset
  {
    match ApplicableLimit(userTier, config, key)
    case None => AddResult(false, quota)
    case Some(_) =>
      if quota.Some? then AddResult(false, quota) else AddResult(false, Some(UsageQuota(map[], nextReset, now)))
  }

  /** `srv_getServiceQuota` as written. Stored quota documents never hold
   *  `usage` (strict mode strips it from the create and from the reset's
   *  `$set`), so when a document exists the lean read
   *  `userQuota?.usage[serviceKey]` reads a field of `undefined` and the
   *  caught TypeError gives null. Only a user without a quota document gets
   *  an answer, with nothing used. */
  function GetServiceQuotaAsWritten(userTier: Option<string>, config: Option<Config>, quota: Option<UsageQuota>,
                                    key: string): (r: Option<QuotaInfo>)
    ensures r.Some? <==> quota.None? && ApplicableLimit(userTier, config, key).Some?
    ensures r.Some? ==> r.value.used == 0 && r.value.limit == ApplicableLimit(userTier, config, key).value
    ensures r.Some? ==>
      r.value.remaining == (if r.value.limit == Unlimited then -1 else if r.value.limit > 0 then r.value.limit else 0)
  {
    match ApplicableLimit(userTier, config, key)
    case None => None
    case Some(limit) => if quota.Some? then None else Some(QuotaInfo(0, limit, Remaining(limit, 0)))
  }

  /** As written, an increment the intended code accepts is refused and
   *  counts nothing. */
  lemma UsageNeverCounted(userTier: Option<string>, config: Option<Config>, quota: Option<UsageQuota>,
                          key: string, amount: int, now: int, nextReset: int)
    requires AddServiceUsage(userTier, config, quota, key, amount, now, nextReset).ok
    requires amount != 0
    ensures var w := AddServiceUsageAsWritten(userTier, config, quota, key, amount, now, nextReset);
      var i := AddServiceUsage(userTier, config, quota, key, amount, now, nextReset);
      !w.ok && w.quota.Some? && Used(w.quota.value, key) != Used(i.quota.value, key)
  {
  }

  /** As written, the first increment creates the quota document, and from
   *  then on the quota read gives null where the intended code reports the
   *  limit. */
  lemma StoredQuotaHidesLimit(userTier: Option<string>, config: Option<Config>, quota: Option<UsageQuota>,
                              key: string, amount: int, now: int, nextReset: int)
    requires ApplicableLimit(userTier, config, key).Some?
    ensures var w := AddServiceUsageAsWritten(userTier, config, quota, key, amount, now, nextReset);
      w.quota.Some? &&
      GetServiceQuotaAsWritten(userTier, config, w.quota, key).None? &&
      GetServiceQuota(userTier, config, w.quota, key).Some?
  {
  }

  /** An unknown or inactive service is refused and the quota document is
   *  left as it was (not even created). */
  lemma InactiveServiceRefused(userTier: Option<string>, config: Config, quota: Option<UsageQuota>,
                               key: string, amount: int, now: int, nextReset: int)
    requires !ServiceActive(config, key)
    ensures AddServiceUsage(userTier, Some(config), quota, key, amount, now, nextReset) == AddResult(false, quota)
  {
  }

  /** A service the tier does not list has limit 0: any positive increment is
   *  refused. */
  lemma UnlistedServiceRefused(tier: string, config: Config, quota: Option<UsageQuota>,
                               key: string, amount: int, now: int, nextReset: int)
    requires ServiceActive(config, key)
    requires Get(config.tierLimits, EffectiveTier(tier)).Some?
    requires !HasKey(Get(config.tierLimits, EffectiveTier(tier)).value, key)
    requires amount > 0
    requires quota.Some? ==> Used(quota.value, key) >= 0
    ensures !AddServiceUsage(Some(tier), Some(config), quota, key, amount, now, nextReset).ok
  {
  }

  /** An unlimited service accepts every increment. */
  lemma UnlimitedAccepts(userTier: Option<string>, config: Option<Config>, quota: Option<UsageQuota>,
                         key: string, amount: int, now: int, nextReset: int)
    requires ApplicableLimit(userTier, config, key) == Some(Unlimited)
    ensures AddServiceUsage(userTier, config, quota, key, amount, now, nextReset).ok
  {
  }

  /** An increment touches no other service's counter, whatever its outcome. */
  lemma OtherCountersUnchanged(userTier: Option<string>, config: Option<Config>, quota: UsageQuota,
                               key: string, amount: int, now: int, nextReset: int, other: string)
    requires other != key
    ensures var r := AddServiceUsage(userTier, config, Some(quota), key, amount, now, nextReset);
      r.quota.Some? && Used(r.quota.value, other) == Used(quota, other)
  {
  }

  /** With a finite limit, usage within the limit stays within it. */
  lemma StaysWithinLimit(userTier: Option<string>, config: Option<Config>, quota: UsageQuota,
                         key: string, amount: int, now: int, nextReset: int)
    requires ApplicableLimit(userTier, config, key).Some?
    requires ApplicableLimit(userTier, config, key).value != Unlimited
    requires Used(quota, key) <= ApplicableLimit(userTier, config, key).value
    ensures var r := AddServiceUsage(userTier, config, Some(quota), key, amount, now, nextReset);
      Used(r.quota.value, key) <= ApplicableLimit(userTier, config, key).value
  {
  }

  /** The two operations agree: a positive increment succeeds exactly when the
   *  reported `remaining` is unlimited or at least the amount. */
  lemma AddAgreesWithRemaining(userTier: Option<string>, config: Option<Config>, quota: Option<UsageQuota>,
                               key: string, amount: int, now: int, nextReset: int)
    requires amount > 0
    requires GetServiceQuota(userTier, config, quota, key).Some?
    ensures var info := GetServiceQuota(userTier, config, quota, key).value;
      AddServiceUsage(userTier, config, quota, key, amount, now, nextReset).ok
      <==> (info.remaining == -1 || amount <= info.remaining)
  {
  }

  /** After a reset every service reads as unused, so the whole limit remains. */
  lemma ResetRestoresFullQuota(quotas: map<string, UsageQuota>, now: int, nextReset: int,
                               user: string, userTier: Option<string>, config: Option<Config>, key: string)
    requires user in quotas
    requires ApplicableLimit(userTier, config, key).Some?
    requires ApplicableLimit(userTier, config, key).value >= 0
    ensures var info := GetServiceQuota(userTier, config, Some(ResetAllQuotas(quotas, now, nextReset)[user]), key).value;
      info.used == 0 && info.remaining == info.limit
  {
  }
}
