/** Per-service usage entries with warning and exceeded notifications, the
 *  initial quota and the periodic reset (src/lib/useQuota.ts). */
module UseQuota {
  import opened Wrappers
  import opened JsObject
  import opened ConfigData

  datatype UsageEntry = UsageEntry(quotaKey: string, usageCount: int)

  datatype Level = Warning | Exceeded

  datatype Notification = Notification(level: Level, quotaKey: string, currentUsage: int, limit: int)
  {
    /** The text stored with an exceeded notification. */
    function ExceededMessage(): string
    {
      "You have exceeded your " + quotaKey + " quota limit."
    }
  }

  datatype InitialQuota = InitialQuota(quotaResetDate: int, stripeCurrentPeriodEnd: Option<int>, quotaUsage: seq<UsageEntry>)

  const JobsCount: string := "JOBS_COUNT"

  /** `limits[key]?.limit`, where `undefined` and 0 both mean "skip". */
  function LimitFor(limits: Obj<QuotaLimit>, key: string): Option<int>
  {
    match Get(limits, key)
    case None => None
    case Some(q) => Some(q.limit)
  }

  /** The verdict on one usage entry. The percentage is an exact ratio here. */
  function Classify(count: int, limit: Option<int>): (r: Option<Level>)
    ensures (limit.None? || limit == Some(0)) ==> r.None?
    ensures r == Some(Exceeded) <==> limit.Some? && limit.value != 0 && count >= limit.value
    ensures limit.Some? && limit.value > 0 ==>
      (r == Some(Warning) <==> count < limit.value && 5 * count >= 4 * limit.value)
  {
    match limit
    case None => None
    case Some(l) =>
      if l == 0 then None
      else if count >= l then Some(Exceeded)
      else if (count as real / l as real) * 100.0 >= 80.0 then
        assert l > 0 ==> 5 * count >= 4 * l by {
          if l > 0 {
            assert (count as real / l as real) * l as real == count as real;
          }
        }
        Some(Warning)
      else
        assert l > 0 ==> 5 * count < 4 * l by {
          if l > 0 {
            assert (count as real / l as real) * l as real == count as real;
          }
        }
        None
  }

  /** The notifications for a list of usage entries, one at most per entry,
   *  in list order. */
  function Notifications(usages: seq<UsageEntry>, limits: Obj<QuotaLimit>): (r: seq<Notification>)
    ensures |r| <= |usages|
  {
    if |usages| == 0 then []
    else
      var u := usages[0];
      var rest := Notifications(usages[1..], limits);
      match Classify(u.usageCount, LimitFor(limits, u.quotaKey))
      case None => rest
      case Some(level) => [Notification(level, u.quotaKey, u.usageCount, LimitFor(limits, u.quotaKey).value)] + rest
  }

  /** `checkQuotaLimits`: nothing without a quota, a configuration with tier
   *  limits, or limits for this tier. Storing the notifications is left out. */
  method CheckQuotaLimits(usages: Option<seq<UsageEntry>>, tierLimits: Option<Obj<Obj<QuotaLimit>>>, tier: string)
    returns (r: seq<Notification>)
    ensures usages.None? || tierLimits.None? ==> r == []
    ensures tierLimits.Some? && !HasKey(tierLimits.value, tier) ==> r == []
    ensures usages.Some? && tierLimits.Some? && HasKey(tierLimits.value, tier) ==>
      r == Notifications(usages.value, Get(tierLimits.value, tier).value)
  {
    if usages.None? || tierLimits.None? {
      return [];
    }
    var limits := Get(tierLimits.value, tier);
    if limits.None? {
      return [];
    }
    var us := usages.value;
    var acc: seq<Notification> := [];
    var i := 0;
    while i < |us|
      invariant 0 <= i <= |us|
      invariant acc + Notifications(us[i..], limits.value) == Notifications(us, limits.value)
    {
      assert us[i..][1..] == us[i + 1..];
      var u := us[i];
      var level := Classify(u.usageCount, LimitFor(limits.value, u.quotaKey));
      if level.Some? {
        acc := acc + [Notification(level.value, u.quotaKey, u.usageCount, LimitFor(limits.value, u.quotaKey).value)];
      }
      i := i + 1;
    }
    r := acc;
  }

  /** Every notification comes from an entry of the list and carries that
   *  entry's key, count and limit. */
  lemma {:induction false} NotificationsComeFromEntries(usages: seq<UsageEntry>, limits: Obj<QuotaLimit>, n: Notification)
    requires n in Notifications(usages, limits)
    ensures exists i :: (0 <= i < |usages| && usages[i].quotaKey == n.quotaKey && usages[i].usageCount == n.currentUsage
      && LimitFor(limits, n.quotaKey) == Some(n.limit)
      && Classify(n.currentUsage, Some(n.limit)) == Some(n.level))
  {
    var u := usages[0];
    var rest := Notifications(usages[1..], limits);
    if n in rest {
      NotificationsComeFromEntries(usages[1..], limits, n);
      var i :| 0 <= i < |usages[1..]| && usages[1..][i].quotaKey == n.quotaKey && usages[1..][i].usageCount == n.currentUsage
        && LimitFor(limits, n.quotaKey) == Some(n.limit) && Classify(n.currentUsage, Some(n.limit)) == Some(n.level);
      assert usages[i + 1] == usages[1..][i];
    } else {
      assert usages[0].quotaKey == n.quotaKey;
    }
  }

  /** Every entry at or above 80% of a non-zero limit is reported. */
  lemma {:induction false} EntriesAreReported(usages: seq<UsageEntry>, limits: Obj<QuotaLimit>, i: nat)
    requires i < |usages|
    requires Classify(usages[i].usageCount, LimitFor(limits, usages[i].quotaKey)).Some?
    ensures Notification(Classify(usages[i].usageCount, LimitFor(limits, usages[i].quotaKey)).value,
                         usages[i].quotaKey, usages[i].usageCount, LimitFor(limits, usages[i].quotaKey).value)
            in Notifications(usages, limits)
  {
    if i > 0 {
      assert usages[1..][i - 1] == usages[i];
      EntriesAreReported(usages[1..], limits, i - 1);
    }
  }

  /** An unlimited (-1) service is not skipped: any non-negative count is
   *  reported as exceeded. */
  lemma UnlimitedReadsAsExceeded(count: nat)
    ensures Classify(count, Some(Unlimited)) == Some(Exceeded)
  {
  }

  /** `createInitialQuota`: one zero counter per key of the tier's limits, in
   *  key order. `defaultReset` is thirty days from now. */
  function CreateInitialQuota(config: Option<Obj<Obj<QuotaLimit>>>, userTier: Option<string>,
                              periodEnd: Option<int>, defaultReset: int): (r: Result<InitialQuota, string>)
    ensures config.None? ==> r == Err("Config not found")
    ensures config.Some? && userTier.None? ==> r == Err("User not found")
    ensures config.Some? && userTier.Some? && !HasKey(config.value, userTier.value) ==>
      r == Err("No tier limits found for tier: " + userTier.value)
    ensures r.Ok? ==>
      var limits := Get(config.value, userTier.value).value;
      && |r.value.quotaUsage| == |limits|
      && (forall i :: 0 <= i < |limits| ==> r.value.quotaUsage[i] == UsageEntry(limits[i].0, 0))
      && r.value.quotaResetDate == periodEnd.GetOr(defaultReset)
      && r.value.stripeCurrentPeriodEnd == periodEnd
  {
    if config.None? then Err("Config not found")
    else if userTier.None? then Err("User not found")
    else
      match Get(config.value, userTier.value)
      case None => Err("No tier limits found for tier: " + userTier.value)
      case Some(limits) =>
        var keys := Keys(limits);
        Ok(InitialQuota(periodEnd.GetOr(defaultReset), periodEnd, seq(|keys|, i requires 0 <= i < |keys| => UsageEntry(keys[i], 0))))
  }

  /** A fresh quota raises no notification unless some limit is negative;
   *  an unlimited (-1) service raises one at once. */
  lemma {:induction false} FreshQuotaSilent(entries: seq<UsageEntry>, limits: Obj<QuotaLimit>)
    requires forall i :: 0 <= i < |entries| ==> entries[i].usageCount == 0
    requires forall i :: 0 <= i < |limits| ==> limits[i].1.limit >= 0
    ensures Notifications(entries, limits) == []
  {
    if |entries| > 0 {
      var g := Get(limits, entries[0].quotaKey);
      if g.Some? {
        var k :| 0 <= k < |limits| && limits[k] == (entries[0].quotaKey, g.value);
      }
      FreshQuotaSilent(entries[1..], limits);
    }
  }

  lemma FreshQuotaFlagsUnlimited(config: Obj<Obj<QuotaLimit>>, tier: string, periodEnd: Option<int>, defaultReset: int, i: nat)
    requires HasKey(config, tier)
    requires WellFormed(Get(config, tier).value)
    requires i < |Get(config, tier).value| && Get(config, tier).value[i].1.limit == Unlimited
    ensures var q := CreateInitialQuota(Some(config), Some(tier), periodEnd, defaultReset).value;
      Notification(Exceeded, Get(config, tier).value[i].0, 0, Unlimited) in Notifications(q.quotaUsage, Get(config, tier).value)
  {
    var limits := Get(config, tier).value;
    var q := CreateInitialQuota(Some(config), Some(tier), periodEnd, defaultReset).value;
    GetAt(limits, i);
    EntriesAreReported(q.quotaUsage, limits, i);
  }

  function Count(xs: seq<UsageEntry>, key: string): nat
  {
    if |xs| == 0 then 0 else (if xs[0].quotaKey == key then 1 else 0) + Count(xs[1..], key)
  }

  function KeepOnly(xs: seq<UsageEntry>, key: string): (r: seq<UsageEntry>)
    ensures forall i :: 0 <= i < |r| ==> r[i].quotaKey == key
    ensures Count(r, key) == Count(xs, key)
  {
    if |xs| == 0 then []
    else if xs[0].quotaKey == key then [xs[0]] + KeepOnly(xs[1..], key)
    else KeepOnly(xs[1..], key)
  }

  function Find(xs: seq<UsageEntry>, key: string): (r: Option<UsageEntry>)
    ensures r.None? <==> Count(xs, key) == 0
    ensures r.Some? ==> r.value in xs && r.value.quotaKey == key
  {
    if |xs| == 0 then None
    else if xs[0].quotaKey == key then Some(xs[0])
    else Find(xs[1..], key)
  }

  /** `resetQuota` as written: the delete spares every JOBS_COUNT entry, and
   *  then a copy of the first one is created as well. */
  function ResetQuotaAsWritten(usage: Option<seq<UsageEntry>>): (r: Result<seq<UsageEntry>, string>)
    ensures usage.None? <==> r == Err("User quota not found")
    ensures r.Ok? ==> forall i :: 0 <= i < |r.value| ==> r.value[i].quotaKey == JobsCount
  {
    match usage
    case None => Err("User quota not found")
    case Some(xs) =>
      var kept := KeepOnly(xs, JobsCount);
      match Find(xs, JobsCount)
      case None => Ok(kept)
      case Some(e) => Ok(kept + [UsageEntry(JobsCount, e.usageCount)])
  }

  lemma {:induction false} CountAppend(a: seq<UsageEntry>, b: seq<UsageEntry>, key: string)
    ensures Count(a + b, key) == Count(a, key) + Count(b, key)
  {
    if |a| > 0 {
      assert (a + b)[1..] == a[1..] + b;
      CountAppend(a[1..], b, key);
    } else {
      assert a + b == b;
    }
  }

  /** The as-written reset doubles a single JOBS_COUNT entry. */
  lemma ResetQuotaDuplicatesJobsCount(xs: seq<UsageEntry>)
    requires Count(xs, JobsCount) == 1
    ensures Count(ResetQuotaAsWritten(Some(xs)).value, JobsCount) == 2
  {
    var kept := KeepOnly(xs, JobsCount);
    var e := Find(xs, JobsCount).value;
    CountAppend(kept, [UsageEntry(JobsCount, e.usageCount)], JobsCount);
  }

  /** A concrete case: one JOBS_COUNT entry and one other counter. */
  lemma ResetQuotaExample()
    ensures ResetQuotaAsWritten(Some([UsageEntry(JobsCount, 3), UsageEntry("GENAI_RESUME", 5)]))
         == Ok([UsageEntry(JobsCount, 3), UsageEntry(JobsCount, 3)])
  {
    var xs := [UsageEntry(JobsCount, 3), UsageEntry("GENAI_RESUME", 5)];
    assert xs[1..][1..] == [];
    assert xs[1].quotaKey != JobsCount by {
      assert xs[1].quotaKey[0] == 'G' && JobsCount[0] == 'J';
    }
    assert KeepOnly(xs[1..], JobsCount) == [];
    assert KeepOnly(xs, JobsCount) == [UsageEntry(JobsCount, 3)];
    assert Find(xs, JobsCount) == Some(UsageEntry(JobsCount, 3));
    assert [UsageEntry(JobsCount, 3)] + [UsageEntry(JobsCount, 3)] == [UsageEntry(JobsCount, 3), UsageEntry(JobsCount, 3)];
  }

  /** `resetQuota` as intended: every counter but JOBS_COUNT is cleared and
   *  JOBS_COUNT, when present, keeps its first value exactly once. */
  function ResetQuota(usage: Option<seq<UsageEntry>>): (r: Result<seq<UsageEntry>, string>)
    ensures usage.None? <==> r == Err("User quota not found")
    ensures r.Ok? ==> Count(r.value, JobsCount) == (if Count(usage.value, JobsCount) > 0 then 1 else 0)
    ensures r.Ok? ==> forall i :: 0 <= i < |r.value| ==> r.value[i].quotaKey == JobsCount
    ensures r.Ok? && Count(usage.value, JobsCount) > 0 ==> r.value == [Find(usage.value, JobsCount).value]
  {
    match usage
    case None => Err("User quota not found")
    case Some(xs) =>
      match Find(xs, JobsCount)
      case None => Ok([])
      case Some(e) => Ok([e])
  }

  /** After the intended reset no counter other than JOBS_COUNT can raise a
   *  notification. */
  lemma ResetQuotaSilencesOthers(xs: seq<UsageEntry>, limits: Obj<QuotaLimit>, n: Notification)
    requires n in Notifications(ResetQuota(Some(xs)).value, limits)
    ensures n.quotaKey == JobsCount
  {
    NotificationsComeFromEntries(ResetQuota(Some(xs)).value, limits, n);
  }
}
