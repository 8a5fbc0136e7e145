/** Fixed per-tier counters for jobs, cover letters and e-mails, with a
 *  monthly reset applied on read (src/utils/quota-manager.ts). */
module QuotaManager {
  import opened Wrappers
  import opened ConfigData

  datatype Limits = Limits(jobs: int, coverLetters: int, emails: int)

  /** The stored quota document. */
  datatype QuotaDoc = QuotaDoc(emailsUsed: int, coverLettersUsed: int, quotaResetDate: int, dateUpdated: int)

  datatype Category = Category(used: int, limit: int, remaining: int)

  datatype QuotaReport = QuotaReport(jobs: Category, coverLetters: Category, emails: Category, resetDate: int)

  /** The document as stored after the call, and the report or the thrown message. */
  datatype GetOutcome = GetOutcome(stored: Option<QuotaDoc>, report: Result<QuotaReport, string>)

  datatype CounterKind = Emails | CoverLetters

  /** `TIER_LIMITS`; any other tier has no entry. */
  function TierLimits(tier: string): Option<Limits>
  {
    if tier == "free" then Some(Limits(50, 10, 2))
    else if tier == "pro" then Some(Limits(Unlimited, 25, 50))
    else if tier == "power" then Some(Limits(Unlimited, Unlimited, 100))
    else None
  }

  /** Each paid tier allows at least what the tier below it allows, counting
   *  unlimited as more than any number. */
  lemma TiersAreOrdered()
    ensures AtLeast(TierLimits("pro").value, TierLimits("free").value)
    ensures AtLeast(TierLimits("power").value, TierLimits("pro").value)
  {
  }

  predicate AtLeastLimit(a: int, b: int)
  {
    a == Unlimited || (b != Unlimited && a >= b)
  }

  predicate AtLeast(a: Limits, b: Limits)
  {
    AtLeastLimit(a.jobs, b.jobs) && AtLeastLimit(a.coverLetters, b.coverLetters) && AtLeastLimit(a.emails, b.emails)
  }

  function CategoryOf(limit: int, used: int): Category
  {
    Category(used, limit, Remaining(limit, used))
  }

  /** The reset condition: no document yet, or its reset date already passed. */
  predicate NeedsReset(quota: Option<QuotaDoc>, now: int)
  {
    quota.None? || quota.value.quotaResetDate < now
  }

  /** `getUserQuota`. The reset is written before the tier is looked up, so an
   *  unknown tier still leaves the reset document behind. */
  function GetUserQuota(userTier: Option<string>, quota: Option<QuotaDoc>, jobCount: nat, now: int, nextReset: int): (r: GetOutcome)
    ensures userTier.None? ==> r == GetOutcome(quota, Err("User not found"))
    ensures userTier.Some? && NeedsReset(quota, now) ==>
      r.stored.Some? && r.stored.value.emailsUsed == 0 && r.stored.value.coverLettersUsed == 0
      && r.stored.value.quotaResetDate == nextReset
    ensures !NeedsReset(quota, now) ==> r.stored == quota
    ensures r.report.Ok? <==> userTier.Some? && TierLimits(userTier.value).Some?
    ensures r.report.Ok? ==>
      var limits := TierLimits(userTier.value).value;
      var doc := r.stored.value;
      && r.report.value.jobs == Category(jobCount, limits.jobs, Remaining(limits.jobs, jobCount))
      && r.report.value.coverLetters.used == doc.coverLettersUsed
      && r.report.value.coverLetters.remaining == Remaining(limits.coverLetters, doc.coverLettersUsed)
      && r.report.value.emails.used == doc.emailsUsed
      && r.report.value.emails.remaining == Remaining(limits.emails, doc.emailsUsed)
      && r.report.value.resetDate == doc.quotaResetDate
  {
    match userTier
    case None => GetOutcome(quota, Err("User not found"))
    case Some(tier) =>
      var doc :=
        if NeedsReset(quota, now) then
          match quota
          case None => QuotaDoc(0, 0, nextReset, now)
          case Some(q) => q.(emailsUsed := 0, coverLettersUsed := 0, quotaResetDate := nextReset, dateUpdated := now)
        else quota.value;
      match TierLimits(tier)
      case None => GetOutcome(Some(doc), Err("TypeError"))
      case Some(limits) =>
        GetOutcome(Some(doc), Ok(QuotaReport(
          CategoryOf(limits.jobs, jobCount),
          CategoryOf(limits.coverLetters, doc.coverLettersUsed),
          CategoryOf(limits.emails, doc.emailsUsed),
          doc.quotaResetDate)))
  }

  /** `incrementQuota`: one more use of the chosen counter, with no limit
   *  check at all. */
  function IncrementQuota(quota: Option<QuotaDoc>, kind: CounterKind, now: int): (r: Result<QuotaDoc, string>)
    ensures quota.None? <==> r == Err("Quota not found")
    ensures r.Ok? && kind == Emails ==>
      r.value.emailsUsed == quota.value.emailsUsed + 1 && r.value.coverLettersUsed == quota.value.coverLettersUsed
    ensures r.Ok? && kind == CoverLetters ==>
      r.value.coverLettersUsed == quota.value.coverLettersUsed + 1 && r.value.emailsUsed == quota.value.emailsUsed
    ensures r.Ok? ==> r.value.quotaResetDate == quota.value.quotaResetDate
  {
    match quota
    case None => Err("Quota not found")
    case Some(q) =>
      if kind == Emails then Ok(q.(emailsUsed := q.emailsUsed + 1, dateUpdated := now))
      else Ok(q.(coverLettersUsed := q.coverLettersUsed + 1, dateUpdated := now))
  }

  /** The string parameter of `incrementQuota`: anything but "emails" counts a
   *  cover letter. */
  function KindOf(s: string): (k: CounterKind)
    ensures k == Emails <==> s == "emails"
  {
    if s == "emails" then Emails else CoverLetters
  }

  /** Reading does not undo an increment within the current period: the next
   *  report shows exactly one more e-mail used, and one less remaining while
   *  the limit is finite and not yet reached. */
  lemma IncrementShowsInReport(tier: string, q: QuotaDoc, jobCount: nat, now: int, later: int, nextReset: int)
    requires TierLimits(tier).Some?
    requires now <= later <= q.quotaResetDate
    ensures var before := GetUserQuota(Some(tier), Some(q), jobCount, now, nextReset).report.value;
      var q2 := IncrementQuota(Some(q), Emails, now).value;
      var after := GetUserQuota(Some(tier), Some(q2), jobCount, later, nextReset).report.value;
      && after.emails.used == before.emails.used + 1
      && after.coverLetters == before.coverLetters
      && (before.emails.remaining > 0 ==> after.emails.remaining == before.emails.remaining - 1)
  {
  }

  /** A read after the reset date reports both counters as unused and the
   *  whole finite limit as remaining. */
  lemma ResetReportsFullLimits(tier: string, q: Option<QuotaDoc>, jobCount: nat, now: int, nextReset: int)
    requires TierLimits(tier).Some?
    requires NeedsReset(q, now)
    ensures var rep := GetUserQuota(Some(tier), q, jobCount, now, nextReset).report.value;
      && rep.emails.used == 0 && rep.coverLetters.used == 0
      && rep.emails.remaining == TierLimits(tier).value.emails
      && (TierLimits(tier).value.coverLetters != Unlimited ==> rep.coverLetters.remaining == TierLimits(tier).value.coverLetters)
  {
  }
}
