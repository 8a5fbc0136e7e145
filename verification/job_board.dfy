/** The quota check run before a job-board action, and the user-attribute
 *  defaults (src/app/actions/server/job-board/primary.ts). */
module JobBoard {
  import opened Wrappers
  import opened ConfigData

  /** The declared `ActionType` values, plus any other string a caller passes. */
  datatype Action = Job | CoverLetter | Resume | Email | OtherAction(name: string)

  /** The numeric limits the check reads for one tier: the per-tier record
   *  `{ jobs, coverLetters, contactEmails }` that the configuration defaults
   *  are written with (src/app/actions/server/admin/config/primary.ts). */
  datatype ActionLimits = ActionLimits(jobs: int, coverLetters: int, contactEmails: int)

  datatype UserRecord = UserRecord(onBoardingComplete: bool, role: string, tier: string)

  datatype QuotaRecord = QuotaRecord(emailsUsed: int, aiCoverLettersUsed: int)

  datatype QuotaCheck = QuotaCheck(allowed: bool, remaining: int, limit: int, used: int)

  /** The errors `srv_func_verifyTiers` throws, checked in this order. A tier
   *  with no limits makes the field read throw a `TypeError`. */
  datatype VerifyError = UserNotFound | ConfigNotFound | QuotaNotFound | NoLimitsForTier | InvalidActionType
  {
    function Message(): string
    {
      match this
      case UserNotFound => "User not found"
      case ConfigNotFound => "Config not found"
      case QuotaNotFound => "Quota not found"
      case NoLimitsForTier => "TypeError"
      case InvalidActionType => "Invalid action type"
    }
  }

  datatype Attributes = Attributes(onboardingComplete: bool, role: string, tier: string)

  /** `srv_checkUserAttributes`: falsy or missing fields take their defaults. */
  function CheckUserAttributes(user: Option<UserRecord>): (r: Attributes)
    ensures user.None? ==> r == Attributes(false, "user", "free")
    ensures r.role != "" && r.tier != ""
    ensures user.Some? ==> r.onboardingComplete == user.value.onBoardingComplete
    ensures user.Some? && user.value.role != "" ==> r.role == user.value.role
    ensures user.Some? && user.value.tier != "" ==> r.tier == user.value.tier
  {
    match user
    case None => Attributes(false, "user", "free")
    case Some(u) =>
      Attributes(u.onBoardingComplete, if u.role == "" then "user" else u.role, if u.tier == "" then "free" else u.tier)
  }

  /** One category's verdict: allowed while below a finite limit. */
  function Check(limit: int, used: int): (r: QuotaCheck)
    ensures r.allowed <==> limit == Unlimited || used < limit
    ensures r.remaining == Remaining(limit, used)
    ensures r.limit == limit && r.used == used
  {
    QuotaCheck(limit == Unlimited || used < limit, Remaining(limit, used), limit, used)
  }

  /** `srv_func_verifyTiers` as intended: the tier's record is found (as
   *  `config.tierLimits.get(user.tier)` would find it) and its numbers are
   *  compared. `jobCount` is the number of the user's jobs. */
  function VerifyTiers(user: Option<UserRecord>, configPresent: bool, quota: Option<QuotaRecord>,
                       tierLimits: map<string, ActionLimits>, jobCount: nat, action: Action): (r: Result<QuotaCheck, VerifyError>)
    ensures user.None? ==> r == Err(UserNotFound)
    ensures user.Some? && !configPresent ==> r == Err(ConfigNotFound)
    ensures user.Some? && configPresent && quota.None? ==> r == Err(QuotaNotFound)
    ensures (action.Resume? || action.OtherAction?) && user.Some? && configPresent && quota.Some? ==>
      r == Err(InvalidActionType)
    ensures r.Ok? ==> user.Some? && user.value.tier in tierLimits && quota.Some?
    ensures r.Ok? && action.Job? ==> r.value == Check(tierLimits[user.value.tier].jobs, jobCount)
    ensures r.Ok? && action.CoverLetter? ==>
      r.value == Check(tierLimits[user.value.tier].coverLetters, quota.value.aiCoverLettersUsed)
    ensures r.Ok? && action.Email? ==>
      r.value == Check(tierLimits[user.value.tier].contactEmails, quota.value.emailsUsed)
  {
    if user.None? then Err(UserNotFound)
    else if !configPresent then Err(ConfigNotFound)
    else if quota.None? then Err(QuotaNotFound)
    else
      var q := quota.value;
      match action
      case Resume => Err(InvalidActionType)
      case OtherAction(_) => Err(InvalidActionType)
      case _ =>
        if user.value.tier !in tierLimits then Err(NoLimitsForTier)
        else
          var limits := tierLimits[user.value.tier];
          match action
          case Job => Ok(Check(limits.jobs, jobCount))
          case CoverLetter => Ok(Check(limits.coverLetters, q.aiCoverLettersUsed))
          case Email => Ok(Check(limits.contactEmails, q.emailsUsed))
  }

  /** `srv_func_verifyTiers` as written, on the stored configuration
   *  document. Its `tierLimits` is a Mongoose `Map` (src/models/Config.ts),
   *  and `config.tierLimits[user.tier]` reads an object property of the
   *  `Map`, not one of its entries: it is `undefined` for every tier, so
   *  reading `.jobs`, `.coverLetters` or `.contactEmails` from it throws a
   *  `TypeError`. Tier names that are members of `Map` itself (`size`,
   *  `get`, ...) are not modelled. */
  function VerifyTiersAsWritten(user: Option<UserRecord>, config: Option<Config>, quota: Option<QuotaRecord>,
                                jobCount: nat, action: Action): (r: Result<QuotaCheck, VerifyError>)
    ensures r.Err?
    ensures user.None? ==> r == Err(UserNotFound)
    ensures user.Some? && config.None? ==> r == Err(ConfigNotFound)
    ensures user.Some? && config.Some? && quota.None? ==> r == Err(QuotaNotFound)
    ensures user.Some? && config.Some? && quota.Some? ==>
      (r == Err(InvalidActionType) <==> action.Resume? || action.OtherAction?)
  {
    if user.None? then Err(UserNotFound)
    else if config.None? then Err(ConfigNotFound)
    else if quota.None? then Err(QuotaNotFound)
    else
      match action
      case Resume => Err(InvalidActionType)
      case OtherAction(_) => Err(InvalidActionType)
      case _ => Err(NoLimitsForTier)  // a field read of `undefined`
  }

  /** The stored configuration never lets a handled action through: where
   *  the intended check gives a verdict for a tier with limits, the code as
   *  written throws a `TypeError`, whatever the configuration holds. */
  lemma StoredConfigNeverDecides(user: UserRecord, config: Config, quota: QuotaRecord,
                                 tierLimits: map<string, ActionLimits>, jobCount: nat, action: Action)
    requires action.Job? || action.CoverLetter? || action.Email?
    requires user.tier in tierLimits
    ensures VerifyTiersAsWritten(Some(user), Some(config), Some(quota), jobCount, action) == Err(NoLimitsForTier)
    ensures VerifyTiers(Some(user), true, Some(quota), tierLimits, jobCount, action).Ok?
  {
    HandledActionsDecide(user, quota, tierLimits, jobCount, action);
  }

  /** With a non-negative count, an action is allowed exactly when something
   *  remains (unlimited reads as -1, which is not 0). */
  lemma AllowedIffSomethingRemains(limit: int, used: int)
    requires used >= 0
    ensures Check(limit, used).allowed <==> Check(limit, used).remaining != 0
  {
  }

  /** Every call with user, configuration and quota present, and a tier with
   *  limits, gives a verdict for the three handled actions. */
  lemma HandledActionsDecide(user: UserRecord, quota: QuotaRecord, tierLimits: map<string, ActionLimits>,
                             jobCount: nat, action: Action)
    requires action.Job? || action.CoverLetter? || action.Email?
    requires user.tier in tierLimits
    ensures VerifyTiers(Some(user), true, Some(quota), tierLimits, jobCount, action).Ok?
  {
  }
}
