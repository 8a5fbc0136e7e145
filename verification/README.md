# AppliedTrack decision rules in Dafny

AppliedTrack is a job-application tracker. A user keeps a board of applications and moves them through statuses. Language-model and e-mail-finder services are metered by per-tier quotas (free, pro, power). Subscriptions come from Stripe. Administrators get a dashboard, user management, tier configuration, logs, backups, migrations and a roadmap board. Two small Python services sit next to it: a social-media auto-poster and a LaTeX-to-PDF converter.

This project models the decision logic of that code base as pure functions over immutable data. Each piece is a quota rule, a webhook transition, a UI handler, a list transform, a string normaliser or a request's ordered checks. The contracts and lemmas state what each piece promises. Time, randomness, database reads, identity-provider lookups and subprocess results are parameters.

Layout: one module per source file, named after it.
- The quota core:
  - `tier_limits.dfy` (`TierLimits`), `config.dfy` (`ConfigData`);
  - `job_board.dfy`, `quota_manager.dfy`, `use_quota.dfy`, `subscription.dfy`;
  - `quota_indicator.dfy` (the header), `tier_config.dfy`.
- Billing: `stripe_webhook.dfy`, `stripe_legacy_webhook.dfy`, `settings_actions.dfy`, `subscription_notice.dfy`.
- Dashboard UI:
  - `applied_track.dfy`, `job_card.dfy`, `job.dfy` (`JobRecord`, the job record and the status cycle the dashboards share), `dashboard_applications.dfy`;
  - `clearbit.dfy`, `job_title_autocomplete.dfy`, `pdf_viewer.dfy`, `onboarding.dfy`.
- Admin and routes:
  - `roadmap.dfy`, `admin_dashboard.dfy`, `admin_users.dfy`, `user_mgmt.dfy`, `add_service.dfy`;
  - `check_role.dfy`, `tier_only.dfy`, `jobs_route.dfy`, `hunter.dfy`;
  - `domains.dfy`: the host part of a website, shared by the job card and the Hunter route;
  - `job_titles.dfy`: the suggestion route and the two builders of its lookup tables;
  - `service_usage.dfy`, `logs_route.dfy`;
  - `backups.dfy`, `waitlist.dfy`, `migrations.dfy`.
- Python services: `auto_poster.dfy`, `latex_service.dfy`.
- Shared helpers:
  - `wrappers.dfy` (`Option`, `Result`);
  - `js_object.dfy`: JavaScript objects whose key order is observable, as association lists;
  - `lists.dfy`: filter, find, map-where;
  - `sorting.dfy`: the stable sort `Array.prototype.sort` performs;
  - `text.dfy`: ASCII case mapping, trimming, splitting, searching and number text.

A limit of `-1` means unlimited throughout, as in the source.

## Model

| member | source | states |
|---|---|---|
| ConfigData.Remaining | src/lib/tierlimits.ts:143 | -1 for an unlimited service; otherwise never negative, at least the limit minus the usage, and when something remains, usage plus remainder is the limit |
| TierLimits.ApplicableLimit | src/lib/tierlimits.ts:45-68 | a limit is found only with a user, a configuration, an active service and limits for the user's tier (`tier` defaulting to free) |
| TierLimits.AddServiceUsage | src/lib/tierlimits.ts:43-111 | the intended counting, with `usage` a path of the quota document: refused without a limit and nothing changes; otherwise the quota exists afterwards, the increment succeeds iff the limit is -1 or used + amount stays within it, and success sets usage[key] to old-or-0 plus amount while refusal leaves the quota as it was |
| TierLimits.GetServiceQuota | src/lib/tierlimits.ts:113-155 | the intended read, with `usage` a path of the quota document: a result exists iff a limit applies; it echoes the limit, reads missing usage as 0, and remaining is -1 exactly for an unlimited service, else max(0, limit - used) |
| TierLimits.AddServiceUsageAsWritten | src/lib/tierlimits.ts:43-111 | as written every call answers false; the quota document is created when a limit applies and none exists, with no counters, and is otherwise left as it was |
| TierLimits.GetServiceQuotaAsWritten | src/lib/tierlimits.ts:113-155 | as written an answer comes exactly when a limit applies and the user has no quota document; it reports nothing used, the limit, and the whole limit (or -1) remaining |
| TierLimits.UsageNeverCounted | src/lib/tierlimits.ts:80-97 | an increment the intended code accepts is refused as written, and the counter it would have changed keeps its value |
| TierLimits.StoredQuotaHidesLimit | src/lib/tierlimits.ts:71-138 | after any increment attempt the quota document exists, so the read as written gives null where the intended read reports the limit |
| TierLimits.ResetAllQuotas | src/lib/tierlimits.ts:157-168 | every quota document, and only those, ends with empty usage and the next reset date |
| TierLimits.InactiveServiceRefused | src/lib/tierlimits.ts:57-65 | an unknown or inactive service is refused and the quota is not even created |
| TierLimits.UnlistedServiceRefused | src/lib/tierlimits.ts:67-83 | a service missing from the tier's limits has limit 0, so every positive increment is refused |
| TierLimits.UnlimitedAccepts | src/lib/tierlimits.ts:82-95 | a limit of -1 accepts every increment |
| TierLimits.OtherCountersUnchanged | src/lib/tierlimits.ts:80-95 | no other service's counter changes, whatever the outcome |
| TierLimits.StaysWithinLimit | src/lib/tierlimits.ts:83-95 | with a finite limit, usage within the limit before a call stays within it after |
| TierLimits.AddAgreesWithRemaining | src/lib/tierlimits.ts:83-143 | a positive increment succeeds exactly when the reported remaining is -1 or at least the amount |
| TierLimits.ResetRestoresFullQuota | src/lib/tierlimits.ts:138-168 | after a reset every service reads 0 used and its whole limit remaining |
| JobBoard.CheckUserAttributes | src/app/actions/server/job-board/primary.ts:21-24 | a missing user reads as onboarding false, role 'user', tier 'free'; a present user keeps its flag and its non-empty role and tier |
| JobBoard.Check | src/app/actions/server/job-board/primary.ts:64-69 | allowed iff the limit is -1 or used is below it; remaining -1 for unlimited else max(0, limit - used); limit and used are echoed |
| JobBoard.VerifyTiers | src/app/actions/server/job-board/primary.ts:26-96 | the intended check, reading the tier's record from the stored limits: missing user, configuration and quota fail in that order; 'resume' and any other action fail with 'Invalid action type'; job, cover letter and e-mail compare the job count and the two quota counters with the tier's limits |
| JobBoard.AllowedIffSomethingRemains | src/app/actions/server/job-board/primary.ts:65-66 | with a non-negative count, allowed holds exactly when remaining is not 0 |
| JobBoard.HandledActionsDecide | src/app/actions/server/job-board/primary.ts:61-88 | in the intended check, with every record present and limits for the tier, the three handled actions always give a verdict |
| JobBoard.VerifyTiersAsWritten | src/app/actions/server/job-board/primary.ts:26-96 | the check as written never succeeds: the same not-found errors in the same order, 'Invalid action type' exactly for 'resume' and other actions, and otherwise the bracket read of the stored Map gives no limits, so the limit read throws |
| JobBoard.StoredConfigNeverDecides | src/app/actions/server/job-board/primary.ts:50-88 | for a handled action and a tier that has limits, the check as written fails while the intended check gives a verdict |
| QuotaManager.TiersAreOrdered | src/utils/quota-manager.ts:5-21 | pro allows at least what free allows and power at least what pro allows, unlimited counting as more than any number |
| QuotaManager.GetUserQuota | src/utils/quota-manager.ts:23-68 | an unknown user throws; with no quota or a passed reset date both counters are zeroed and the next reset date stored, otherwise the document is untouched; a known tier reports each category's used and remaining (-1 or max(0, limit - used)) and the reset date |
| QuotaManager.IncrementQuota | src/utils/quota-manager.ts:70-84 | a missing quota throws; otherwise exactly the chosen counter grows by 1, with no limit check, and the other counter and the reset date stay |
| QuotaManager.KindOf | src/utils/quota-manager.ts:74 | the e-mail counter is chosen exactly for "emails", the cover-letter counter for anything else |
| QuotaManager.IncrementShowsInReport | src/utils/quota-manager.ts:29-80 | within the period, a read after an increment shows one more e-mail used, one less remaining while some remained, and the cover letters unchanged |
| QuotaManager.ResetReportsFullLimits | src/utils/quota-manager.ts:29-65 | a read past the reset date reports both counters at 0 and the whole finite limit remaining |
| UseQuota.Classify | src/lib/useQuota.ts:53-75 | an absent or zero limit gives nothing; a count at or above the limit is exceeded; otherwise a count at 80% of a positive limit or more is a warning |
| UseQuota.Notifications | src/lib/useQuota.ts:49-76 | at most one notification per usage entry |
| UseQuota.CheckQuotaLimits | src/lib/useQuota.ts:26-102 | no quota, no tier limits, or no limits for the tier give []; otherwise the result is the per-entry classification in quotaUsage order |
| UseQuota.NotificationsComeFromEntries | src/lib/useQuota.ts:52-75 | every notification carries the key, count and limit of some usage entry |
| UseQuota.EntriesAreReported | src/lib/useQuota.ts:52-75 | every entry that classifies as warning or exceeded is reported with its key, count and limit |
| UseQuota.UnlimitedReadsAsExceeded | src/lib/useQuota.ts:54-58 | a limit of -1 is not skipped, and any non-negative count is reported as exceeded |
| UseQuota.CreateInitialQuota | src/lib/useQuota.ts:104-161 | missing configuration, user or tier limits throw in that order; otherwise one zero counter per key of the tier's limits, in key order, and the reset date is the period end or the thirty-day default |
| UseQuota.FreshQuotaSilent | src/lib/useQuota.ts:52-136 | zero counters raise no notification while no limit is negative |
| UseQuota.FreshQuotaFlagsUnlimited | src/lib/useQuota.ts:54-136 | a fresh quota already reports an unlimited service as exceeded |
| UseQuota.KeepOnly | src/lib/useQuota.ts:179-184 | the delete keeps only entries with the spared key, and every one of them |
| UseQuota.Find | src/lib/useQuota.ts:176 | `find` fails exactly when no entry has the key, and otherwise returns an entry with that key |
| UseQuota.ResetQuotaAsWritten | src/lib/useQuota.ts:163-193 | a missing quota throws; the surviving entries are all JOBS_COUNT |
| UseQuota.ResetQuotaDuplicatesJobsCount | src/lib/useQuota.ts:176-193 | as written, a single JOBS_COUNT entry becomes two |
| UseQuota.ResetQuotaExample | src/lib/useQuota.ts:176-193 | a quota with JOBS_COUNT 3 and one other counter resets to two JOBS_COUNT 3 entries |
| UseQuota.CountAppend | src/lib/useQuota.ts:179-193 | counting entries with a key distributes over the delete's survivors and the created entries |
| UseQuota.ResetQuota | src/lib/useQuota.ts:163-193 | as intended: a missing quota throws; exactly one JOBS_COUNT entry with its first value remains when one existed, none otherwise, and every other counter is gone |
| UseQuota.ResetQuotaSilencesOthers | src/lib/useQuota.ts:176-193 | after the intended reset only JOBS_COUNT can raise a notification |
| Subscription.ParseTier | src/lib/subscription.ts:14-30 | a stored tier string is read as a tier only when it names one of the three |
| Subscription.TierLimitsIncrease | src/lib/subscription.ts:14-30 | free < pro < power in applications, notes and documents |
| Subscription.CanDowngradeTier | src/lib/subscription.ts:32-104 | no quota allows the downgrade; otherwise missing counters read 0, the downgrade is allowed iff all three fit under the new limits, a refusal carries the reason of the first of applications, notes, documents that is strictly over, and allowed exactly when no reason is given |
| Subscription.DowngradeAtLimitAllowed | src/lib/subscription.ts:62-78 | usage exactly at the new limits is allowed |
| Subscription.DowngradeMonotone | src/lib/subscription.ts:14-84 | a move allowed to some tier is allowed to every higher tier |
| Subscription.EnforceQuotaLimits | src/lib/subscription.ts:106-153 | false for a missing user, true for a missing quota, otherwise true iff the tier is known and all three usages are within its limits |
| Subscription.EnforceAgreesWithDowngrade | src/lib/subscription.ts:62-145 | enforcement passes exactly when a downgrade to the user's own tier would be allowed |
| Subscription.StatusDisplay | src/lib/subscription.ts:161-177 | 'Free' for free; otherwise the capitalised tier, followed by " (Cancels on …)" exactly when cancelled with a period end |
| QuotaIndicator.UsageFor | src/components/header/index.tsx:182-183 | a service's usage is the count of its first entry, or 0 when there is none |
| QuotaIndicator.GetServiceUsage | src/components/header/index.tsx:166-210 | inactive or unconfigured services, services without a tier limit and zero limits give nothing; otherwise used, limit, display name, and percentage used/limit·100 for a positive limit and 0 for unlimited |
| QuotaIndicator.ServicesExact | src/components/header/index.tsx:212-215 | a service is listed exactly when it qualifies, with what `getServiceUsage` gives for it |
| QuotaIndicator.ServicesInKeyOrder | src/components/header/index.tsx:213-215 | services are listed in `serviceNames` key order |
| QuotaIndicator.Render | src/components/header/index.tsx:146-226 | loading or missing data shows the placeholder; nothing is rendered exactly when no service qualifies; otherwise the services are shown with their mean percentage |
| QuotaIndicator.ProgressValue | src/components/header/index.tsx:298-300 | the bar is hidden exactly for limit -1 and otherwise capped at 100 |
| QuotaIndicator.ColourMatchesNotification | src/components/header/index.tsx:230-234 | for a positive limit the colour is destructive exactly at or above the limit and yellow exactly from 80% below it, the levels `checkQuotaLimits` uses |
| QuotaIndicator.SumBounds | src/components/header/index.tsx:225-226 | percentages within 0..100 sum to at most 100 per service |
| QuotaIndicator.MeanWithinRange | src/components/header/index.tsx:225-226 | with every service within its limit the mean is itself within 0..100 |
| TierConfig.HandleInputChange | src/app/admin/components/tier-config.tsx:112-129 | a no-op without a configuration; otherwise the services stay and the (tier, service) limit object becomes exactly {limit: 0 for '' else the parsed number}, dropping any other field |
| TierConfig.EditTouchesOneEntry | src/app/admin/components/tier-config.tsx:115-126 | an edit leaves every other tier and every other service of the edited tier as they were |
| TierConfig.DisplayedLimit | src/app/admin/components/tier-config.tsx:191-199 | a missing limit reads as 0 and 0 is shown as an empty input |
| TierConfig.InputRoundTrip | src/app/admin/components/tier-config.tsx:122-199 | typing a number and reading the input back shows that number, and typing 0 or clearing the input shows an empty input |
| TierConfig.ToggleService | src/app/admin/components/tier-config.tsx:229-240 | the switch changes only that service's `active` flag; keys, other services and tier limits stay |
| TierConfig.EditDescription | src/app/admin/components/tier-config.tsx:251-263 | the description field changes only that service's description |
| TierConfig.ToggleTwiceRestores | src/app/admin/components/tier-config.tsx:229-240 | switching a service to the other state and back restores the configuration exactly |
| TierConfig.FilterQuotaRows | src/app/admin/components/tier-config.tsx:295-298 | the table keeps exactly the rows whose e-mail contains the query, ignoring case |
| TierConfig.EmptyQueryKeepsAll | src/app/admin/components/tier-config.tsx:295-298 | an empty search shows every row in order |
| TierConfig.UsageCells | src/app/admin/components/tier-config.tsx:306-310 | one cell per service in key order, a missing usage shown as 0 |
| StripeWebhook.PriceTier | src/app/api/webhooks/stripe/route.ts:105-113 | the pro price id gives 'pro', otherwise the power price id gives 'power', anything else 'free' |
| StripeWebhook.EffectiveTier | src/app/api/webhooks/stripe/route.ts:117-122 | the stored tier is the price tier only for an active subscription, otherwise 'free' |
| StripeWebhook.FindByCustomer | src/app/api/webhooks/stripe/route.ts:70-155 | the user whose Stripe customer id matches, or none when no user has it |
| StripeWebhook.Handle | src/app/api/webhooks/stripe/route.ts:58-253 | as intended, with the subscription-change action defined: created/updated for an unknown customer changes nothing and does not throw; for a known one the previous subscription is cancelled first, then without items the handler throws with the users unchanged, and otherwise the user gets the effective tier, cancel flag, period end (seconds to ms) and subscription id; deleted clears the cancel flag and requests the move to 'free'; trial, payment and unknown types change nothing |
| StripeWebhook.Process | src/app/api/webhooks/stripe/route.ts:18-280 | a processed event returns true untouched; otherwise its retry count becomes 1 or one more, above 3 it returns false unprocessed, and it ends processed exactly when nothing throws; a throw before the handler leaves users and effects alone, while a throw in or after the handler keeps the handler's writes; other event records never change |
| StripeWebhook.Post | src/app/api/webhooks/stripe/route.ts:282-333 | a missing or rejected signature gives 400 with no change; otherwise 200 exactly when processing completes or was already done, else 500 |
| StripeWebhook.DeliverBounded | src/app/api/webhooks/stripe/route.ts:31-55 | over any redelivery sequence, handler runs are bounded by the remaining retry budget and completions by one, none for an event already processed |
| StripeWebhook.AtMostThreeRunsOneCompletion | src/app/api/webhooks/stripe/route.ts:15-55 | however often an event is redelivered and whatever fails, its handler runs at most three times and completes at most once |
| StripeWebhook.RedeliveryIsIdempotent | src/app/api/webhooks/stripe/route.ts:20-28 | redelivering a completed event changes nothing and reports success |
| StripeWebhook.UnhandledTypesAreMarked | src/app/api/webhooks/stripe/route.ts:247-261 | an event type without a handler is still marked processed and leaves the users unchanged |
| StripeWebhook.HandleAsWritten | src/app/api/webhooks/stripe/route.ts:8-226 | as written a checkout throws with nothing written, a known customer's deletion throws after the user row was written and requests no change, and every other event is handled as intended |
| StripeWebhook.ProcessAsWritten | src/app/api/webhooks/stripe/route.ts:17-292 | the retry and idempotency rules around the handlers as written: an event completes exactly when it is within budget, nothing else fails and the handler as written does not throw |
| StripeWebhook.ChangeEventsNeverComplete | src/app/api/webhooks/stripe/route.ts:164-226 | as written a checkout or a known customer's deletion is never completed: each delivery throws or is out of budget, no change is requested and the event stays unprocessed, so the next delivery meets the same case |
| StripeWebhook.CheckoutNeedsChangeAction | src/app/api/webhooks/stripe/route.ts:212-226 | a first checkout delivery completes and requests the new tier as intended, but throws and requests nothing as written |
| StripeWebhook.UnknownCustomerWithoutItems | src/app/api/webhooks/stripe/route.ts:70-80 | an item-less subscription update for an unknown customer is answered 200 and marked processed, with no user or external change |
| StripeWebhook.KnownCustomerWithoutItems | src/app/api/webhooks/stripe/route.ts:82-106 | for a known customer with another subscription, the old subscription is cancelled before the missing item throws, so the answer is 500, the event stays unprocessed and the cancel stays done |
| StripeWebhook.LateFailureKeepsWrites | src/app/api/webhooks/stripe/route.ts:164-184 | as intended, when the subscription-change action throws after a deletion, the answer is 500 and the event stays unprocessed, but the user row and the requested change are already written |
| StripeLegacyWebhook.LegacyTier | src/app/api/stripe/webhook/route.ts:40-43 | an active subscription gives metadata.tier, or 'free' when it is empty; any other status gives 'free' |
| StripeLegacyWebhook.FindUser | src/app/api/stripe/webhook/route.ts:66-72 | a user with the customer id is preferred; only without one is a user with the subscription id taken; none when neither exists |
| StripeLegacyWebhook.Updated | src/app/api/stripe/webhook/route.ts:53-88 | the written record carries the derived tier twice, the subscription id and status, the period end in ms and the update time, and keeps the user's identity |
| StripeLegacyWebhook.Post | src/app/api/stripe/webhook/route.ts:12-115 | a rejected signature gives 400 and other event types give {received: true}, both with no update; any non-200 answer leaves the users unchanged |
| StripeLegacyWebhook.SubscriptionEventOutcome | src/app/api/stripe/webhook/route.ts:34-99 | a subscription event for an unknown customer and subscription is a 404 with no update; a found user is updated and the answer is {received: true} |
| StripeLegacyWebhook.DeletionDropsToFree | src/app/api/stripe/webhook/route.ts:35-43 | a deletion is handled like an update, so an inactive subscription moves the user to 'free' |
| SettingsActions.PriceFor | src/app/actions/server/settings/primary.ts:213-218 | a price id is found exactly for 'pro' and 'power' |
| SettingsActions.CreateCheckout | src/app/actions/server/settings/primary.ts:206-252 | no user throws 'Unauthorized'; any tier but 'pro' or 'power' throws 'Invalid tier'; a session request carries that tier's price and the first e-mail address, and a coupon exactly when that address ends with ".edu" |
| SettingsActions.EduDiscount | src/app/actions/server/settings/primary.ts:227-240 | an academic address gets the production or development promotion code, any other address none |
| SettingsActions.AddResume | src/app/actions/server/settings/primary.ts:126-152 | nothing without a user; otherwise the record's id is "RESUME_" followed by the file key, and it belongs to the user |
| SettingsActions.StorageKey | src/app/actions/server/settings/primary.ts:182 | the storage key is a suffix of the file URL containing no '/' (the last path segment) |
| SettingsActions.RemoveResume | src/app/actions/server/settings/primary.ts:162-196 | no user is refused; without a resume of that user with that id it throws before deleting anything; otherwise exactly one record goes and a non-empty key without '/' is deleted from storage |
| SettingsActions.RemoveTakesFirstMatch | src/app/actions/server/settings/primary.ts:175-189 | removal takes out exactly the first matching record and deletes its storage key when the URL and key are non-empty |
| SettingsActions.CleanTier | src/app/actions/server/settings/primary.ts:300-311 | a tier loses its '_id' entry and every other service keeps only its `limit` |
| SettingsActions.GetConfigTiers | src/app/actions/server/settings/primary.ts:289-321 | a missing configuration throws; otherwise the same tier keys and service keys come back |
| SettingsActions.ConfigTiersShape | src/app/actions/server/settings/primary.ts:300-321 | each tier keeps its services' limits without '_id', and each service keeps exactly its name, description and active flag |
| SubscriptionNotice.DaysRemaining | src/app/components/subscription-status.tsx:16-18 | the day count is the ceiling of the remaining time over a day of 86 400 000 ms |
| SubscriptionNotice.DaysPositiveIffAhead | src/app/components/subscription-status.tsx:18-39 | the remaining-days sentence has a positive count exactly while the period end lies ahead |
| SubscriptionNotice.Render | src/app/components/subscription-status.tsx:9-57 | the notice shows exactly for a present, non-free tier with a period end and the cancel flag set; the days sentence appears exactly while the end is ahead, and then with at least one day |
| JobRecord.Dispatch | src/components/dashboard-applications.tsx:349-355 | a job without an id, missing or empty, is added instead of updated, and the record is sent unchanged |
| JobRecord.StepIndex | src/app/dashboard/appliedtrack.tsx:273-276 | the arrow keys give (i+1) mod n and (i-1+n) mod n, always a valid index, wrapping at both ends |
| JobRecord.StepIndexInverse | src/app/dashboard/appliedtrack.tsx:274-276 | Left undoes Right and Right undoes Left |
| JobRecord.StepStatus | src/app/dashboard/appliedtrack.tsx:273-277 | an arrow key always moves a job to a listed status |
| JobRecord.IndexOfDistinct | src/app/dashboard/appliedtrack.tsx:273 | in a list without repeats, `indexOf` finds each entry at its own position |
| JobRecord.StepStatusInverse | src/app/dashboard/appliedtrack.tsx:273-277 | on a list without repeats, Left after Right, and Right after Left, return a listed status to itself |
| AppliedTrack.UpdateJobStatus | src/app/dashboard/appliedtrack.tsx:320-330 | only jobs with the id change, getting the new status, flag 'update' and the date; with no such job the list stays and a blank record is sent to be added |
| AppliedTrack.UpdateJobStatusOnlyThatJob | src/app/dashboard/appliedtrack.tsx:320-362 | with unique ids the job keeps every other field and is sent as an update |
| AppliedTrack.HandleKeyDown | src/app/dashboard/appliedtrack.tsx:270-279 | only the two arrow keys act, moving the job's status one step in their direction |
| AppliedTrack.FilteredJobs | src/app/dashboard/appliedtrack.tsx:430-477 | the listed jobs are a rearrangement of the filtered ones |
| AppliedTrack.FilteredJobsMembers | src/app/dashboard/appliedtrack.tsx:434-454 | a job is listed exactly when it matches the search on company or position, ignoring case, and the status filter ('All' the live jobs, 'Archived' the archived ones, else the live jobs with that status) |
| AppliedTrack.UnknownSortKeepsOrder | src/app/dashboard/appliedtrack.tsx:457-476 | an unknown sort compares as 0, so the filtered order is kept and the result is an ordered sub-list of the jobs |
| AppliedTrack.CompanyCmpConsistent | src/app/dashboard/appliedtrack.tsx:469-470 | the company comparator is antisymmetric and transitive |
| AppliedTrack.CompanySortOrders | src/app/dashboard/appliedtrack.tsx:469-470 | sorting by company orders the list by company name |
| AppliedTrack.StatusSortOrders | src/app/dashboard/appliedtrack.tsx:471-472 | sorting by status orders the list by position in the status list |
| AppliedTrack.SortedJobs | src/app/dashboard/appliedtrack.tsx:498-513 | the table is a rearrangement of the filtered jobs, unchanged without a column or direction |
| AppliedTrack.TableCmpConsistent | src/app/dashboard/appliedtrack.tsx:502-512 | the table comparator is antisymmetric and transitive in both directions |
| AppliedTrack.TableCompareOrder | src/app/dashboard/appliedtrack.tsx:506-511 | a comparison that puts one row first means a filled cell before an empty one, or filled cells in the chosen direction |
| AppliedTrack.TableSortOrders | src/app/dashboard/appliedtrack.tsx:498-513 | a sorted table lists every filled cell before every empty one, and filled cells ascending, or descending for 'desc' |
| AppliedTrack.ClickHeader | src/app/dashboard/appliedtrack.tsx:798-811 | a click sorts on that column; another column starts ascending |
| AppliedTrack.ClickCycle | src/app/dashboard/appliedtrack.tsx:800-810 | repeated clicks on one header cycle through ascending, descending and unsorted |
| AppliedTrack.ToggleColumn | src/app/dashboard/appliedtrack.tsx:764-773 | switching on adds the column, switching off removes it unless required, and no other column changes |
| AppliedTrack.RequiredAlwaysVisible | src/app/dashboard/appliedtrack.tsx:764-773 | from the initial all-columns set, no sequence of switches hides company or status |
| AppliedTrack.RequiredStayVisible | src/app/dashboard/appliedtrack.tsx:764-773 | once company and status are visible, no sequence of switches hides them |
| AppliedTrack.Back | src/app/dashboard/appliedtrack.tsx:1026-1030 | Back steps down only above step 0 and leaves the form alone |
| AppliedTrack.Submit | src/app/dashboard/appliedtrack.tsx:1053-1073 | a submission happens exactly with company and position filled; it sends the form and restarts at step 0 with the defaults; otherwise an error and no change |
| AppliedTrack.Next | src/app/dashboard/appliedtrack.tsx:1032-1051 | an empty field stops with an error; a filled one advances below the last step and submits at the last; the step stays in 0..4 |
| AppliedTrack.FilledFormSubmits | src/app/dashboard/appliedtrack.tsx:1032-1073 | with every step's field filled, five presses of Next submit exactly that form and restart the wizard |
| Domains.StripScheme | src/app/dashboard/jobcard.tsx:315 | a leading "https://" or "http://" is dropped, anything else is left |
| Domains.StripWww | src/app/dashboard/jobcard.tsx:315 | one leading "www." is dropped, anything else is left |
| Domains.BeforeSlash | src/app/dashboard/jobcard.tsx:315 | `split('/')[0]` is the longest prefix without '/', so the text up to the first '/' |
| Domains.CleanDomain | src/app/api/hunter/route.ts:24 | the cleaned domain contains no '/' |
| Domains.CleanBareHost | src/app/api/hunter/route.ts:24 | a non-empty host without "www." or any '/' (so without a scheme) is its own clean form, whatever letter it starts with |
| Domains.CleanStripsOneWww | src/app/api/hunter/route.ts:24 | only one "www." is stripped, so cleaning twice can differ from cleaning once |
| JobCard.ConfirmNextStatus | src/app/dashboard/jobcard.tsx:868-876 | Confirm moves to the next listed status and wraps to the first after the last |
| JobCard.SearchDomain | src/app/dashboard/jobcard.tsx:312-321 | the search aborts with an error exactly when nothing is left after cleaning; otherwise a non-empty host without '/' |
| JobCard.SearchDomainOfUrl | src/app/dashboard/jobcard.tsx:315 | a full "https://www." URL yields its bare host |
| JobCard.HunterPreview | src/app/dashboard/jobcard.tsx:402-407 | nothing without e-mails; otherwise at most the first two, with the rest counted, and a positive count only when two are shown |
| JobCard.QuickNote | src/app/dashboard/jobcard.tsx:461-472 | a blank draft does nothing; otherwise the job is sent with new notes and date only, and the draft is cleared and the editor closed |
| JobCard.QuickNoteAppends | src/app/dashboard/jobcard.tsx:465 | old notes are kept in front with a blank line before the untrimmed draft; without old notes the notes are the draft |
| JobCard.SelectAll | src/app/dashboard/jobcard.tsx:34-49 | Select All selects exactly the fourteen categories |
| JobCard.ToggleCategory | src/app/dashboard/jobcard.tsx:942-951 | a checkbox adds or removes its category and no other |
| JobCard.SelectAllEnablesSearch | src/app/dashboard/jobcard.tsx:932-973 | after Select All the search is enabled, and with nothing selected it is disabled |
| DashboardApplications.StripSchemeAndWww | src/components/dashboard-applications.tsx:631 | text without a scheme is left alone, "www." included |
| DashboardApplications.DropTrailingSlash | src/components/dashboard-applications.tsx:632 | exactly one trailing '/' is removed when present |
| DashboardApplications.NormalizeWebsite | src/components/dashboard-applications.tsx:629-634 | normalising never lengthens the trimmed input |
| DashboardApplications.NormalizeWebsiteSteps | src/components/dashboard-applications.tsx:630-632 | a full URL loses scheme and "www.", a "www." without scheme stays, and only one trailing '/' goes |
| DashboardApplications.FilteredJobs | src/components/dashboard-applications.tsx:391-397 | exactly the jobs matching company or position ignoring case and the filter ('All' passes every status, archived ones included), as an ordered sub-list |
| DashboardApplications.UpdateJobStatus | src/components/dashboard-applications.tsx:300-315 | only jobs with the id get the status, date and 'update' flag; nothing is sent when none matches; a match is sent with the new status, as an add only for the empty id |
| DashboardApplications.ArrowStatus | src/components/dashboard-applications.tsx:259-268 | only the arrow keys act, and they always give one of the six statuses |
| DashboardApplications.StatusesDistinct | src/components/dashboard-applications.tsx:38 | the six statuses are distinct |
| DashboardApplications.ArrowsUndo | src/components/dashboard-applications.tsx:262-266 | Left after Right, and Right after Left, return a listed status to itself |
| DashboardApplications.DotsUpToStatus | src/components/dashboard-applications.tsx:814-816 | dot k is filled exactly when the status is the kth or a later one; an unlisted status fills none |
| Clearbit.InputChange | src/components/ui/clearbit.tsx:32-54 | the query follows the input; an empty query clears results and highlight; otherwise fetched results replace the list, a failed fetch keeps it, and the highlight is never reset |
| Clearbit.Select | src/components/ui/clearbit.tsx:81-86 | selecting a listed index sets the query to that company's name, clears the results and reports the company; an index past the results throws |
| Clearbit.KeyDown | src/components/ui/clearbit.tsx:56-79 | no results means no-op; ArrowDown goes null → 0, else (i+1) mod n; ArrowUp goes null or -1 → n-1, else i-1; Enter selects only with a highlight that is set and ≥ 0 |
| Clearbit.UpFromFirstDoesNotWrap | src/components/ui/clearbit.tsx:66-78 | Up at the first entry gives -1, and Enter then selects nothing |
| Clearbit.StaleHighlightThrows | src/components/ui/clearbit.tsx:45-86 | as written, a highlight of 2 survives a new one-entry result list and Enter then reads past it |
| Clearbit.InputChangeFixed | src/components/ui/clearbit.tsx:32-54 | as intended: fresh results come with no highlight; otherwise as written |
| Clearbit.Hover | src/components/ui/clearbit.tsx:95 | hovering highlights that entry and keeps the results |
| Clearbit.FixedKeepsValid | src/components/ui/clearbit.tsx:32-95 | with the fix, typing and keys keep the highlight unset, -1, or inside the results |
| Clearbit.ValidNeverFails | src/components/ui/clearbit.tsx:76-86 | from such a state, Enter never reads past the results |
| JobTitleAutocomplete.InputChange | src/components/ui/job-title-autocomplete.tsx:21-44 | an empty query clears the list and sets index 0; fresh suggestions set index 0; a failed request clears the list; the highlight stays usable |
| JobTitleAutocomplete.Select | src/components/ui/job-title-autocomplete.tsx:71-75 | selecting sets the query to the title, clears the list and reports the title |
| JobTitleAutocomplete.KeyDown | src/components/ui/job-title-autocomplete.tsx:46-69 | keys are ignored without suggestions; Down gives (i+1) mod n and Up (i-1+n) mod n; Enter and Tab, and only they, select the highlighted suggestion |
| JobTitleAutocomplete.UpUndoesDown | src/components/ui/job-title-autocomplete.tsx:50-58 | Up after Down restores the state |
| JobTitleAutocomplete.Hover | src/components/ui/job-title-autocomplete.tsx:96 | hovering highlights that entry |
| JobTitleAutocomplete.RunStaysValid | src/components/ui/job-title-autocomplete.tsx:19-69 | any sequence of typing and keys keeps the highlight inside the list whenever the list is non-empty |
| PdfViewer.NextPage | src/components/pdf-viewer-modal.tsx:40-42 | the page becomes min(p+1, numPages) and nothing else changes |
| PdfViewer.PreviousPage | src/components/pdf-viewer-modal.tsx:44-46 | the page becomes max(p-1, 1) and nothing else changes |
| PdfViewer.PagingStaysInRange | src/components/pdf-viewer-modal.tsx:40-117 | a page in [1, numPages] stays there, and an enabled Next is undone by Previous and the other way round |
| PdfViewer.LoadSuccess | src/components/pdf-viewer-modal.tsx:28-32 | load success keeps the page, so a page within the new count is in range; on page 1 Previous is disabled and Next is disabled exactly for a one-page document |
| PdfViewer.LoadError | src/components/pdf-viewer-modal.tsx:34-38 | load failure records the message and keeps the page and count, so whether the page is in range and where Next and Previous lead are unchanged |
| PdfViewer.OpenChange | src/components/pdf-viewer-modal.tsx:49-56 | opening or closing puts the viewer back on page 1 with Previous disabled and in range when pages are known, loading again with no error; onClose is called exactly when closing |
| PdfViewer.OpenThenLoadInRange | src/components/pdf-viewer-modal.tsx:24-56 | after opening and loading at least one page, the page is in range |
| Onboarding.Submit | src/components/onboarding-modal.tsx:43-48 | the bio is submitted exactly when it has at least 200 characters and a resume was uploaded |
| Onboarding.EnabledButtonSubmits | src/components/onboarding-modal.tsx:44-121 | an enabled button always submits |
| Onboarding.Progress | src/components/onboarding-modal.tsx:62-63 | progress is length/200·100 capped at 100, reaching 100 exactly at 200 characters |
| Onboarding.UploadComplete | src/components/onboarding-modal.tsx:24-41 | as intended, with the resume action defined: empty data or a failed save change nothing; a saved upload sets the flag and advances the step |
| Onboarding.UploadCompleteAsWritten | src/components/onboarding-modal.tsx:9-41 | as written every upload leaves the dialog as a refused upload would: the flag and the step stay |
| Onboarding.UploadsAsWrittenKeepFlag | src/components/onboarding-modal.tsx:24-41 | as written no sequence of uploads changes the upload flag or the bio |
| Onboarding.NeverCompletesAsWritten | src/components/onboarding-modal.tsx:9-48 | as written the profile can never be submitted from the first render, whatever the bio and the uploads |
| Onboarding.SavedUploadOpensGate | src/components/onboarding-modal.tsx:24-48 | as intended one stored upload and a bio of 200 characters are enough to submit |
| Onboarding.SubmitNeedsUpload | src/components/onboarding-modal.tsx:18-44 | from the first render, completion needs some upload the server saved |
| Onboarding.UploadsFlag | src/components/onboarding-modal.tsx:24-41 | the upload flag is set only by a saved, non-empty upload or was set before |
| Roadmap.ToFrontendStatus | src/types/roadmap.ts:15-17 | the first '_' becomes '-' and every other character stays; a status without '_' is unchanged |
| Roadmap.ToBackendStatus | src/types/roadmap.ts:19-21 | the first '-' becomes '_' and every other character stays; a name without '-' is unchanged |
| Roadmap.StatusRoundTrip | src/types/roadmap.ts:15-21 | a status without '-' survives going to the board and back; a column name without '_' survives going to storage and back |
| Roadmap.StatusesMatchColumns | src/types/roadmap.ts:3 | the three stored statuses and the three board columns correspond one to one in both directions |
| Roadmap.CompletedColumn | src/types/roadmap.ts:3 | "completed" is spelt the same on the board and in storage |
| Roadmap.Column | src/app/admin/components/RoadMapPage.tsx:209-210 | a column shows exactly the items whose converted status is its name |
| Roadmap.DragEndAsWritten | src/app/admin/components/RoadMapPage.tsx:34-60 | as written: no destination, a drop in place, or an unknown card leaves the list alone; otherwise the card at the column-local source index of the whole list is moved to the destination index, restatused when the column changes |
| Roadmap.DragEndAsWrittenKeepsIds | src/app/admin/components/RoadMapPage.tsx:47-58 | as written, a drop still keeps every card exactly once |
| Roadmap.DragEndMovesWrongCard | src/app/admin/components/RoadMapPage.tsx:44-58 | as written, dragging the second card of a two-card board to the top of "completed" moves the first card there instead |
| Roadmap.DragEnd | src/app/admin/components/RoadMapPage.tsx:34-60 | corrected drag end: a non-move or an unknown card leaves the list alone, and a move keeps the length |
| Roadmap.DragEndPlacesDraggedCard | src/app/admin/components/RoadMapPage.tsx:44-58 | corrected: the dragged card shows at the dropped index of the target column, or last when dropped past its end |
| Roadmap.DragEndKeepsIds | src/app/admin/components/RoadMapPage.tsx:47-58 | corrected: every drop keeps every card exactly once |
| Roadmap.PlaceLandsInColumn | src/app/admin/components/RoadMapPage.tsx:209-215 | a card of a column inserted before that column's n-th card shows at position n of it, or last |
| Roadmap.UpdateItem | src/app/admin/components/RoadMapPage.tsx:84-91 | no edit in progress changes nothing; otherwise the list keeps its length and the edit dialog closes |
| Roadmap.UpdateItemOnlyThatItem | src/app/admin/components/RoadMapPage.tsx:88-93 | every item with the edited id becomes the edit, every other item stays, ids keep their places, and the status sent to the server is the stored one |
| Roadmap.CreateItem | src/app/admin/components/RoadMapPage.tsx:98-116 | a request goes out exactly when the trimmed title is non-empty, with status not_started; only a response with a non-empty id clears the draft and closes the dialog |
| Roadmap.CreateNeedsTitle | src/app/admin/components/RoadMapPage.tsx:99-105 | a title of only whitespace creates nothing, and any created card lands in the first column |
| Roadmap.Move | src/app/admin/components/RoadMapPage.tsx:47-58 | removing the entry at one index and inserting a new one at another keeps the length, puts the new entry at the target index or last, and swaps exactly that one element in the multiset |
| Roadmap.MoveIds | src/app/admin/components/RoadMapPage.tsx:47-58 | moving a card that keeps its id keeps every id exactly once |
| CheckRole.Check | src/middleware/checkRole.ts:6-31 | the request passes exactly when there is a user id, the user is found and its role is allowed; every refusal is one of 401, 404, 403 or 500 |
| CheckRole.CheckOrder | src/middleware/checkRole.ts:9-30 | 401 exactly without a user id; 404 exactly for a missing user and 500 exactly for a failed read once there is one; 403 exactly for a found user whose role is not allowed |
| CheckRole.MoreRolesStillPass | src/middleware/checkRole.ts:22-26 | allowing more roles never turns a pass into a refusal |
| TierOnly.AllowedTiers | src/components/auth/TierOnly.tsx:18 | one allowed tier per comma-separated part of the prop, each trimmed and lower-cased |
| TierOnly.Render | src/components/auth/TierOnly.tsx:10-27 | nothing exactly while loading; the children exactly for a non-empty user tier whose lower-case form is allowed; otherwise the fallback |
| TierOnly.AllowedTiersOfJoin | src/components/auth/TierOnly.tsx:18 | a comma-joined list of lower-case, space-free tier names is read back as the same list |
| TierOnly.GateIgnoresCase | src/components/auth/TierOnly.tsx:18-26 | for such a list, the gate admits a user tier exactly when its lower-case form is listed |
| TierOnly.LoadedGateShowsFallback | src/components/auth/TierOnly.tsx:11-24 | fed by the role hook, which supplies no tier, the gate shows nothing while loading and then its fallback, never its children, whatever tiers it allows |
| AddService.CollapseSpaces | src/app/admin/components/add-service-modal.tsx:25 | replacing whitespace runs leaves no whitespace, never lengthens the text, and turns a leading run into '_' while keeping a leading visible character |
| AddService.FormatKey | src/app/admin/components/add-service-modal.tsx:25 | a formatted key holds no whitespace and is no longer than the input |
| AddService.CollapseNoSpace | src/app/admin/components/add-service-modal.tsx:25 | a text without whitespace is not changed by the replacement |
| AddService.CollapseKeepsVisible | src/app/admin/components/add-service-modal.tsx:25 | the replacement keeps every character that is neither whitespace nor '_', in order |
| AddService.FormatKeyIdempotent | src/app/admin/components/add-service-modal.tsx:25 | formatting a formatted key changes nothing, and the visible characters are those of the upper-cased input |
| AddService.Submit | src/app/admin/components/add-service-modal.tsx:21-34 | without a key or a name nothing happens; otherwise the formatted key with the name and description is reported and the dialog closes with all three fields empty |
| AddService.SubmittedKeyFormatted | src/app/admin/components/add-service-modal.tsx:22-27 | a reported key holds no whitespace, and submitting it again reports the same key |
| Hunter.DomainPatternIsRegex | src/app/api/hunter/route.ts:25 | testing the host at its first '.' agrees with the pattern: a 3 to 63 character alphanumeric-or-hyphen label not starting or ending with '-', a '.', then at least two letters |
| Hunter.TwoDotsRejected | src/app/api/hunter/route.ts:25 | a host with two dots never matches the pattern |
| Hunter.CheckSearchArguments | src/app/api/hunter/route.ts:31-41 | an unknown department is refused first; then an amount outside 1 to 30; the arguments pass exactly when every department is known and the amount is in range, the empty list included |
| Hunter.DefaultArgumentsPass | src/app/api/hunter/route.ts:31-114 | the endpoint's call with the defaults, 5 results and no departments, always passes the checks |
| Hunter.Get | src/app/api/hunter/route.ts:88-128 | a failed database connection gives 500 and no search; no user gives 401; a 200 answer always searched a host that passes the domain check |
| Hunter.Search | src/app/api/hunter/route.ts:107-119 | only the cleaned host is ever searched, and a 200 answer means that host passed the domain check |
| Hunter.GetCheckOrder | src/app/api/hunter/route.ts:94-111 | for a signed-in user a missing domain gives 400 before any format check, and a search starts exactly when the cleaned host passes the check |
| Hunter.CleanedHostSearched | src/app/api/hunter/route.ts:107-119 | a request whose cleaned host passes the check searches that cleaned host and answers 200 |
| Hunter.WwwHostRejected | src/app/api/hunter/route.ts:25 | a host that matches the pattern no longer does with "www." in front |
| Hunter.DoubleWwwSearchesInvalidHost | src/app/api/hunter/route.ts:24-114 | since the host is cleaned twice, "www.www.h" is searched as "www.h", a host the pattern itself refuses |
| JobsRoute.GetOrCreateUser | src/app/api/jobs/route.ts:12-27 | an existing user is returned and nothing changes; a missing one is created with tier free and role user and stored under its id |
| JobsRoute.PageSize | src/app/api/jobs/route.ts:38-43 | 50 jobs for premium, no limit (0) for enterprise, 10 for any other tier |
| JobsRoute.Mine | src/app/api/jobs/route.ts:45 | exactly the jobs whose owner is the caller |
| JobsRoute.Limit | src/app/api/jobs/route.ts:46 | a limit of 0 or one past the list keeps everything; otherwise the first n |
| JobsRoute.Get | src/app/api/jobs/route.ts:29-51 | 401 without a user id; otherwise the caller has a user record and gets a prefix of their own jobs, as long as the tier's page size allows |
| JobsRoute.GetNewUserSeesTen | src/app/api/jobs/route.ts:12-48 | a first-time caller is created on the free tier and sees their own jobs, ten when they have at least ten |
| JobsRoute.Post | src/app/api/jobs/route.ts:53-85 | 401 without a user id; 400 without a company or a position; a job is saved exactly when both are present and the save works, owned by the caller, under the fresh id, with status defaulting to "Yet to Apply", both times set to the request time whatever the body names, and the body's finder data stored as sent; otherwise the jobs are unchanged |
| JobsRoute.PostIgnoresBodyOwner | src/app/api/jobs/route.ts:68-71 | an owner named in the body is overridden by the caller's id |
| JobsRoute.Reshape | src/app/api/jobs/route.ts:123-131 | the stored finder data keeps domain, pattern, organization and e-mails and is stamped with the update time |
| JobsRoute.Apply | src/app/api/jobs/route.ts:122-140 | fields in the body replace stored ones, the finder data is stored reshaped when given, the status falls back to "Yet to Apply", the update time is set, and the creation time is the body's when it names one and the stored one otherwise |
| JobsRoute.CreationTimeOnlyUpdatable | src/app/api/jobs/route.ts:68-139 | a creation time in the body is ignored by `POST` but replaces the stored one on `PUT` |
| JobsRoute.FindOwned | src/app/api/jobs/route.ts:134-135 | the first job with this id and this owner, or -1 exactly when there is none |
| JobsRoute.Put | src/app/api/jobs/route.ts:109-153 | 401 without a user id, 400 without a job id, an uncaught throw exactly when the finder value has no `data`; a saved update replaces exactly one job with that id owned by the caller; any other answer leaves the jobs unchanged |
| JobsRoute.PutOnlyOwnJob | src/app/api/jobs/route.ts:122-146 | a job the caller does not own, or with another id, is never touched, and the answer is 404 exactly when the caller owns no job with the id and the finder data, if any, has `data` |
| JobsRoute.PutOverwrites | src/app/api/jobs/route.ts:137-139 | an update without a status resets the job to "Yet to Apply", and an owner in the body takes the job over |
| JobsRoute.FinderDataShapes | src/app/api/jobs/route.ts:68-131 | a created job holds the finder data as sent, an update stores the reshaped form, and finder data without `data` makes the update throw with the job untouched |
| JobsRoute.AllHandlersNeedUser | src/app/api/jobs/route.ts:32-114 | every handler answers 401 without a user id |
| JobTitles.Dedup | src/app/api/job-titles/route.ts:29 | the values of the input, each exactly once, in the order of their first occurrence |
| JobTitles.Take | src/app/api/job-titles/route.ts:38 | a prefix of the list, all of it when it is short enough and exactly n entries otherwise |
| JobTitles.TitleWord | src/app/api/job-titles/route.ts:35 | title-casing a word keeps its length |
| JobTitles.LastWord | src/app/api/job-titles/route.ts:22-23 | the last word holds no space and ends the query |
| JobTitles.Candidates | src/app/api/job-titles/route.ts:22-29 | each candidate once, and a title is a candidate exactly when it is stored under the query or, for a non-empty last word, under that word |
| JobTitles.Suggest | src/app/api/job-titles/route.ts:13-41 | at most ten suggestions, and none for a missing or empty query |
| JobTitles.SuggestMatchesQuery | src/app/api/job-titles/route.ts:30-37 | every suggestion contains the lower-cased query whatever its case, and is the title-cased form of a candidate |
| JobTitles.SuggestComplete | src/app/api/job-titles/route.ts:29-38 | the suggestions are the matching candidates in candidate order, title-cased and cut at ten: each matching candidate with fewer than ten before it is suggested at its position, and there are as many suggestions as matches, up to ten |
| JobTitles.LowerTitleWord | src/app/api/job-titles/route.ts:35 | title-casing a word changes letter case only |
| JobTitles.LowerTitleCase | src/app/api/job-titles/route.ts:33-37 | title-casing a suggestion changes letter case only |
| JobTitles.TitleCaseWords | src/app/api/job-titles/route.ts:33-37 | the words of a title-cased suggestion are the stored title's words, each with an upper-case first character and the rest lower case |
| JobTitles.RawTitles | src/scripts/process-job-titles.ts:6-13 | the sorted titles are a permutation of the file's trimmed, non-empty lines |
| JobTitles.RawTitlesShape | src/scripts/process-job-titles.ts:10-13 | they come in code-unit order and each is a non-empty trimmed line of the file |
| JobTitles.Prefixes | src/scripts/process-job-titles.ts:29-30 | the non-empty prefixes of a text, shortest first |
| JobTitles.PrefixesMembers | src/scripts/process-job-titles.ts:29-30 | a text is among them exactly when it is a non-empty prefix |
| JobTitles.WordPrefixesMembers | src/scripts/process-job-titles.ts:40-42 | the word prefixes are exactly the non-empty prefixes of some word |
| JobTitles.KeysOfMembers | src/scripts/process-job-titles.ts:24-50 | a title is filed exactly under the non-empty prefixes of its lower-case form and of each of its space-separated words |
| JobTitles.File | src/scripts/process-job-titles.ts:31-36 | filing a title under a key adds it to that list only, keeps what was there in order, and never lists a title twice |
| JobTitles.Truncate | src/scripts/process-job-titles.ts:54-56 | the same keys, each list cut to its first ten titles |
| JobTitles.PrefixIndex | src/scripts/process-job-titles.ts:4-63 | every list of the index holds at most ten titles |
| JobTitles.PrefixIndexContents | src/scripts/process-job-titles.ts:16-56 | before truncation a title is under a key exactly when the key is a non-empty prefix of its lower-case form or of one of its words; no list holds a title twice; the index keeps the first ten of each list |
| JobTitles.SplitSpaces | scripts/preprocess.js:10 | splitting on whitespace runs gives at least one part and no part holds whitespace |
| JobTitles.NormalizedLines | scripts/preprocess.js:4 | one title per line of the file |
| JobTitles.NormalizedLinesShape | scripts/preprocess.js:4 | every title is lower case with no whitespace at either end |
| JobTitles.PreprocessContents | scripts/preprocess.js:7-19 | a word lists every title once per occurrence of the word among its words, in input order, so a repeated word repeats the title; the keys are exactly the words that occur |
| JobTitles.EmptyLineIsFiled | scripts/preprocess.js:4-15 | an empty line is filed under the empty word |
| AdminDashboard.CumulativeGrowth | src/app/admin/components/dashboard.tsx:46-49 | one total per day with the same date in the same order; the i-th total is the sum of the first i+1 counts; with non-negative counts the totals never decrease |
| AdminDashboard.CumulativeGrowthLast | src/app/admin/components/dashboard.tsx:46-49 | the last total is the sum of all the counts |
| AdminDashboard.Render | src/app/admin/components/dashboard.tsx:37-49 | a placeholder exactly while loading, an error placeholder without statistics, and otherwise the charts with one running total per day |
| AdminDashboard.Count | src/app/actions/server/admin/dashboard/primary.ts:43-45 | a count never exceeds the length and is zero exactly when the value is absent |
| AdminDashboard.CountThree | src/app/actions/server/admin/dashboard/primary.ts:42-46 | the counts of three different values add up to at most the length, and to exactly the length when every entry is one of them |
| AdminDashboard.ByDateCounts | src/app/actions/server/admin/dashboard/primary.ts:49-53 | each day reads the number of sign-ups on it, and a day without sign-ups is not a key |
| AdminDashboard.ByDateWellFormed | src/app/actions/server/admin/dashboard/primary.ts:49-53 | no day is a key twice |
| AdminDashboard.ByDateSum | src/app/actions/server/admin/dashboard/primary.ts:49-53 | the day counts add up to the number of sign-ups |
| AdminDashboard.Entries | src/app/actions/server/admin/dashboard/primary.ts:55-56 | one entry per key with its count, in key order |
| AdminDashboard.UserGrowth | src/app/actions/server/admin/dashboard/primary.ts:55-57 | the growth entries are a permutation of the per-day counts |
| AdminDashboard.UserGrowthSorted | src/app/actions/server/admin/dashboard/primary.ts:57 | the entries come in ascending date order |
| AdminDashboard.UserGrowthSum | src/app/actions/server/admin/dashboard/primary.ts:49-57 | the entries' counts add up to the number of sign-ups |
| AdminDashboard.UserGrowthCovers | src/app/actions/server/admin/dashboard/primary.ts:49-57 | every sign-up day has an entry carrying its count |
| AdminDashboard.UserGrowthSound | src/app/actions/server/admin/dashboard/primary.ts:49-57 | every entry is a sign-up day with its count |
| AdminDashboard.GetStats | src/app/actions/server/admin/dashboard/primary.ts:24-71 | Forbidden exactly for a non-admin; otherwise the total is the number of sign-ups and each tier count is the number of stored users with that tier |
| AdminDashboard.GetStatsGrowth | src/app/actions/server/admin/dashboard/primary.ts:49-62 | the growth is in date order, adds up to the sign-ups, and holds exactly the sign-up days with their counts |
| AdminDashboard.TierCountsCoverKnownTiers | src/app/actions/server/admin/dashboard/primary.ts:42-46 | the three tier counts add up to at most the number of users, and to exactly that number only when every user has one of the three tiers |
| ServiceUsage.WithUsage | src/app/actions/server/job-board/serviceUsage.ts:36-67 | the computed usage entry replaces any usage the caller passed, and every other metadata key keeps its value |
| ServiceUsage.AddOpenAIUsage | src/app/actions/server/job-board/serviceUsage.ts:21-47 | refused exactly without a signed-in user; otherwise a record of the caller for OPENAI whose usage holds the three token counts |
| ServiceUsage.AddHunterUsage | src/app/actions/server/job-board/serviceUsage.ts:49-71 | refused exactly without a signed-in user; otherwise a record of the caller for HUNTER whose usage holds the credits |
| ServiceUsage.TotalsAppend | src/app/actions/server/job-board/serviceUsage.ts:89-106 | the token and credit totals split over a concatenation of records |
| ServiceUsage.AddedUsageCounted | src/app/actions/server/job-board/serviceUsage.ts:21-106 | a stored language-model record adds its input and output tokens to the token total and nothing to the credits; a stored finder record adds its credits and no tokens |
| ServiceUsage.GetStats | src/app/actions/server/job-board/serviceUsage.ts:73-115 | the recent list holds at most ten records |
| ServiceUsage.NewestSorted | src/app/actions/server/job-board/serviceUsage.ts:75-77 | the records come newest first |
| ServiceUsage.GetStatsWindow | src/app/actions/server/job-board/serviceUsage.ts:74-113 | the totals are over the min(100, n) newest stored records, no record left out is newer than one kept, and the recent list is the first ten of them |
| LogsRoute.RangeMs | src/app/api/admin/logs/route.ts:71-77 | exactly the five named ranges have a width, every width is positive, and 1h is 3 600 000 ms |
| LogsRoute.RangesWiden | src/app/api/admin/logs/route.ts:71-77 | the named ranges are strictly nested from 15m to 7d, and 7d is seven days or 168 hours |
| LogsRoute.TimeWindow | src/app/api/admin/logs/route.ts:37-84 | a custom range gets a window exactly when both dates are given, and then spans them; any other name gets a window exactly when it is a named range, ending now and as wide as that range |
| LogsRoute.BuildQuery | src/app/api/admin/logs/route.ts:32-57 | each of level, service, ip, action and search becomes a condition exactly when its parameter is non-empty, carrying the parameter's value |
| LogsRoute.Pages | src/app/api/admin/logs/route.ts:106 | a finite page count exactly for a non-zero limit, and it is the ceiling of total over limit |
| LogsRoute.EveryRecordOnAPage | src/app/api/admin/logs/route.ts:87-106 | with a positive limit, record i lies on page i div limit + 1, which is among the counted pages and whose skip window holds i |
| LogsRoute.Get | src/app/api/admin/logs/route.ts:7-108 | 401 exactly without a user, 403 exactly for a signed-in non-admin; an admin's find uses the built query, skip (page - 1) times limit, the same limit as reported, pages from the count, and direction -1 exactly for desc, else 1 |
| LogsRoute.DefaultsApply | src/app/api/admin/logs/route.ts:30-88 | with no parameters an admin gets page 1 of 50 records from the last hour, by timestamp, newest first |
| LogsRoute.HexPageReadsAsBaseSixteen | src/app/api/admin/logs/route.ts:30-31 | `parseInt` is called without a radix, so `?page=0x2` is page 2 and skips fifty records |
| Text.ParseIntHex | src/app/api/admin/logs/route.ts:30-31 | "0x" followed by hexadecimal digits reads as their base-16 value, and "0x" alone is NaN |
| Text.ParseIntRoundTrip | src/app/admin/components/tier-config.tsx:122 | the decimal text of any integer parses back to it |
| Backups.AsBackup | src/app/actions/server/admin/backups/primary.ts:46-51 | an entry becomes a backup exactly when it has a key ending in ".sql.gz", keeping key, date and size |
| Backups.ListBackups | src/app/actions/server/admin/backups/primary.ts:26-75 | the generic failure exactly for a non-admin or when the store's listing throws; otherwise no backups when the listing has no contents, and never more backups than entries |
| Backups.ListedAreDumps | src/app/actions/server/admin/backups/primary.ts:45-52 | the listing holds exactly the stored dump entries, newest first |
| Backups.PrefixIgnored | src/app/actions/server/admin/backups/primary.ts:26-57 | the prefix argument does not change the result |
| Backups.DownloadUrl | src/app/actions/server/admin/backups/primary.ts:77-120 | the generic failure exactly for a non-admin or when signing throws; otherwise the link signed for the key with a one-hour lifetime |
| Waitlist.CampaignIndex | src/app/actions/server/homepage/primary.ts:15 | the first campaign with the ref, or -1 exactly when there is none |
| Waitlist.RecordRefSignup | src/app/actions/server/homepage/primary.ts:14-21 | an unknown ref fails exactly; otherwise only that campaign's signups go up by one |
| Waitlist.RecordPageVisit | src/app/actions/server/homepage/primary.ts:118-128 | an unknown ref fails exactly; otherwise only that campaign's visits go up by one |
| Waitlist.SignupAddsOne | src/app/actions/server/homepage/primary.ts:14-21 | a recorded signup adds exactly one to the signups over all campaigns and nothing to the visits |
| Waitlist.VisitAddsOne | src/app/actions/server/homepage/primary.ts:117-124 | a recorded visit adds exactly one to the visits over all campaigns and nothing to the signups |
| Waitlist.HandleSignup | src/app/actions/server/homepage/primary.ts:23-45 | an unknown non-empty ref aborts exactly, before any email is added; a listed email is refused with the list unchanged; a new one is added and told its position, the new count plus 432 |
| Waitlist.RefCountedForDuplicates | src/app/actions/server/homepage/primary.ts:24-34 | a known ref is counted even for an email already listed, so signing up twice adds the email once and counts the ref twice |
| Waitlist.DailySignups | src/app/actions/server/homepage/primary.ts:57 | the daily figure always lies between 35 and 50 |
| Waitlist.DailySignupsOnto | src/app/actions/server/homepage/primary.ts:57 | every figure from 35 to 50 is shown for some draw |
| Waitlist.PostAsWritten | src/app/api/waitlist/route.ts:7-79 | as written: 400 exactly for a missing email and 409 exactly for a listed one, with nothing saved or tracked; a new email is saved and its ref sent for tracking, yet the answer is 500 and never the join confirmation |
| Waitlist.NewEmailFailsButIsSaved | src/app/api/waitlist/route.ts:51-77 | as written a new email is answered 500 but is listed afterwards, so signing up again is refused with 409 |
| Waitlist.MissingExportOnlyChangesAnswer | src/app/api/waitlist/route.ts:51-77 | the route as written and as intended store and track the same, and their answers differ exactly where the intended one confirms a join, which as written is a 500 |
| Waitlist.Post | src/app/api/waitlist/route.ts:13-79 | as intended, with the admin notification exported: 400 exactly for a missing email; 409 exactly for a listed one, with nothing saved or tracked; a join saves the entry, reports the new count plus 1300, and sends the ref for tracking only when it is non-empty |
| Waitlist.NewEmailJoins | src/app/api/waitlist/route.ts:31-67 | as intended, a new email always joins and is then listed, whatever happens to the tracking request and the two mails |
| Migrations.DateOf | src/app/actions/server/admin/migrations/primary.ts:77-79 | a parsed date is valid exactly when the parser accepts the text |
| Migrations.UserRowOf | src/app/actions/server/admin/migrations/primary.ts:66-80 | the row id is the exported user id with tier and role carried over, and the period end is null exactly when it is absent, else its parsed date |
| Migrations.MigrateUsers | src/app/actions/server/admin/migrations/primary.ts:54-103 | Forbidden exactly for a non-admin; an admin's migration fails exactly when some row is rejected, and otherwise returns one row per exported user in order |
| Migrations.AppliedDate | src/app/actions/server/admin/migrations/primary.ts:124-132 | the export's applied date when it is present and parses, otherwise the migration time |
| Migrations.InterviewDate | src/app/actions/server/admin/migrations/primary.ts:134-142 | null exactly when the interview date is absent or does not parse, otherwise its parsed value |
| Migrations.JobRowOf | src/app/actions/server/admin/migrations/primary.ts:144-171 | the row id is the export's object id; owner and details are carried over; the status is upper-cased; aiRated is true only when the export says true; both dates follow the fallbacks above; both timestamps are the migration time |
| Migrations.Kept | src/app/actions/server/admin/migrations/primary.ts:146-178 | the kept rows are never more than the rows |
| Migrations.KeptExactly | src/app/actions/server/admin/migrations/primary.ts:146-178 | a row is kept exactly when its insert succeeded |
| Migrations.KeptAll | src/app/actions/server/admin/migrations/primary.ts:146-173 | with no failed insert every row is kept, in order |
| Migrations.JobRows | src/app/actions/server/admin/migrations/primary.ts:119-171 | one row per exported job, in order |
| Migrations.MigrateJobs | src/app/actions/server/admin/migrations/primary.ts:105-193 | Forbidden exactly for a non-admin; for an admin the jobs are inserted in order, a rejected insert is skipped and the loop goes on, and the result is the rows whose insert succeeded |
| UserMgmt.GetUsers | src/app/actions/server/admin/usermgmt/primary.ts:19-49 | Forbidden exactly unless the session is an admin's and the caller's profile role is admin; otherwise never more profiles than users |
| UserMgmt.GetUsersDropsMissing | src/app/actions/server/admin/usermgmt/primary.ts:34-40 | the listing holds exactly the profiles that exist |
| UserMgmt.UpdateFields | src/app/actions/server/admin/usermgmt/primary.ts:77-82 | the update always sets the time; role and tier only when non-empty; the onboarding flag whenever it is given, false included |
| UserMgmt.DocIndex | src/app/actions/server/admin/usermgmt/primary.ts:85-86 | the first document of the user, or -1 exactly when there is none |
| UserMgmt.Upsert | src/app/actions/server/admin/usermgmt/primary.ts:85-94 | an existing document gets the set fields and keeps its creation date, with every other document unchanged; without one a document is appended with the schema defaults (role user, tier free, empty about) under any set fields, and only then is the creation date written |
| UserMgmt.OnboardingFlagDropped | src/app/actions/server/admin/usermgmt/primary.ts:82-94 | the onboarding flag is not a path of the user schema, so setting it stores the same documents as leaving it out |
| UserMgmt.UpdateUser | src/app/actions/server/admin/usermgmt/primary.ts:54-110 | Forbidden exactly unless authorised; otherwise the document is upserted, and the provider's metadata gets the role only when a non-empty one is given |
| UserMgmt.UpdateCreatesOnce | src/app/actions/server/admin/usermgmt/primary.ts:77-94 | after an update the target has a document with the new role and tier, and a new document otherwise the schema defaults; a second update adds no document and keeps the first creation date |
| AdminUsers.Init | src/app/admin/components/adminusers.tsx:21-26 | the page starts with no users, loading, locked and with the dialog closed |
| AdminUsers.Flag | src/app/admin/components/adminusers.tsx:46-69 | every row keeps its user; the target's rows get the flag and the others keep theirs |
| AdminUsers.BeginUpdate | src/app/admin/components/adminusers.tsx:42-54 | while locked nothing happens and no request goes out, exactly; otherwise the request goes out and only the target's rows are flagged as updating |
| AdminUsers.UpdateFailed | src/app/admin/components/adminusers.tsx:59-69 | a failed update clears only the target's flag and changes nothing else |
| AdminUsers.Fetched | src/app/admin/components/adminusers.tsx:31-40 | loading ends either way; a fetched list replaces the rows, unflagged and in order; a failure keeps them |
| AdminUsers.FailedUpdateOnlyTouchesTarget | src/app/admin/components/adminusers.tsx:42-69 | after a flag-and-fail round every row shows the same user, the target's rows are marked idle and every other row is as it was |
| AdminUsers.LockedPageIgnoresUpdates | src/app/admin/components/adminusers.tsx:24-43 | the page as first shown ignores every update |
| AdminUsers.Lock | src/app/admin/components/adminusers.tsx:73-76 | locking closes the dialog and leaves the rows, search and loading alone |
| AdminUsers.Unlock | src/app/admin/components/adminusers.tsx:78-81 | unlocking closes the dialog and leaves the rows, search and loading alone |
| AdminUsers.UnlockThenLock | src/app/admin/components/adminusers.tsx:43-81 | after unlocking the next update goes out; locking again stops it, and locking after unlocking is the same as locking |
| AdminUsers.Filtered | src/app/admin/components/adminusers.tsx:83-87 | exactly the rows whose e-mail, first or last name contains the search term, ignoring case |
| AdminUsers.SearchCases | src/app/admin/components/adminusers.tsx:83-87 | the term's case does not matter, and an empty term keeps exactly the rows with an e-mail or a name |
| AutoPoster.WithinPostingHoursFields | python-auto-posting/app.py:30-35 | a valid time is within the posting hours exactly when its hour is 8 to 16, or it is 17:00 sharp |
| AutoPoster.Pad2 | python-auto-posting/app.py:86-90 | two-digit padding gives only digits, exactly two of them below 100 |
| AutoPoster.Pad2Value | python-auto-posting/app.py:86-90 | the padded digits read back as the number |
| AutoPoster.Clock | python-auto-posting/app.py:86-90 | a scheduled time is five characters with a colon in the middle |
| AutoPoster.ClockRoundTrip | python-auto-posting/app.py:84-90 | the digits before the colon read back as 8 plus the offset's hours, those after as its minutes |
| AutoPoster.ScheduledTimesPost | python-auto-posting/app.py:30-90 | every offset in the window is scheduled between 08:00 and 16:59, inside the posting hours, and different offsets get different times |
| AutoPoster.ScheduleForToday | python-auto-posting/app.py:78-95 | the old jobs are replaced by one job per offset, at that offset's time |
| AutoPoster.ScheduleIsThreeDistinctTimes | python-auto-posting/app.py:78-95 | a valid sample schedules three different times, all inside the posting hours |
| AutoPoster.MakePost | python-auto-posting/app.py:97-102 | for a valid time, a post is made exactly from 08:00:00 up to and including 17:00:00.000000 |
| AutoPoster.RescheduleOutsideHours | python-auto-posting/app.py:97-107 | rescheduling happens exactly before 08:00, never together with a post, and a time from 18:00 does neither |
| LatexService.Command | docker-latex/app.py:43-47 | one engine run: pdflatex in non-stop mode, writing into the temporary directory |
| LatexService.Inner | docker-latex/app.py:49-64 | a non-zero exit code fails as a compilation failure carrying the error output; a clean exit without input.pdf fails as not generated; otherwise the PDF's bytes |
| LatexService.Convert | docker-latex/app.py:32-75 | a failure while preparing runs nothing; otherwise the source is written to input.tex and the engine runs once; every failure is a 500 whose detail starts with the outer prefix; success happens exactly for a clean exit that left a PDF, and returns it |
| LatexService.ExitCodeCheckedFirst | docker-latex/app.py:49-61 | a failing exit code is reported as a compilation failure even when a PDF was left behind, the same outcome as without one |
| LatexService.MissingArtifactFails | docker-latex/app.py:56-75 | a clean exit without a PDF is a 500 reporting that no PDF was generated, wrapped once more by the outer handler |
| LatexService.OutputNameIgnored | docker-latex/app.py:24-75 | the requested output file name plays no part in the outcome |

## Left out

- External clients are left out: MongoDB/Mongoose, Prisma, Clerk, Stripe, UploadThing, S3, Resend, OpenAI and the Hunter and Clearbit HTTP fetches. Their answers are parameters, and stored collections are sequences or maps.
- Time, randomness and locale are inputs: `Date.now`, `new Date()`, `Math.random` and `random.sample`. Whether `new Date(text)` is valid is a parse-function parameter in `Migrations`. The migration clock is one `now` for the whole run.
- Locale and date formatting are left out: `toLocaleDateString`, date-fns and `toFixed`. Dates are integer milliseconds or the stored date strings.
- Floating point is left out. Ratios (header percentages, onboarding progress, `Waitlist.DailySignups`) are exact `real` or integer arithmetic, so double rounding is not modelled.
- Concurrency and scheduling are left out: `Promise.all` fan-out, `node-schedule` in `initQuotaResetSchedule` and the auto-poster's `run_scheduler` loop. Only the decisions the loop makes (`AutoPoster.Reschedules`, `AutoPoster.MakePost`) are modelled.
- Strings are sequences of characters, not UTF-16 code units. Case mapping is ASCII only. Whitespace is the ASCII set plus NBSP, BOM and U+2028/U+2029.
- JavaScript `Object.prototype` keys are left out. For example, `ranges[timeRange]` with "constructor" is treated as unknown.
- The log route's regular-expression filters are passed on to the database unchanged. Their matching semantics are the database's and are left out.
- Key order of JSON output is left out where the code only looks keys up, as in the job-title prefix and word tables, which are Dafny maps. Where key order is observable, objects are ordered association lists.
- The database's order for ties in a sort is left out. The S3 `MaxKeys` listing limit is left out.
- Identity-provider private metadata is a map from user id to role. Replacing the whole metadata object on update is not modelled.
- The waitlist `GET` handler and the campaign-tracking route are thin database reads. Other thin CRUD routes are left out for the same reason.
- The LaTeX service is modelled as the code has it: one engine pass, the exit-code check before the artifact check, and every error re-caught as a 500. It has no content validator, escaping preprocessor, multi-pass loop, per-pass timeout or output classifier, so none is modelled. The wording `"500: …"` inside the detail is the web framework's text form of an HTTP exception. FastAPI's serialisation of the PDF bytes is left out.
- The Hunter route's `limit` argument is never used by the code, so it is not modelled.
- TierConfig.HandleInputChange: text that `parseInt` reads as `NaN` is excluded by the requires. Inputs are `""` or text that `parseInt` reads as a number, decimal or "0x" hexadecimal.
- AppliedTrack.SortedJobs: `localeCompare` is modelled as code-unit order. AdminDashboard.UserGrowth sorts date strings the same way.
- SettingsActions.StorageKey: the contract states only that the key is a '/'-free suffix of the URL that follows its last '/'.
- DashboardApplications.NormalizeWebsite: its own contract states only that normalising never lengthens the text. DashboardApplications.NormalizeWebsiteSteps states the steps.
- JobTitleAutocomplete.KeyDown: requires a valid highlight. JobTitleAutocomplete.RunStaysValid shows that every reachable state has one.
- Roadmap.DragEndAsWritten: requires the source index to lie within the whole list. The drag library only reports cards that are rendered.
- ServiceUsage.GetStats: its own contract states only the bound on recent records. ServiceUsage.GetStatsWindow states the sums.
- Logging is left out: `Logger` calls and `console` output are dropped. A logger call that throws is folded into the failure input of the member that makes it, where the code's behaviour depends on it (`StripeWebhook.Process`, `Backups.ListBackups`).
- Integer-like keys of JavaScript objects are left out. `Object.keys` lists them first in ascending order, while `JsObject` keeps insertion order for every key.
- TierLimits.AddServiceUsage: it is the intended counting, with `usage` a path of the quota document. The quota schema (src/models/UserQuota.ts:13-21) declares no `usage` path, so as written the read at src/lib/tierlimits.ts:80 throws and every call answers false, with no usage ever counted (see Findings and `TierLimits.AddServiceUsageAsWritten`).
- TierLimits.GetServiceQuota: it is the intended read. As written, the lean read at src/lib/tierlimits.ts:138 throws whenever the user has a quota document, so the answer is null (`TierLimits.GetServiceQuotaAsWritten`).
- TierLimits.ResetAllQuotas: it sets `usage` to an empty object, as the `$set` asks. Strict mode strips that path from the update, so as written only the reset date and the update time change; no stored document holds `usage` either way. Subscription.UsageOf reads the same absent path through `usage || {}`, so as written every counter it reads is 0.
- QuotaManager.GetUserQuota: it reads `coverLettersUsed`, as the code does, though the quota schema names the counter `aiCoverLettersUsed`. As written the hydrated document has no accessor for it, so cover letters always read 0 used and the whole limit remaining.
- QuotaManager.IncrementQuota: it counts cover letters in `coverLettersUsed`. As written strict mode strips that path from the `$inc` at src/utils/quota-manager.ts:76-81, so cover letters are never counted; only the e-mail counter and the update time change.
- StripeLegacyWebhook.Updated: it writes a `subscriptionDetails` object on the user, as the code does. The user schema (src/models/User.ts:15-34) declares no such path, so strict mode would drop it.
- StripeLegacyWebhook.FindUser: it takes a stored subscription id as the fallback lookup. As written that path (`subscriptionDetails.subscriptionId`, src/app/api/stripe/webhook/route.ts:70) is never stored. With Mongoose's current default, which keeps unknown paths in filters, the fallback never finds anyone. Under `strictQuery` the path would be dropped from the filter instead, and the fallback would find an arbitrary user. The setting is not part of this model.
- UserMgmt.UpdateCreatesOnce: it no longer promises that the onboarding flag is stored. The user schema has no onboarding path, and strict mode drops it from the `$set` (`UserMgmt.OnboardingFlagDropped`). JobBoard.CheckUserAttributes reads the same absent field.
- JobBoard.CheckUserAttributes: it passes on a stored onboarding flag. As written the hydrated user document has no accessor for `onBoardingComplete` (src/app/actions/server/job-board/primary.ts:22-23), so the answer's flag is always false.
- JobsRoute.Apply: a falsy finder value that is present (`null`, `0`, `""`) skips the reshape, but the spread still overwrites the stored finder data. The model reads it as absent and keeps the stored data.

## Findings

| source | as written | input that shows it | evidently intended | confidence | as-written member | corrected member |
|---|---|---|---|---|---|---|
| src/lib/useQuota.ts:176-193 | `deleteMany` keeps the JOBS_COUNT entry, and then a copy of it is created again | a quota with JOBS_COUNT 3 and one other counter | one JOBS_COUNT entry with its value, every other counter removed | not executed | UseQuota.ResetQuotaAsWritten, UseQuota.ResetQuotaDuplicatesJobsCount | UseQuota.ResetQuota, UseQuota.ResetQuotaSilencesOthers |
| src/components/ui/clearbit.tsx:45-86 | new results keep the old highlight, so Enter can select past the end of the list | highlight the third of three companies, pick it, then type a query with one result and press Enter | fresh results come with no highlight | not executed | Clearbit.StaleHighlightThrows | Clearbit.InputChangeFixed, Clearbit.FixedKeepsValid |
| src/app/admin/components/RoadMapPage.tsx:44-58 | column-local drag indices are used to splice the whole item list | a not-started card x then an in-progress card y; drag y to the top of "completed" | the dragged card lands at the dropped position in the target column | not executed | Roadmap.DragEndAsWritten, Roadmap.DragEndMovesWrongCard | Roadmap.DragEnd, Roadmap.DragEndPlacesDraggedCard |
| src/app/actions/server/job-board/primary.ts:50-88 | `config.tierLimits[user.tier]` is a bracket read on the stored Mongoose Map, which holds entries only through `get`, so it is `undefined` and every job, cover-letter and e-mail check throws reading a field of it | a user on tier "free", a stored configuration with limits for "free", and the action "job" | read the tier's limits record with `get` and compare the counters with it | not executed | JobBoard.VerifyTiersAsWritten, JobBoard.StoredConfigNeverDecides | JobBoard.VerifyTiers, JobBoard.HandledActionsDecide |
| src/lib/tierlimits.ts:71-143 | `usage` is read and written on the quota document, but the quota schema declares no such path, so the read of a field of `undefined` throws and the caught error answers false, or null when reading | a user on tier "free" whose limits give the active service "openai" a limit of 5, with no quota document, adding 1 and then asking for the quota | a `usage` path on the quota document, so increments are counted against the limit and reported | not executed | TierLimits.AddServiceUsageAsWritten, TierLimits.GetServiceQuotaAsWritten, TierLimits.UsageNeverCounted, TierLimits.StoredQuotaHidesLimit | TierLimits.AddServiceUsage, TierLimits.GetServiceQuota, TierLimits.AddAgreesWithRemaining |
| src/app/api/waitlist/route.ts:7-77 | `sendAdminNotification` is imported from an e-mail service that exports only `sendWaitlistEmail`, so the call at :64 is a call of `undefined` after the entry was saved, and the catch answers 500 | entries [], email "a@b.c", no ref | the admin is notified and the join is confirmed with the count plus 1300 | not executed; the imported name is defined nowhere in src/services/email.ts, the same evidence as the next two rows | Waitlist.PostAsWritten, Waitlist.NewEmailFailsButIsSaved, Waitlist.MissingExportOnlyChangesAnswer | Waitlist.Post, Waitlist.NewEmailJoins |
| src/app/api/webhooks/stripe/route.ts:8-226 | `srv_handleSubscriptionChange` is imported from the settings actions, which define no such function, so every checkout and every deletion for a known customer throws at that call, and the event is never marked processed | a first delivery of `checkout.session.completed` for user "u" and tier "pro" | the user is moved to the bought tier, or to free on a deletion, and the event completes | not executed; the imported name is defined nowhere in src/app/actions/server/settings/primary.ts | StripeWebhook.HandleAsWritten, StripeWebhook.ProcessAsWritten, StripeWebhook.ChangeEventsNeverComplete, StripeWebhook.CheckoutNeedsChangeAction | StripeWebhook.Handle, StripeWebhook.Process, StripeWebhook.LateFailureKeepsWrites |
| src/components/onboarding-modal.tsx:9-48 | `srv_uploadBaselineResume` and `srv_updateUserOnboarding` are imported from the job-board actions, which define neither, so an upload throws before its answer is read, the upload flag never turns on, and the submit gate never opens | a bio of 200 characters and one uploaded file | a stored upload sets the flag, and the bio is then submitted | not executed; neither imported name is defined in src/app/actions/server/job-board/primary.ts | Onboarding.UploadCompleteAsWritten, Onboarding.UploadsAsWrittenKeepFlag, Onboarding.NeverCompletesAsWritten | Onboarding.UploadComplete, Onboarding.SavedUploadOpensGate, Onboarding.SubmitNeedsUpload |
