/** The cancellation notice on the settings page
 *  (src/app/components/subscription-status.tsx). Times are ms since the
 *  epoch; the formatted end date is left to the renderer. */
module SubscriptionNotice {
  import opened Wrappers

  const MsPerDay: int := 1000 * 60 * 60 * 24

  /** `Math.ceil((end - now) / MsPerDay)`. */
  function DaysRemaining(end: int, now: int): (d: int)
    ensures (d - 1) * MsPerDay < end - now <= d * MsPerDay
  {
    -((now - end) / MsPerDay)
  }

  /** Days are counted whole: a notice shows remaining days exactly while the
   *  end is still ahead. */
  lemma DaysPositiveIffAhead(end: int, now: int)
    ensures DaysRemaining(end, now) > 0 <==> end > now
  {
    var d := DaysRemaining(end, now);
    if d <= 0 {
      assert d * MsPerDay <= 0;
    }
  }

  datatype Notice = Notice(tier: string, endMs: int, daysRemaining: Option<int>)

  /** What `SubscriptionStatus` renders, `None` being nothing. */
  function Render(tier: Option<string>, currentPeriodEnd: Option<int>, cancelAtPeriodEnd: bool, now: int)
    : (r: Option<Notice>)
    ensures r.Some? <==> (currentPeriodEnd.Some? && tier.Some? && tier.value != "" && tier.value != "free"
                          && cancelAtPeriodEnd)
    ensures r.Some? ==> r.value.tier == tier.value && r.value.endMs == currentPeriodEnd.value
    ensures r.Some? ==> (r.value.daysRemaining.Some? <==> currentPeriodEnd.value > now)
    ensures r.Some? && r.value.daysRemaining.Some? ==> r.value.daysRemaining.value >= 1
  {
    if currentPeriodEnd.None? || tier.None? || tier.value == "" || tier.value == "free" then None
    else
      var days := DaysRemaining(currentPeriodEnd.value, now);
      if !cancelAtPeriodEnd then None
      else
        DaysPositiveIffAhead(currentPeriodEnd.value, now);
        Some(Notice(tier.value, currentPeriodEnd.value, if days > 0 then Some(days) else None))
  }
}
