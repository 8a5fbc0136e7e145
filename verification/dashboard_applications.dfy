/** The older applications dashboard (src/components/dashboard-applications.tsx):
 *  its own fixed status list, website normalisation, filter, arrow keys,
 *  status update and progress dots. */
module DashboardApplications {
  import opened Wrappers
  import opened JobRecord
  import opened Text
  import Lists

  const Statuses: seq<string> := ["Applied", "Phone Screen", "Interview", "Offer", "Rejected", "Accepted"]

  /** Drops a leading "http://" or "https://" together with a "www." right
   *  after it; a "www." without a scheme stays. */
  function StripSchemeAndWww(s: string): (r: string)
    ensures !("http://" <= s) && !("https://" <= s) ==> r == s
  {
    var rest := if "https://" <= s then s[8..] else if "http://" <= s then s[7..] else s;
    if rest != s && "www." <= rest then rest[4..] else rest
  }

  /** Drops one trailing '/'. */
  function DropTrailingSlash(s: string): (r: string)
    ensures |s| > 0 && s[|s| - 1] == '/' ==> r == s[..|s| - 1]
    ensures !(|s| > 0 && s[|s| - 1] == '/') ==> r == s
  {
    if |s| > 0 && s[|s| - 1] == '/' then s[..|s| - 1] else s
  }

  /** The website field's `onChange`. */
  function NormalizeWebsite(input: string): (r: string)
    ensures |r| <= |Trim(input)|
  {
    DropTrailingSlash(StripSchemeAndWww(Trim(input)))
  }

  /** After trimming, a full URL loses its scheme and "www.", a bare
   *  "www." host keeps it, and only one trailing '/' goes. */
  lemma NormalizeWebsiteSteps(h: string)
    requires |h| > 0
    ensures StripSchemeAndWww("https://www." + h) == h
    ensures StripSchemeAndWww("www." + h) == "www." + h
    ensures DropTrailingSlash(h + "//") == h + "/"
  {
    var u := "https://www." + h;
    assert "https://" <= u && u[8..] == "www." + h;
    assert ("www." + h)[4..] == h;
    assert ("www." + h)[0] == 'w';
    assert (h + "//")[..|h| + 1] == h + "/";
  }

  predicate MatchesSearch(job: Job, term: string)
  {
    Contains(Lower(job.company), Lower(term)) || Contains(Lower(job.position), Lower(term))
  }

  /** Here 'All' passes archived jobs too; any other value must match the
   *  status exactly. */
  predicate MatchesStatus(job: Job, filter: string)
  {
    filter == "All" || job.status == filter
  }

  function FilteredJobs(jobs: seq<Job>, term: string, filter: string): (r: seq<Job>)
    ensures forall i :: 0 <= i < |r| ==> r[i] in jobs && MatchesSearch(r[i], term) && MatchesStatus(r[i], filter)
    ensures forall i :: 0 <= i < |jobs| && MatchesSearch(jobs[i], term) && MatchesStatus(jobs[i], filter) ==> jobs[i] in r
    ensures Lists.Subseq(r, jobs)
  {
    Lists.FilterSubseq(jobs, (j: Job) => MatchesSearch(j, term) && MatchesStatus(j, filter));
    Lists.Filter(jobs, (j: Job) => MatchesSearch(j, term) && MatchesStatus(j, filter))
  }

  /** `updateJobStatus`: every job with the id gets the status, the date and
   *  the `update` flag; the first of them is sent to the server. */
  function UpdateJobStatus(jobs: seq<Job>, jobId: string, newStatus: string, now: string)
    : (r: (seq<Job>, Option<Request>))
    ensures |r.0| == |jobs|
    ensures forall i :: 0 <= i < |jobs| ==>
      r.0[i] == (if jobs[i].id == Some(jobId)
                 then jobs[i].(status := newStatus, dateUpdated := now, flag := Some("update"))
                 else jobs[i])
    ensures r.1.None? <==> forall i :: 0 <= i < |jobs| ==> jobs[i].id != Some(jobId)
    ensures r.1.Some? ==> r.1.value.job.id == Some(jobId) && r.1.value.job.status == newStatus
    ensures r.1.Some? ==> (r.1.value.AddJob? <==> jobId == "")
  {
    var jobs' := Lists.MapWhere(jobs, (j: Job) => j.id == Some(jobId),
                                (j: Job) => j.(status := newStatus, dateUpdated := now, flag := Some("update")));
    var found := Lists.Find(jobs', (j: Job) => j.id == Some(jobId));
    (jobs', if found.Some? then Some(Dispatch(found.value)) else None)
  }

  /** The arrow keys on a card: the six statuses in a ring. */
  function ArrowStatus(job: Job, key: string): (r: Option<string>)
    ensures r.Some? <==> key == "ArrowLeft" || key == "ArrowRight"
    ensures r.Some? ==> r.value in Statuses
  {
    if key == "ArrowLeft" || key == "ArrowRight" then Some(StepStatus(Statuses, job.status, key == "ArrowRight"))
    else None
  }

  lemma StatusesDistinct()
    ensures Distinct(Statuses)
  {
    assert forall i, j :: 0 <= i < j < |Statuses| ==> Statuses[i][0] != Statuses[j][0] || Statuses[i][1] != Statuses[j][1];
  }

  /** Left after Right (and Right after Left) returns a listed status to
   *  itself. */
  lemma ArrowsUndo(job: Job)
    requires job.status in Statuses
    ensures var s := ArrowStatus(job, "ArrowRight").value;
      ArrowStatus(job.(status := s), "ArrowLeft") == Some(job.status)
  {
    StatusesDistinct();
    StepStatusInverse(Statuses, job.status);
  }

  /** Progress dot `k` is filled when the job has reached at least the `k`th
   *  status. */
  function DotCompleted(status: string, k: nat): bool
  {
    IndexOf(Statuses, status) >= k
  }

  /** Dot `k` is filled exactly when the status is the `k`th or a later one;
   *  a status outside the list fills none. */
  lemma DotsUpToStatus(status: string, k: nat)
    requires k < |Statuses|
    ensures DotCompleted(status, k) <==> exists j :: k <= j < |Statuses| && Statuses[j] == status
    ensures status !in Statuses ==> !DotCompleted(status, k)
  {
    StatusesDistinct();
    if j :| k <= j < |Statuses| && Statuses[j] == status {
      IndexOfDistinct(Statuses, j);
    }
  }
}
