/** The job application record the dashboards edit, and the cyclic status
 *  navigation they share. Dates are kept as the strings the record stores. */
module JobRecord {
  import opened Wrappers
  import Text

  datatype Job = Job(id: Option<string>, company: string, position: string, status: string, website: string,
                     notes: string, isArchived: bool, aiRating: Option<int>, dateCreated: string,
                     dateUpdated: string, dateApplied: string, flag: Option<string>)

  /** `{...undefined, ...}`: a record none of whose fields is set. The
   *  source leaves such fields `undefined`; here the text fields hold "",
   *  the flag `false` and the optional fields `None`. All of these are
   *  falsy, as `undefined` is, but a serialised request would carry ""
   *  where the source omits the field. */
  const Blank: Job := Job(None, "", "", "", "", "", false, None, "", "", "", None)

  /** What a dashboard asks the server to do with an edited job. */
  datatype Request = AddJob(job: Job) | UpdateJob(job: Job)

  /** `updateJobDetails`: a job without an id (missing or empty) is added
   *  instead of updated. */
  function Dispatch(job: Job): (r: Request)
    ensures r.job == job
    ensures r.AddJob? <==> job.id.None? || job.id.value == ""
  {
    if job.id.None? || job.id.value == "" then AddJob(job) else UpdateJob(job)
  }

  /** `(i + 1) % n` or `(i - 1 + n) % n`. `i` comes from `indexOf`, so it can
   *  be -1; the numerator is then never below -1, and JavaScript's `-1 % 1`
   *  is -0, which indexes like 0, so Dafny's `%` gives the same index. */
  function StepIndex(i: int, n: int, forward: bool): (r: int)
    requires n > 0 && -1 <= i < n
    ensures 0 <= r < n
    ensures forward ==> r == (if i == n - 1 then 0 else i + 1)
    ensures !forward && 0 < i ==> r == i - 1
    ensures !forward && i == 0 ==> r == n - 1
  {
    var a := if forward then i + 1 else i - 1 + n;
    if a < 0 then assert n == 1; a % n
    else if a < n then ModBelow(a, n); a % n
    else ModOnce(a, n); a % n
  }

  lemma ModBelow(a: int, n: int)
    requires 0 <= a < n
    ensures a % n == a
  {
    var q := a / n;
    assert a == q * n + a % n;
  }

  lemma ModOnce(a: int, n: int)
    requires n <= a < 2 * n
    ensures a % n == a - n
  {
    ModBelow(a - n, n);
    var q := a / n;
    assert a == q * n + a % n;
  }

  /** Going back undoes going forward, and the other way round. */
  lemma StepIndexInverse(i: int, n: int)
    requires n > 0 && 0 <= i < n
    ensures StepIndex(StepIndex(i, n, true), n, false) == i
    ensures StepIndex(StepIndex(i, n, false), n, true) == i
  {
  }

  predicate Distinct(xs: seq<string>)
  {
    forall i, j :: 0 <= i < j < |xs| ==> xs[i] != xs[j]
  }

  /** The status an arrow key moves a job to. */
  function StepStatus(statuses: seq<string>, status: string, forward: bool): (r: string)
    requires |statuses| > 0
    ensures r in statuses
  {
    statuses[StepIndex(Text.IndexOf(statuses, status), |statuses|, forward)]
  }

  lemma IndexOfDistinct(statuses: seq<string>, k: nat)
    requires Distinct(statuses) && k < |statuses|
    ensures Text.IndexOf(statuses, statuses[k]) == k
  {
    assert statuses[k] in statuses;
  }

  /** Left undoes Right on any listed status, given a list without repeats
   *  (the values of an enum). */
  lemma StepStatusInverse(statuses: seq<string>, status: string)
    requires Distinct(statuses) && status in statuses
    ensures StepStatus(statuses, StepStatus(statuses, status, true), false) == status
    ensures StepStatus(statuses, StepStatus(statuses, status, false), true) == status
  {
    var n := |statuses|;
    var i := Text.IndexOf(statuses, status);
    var f := StepIndex(i, n, true);
    var b := StepIndex(i, n, false);
    IndexOfDistinct(statuses, f);
    IndexOfDistinct(statuses, b);
    StepIndexInverse(i, n);
  }
}
