/** The admin migrations from the document store to the relational one
 *  (src/app/actions/server/admin/migrations/primary.ts): how each exported
 *  user and job becomes a row, and how a failed job insert is skipped. The
 *  date parser, the clock and the outcome of each insert are inputs. */
module Migrations {
  import opened Wrappers
  import Text

  /** `new Date(...)`: a valid instant, or an invalid date. */
  datatype Instant = Valid(ms: int) | Invalid

  /** Why a migration stops. */
  datatype Failure = Forbidden | CreateFailed

  datatype MongoUser = MongoUser(userId: string, tier: string, role: string, about: Option<string>,
                                 onBoardingComplete: bool, stripeCustomerId: Option<string>,
                                 subscriptionId: Option<string>, subscriptionStatus: Option<string>,
                                 cancelAtPeriodEnd: Option<bool>, currentPeriodEnd: Option<string>,
                                 dateCreated: string, dateUpdated: string)

  datatype UserRow = UserRow(id: string, tier: string, role: string, about: Option<string>,
                             onboardingComplete: bool, stripeCustomerId: Option<string>,
                             subscriptionId: Option<string>, subscriptionStatus: Option<string>,
                             cancelAtPeriodEnd: Option<bool>, currentPeriodEnd: Option<Instant>,
                             createdAt: Instant, updatedAt: Instant)

  /** The optional job fields that are copied as they are. */
  datatype Details = Details(website: Option<string>, jobDescription: Option<string>, notes: Option<string>,
                             contactName: Option<string>, contactEmail: Option<string>,
                             contactPhone: Option<string>, location: Option<string>,
                             remoteType: Option<string>, jobType: Option<string>, flag: Option<string>,
                             aiNotes: Option<string>, aiRating: Option<int>)

  datatype MongoJob = MongoJob(oid: string, userId: string, company: string, position: string, status: string,
                               details: Details, salary: Option<int>, aiRated: Option<bool>,
                               dateApplied: Option<string>, interviewDate: Option<string>)

  datatype JobRow = JobRow(id: string, userId: string, company: string, position: string, status: string,
                           details: Details, aiRated: bool, dateApplied: int, interviewDate: Option<int>,
                           createdAt: int, updatedAt: int)

  /** `new Date(s)` for a parser that may reject the text. */
  function DateOf(s: string, parse: string -> Option<int>): (d: Instant)
    ensures d.Valid? <==> parse(s).Some?
  {
    if parse(s).Some? then Valid(parse(s).value) else Invalid
  }

  /** The row written for one exported user: the external user id becomes
   *  the row id, and a missing period end is stored as null. */
  function UserRowOf(u: MongoUser, parse: string -> Option<int>): (r: UserRow)
    ensures r.id == u.userId && r.tier == u.tier && r.role == u.role
    ensures r.currentPeriodEnd.None? <==> u.currentPeriodEnd.None?
    ensures r.currentPeriodEnd.Some? ==> r.currentPeriodEnd.value == DateOf(u.currentPeriodEnd.value, parse)
  {
    UserRow(u.userId, u.tier, u.role, u.about, u.onBoardingComplete, u.stripeCustomerId, u.subscriptionId,
            u.subscriptionStatus, u.cancelAtPeriodEnd,
            if u.currentPeriodEnd.Some? then Some(DateOf(u.currentPeriodEnd.value, parse)) else None,
            DateOf(u.dateCreated, parse), DateOf(u.dateUpdated, parse))
  }

  /** `srv_migrateMongoUsers`: refused unless the caller is an admin; the
   *  inserts run together and any failure fails the whole call. `created`
   *  says whether the store accepts a row. */
  function MigrateUsers(isAdmin: bool, exported: seq<MongoUser>, parse: string -> Option<int>,
                        created: UserRow -> bool): (r: Result<seq<UserRow>, Failure>)
    ensures !isAdmin <==> r == Err(Forbidden)
    ensures r.Ok? ==>
      (|r.value| == |exported| &&
       forall i :: 0 <= i < |exported| ==> r.value[i] == UserRowOf(exported[i], parse))
    ensures isAdmin ==>
      (r.Err? <==> exists i :: 0 <= i < |exported| && !created(UserRowOf(exported[i], parse)))
  {
    var rows := seq(|exported|, i requires 0 <= i < |exported| => UserRowOf(exported[i], parse));
    if !isAdmin then Err(Forbidden)
    else if exists i :: 0 <= i < |rows| && !created(rows[i]) then Err(CreateFailed)
    else Ok(rows)
  }

  /** `dateApplied`: the export's date when present and parseable, otherwise
   *  the time of the migration. */
  function AppliedDate(d: Option<string>, parse: string -> Option<int>, now: int): (t: int)
    ensures d.None? || parse(d.value).None? ==> t == now
    ensures d.Some? && parse(d.value).Some? ==> t == parse(d.value).value
  {
    if d.None? then now else parse(d.value).GetOr(now)
  }

  /** `interviewDate`: the same, but falling back to null. */
  function InterviewDate(d: Option<string>, parse: string -> Option<int>): (t: Option<int>)
    ensures t.None? <==> d.None? || parse(d.value).None?
    ensures t.Some? ==> t == parse(d.value)
  {
    if d.None? then None else parse(d.value)
  }

  /** The row written for one exported job: the export's object id becomes
   *  the row id, the status is upper-cased, `aiRated` defaults to false,
   *  the salary is not carried over and both timestamps are the migration
   *  time. */
  function JobRowOf(j: MongoJob, parse: string -> Option<int>, now: int): (r: JobRow)
    ensures r.id == j.oid && r.userId == j.userId && r.details == j.details
    ensures r.status == Text.Upper(j.status)
    ensures r.aiRated <==> j.aiRated == Some(true)
    ensures r.dateApplied == AppliedDate(j.dateApplied, parse, now)
    ensures r.interviewDate == InterviewDate(j.interviewDate, parse)
    ensures r.createdAt == now && r.updatedAt == now
  {
    JobRow(j.oid, j.userId, j.company, j.position, Text.Upper(j.status), j.details, j.aiRated.GetOr(false),
           AppliedDate(j.dateApplied, parse, now), InterviewDate(j.interviewDate, parse), now, now)
  }

  /** The rows of the jobs whose insert succeeds, in export order; `failed`
   *  holds the positions whose insert is rejected. */
  function Kept(rows: seq<JobRow>, failed: set<nat>): (r: seq<JobRow>)
    ensures |r| <= |rows|
  {
    if |rows| == 0 then []
    else Kept(rows[..|rows| - 1], failed) + (if |rows| - 1 in failed then [] else [rows[|rows| - 1]])
  }

  /** A row is kept exactly when its insert succeeded. */
  lemma {:induction false} KeptExactly(rows: seq<JobRow>, failed: set<nat>)
    ensures forall k :: 0 <= k < |rows| && k !in failed ==> rows[k] in Kept(rows, failed)
    ensures forall x :: x in Kept(rows, failed) ==> exists k :: 0 <= k < |rows| && k !in failed && rows[k] == x
  {
    if |rows| > 0 {
      var init := rows[..|rows| - 1];
      KeptExactly(init, failed);
      forall x | x in Kept(rows, failed)
        ensures exists k :: 0 <= k < |rows| && k !in failed && rows[k] == x
      {
        if x in Kept(init, failed) {
          var k :| 0 <= k < |init| && k !in failed && init[k] == x;
          assert rows[k] == x;
        } else {
          assert |rows| - 1 !in failed && rows[|rows| - 1] == x;
        }
      }
      forall k | 0 <= k < |rows| && k !in failed
        ensures rows[k] in Kept(rows, failed)
      {
        if k < |init| {
          assert init[k] == rows[k];
        }
      }
    }
  }

  /** With no failed insert every row is kept. */
  lemma {:induction false} KeptAll(rows: seq<JobRow>, failed: set<nat>)
    requires forall k :: 0 <= k < |rows| ==> k !in failed
    ensures Kept(rows, failed) == rows
  {
    if |rows| > 0 {
      KeptAll(rows[..|rows| - 1], failed);
    }
  }

  function JobRows(exported: seq<MongoJob>, parse: string -> Option<int>, now: int): (rows: seq<JobRow>)
    ensures |rows| == |exported|
    ensures forall i :: 0 <= i < |exported| ==> rows[i] == JobRowOf(exported[i], parse, now)
  {
    seq(|exported|, i requires 0 <= i < |exported| => JobRowOf(exported[i], parse, now))
  }

  /** `srv_migrateMongoJobs`: refused unless the caller is an admin; the
   *  jobs are inserted one at a time, a rejected insert is skipped and the
   *  loop goes on, and the result holds the inserted rows in order. */
  method MigrateJobs(isAdmin: bool, exported: seq<MongoJob>, parse: string -> Option<int>, now: int,
                     failed: set<nat>) returns (r: Result<seq<JobRow>, Failure>)
    ensures !isAdmin <==> r == Err(Forbidden)
    ensures isAdmin ==> r == Ok(Kept(JobRows(exported, parse, now), failed))
  {
    if !isAdmin {
      return Err(Forbidden);
    }
    var rows := JobRows(exported, parse, now);
    var jobs: seq<JobRow> := [];
    var i := 0;
    while i < |exported|
      invariant 0 <= i <= |exported|
      invariant jobs == Kept(rows[..i], failed)
    {
      var row := JobRowOf(exported[i], parse, now);
      if i !in failed {
        jobs := jobs + [row];
      }
      assert rows[..i + 1][..i] == rows[..i];
      i := i + 1;
    }
    assert rows[..|exported|] == rows;
    return Ok(jobs);
  }
}
