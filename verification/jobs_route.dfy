/** The jobs REST endpoint (src/app/api/jobs/route.ts): the user record it
 *  creates on first use, the page size by tier, and the checks and
 *  reshaping of `POST` and `PUT`. The database is a pair of collections
 *  passed in and handed back; the clock and the fresh job id are inputs. */
module JobsRoute {
  import opened Wrappers

  datatype UserRecord = UserRecord(userId: string, tier: string, role: string, dateCreated: int, dateUpdated: int)

  /** The finder service's answer as the client sends it. */
  datatype HunterAnswer = HunterAnswer(domain: string, pattern: string, organization: string, emails: seq<string>)

  /** The body's `hunterData` value: an object whose `data` field is the
   *  finder's answer, or any other truthy value, which has no `data`. */
  datatype HunterBody = WithData(data: HunterAnswer) | WithoutData

  /** The finder data as `PUT` reshapes it. */
  datatype HunterData = HunterData(domain: string, pattern: string, organization: string, emails: seq<string>,
                                   dateUpdated: string)

  /** The job schema declares `hunterData` a plain object, so a stored job
   *  holds whatever was written: the body's value as `POST` received it,
   *  or the shape `PUT` makes. */
  datatype StoredHunter = Raw(sent: HunterBody) | Reshaped(data: HunterData)

  datatype StoredJob = StoredJob(id: string, userId: string, company: string, position: string, status: string,
                                 hunterData: Option<StoredHunter>, dateCreated: int, dateUpdated: int)

  /** A request body: each field may be absent. `dateCreated` is a job
   *  schema path, so a body may carry it too. */
  datatype Body = Body(id: Option<string>, userId: Option<string>, company: Option<string>, position: Option<string>,
                       status: Option<string>, hunterData: Option<HunterBody>, dateCreated: Option<int>)

  /** `Uncaught` is a throw outside the handler's `try`, which the framework
   *  answers with a bare 500. */
  datatype Response = Error(status: int, message: string) | Listed(jobs: seq<StoredJob>) | Saved(job: StoredJob)
                    | Uncaught

  const DefaultStatus: string := "Yet to Apply"

  /** JavaScript truthiness of an optional string. */
  predicate Truthy(s: Option<string>)
  {
    s.Some? && s.value != []
  }

  /** `getOrCreateUser`: an existing user is returned untouched; a missing
   *  one is created as a free-tier user. */
  function GetOrCreateUser(users: map<string, UserRecord>, userId: string, now: int): (r: (map<string, UserRecord>, UserRecord))
    ensures userId in users ==> r == (users, users[userId])
    ensures userId !in users ==> r.1 == UserRecord(userId, "free", "user", now, now)
    ensures r.0 == users[userId := r.1]
  {
    if userId in users then (users, users[userId])
    else
      var u := UserRecord(userId, "free", "user", now, now);
      (users[userId := u], u)
  }

  /** The number of jobs `GET` returns; 0 is the database's "no limit". */
  function PageSize(tier: string): (n: nat)
    ensures tier == "premium" ==> n == 50
    ensures tier == "enterprise" ==> n == 0
    ensures tier != "premium" && tier != "enterprise" ==> n == 10
  {
    if tier == "premium" then 50 else if tier == "enterprise" then 0 else 10
  }

  /** The caller's jobs, in stored order. */
  function Mine(jobs: seq<StoredJob>, userId: string): (r: seq<StoredJob>)
    ensures forall j :: j in r <==> j in jobs && j.userId == userId
  {
    if |jobs| == 0 then []
    else (if jobs[0].userId == userId then [jobs[0]] else []) + Mine(jobs[1..], userId)
  }

  /** `.limit(n)`: the first `n` results, all of them for 0. */
  function Limit<T>(xs: seq<T>, n: nat): (r: seq<T>)
    ensures n == 0 || |xs| <= n ==> r == xs
    ensures 0 < n < |xs| ==> r == xs[..n]
  {
    if n == 0 || |xs| <= n then xs else xs[..n]
  }

  /** `GET`: 401 without a user id; otherwise the caller's jobs, as many as
   *  their tier allows. */
  function Get(users: map<string, UserRecord>, jobs: seq<StoredJob>, userId: Option<string>, now: int):
    (r: (map<string, UserRecord>, Response))
    ensures !Truthy(userId) ==> r == (users, Error(401, "Unauthorized"))
    ensures Truthy(userId) ==>
      (userId.value in r.0 && r.1.Listed? && r.1.jobs <= Mine(jobs, userId.value) &&
       var n := PageSize(r.0[userId.value].tier);
       |r.1.jobs| == if n == 0 || |Mine(jobs, userId.value)| <= n then |Mine(jobs, userId.value)| else n)
  {
    if !Truthy(userId) then (users, Error(401, "Unauthorized"))
    else
      var (users', user) := GetOrCreateUser(users, userId.value, now);
      (users', Listed(Limit(Mine(jobs, userId.value), PageSize(user.tier))))
  }

  /** A first-time caller is a free-tier user and sees at most ten of their
   *  jobs; every job listed is theirs. */
  lemma GetNewUserSeesTen(users: map<string, UserRecord>, jobs: seq<StoredJob>, userId: string, now: int)
    requires userId != [] && userId !in users
    ensures var r := Get(users, jobs, Some(userId), now);
      r.0[userId].tier == "free" && r.1.Listed? && |r.1.jobs| <= 10 &&
      r.1.jobs <= Mine(jobs, userId) &&
      (|Mine(jobs, userId)| >= 10 ==> |r.1.jobs| == 10)
  {
  }

  /** `POST`: 401 without a user id, 400 without a company or position;
   *  otherwise a new job owned by the caller, under the fresh id, with the
   *  status defaulting to "Yet to Apply" and the body's finder data stored
   *  as sent. A failed save is a 500. */
  function Post(users: map<string, UserRecord>, jobs: seq<StoredJob>, userId: Option<string>, body: Body,
                freshId: string, now: int, saveOk: bool): (r: (map<string, UserRecord>, seq<StoredJob>, Response))
    ensures !Truthy(userId) ==> r == (users, jobs, Error(401, "Unauthorized"))
    ensures Truthy(userId) && (!Truthy(body.company) || !Truthy(body.position)) ==>
      r.1 == jobs && r.2 == Error(400, "Missing required fields")
    ensures r.2.Saved? <==> Truthy(userId) && Truthy(body.company) && Truthy(body.position) && saveOk
    ensures r.2.Saved? ==>
      (r.1 == jobs + [r.2.job] && r.2.job.userId == userId.value && r.2.job.id == freshId &&
       r.2.job.status == (if Truthy(body.status) then body.status.value else DefaultStatus))
    ensures r.2.Saved? ==> r.2.job.dateCreated == now && r.2.job.dateUpdated == now
    ensures r.2.Saved? ==> (r.2.job.hunterData.Some? <==> body.hunterData.Some?)
    ensures r.2.Saved? && r.2.job.hunterData.Some? ==>
      r.2.job.hunterData.value.Raw? && r.2.job.hunterData.value.sent == body.hunterData.value
    ensures !r.2.Saved? ==> r.1 == jobs
  {
    if !Truthy(userId) then (users, jobs, Error(401, "Unauthorized"))
    else
      var (users', _) := GetOrCreateUser(users, userId.value, now);
      if !Truthy(body.company) || !Truthy(body.position) then (users', jobs, Error(400, "Missing required fields"))
      else
        var job := StoredJob(freshId, userId.value, body.company.value, body.position.value,
                             if Truthy(body.status) then body.status.value else DefaultStatus,
                             if body.hunterData.Some? then Some(Raw(body.hunterData.value)) else None, now, now);
        if saveOk then (users', jobs + [job], Saved(job)) else (users', jobs, Error(500, "Error saving job"))
  }

  /** A body cannot choose the owner or the id of the job it creates: the
   *  caller's id and the fresh id win over anything the body names. */
  lemma PostIgnoresBodyOwner(users: map<string, UserRecord>, jobs: seq<StoredJob>, userId: string, body: Body,
                             freshId: string, now: int)
    requires userId != [] && Truthy(body.company) && Truthy(body.position)
    requires body.userId.Some? && body.userId.value != userId
    ensures var r := Post(users, jobs, Some(userId), body, freshId, now, true);
      r.2.Saved? && r.2.job.userId == userId && r.2.job.userId != body.userId.value
  {
  }

  /** `hunterData.data` reshaped, stamped with the time of the update. */
  function Reshape(h: HunterAnswer, nowIso: string): (r: HunterData)
    ensures r.domain == h.domain && r.pattern == h.pattern && r.organization == h.organization
    ensures r.emails == h.emails && r.dateUpdated == nowIso
  {
    HunterData(h.domain, h.pattern, h.organization, h.emails, nowIso)
  }

  /** `{...job, ...update, dateUpdated, status}` where `update` is the body
   *  after its finder data was reshaped (which is why a body whose finder
   *  value has no `data` never gets here): each field the body carries
   *  replaces the stored one, the creation time included, and the status
   *  falls back to the default when the body has none. */
  function Apply(job: StoredJob, body: Body, now: int, nowIso: string): (r: StoredJob)
    requires body.hunterData.None? || body.hunterData.value.WithData?
    ensures r.dateCreated == (if body.dateCreated.Some? then body.dateCreated.value else job.dateCreated)
    ensures r.dateUpdated == now
    ensures r.status == (if Truthy(body.status) then body.status.value else DefaultStatus)
    ensures body.hunterData.Some? ==> r.hunterData == Some(Reshaped(Reshape(body.hunterData.value.data, nowIso)))
    ensures body.hunterData.None? ==> r.hunterData == job.hunterData
    ensures r.userId == (if body.userId.Some? then body.userId.value else job.userId)
  {
    StoredJob(
      if body.id.Some? then body.id.value else job.id,
      if body.userId.Some? then body.userId.value else job.userId,
      if body.company.Some? then body.company.value else job.company,
      if body.position.Some? then body.position.value else job.position,
      if Truthy(body.status) then body.status.value else DefaultStatus,
      if body.hunterData.Some? then Some(Reshaped(Reshape(body.hunterData.value.data, nowIso))) else job.hunterData,
      if body.dateCreated.Some? then body.dateCreated.value else job.dateCreated, now)
  }

  /** The first job with this id and owner, as `findOneAndUpdate` picks it. */
  function FindOwned(jobs: seq<StoredJob>, id: string, userId: string): (i: int)
    ensures -1 <= i < |jobs|
    ensures i == -1 <==> forall k :: 0 <= k < |jobs| ==> !(jobs[k].id == id && jobs[k].userId == userId)
    ensures 0 <= i ==>
      (jobs[i].id == id && jobs[i].userId == userId &&
       forall k :: 0 <= k < i ==> !(jobs[k].id == id && jobs[k].userId == userId))
  {
    if |jobs| == 0 then -1
    else if jobs[0].id == id && jobs[0].userId == userId then 0
    else
      var i := FindOwned(jobs[1..], id, userId);
      if i == -1 then -1 else i + 1
  }

  /** `PUT`: 401 without a user id, 400 without a job id; finder data
   *  without `data` throws before the `try`; 404 when the caller owns no
   *  job with that id; otherwise that one job is updated. A failed write is
   *  a 500. */
  function Put(jobs: seq<StoredJob>, userId: Option<string>, body: Body, now: int, nowIso: string, writeOk: bool):
    (r: (seq<StoredJob>, Response))
    ensures !Truthy(userId) ==> r == (jobs, Error(401, "Unauthorized"))
    ensures Truthy(userId) && !Truthy(body.id) ==> r == (jobs, Error(400, "Missing job id"))
    ensures r.1.Uncaught? <==> Truthy(userId) && Truthy(body.id) && body.hunterData == Some(WithoutData)
    ensures !r.1.Saved? ==> r.0 == jobs
    ensures r.1.Saved? ==>
      (Truthy(userId) && Truthy(body.id) && writeOk && |r.0| == |jobs| &&
       exists i :: 0 <= i < |jobs| && jobs[i].id == body.id.value && jobs[i].userId == userId.value &&
         r.0 == jobs[i := r.1.job] && r.1.job == Apply(jobs[i], body, now, nowIso))
  {
    if !Truthy(userId) then (jobs, Error(401, "Unauthorized"))
    else if !Truthy(body.id) then (jobs, Error(400, "Missing job id"))
    else if body.hunterData == Some(WithoutData) then (jobs, Uncaught)
    else if !writeOk then (jobs, Error(500, "Error updating job"))
    else
      var i := FindOwned(jobs, body.id.value, userId.value);
      if i < 0 then (jobs, Error(404, "Job not found"))
      else
        var updated := Apply(jobs[i], body, now, nowIso);
        (jobs[i := updated], Saved(updated))
  }

  /** A `PUT` never touches a job the caller does not own, and answers 404
   *  exactly when the caller owns no job with the id and the finder data,
   *  if any, could be reshaped. */
  lemma PutOnlyOwnJob(jobs: seq<StoredJob>, userId: string, body: Body, now: int, nowIso: string, k: nat)
    requires userId != [] && Truthy(body.id) && k < |jobs|
    requires jobs[k].userId != userId || jobs[k].id != body.id.value
    ensures Put(jobs, Some(userId), body, now, nowIso, true).0[k] == jobs[k]
    ensures Put(jobs, Some(userId), body, now, nowIso, true).1 == Error(404, "Job not found") <==>
      body.hunterData != Some(WithoutData) &&
      forall j :: 0 <= j < |jobs| ==> !(jobs[j].id == body.id.value && jobs[j].userId == userId)
  {
  }

  /** A `PUT` without a status resets the job to "Yet to Apply", and one
   *  that names an owner hands the job to that owner. */
  lemma PutOverwrites(job: StoredJob, body: Body, now: int, nowIso: string)
    requires job.userId != [] && job.id != []
    requires body.id == Some(job.id) && body.status.None? && body.userId.Some? && body.hunterData != Some(WithoutData)
    ensures var r := Put([job], Some(job.userId), body, now, nowIso, true);
      r.1.Saved? && r.1.job.status == DefaultStatus && r.0[0].userId == body.userId.value
  {
  }

  /** Finder data sent with a new job is stored as sent, so a job created
   *  with it and never updated holds the raw value, while an update stores
   *  the reshaped form; data without `data` fails the update with an
   *  uncaught 500 and leaves the job as `POST` stored it. */
  lemma FinderDataShapes(users: map<string, UserRecord>, userId: string, body: Body, a: HunterAnswer,
                         freshId: string, now: int, nowIso: string)
    requires userId != [] && Truthy(body.company) && Truthy(body.position) && freshId != []
    ensures var created := Post(users, [], Some(userId), body.(hunterData := Some(WithData(a))), freshId, now, true);
      created.2.Saved? && created.2.job.hunterData == Some(Raw(WithData(a))) &&
      var updated := Put(created.1, Some(userId), Body(Some(freshId), None, None, None, None, Some(WithData(a)), None),
                         now, nowIso, true);
      updated.1.Saved? && updated.1.job.hunterData == Some(Reshaped(HunterData(a.domain, a.pattern, a.organization,
                                                                               a.emails, nowIso)))
    ensures var created := Post(users, [], Some(userId), body, freshId, now, true);
      var updated := Put(created.1, Some(userId), Body(Some(freshId), None, None, None, None, Some(WithoutData), None),
                         now, nowIso, true);
      updated == (created.1, Uncaught)
  {
  }

  /** A new job is always stamped with the time of the request, whatever
   *  creation time the body names, but an update that names one replaces
   *  the stored creation time with it. */
  lemma CreationTimeOnlyUpdatable(users: map<string, UserRecord>, userId: string, body: Body, freshId: string,
                                  created: int, now: int, later: int, nowIso: string)
    requires userId != [] && Truthy(body.company) && Truthy(body.position) && freshId != []
    requires body.hunterData.None? && body.dateCreated == Some(created)
    ensures var posted := Post(users, [], Some(userId), body, freshId, now, true);
      posted.2.Saved? && posted.2.job.dateCreated == now &&
      var put := Put(posted.1, Some(userId), body.(id := Some(freshId), userId := None), later, nowIso, true);
      put.1.Saved? && put.1.job.dateCreated == created
  {
  }

  /** Every handler refuses a request without a user id before reading
   *  anything. */
  lemma AllHandlersNeedUser(users: map<string, UserRecord>, jobs: seq<StoredJob>, body: Body, freshId: string,
                            now: int, nowIso: string, ok: bool)
    ensures Get(users, jobs, None, now).1 == Error(401, "Unauthorized")
    ensures Post(users, jobs, None, body, freshId, now, ok).2 == Error(401, "Unauthorized")
    ensures Put(jobs, None, body, now, nowIso, ok).1 == Error(401, "Unauthorized")
  {
  }
}
