/** The main job tracker (src/app/dashboard/appliedtrack.tsx): arrow-key
 *  status changes, the filtered and sorted job list, the table's sortable
 *  headers and column switches, and the five-step add-job wizard. The
 *  status list is `Object.values(JobStatus)`, an enum outside the model,
 *  so it is a parameter. */
module AppliedTrack {
  import opened Wrappers
  import opened JobRecord
  import opened Text
  import opened Sorting
  import Lists

  function HasId(job: Job, id: string): bool
  {
    job.id == Some(id)
  }

  /** `updateJobStatus`: every job with the id becomes the first such job
   *  with the new status, the `update` flag and the new date; the record
   *  goes to the server, which adds it when it has no id. */
  function UpdateJobStatus(jobs: seq<Job>, jobId: string, newStatus: string, now: string): (r: (seq<Job>, Request))
    ensures |r.0| == |jobs|
    ensures forall i :: 0 <= i < |jobs| && !HasId(jobs[i], jobId) ==> r.0[i] == jobs[i]
    ensures forall i :: 0 <= i < |jobs| && HasId(jobs[i], jobId) ==>
      r.0[i].status == newStatus && r.0[i].flag == Some("update") && r.0[i].dateUpdated == now
    ensures (forall i :: 0 <= i < |jobs| ==> !HasId(jobs[i], jobId)) ==>
      r.0 == jobs && r.1 == AddJob(Blank.(status := newStatus, dateUpdated := now, flag := Some("update")))
  {
    var base := Lists.Find(jobs, (j: Job) => HasId(j, jobId)).GetOr(Blank);
    var updated := base.(status := newStatus, dateUpdated := now, flag := Some("update"));
    var jobs' := Lists.MapWhere(jobs, (j: Job) => HasId(j, jobId), (_: Job) => updated);
    (jobs', Dispatch(updated))
  }

  predicate UniqueIds(jobs: seq<Job>)
  {
    forall i, j :: 0 <= i < j < |jobs| && jobs[i].id.Some? ==> jobs[i].id != jobs[j].id
  }

  /** With unique ids, a status change rewrites just that job's status, flag
   *  and date, keeping every other field, and sends it as an update. */
  lemma UpdateJobStatusOnlyThatJob(jobs: seq<Job>, k: nat, newStatus: string, now: string)
    requires UniqueIds(jobs) && k < |jobs| && jobs[k].id.Some? && jobs[k].id.value != ""
    ensures var (jobs', req) := UpdateJobStatus(jobs, jobs[k].id.value, newStatus, now);
      var updated := jobs[k].(status := newStatus, dateUpdated := now, flag := Some("update"));
      && jobs' == jobs[k := updated]
      && req == UpdateJob(updated)
  {
    var id := jobs[k].id.value;
    var i := Lists.FindIndex(jobs, (j: Job) => HasId(j, id));
    assert i == k;
  }

  /** `handleKeyDown` on a job card: the arrows move its status through the
   *  list; other keys do nothing. */
  function HandleKeyDown(statuses: seq<string>, jobs: seq<Job>, job: Job, key: string, now: string)
    : (r: Option<(seq<Job>, Request)>)
    requires |statuses| > 0
    ensures r.Some? <==> key == "ArrowLeft" || key == "ArrowRight"
    ensures r.Some? ==> r.value == UpdateJobStatus(jobs, job.id.GetOr(""), StepStatus(statuses, job.status, key == "ArrowRight"), now)
  {
    if key == "ArrowLeft" || key == "ArrowRight" then
      Some(UpdateJobStatus(jobs, job.id.GetOr(""), StepStatus(statuses, job.status, key == "ArrowRight"), now))
    else None
  }

  /** The search box: company or position contains the term, ignoring case. */
  predicate MatchesSearch(job: Job, term: string)
  {
    Contains(Lower(job.company), Lower(term)) || Contains(Lower(job.position), Lower(term))
  }

  /** The status filter: 'All' is every live job, 'Archived' the archived
   *  ones, anything else the live jobs with that status. */
  predicate MatchesStatus(job: Job, filter: string)
  {
    if filter == "All" then !job.isArchived
    else if filter == "Archived" then job.isArchived
    else job.status == filter && !job.isArchived
  }

  function Matches(term: string, filter: string): Job -> bool
  {
    (j: Job) => MatchesSearch(j, term) && MatchesStatus(j, filter)
  }

  /** `a - b` on two numbers that may be missing: a missing one makes the
   *  difference `NaN`, which `sort` reads as 0. */
  function Diff(a: Option<int>, b: Option<int>): int
  {
    if a.Some? && b.Some? then a.value - b.value else 0
  }

  /** `x || y` on strings. */
  function OrElse(x: string, y: string): string
  {
    if x != "" then x else y
  }

  /** The comparator for the `sortBy` menu. `parse` is `new Date(s).getTime()`,
   *  `None` standing for `NaN`. */
  function Compare(sortBy: string, parse: string -> Option<int>, statuses: seq<string>, a: Job, b: Job): int
  {
    match sortBy
    case "rating_asc" => Diff(a.aiRating, b.aiRating)
    case "rating_desc" => Diff(b.aiRating, a.aiRating)
    case "newest" => Diff(parse(OrElse(b.dateCreated, b.dateUpdated)), parse(OrElse(a.dateCreated, a.dateUpdated)))
    case "oldest" => Diff(parse(OrElse(a.dateCreated, a.dateUpdated)), parse(OrElse(b.dateCreated, b.dateUpdated)))
    case "updated" => Diff(parse(b.dateUpdated), parse(a.dateUpdated))
    case "company" => StrCmp(a.company, b.company)
    case "status" => IndexOf(statuses, a.status) - IndexOf(statuses, b.status)
    case _ => 0
  }

  function SortCmp(sortBy: string, parse: string -> Option<int>, statuses: seq<string>): (Job, Job) -> int
  {
    (a: Job, b: Job) => Compare(sortBy, parse, statuses, a, b)
  }

  /** `filteredJobs`: the matching jobs, sorted by the menu's choice. */
  function FilteredJobs(jobs: seq<Job>, term: string, filter: string, sortBy: string,
                        parse: string -> Option<int>, statuses: seq<string>): (r: seq<Job>)
    ensures multiset(r) == multiset(Lists.Filter(jobs, Matches(term, filter)))
  {
    SortBy(Lists.Filter(jobs, Matches(term, filter)), SortCmp(sortBy, parse, statuses))
  }

  /** A job is listed exactly when it is in `jobs` and passes both the search
   *  and the status filter, whatever the sort. */
  lemma FilteredJobsMembers(jobs: seq<Job>, term: string, filter: string, sortBy: string,
                            parse: string -> Option<int>, statuses: seq<string>, job: Job)
    ensures job in FilteredJobs(jobs, term, filter, sortBy, parse, statuses) <==>
      job in jobs && MatchesSearch(job, term) && MatchesStatus(job, filter)
  {
    var kept := Lists.Filter(jobs, Matches(term, filter));
    var r := FilteredJobs(jobs, term, filter, sortBy, parse, statuses);
    assert job in r <==> job in multiset(r);
    assert job in kept <==> job in multiset(kept);
    if job in jobs && Matches(term, filter)(job) {
      var i :| 0 <= i < |jobs| && jobs[i] == job;
    }
  }

  /** A menu value with no comparator leaves the filtered jobs in their
   *  original order. */
  lemma UnknownSortKeepsOrder(jobs: seq<Job>, term: string, filter: string, sortBy: string,
                              parse: string -> Option<int>, statuses: seq<string>)
    requires sortBy !in {"rating_asc", "rating_desc", "newest", "oldest", "updated", "company", "status"}
    ensures FilteredJobs(jobs, term, filter, sortBy, parse, statuses) == Lists.Filter(jobs, Matches(term, filter))
    ensures Lists.Subseq(FilteredJobs(jobs, term, filter, sortBy, parse, statuses), jobs)
  {
    SortByNeutral(Lists.Filter(jobs, Matches(term, filter)), SortCmp(sortBy, parse, statuses));
    Lists.FilterSubseq(jobs, Matches(term, filter));
  }

  lemma CompanyCmpConsistent(parse: string -> Option<int>, statuses: seq<string>)
    ensures Consistent(SortCmp("company", parse, statuses))
  {
    var cmp := SortCmp("company", parse, statuses);
    forall a: Job, b: Job
      ensures Sign(cmp(a, b)) == -Sign(cmp(b, a))
    {
      StrCmpAntisymmetric(a.company, b.company);
    }
    forall a: Job, b: Job, c: Job | cmp(a, b) <= 0 && cmp(b, c) <= 0
      ensures cmp(a, c) <= 0
    {
      StrCmpTransitive(a.company, b.company, c.company);
    }
  }

  /** Sorting by company orders the list by company name. */
  lemma CompanySortOrders(jobs: seq<Job>, term: string, filter: string, parse: string -> Option<int>,
                          statuses: seq<string>)
    ensures var r := FilteredJobs(jobs, term, filter, "company", parse, statuses);
      forall i, j :: 0 <= i < j < |r| ==> StrCmp(r[i].company, r[j].company) <= 0
  {
    CompanyCmpConsistent(parse, statuses);
    SortBySorted(Lists.Filter(jobs, Matches(term, filter)), SortCmp("company", parse, statuses));
  }

  /** Sorting by status orders the list by position in the status list. */
  lemma StatusSortOrders(jobs: seq<Job>, term: string, filter: string, parse: string -> Option<int>,
                         statuses: seq<string>)
    ensures var r := FilteredJobs(jobs, term, filter, "status", parse, statuses);
      forall i, j :: 0 <= i < j < |r| ==> IndexOf(statuses, r[i].status) <= IndexOf(statuses, r[j].status)
  {
    var cmp := SortCmp("status", parse, statuses);
    assert Consistent(cmp) by {
      KeyConsistent((j: Job) => IndexOf(statuses, j.status));
      assert forall a: Job, b: Job :: cmp(a, b) == IndexOf(statuses, a.status) - IndexOf(statuses, b.status);
    }
    SortBySorted(Lists.Filter(jobs, Matches(term, filter)), cmp);
  }

  // ---- the table view ----

  datatype Column = Company | Position | Status | DateApplied | DateUpdated

  datatype Direction = Asc | Desc | Unsorted

  datatype SortState = SortState(column: Option<Column>, direction: Direction)

  const InitialSort: SortState := SortState(None, Unsorted)

  function ColumnValue(job: Job, col: Column): string
  {
    match col
    case Company => job.company
    case Position => job.position
    case Status => job.status
    case DateApplied => job.dateApplied
    case DateUpdated => job.dateUpdated
  }

  /** The table comparator: empty cells go last in both directions, and a
   *  descending sort negates the text comparison. */
  function TableCompare(col: Column, asc: bool, a: Job, b: Job): int
  {
    var x := ColumnValue(a, col);
    var y := ColumnValue(b, col);
    if x == "" && y == "" then 0
    else if x == "" then 1
    else if y == "" then -1
    else if asc then StrCmp(x, y) else -StrCmp(x, y)
  }

  function TableCmp(col: Column, asc: bool): (Job, Job) -> int
  {
    (a: Job, b: Job) => TableCompare(col, asc, a, b)
  }

  /** `sortedJobs`. */
  function SortedJobs(filtered: seq<Job>, state: SortState): (r: seq<Job>)
    ensures multiset(r) == multiset(filtered)
    ensures state.column.None? || state.direction == Unsorted ==> r == filtered
  {
    if state.column.None? || state.direction == Unsorted then filtered
    else SortBy(filtered, TableCmp(state.column.value, state.direction == Asc))
  }

  lemma TableCmpConsistent(col: Column, asc: bool)
    ensures Consistent(TableCmp(col, asc))
  {
    var cmp := TableCmp(col, asc);
    forall a: Job, b: Job
      ensures Sign(cmp(a, b)) == -Sign(cmp(b, a))
    {
      StrCmpAntisymmetric(ColumnValue(a, col), ColumnValue(b, col));
    }
    forall a: Job, b: Job, c: Job | cmp(a, b) <= 0 && cmp(b, c) <= 0
      ensures cmp(a, c) <= 0
    {
      var x, y, z := ColumnValue(a, col), ColumnValue(b, col), ColumnValue(c, col);
      if x != "" && y != "" && z != "" {
        StrCmpAntisymmetric(x, y);
        StrCmpAntisymmetric(y, z);
        StrCmpAntisymmetric(x, z);
        if asc {
          StrCmpTransitive(x, y, z);
        } else {
          StrCmpTransitive(z, y, x);
        }
      }
    }
  }

  /** `a` may come before `b` in a table sorted on `col`: a filled cell
   *  before an empty one, and filled cells in the chosen direction. */
  predicate InTableOrder(a: Job, b: Job, col: Column, asc: bool)
  {
    var x := ColumnValue(a, col);
    var y := ColumnValue(b, col);
    && !(x == "" && y != "")
    && (x != "" && y != "" ==> (if asc then StrCmp(x, y) else StrCmp(y, x)) <= 0)
  }

  lemma TableCompareOrder(a: Job, b: Job, col: Column, asc: bool)
    requires TableCompare(col, asc, a, b) <= 0
    ensures InTableOrder(a, b, col, asc)
  {
    StrCmpAntisymmetric(ColumnValue(a, col), ColumnValue(b, col));
  }

  /** A sorted table lists every filled cell before every empty one, and
   *  the filled ones in the chosen direction. */
  lemma TableSortOrders(filtered: seq<Job>, col: Column, dir: Direction)
    requires dir != Unsorted
    ensures var r := SortedJobs(filtered, SortState(Some(col), dir));
      forall i, j :: 0 <= i < j < |r| ==> InTableOrder(r[i], r[j], col, dir == Asc)
  {
    var cmp := TableCmp(col, dir == Asc);
    TableCmpConsistent(col, dir == Asc);
    SortBySorted(filtered, cmp);
    var r := SortBy(filtered, cmp);
    forall i, j | 0 <= i < j < |r|
      ensures InTableOrder(r[i], r[j], col, dir == Asc)
    {
      assert cmp(r[i], r[j]) <= 0;
      TableCompareOrder(r[i], r[j], col, dir == Asc);
    }
  }

  /** A click on a column header: the same column cycles ascending,
   *  descending, unsorted; another column starts ascending. Every column of
   *  the table is sortable. */
  function ClickHeader(prev: SortState, col: Column): (r: SortState)
    ensures r.column == Some(col)
    ensures prev.column != Some(col) ==> r.direction == Asc
  {
    var dir := if prev.column == Some(col) then
                 (match prev.direction
                  case Asc => Desc
                  case Desc => Unsorted
                  case Unsorted => Asc)
               else Asc;
    SortState(Some(col), dir)
  }

  /** Three clicks on one header come back to where the first one led. */
  lemma ClickCycle(prev: SortState, col: Column)
    ensures var s1 := ClickHeader(prev, col);
      var s2 := ClickHeader(s1, col);
      var s3 := ClickHeader(s2, col);
      && {s1.direction, s2.direction, s3.direction} == {Asc, Desc, Unsorted}
      && ClickHeader(s3, col) == s1
  {
  }

  /** Company and status can never be switched off. */
  predicate Required(col: Column)
  {
    col == Company || col == Status
  }

  const AllColumns: set<Column> := {Company, Position, Status, DateApplied, DateUpdated}

  /** A column switch: on adds the column, off removes it unless required. */
  function ToggleColumn(visible: set<Column>, col: Column, checked: bool): (r: set<Column>)
    ensures checked ==> r == visible + {col}
    ensures !checked && !Required(col) ==> r == visible - {col}
    ensures forall c :: c in visible && Required(c) ==> c in r
    ensures forall c :: c != col ==> (c in r <==> c in visible)
  {
    if checked then visible + {col}
    else if !Required(col) then visible - {col}
    else visible
  }

  /** Starting from every column, no sequence of switches hides a required
   *  column. */
  lemma RequiredAlwaysVisible(moves: seq<(Column, bool)>)
    ensures var v := ApplyToggles(AllColumns, moves);
      Company in v && Status in v
  {
    RequiredStayVisible(AllColumns, moves);
  }

  function ApplyToggles(visible: set<Column>, moves: seq<(Column, bool)>): set<Column>
    decreases |moves|
  {
    if |moves| == 0 then visible
    else ApplyToggles(ToggleColumn(visible, moves[0].0, moves[0].1), moves[1..])
  }

  lemma {:induction false} RequiredStayVisible(visible: set<Column>, moves: seq<(Column, bool)>)
    requires Company in visible && Status in visible
    ensures var v := ApplyToggles(visible, moves);
      Company in v && Status in v
    decreases |moves|
  {
    if |moves| > 0 {
      RequiredStayVisible(ToggleColumn(visible, moves[0].0, moves[0].1), moves[1..]);
    }
  }

  // ---- the add-job wizard ----

  datatype Field = CompanyField | WebsiteField | PositionField | DescriptionField | ResumeField

  datatype Form = Form(company: string, website: string, position: string, jobDescription: string,
                       resumeLink: string, dateApplied: string, status: string, dateUpdated: string)

  /** `addJobSteps`: the field and the title of each step. */
  const Steps: seq<(Field, string)> := [
    (CompanyField, "What company are you applying to?"),
    (WebsiteField, "What's the company's website?"),
    (PositionField, "What position are you applying for?"),
    (DescriptionField, "Paste the job description"),
    (ResumeField, "Select resume and confirm date")
  ]

  const LastStep: int := |Steps| - 1

  function FieldValue(form: Form, f: Field): string
  {
    match f
    case CompanyField => form.company
    case WebsiteField => form.website
    case PositionField => form.position
    case DescriptionField => form.jobDescription
    case ResumeField => form.resumeLink
  }

  datatype Wizard = Wizard(step: int, form: Form)

  /** The wizard after a key or button, with what it submitted or the error
   *  it showed. */
  datatype Outcome = Outcome(wizard: Wizard, submitted: Option<Form>, error: Option<string>)

  function Back(w: Wizard): (r: Wizard)
    ensures r.form == w.form
    ensures w.step > 0 ==> r.step == w.step - 1
    ensures w.step <= 0 ==> r == w
  {
    if w.step > 0 then w.(step := w.step - 1) else w
  }

  /** `handleSubmit`: both company and position are needed; then the wizard
   *  starts over with `defaults`, the defaults at that moment. */
  function Submit(w: Wizard, defaults: Form): (r: Outcome)
    ensures r.submitted.Some? <==> w.form.company != "" && w.form.position != ""
    ensures r.submitted.Some? ==> r.submitted.value == w.form && r.wizard == Wizard(0, defaults) && r.error.None?
    ensures r.submitted.None? ==> r.wizard == w && r.error == Some("Company name and position are required.")
  {
    if w.form.company == "" || w.form.position == "" then
      Outcome(w, None, Some("Company name and position are required."))
    else Outcome(Wizard(0, defaults), Some(w.form), None)
  }

  /** `handleNext`: an empty field stops the wizard with a message; a filled
   *  one advances, or submits at the last step. */
  function Next(w: Wizard, defaults: Form): (r: Outcome)
    requires 0 <= w.step <= LastStep
    ensures 0 <= r.wizard.step <= LastStep
    ensures FieldValue(w.form, Steps[w.step].0) == "" ==> r.wizard == w && r.submitted.None? && r.error.Some?
    ensures r.submitted.Some? ==> w.step == LastStep && r.wizard.step == 0
    ensures FieldValue(w.form, Steps[w.step].0) != "" && w.step < LastStep ==>
      r == Outcome(w.(step := w.step + 1), None, None)
  {
    var (field, title) := Steps[w.step];
    if field == CompanyField && w.form.company == "" then
      Outcome(w, None, Some("Please select a company from the suggestions"))
    else if FieldValue(w.form, field) == "" then
      Outcome(w, None, Some("Please fill in the " + Lower(title)))
    else if w.step < LastStep then Outcome(w.(step := w.step + 1), None, None)
    else Submit(w, defaults)
  }

  /** Pressing Next once per step with every field filled submits exactly
   *  the form that was filled in, and the wizard starts over. */
  lemma FilledFormSubmits(form: Form, defaults: Form)
    requires forall k :: 0 <= k < |Steps| ==> FieldValue(form, Steps[k].0) != ""
    ensures var w0 := Wizard(0, form);
      var w4 := Next(Next(Next(Next(w0, defaults).wizard, defaults).wizard, defaults).wizard, defaults).wizard;
      && w4 == Wizard(LastStep, form)
      && Next(w4, defaults) == Outcome(Wizard(0, defaults), Some(form), None)
  {
    assert FieldValue(form, Steps[0].0) != "" && FieldValue(form, Steps[2].0) != "";
  }
}
