/** One job card on the dashboard (src/app/dashboard/jobcard.tsx): the
 *  confirm-next-status button, the domain sent to Hunter, the contact
 *  preview, quick notes and the Hunter category picker. */
module JobCard {
  import opened Wrappers
  import opened JobRecord
  import opened Text
  import Domains

  /** The Confirm button: the next status in the list, wrapping after the
   *  last one. */
  function ConfirmNextStatus(statuses: seq<string>, job: Job): (r: string)
    requires |statuses| > 0
    ensures r in statuses
    ensures job.status in statuses && IndexOf(statuses, job.status) < |statuses| - 1 ==>
      r == statuses[IndexOf(statuses, job.status) + 1]
    ensures job.status in statuses && IndexOf(statuses, job.status) == |statuses| - 1 ==> r == statuses[0]
  {
    StepStatus(statuses, job.status, true)
  }

  /** `handleSearch`'s domain: `None` when nothing is left after cleaning,
   *  which stops the search with "Please enter a valid domain.". */
  function SearchDomain(website: string): (r: Option<string>)
    ensures r.None? <==> Domains.CleanDomain(website) == ""
    ensures r.Some? ==> r.value != "" && '/' !in r.value
  {
    var d := Domains.CleanDomain(website);
    if d == "" then None else Some(d)
  }

  /** A bare host is searched as typed, and a full URL yields its host. */
  lemma SearchDomainOfUrl(h: string, path: string)
    requires Domains.Bare(h)
    ensures SearchDomain("https://www." + h + "/" + path) == Some(h)
  {
    var rest := h + "/" + path;
    assert "https://www." + h + "/" + path == "https://" + ("www." + rest);
    Domains.CleanFullUrl(h, path);
  }

  /** The contacts preview: the first two emails and how many more there
   *  are; nothing without emails. */
  function HunterPreview<E>(emails: seq<E>): (r: Option<(seq<E>, nat)>)
    ensures r.None? <==> |emails| == 0
    ensures r.Some? ==> r.value.0 <= emails && |r.value.0| <= 2
    ensures r.Some? ==> |r.value.0| + r.value.1 == |emails|
    ensures r.Some? && r.value.1 > 0 ==> |r.value.0| == 2
  {
    if |emails| == 0 then None
    else
      var shown := if |emails| < 2 then emails else emails[..2];
      Some((shown, if |emails| > 2 then |emails| - 2 else 0))
  }

  datatype NoteEditor = NoteEditor(draft: string, open: bool)

  /** `handleQuickNoteSubmit`: a blank draft does nothing; otherwise the
   *  draft, untrimmed, is appended after a blank line (or becomes the notes),
   *  the job goes to the server and the editor is cleared and closed. */
  function QuickNote(job: Job, editor: NoteEditor, now: string): (r: (NoteEditor, Option<Job>))
    ensures Trim(editor.draft) == [] ==> r == (editor, None)
    ensures Trim(editor.draft) != [] ==> r.0 == NoteEditor("", false) && r.1.Some?
    ensures r.1.Some? ==> r.1.value == job.(notes := r.1.value.notes, dateUpdated := now)
  {
    if Trim(editor.draft) == [] then (editor, None)
    else
      var notes := if job.notes != "" then job.notes + "\n\n" + editor.draft else editor.draft;
      (NoteEditor("", false), Some(job.(notes := notes, dateUpdated := now)))
  }

  /** A saved note keeps the old notes in front, separated by a blank line,
   *  and ends with the draft exactly as typed. */
  lemma QuickNoteAppends(job: Job, editor: NoteEditor, now: string)
    requires Trim(editor.draft) != []
    ensures var notes := QuickNote(job, editor, now).1.value.notes;
      && (job.notes == "" ==> notes == editor.draft)
      && (job.notes != "" ==> notes[..|job.notes|] == job.notes && EndsWith(notes, "\n\n" + editor.draft))
  {
    var notes := QuickNote(job, editor, now).1.value.notes;
    if job.notes != "" {
      assert notes == job.notes + ("\n\n" + editor.draft);
    }
  }

  /** `hunterCategories`: the fourteen department values. */
  const Categories: seq<string> := ["executive", "it", "finance", "management", "sales", "legal", "support",
                                    "hr", "marketing", "communication", "education", "design", "health", "operations"]

  /** "Select All". */
  function SelectAll(): (r: set<string>)
    ensures forall c :: c in r <==> c in Categories
  {
    set c | c in Categories
  }

  /** One category's checkbox. */
  function ToggleCategory(selected: set<string>, category: string, checked: bool): (r: set<string>)
    ensures category in r <==> checked
    ensures forall c :: c != category ==> (c in r <==> c in selected)
  {
    if checked then selected + {category} else selected - {category}
  }

  /** The Select All box shows checked when as many categories are chosen as
   *  there are. */
  predicate AllChecked(selected: set<string>)
  {
    |selected| == |Categories|
  }

  /** The search button. */
  predicate SearchDisabled(selected: set<string>, loading: bool)
  {
    |selected| == 0 || loading
  }

  /** Select All enables the search, and clearing every box disables it. */
  lemma SelectAllEnablesSearch(loading: bool)
    ensures !SearchDisabled(SelectAll(), false)
    ensures SearchDisabled({}, loading)
  {
    assert "executive" in SelectAll();
  }
}
