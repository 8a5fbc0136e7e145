/** The job-title autocomplete (src/components/ui/job-title-autocomplete.tsx).
 *  The request to the job-title route is an input, `None` standing for a
 *  failed request. */
module JobTitleAutocomplete {
  import opened Wrappers
  import JobRecord

  datatype State = State(query: string, suggestions: seq<string>, highlight: int)

  const Initial: State := State("", [], 0)

  /** The highlight can index the suggestions whenever there are any. */
  predicate Valid(s: State)
  {
    |s.suggestions| == 0 || 0 <= s.highlight < |s.suggestions|
  }

  /** `handleInputChange` with `fetchSuggestions`: an empty query clears the
   *  list and the highlight; fresh suggestions start at the first entry; a
   *  failed request clears the list. */
  function InputChange(s: State, text: string, fetched: Option<seq<string>>): (r: State)
    ensures r.query == text
    ensures text == "" ==> r.suggestions == [] && r.highlight == 0
    ensures text != "" && fetched.Some? ==> r.suggestions == fetched.value && r.highlight == 0
    ensures text != "" && fetched.None? ==> r.suggestions == [] && r.highlight == s.highlight
    ensures Valid(r)
  {
    if text == "" then State(text, [], 0)
    else if fetched.Some? then State(text, fetched.value, 0)
    else State(text, [], s.highlight)
  }

  /** `handleSelect`: the title fills the box, the list closes, and the title
   *  is reported. */
  function Select(s: State, title: string): (r: (State, string))
    ensures r.0.query == title && r.0.suggestions == [] && r.1 == title
  {
    (s.(query := title, suggestions := []), title)
  }

  /** `handleKeyDown`: with suggestions, the arrows move round the list and
   *  Enter or Tab picks the highlighted one. */
  function KeyDown(s: State, key: string): (r: (State, Option<string>))
    requires Valid(s)
    ensures |s.suggestions| == 0 ==> r == (s, None)
    ensures Valid(r.0)
    ensures r.1.Some? <==> |s.suggestions| > 0 && (key == "Enter" || key == "Tab")
    ensures r.1.Some? ==> r.1.value == s.suggestions[s.highlight] && r.0 == Select(s, r.1.value).0
    ensures |s.suggestions| > 0 && key == "ArrowDown" ==>
      r.0 == s.(highlight := if s.highlight == |s.suggestions| - 1 then 0 else s.highlight + 1)
    ensures |s.suggestions| > 0 && key == "ArrowUp" ==>
      r.0 == s.(highlight := if s.highlight == 0 then |s.suggestions| - 1 else s.highlight - 1)
  {
    var n := |s.suggestions|;
    if n == 0 then (s, None)
    else if key == "ArrowDown" then (s.(highlight := JobRecord.StepIndex(s.highlight, n, true)), None)
    else if key == "ArrowUp" then (s.(highlight := JobRecord.StepIndex(s.highlight, n, false)), None)
    else if key == "Enter" || key == "Tab" then
      var (s', t) := Select(s, s.suggestions[s.highlight]);
      (s', Some(t))
    else (s, None)
  }

  /** Up undoes Down. */
  lemma UpUndoesDown(s: State)
    requires Valid(s) && |s.suggestions| > 0
    ensures KeyDown(KeyDown(s, "ArrowDown").0, "ArrowUp").0 == s
  {
  }

  /** Hovering over an entry highlights it. */
  function Hover(s: State, index: nat): (r: State)
    requires index < |s.suggestions|
    ensures r == s.(highlight := index) && Valid(r)
  {
    s.(highlight := index)
  }

  /** Every sequence of typing and keys from the start keeps the highlight
   *  usable, so Enter and Tab always pick a real suggestion. */
  datatype Event = Typed(text: string, fetched: Option<seq<string>>) | Key(key: string)

  function Run(s: State, events: seq<Event>): State
    requires Valid(s)
    decreases |events|
  {
    if |events| == 0 then s
    else
      var s' := match events[0]
        case Typed(t, f) => InputChange(s, t, f)
        case Key(k) => KeyDown(s, k).0;
      Run(s', events[1..])
  }

  lemma {:induction false} RunStaysValid(s: State, events: seq<Event>)
    requires Valid(s)
    ensures Valid(Run(s, events))
    decreases |events|
  {
    if |events| > 0 {
      var s' := match events[0]
        case Typed(t, f) => InputChange(s, t, f)
        case Key(k) => KeyDown(s, k).0;
      RunStaysValid(s', events[1..]);
    }
  }
}
