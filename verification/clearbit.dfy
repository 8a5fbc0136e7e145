/** The company autocomplete (src/components/ui/clearbit.tsx). The fetch to
 *  the suggestion service is outside the model: its answer is an input,
 *  `None` standing for a failed request. A highlight of `None` is the
 *  component's `null`. */
module Clearbit {
  import opened Wrappers

  datatype Company = Company(name: string, domain: string, logo: string)

  datatype State = State(query: string, results: seq<Company>, highlight: Option<int>)

  const Initial: State := State("", [], None)

  /** What a key press leads to besides the new state: nothing, a company
   *  reported to the parent, or the `TypeError` of reading `name` from the
   *  `undefined` past the end of the results. */
  datatype Selection = NoSelection | Picked(company: Company) | SelectFailed

  /** `handleInputChange` followed by `queryClearbit`, as written: new
   *  results replace the old ones but the highlight stays where it was. */
  function InputChange(s: State, text: string, fetched: Option<seq<Company>>): (r: State)
    ensures r.query == text
    ensures text == "" ==> r.results == [] && r.highlight.None?
    ensures text != "" ==> r.highlight == s.highlight
    ensures text != "" && fetched.Some? ==> r.results == fetched.value
    ensures text != "" && fetched.None? ==> r.results == s.results
  {
    if text == "" then State(text, [], None)
    else if fetched.Some? then State(text, fetched.value, s.highlight)
    else s.(query := text)
  }

  /** `handleSelect`: the chosen company fills the box and the list closes;
   *  an index past the end throws. */
  function Select(s: State, index: int): (r: (State, Selection))
    requires index >= 0
    ensures index < |s.results| ==>
      r == (State(s.results[index].name, [], s.highlight), Picked(s.results[index]))
    ensures index >= |s.results| ==> r == (s, SelectFailed)
  {
    if index < |s.results| then (State(s.results[index].name, [], s.highlight), Picked(s.results[index]))
    else (s, SelectFailed)
  }

  /** `handleKeyDown`. Down goes to the first entry from nothing and then
   *  wraps; Up goes to the last entry from nothing or from -1, and otherwise
   *  just steps back, so Up on the first entry leaves the highlight at -1;
   *  Enter selects a highlight that is set and not negative. */
  function KeyDown(s: State, key: string): (r: (State, Selection))
    ensures |s.results| == 0 ==> r == (s, NoSelection)
    ensures |s.results| > 0 && key == "ArrowDown" ==>
      r.1 == NoSelection && r.0.highlight.Some? && 0 <= r.0.highlight.value < |s.results|
    ensures |s.results| > 0 && key == "ArrowUp" && (s.highlight.None? || s.highlight == Some(-1)) ==>
      r == (s.(highlight := Some(|s.results| - 1)), NoSelection)
    ensures |s.results| > 0 && key == "ArrowUp" && s.highlight.Some? && s.highlight.value != -1 ==>
      r == (s.(highlight := Some(s.highlight.value - 1)), NoSelection)
    ensures r.1 != NoSelection ==> key == "Enter" && s.highlight.Some? && s.highlight.value >= 0
    ensures |s.results| > 0 && key == "Enter" && s.highlight.Some? && s.highlight.value >= 0 ==>
      r == Select(s, s.highlight.value)
  {
    var n := |s.results|;
    if n == 0 then (s, NoSelection)
    else if key == "ArrowDown" then
      (s.(highlight := Some(if s.highlight.None? then 0 else (s.highlight.value + 1) % n)), NoSelection)
    else if key == "ArrowUp" then
      (s.(highlight := Some(if s.highlight.None? || s.highlight.value == -1 then n - 1 else s.highlight.value - 1)),
       NoSelection)
    else if key == "Enter" && s.highlight.Some? && s.highlight.value >= 0 then Select(s, s.highlight.value)
    else (s, NoSelection)
  }

  /** Pressing Up on the first entry leaves the highlight at -1, and Enter
   *  then selects nothing. */
  lemma UpFromFirstDoesNotWrap(s: State)
    requires |s.results| > 0 && s.highlight == Some(0)
    ensures KeyDown(s, "ArrowUp").0.highlight == Some(-1)
    ensures KeyDown(KeyDown(s, "ArrowUp").0, "Enter").1 == NoSelection
  {
  }

  /** A user who highlights the third company, picks it, and then types a
   *  query with a single result gets a `TypeError` on Enter: the highlight
   *  (2) outlived the results it pointed into. */
  lemma StaleHighlightThrows(a: Company, b: Company, c: Company, d: Company)
    ensures var s1 := InputChange(Initial, "a", Some([a, b, c]));
      var s2 := KeyDown(KeyDown(KeyDown(s1, "ArrowDown").0, "ArrowDown").0, "ArrowDown").0;
      var (s3, picked) := KeyDown(s2, "Enter");
      var s4 := InputChange(s3, "ab", Some([d]));
      && s2.highlight == Some(2)
      && picked == Picked(c)
      && KeyDown(s4, "Enter").1 == SelectFailed
  {
  }

  /** The highlight can always be used as an index into the results, or is
   *  not set, or is -1; and with no results nothing can be selected. */
  predicate Valid(s: State)
  {
    |s.results| == 0 || s.highlight.None? || -1 <= s.highlight.value < |s.results|
  }

  /** The intended `queryClearbit`: new results come with no highlight. */
  function InputChangeFixed(s: State, text: string, fetched: Option<seq<Company>>): (r: State)
    ensures r.query == text
    ensures text == "" ==> r.results == [] && r.highlight.None?
    ensures text != "" && fetched.Some? ==> r == State(text, fetched.value, None)
    ensures text != "" && fetched.None? ==> r.results == s.results && r.highlight == s.highlight
  {
    if text == "" then State(text, [], None)
    else if fetched.Some? then State(text, fetched.value, None)
    else s.(query := text)
  }

  /** Hovering over an entry highlights it. */
  function Hover(s: State, index: nat): (r: State)
    requires index < |s.results|
    ensures r.highlight == Some(index) && r.results == s.results && Valid(r)
  {
    s.(highlight := Some(index))
  }

  /** With the fix every state the component can reach is valid. */
  lemma FixedKeepsValid(s: State, text: string, fetched: Option<seq<Company>>, key: string)
    requires Valid(s)
    ensures Valid(InputChangeFixed(s, text, fetched))
    ensures Valid(KeyDown(s, key).0)
  {
  }

  /** ... and in a valid state Enter never reads past the results. */
  lemma ValidNeverFails(s: State, key: string)
    requires Valid(s)
    ensures KeyDown(s, key).1 != SelectFailed
  {
  }
}
