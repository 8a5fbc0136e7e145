/** The admin dialog that adds a quota service
 *  (src/app/admin/components/add-service-modal.tsx): the service key is
 *  upper-cased and every run of whitespace becomes one '_'. */
module AddService {
  import opened Wrappers
  import opened Text

  /** `s.replace(/\s+/g, '_')`: each maximal run of whitespace becomes a
   *  single '_'. */
  function CollapseSpaces(s: string): (r: string)
    ensures NoSpace(r)
    ensures |r| <= |s|
    ensures |s| > 0 && !IsSpace(s[0]) ==> |r| > 0 && r[0] == s[0]
    ensures |s| > 0 && IsSpace(s[0]) ==> |r| > 0 && r[0] == '_'
    decreases |s|
  {
    if |s| == 0 then []
    else if IsSpace(s[0]) then
      var rest := TrimStart(s);
      assert |rest| < |s|;
      ['_'] + CollapseSpaces(rest)
    else [s[0]] + CollapseSpaces(s[1..])
  }

  /** `serviceKey.toUpperCase().replace(/\s+/g, '_')`. */
  function FormatKey(key: string): (r: string)
    ensures NoSpace(r)
    ensures |r| <= |key|
  {
    CollapseSpaces(Upper(key))
  }

  /** A key without whitespace is left as it is. */
  lemma {:induction false} CollapseNoSpace(s: string)
    requires NoSpace(s)
    ensures CollapseSpaces(s) == s
  {
    if |s| > 0 {
      assert !IsSpace(s[0]);
      CollapseNoSpace(s[1..]);
    }
  }

  /** Upper-casing keeps whitespace where it is. */
  lemma UpperNoSpace(s: string)
    requires NoSpace(s)
    ensures NoSpace(Upper(s))
  {
    forall i | 0 <= i < |s|
      ensures !IsSpace(Upper(s)[i])
    {
      assert !IsSpace(s[i]);
    }
  }

  /** What survives formatting: the characters that are neither whitespace
   *  nor '_', in order. */
  function Visible(s: string): (r: string)
    ensures NoSpace(r) && '_' !in r
  {
    if |s| == 0 then []
    else if IsSpace(s[0]) || s[0] == '_' then Visible(s[1..])
    else [s[0]] + Visible(s[1..])
  }

  lemma {:induction false} VisibleSpaces(s: string, n: nat)
    requires n <= |s| && forall i :: 0 <= i < n ==> IsSpace(s[i])
    ensures Visible(s[n..]) == Visible(s)
  {
    if n > 0 {
      assert IsSpace(s[0]);
      VisibleSpaces(s[1..], n - 1);
      assert s[1..][n - 1..] == s[n..];
    }
  }

  /** Collapsing only replaces whitespace by '_': the visible characters
   *  come through unchanged and in order. */
  lemma {:induction false} CollapseKeepsVisible(s: string)
    ensures Visible(CollapseSpaces(s)) == Visible(s)
    decreases |s|
  {
    if |s| > 0 {
      if IsSpace(s[0]) {
        var rest := TrimStart(s);
        assert |rest| < |s|;
        CollapseKeepsVisible(rest);
        VisibleSpaces(s, |s| - |rest|);
        assert CollapseSpaces(s) == ['_'] + CollapseSpaces(rest);
        assert (['_'] + CollapseSpaces(rest))[1..] == CollapseSpaces(rest);
      } else {
        CollapseKeepsVisible(s[1..]);
        assert CollapseSpaces(s) == [s[0]] + CollapseSpaces(s[1..]);
        assert ([s[0]] + CollapseSpaces(s[1..]))[1..] == CollapseSpaces(s[1..]);
      }
    }
  }

  /** Formatting a formatted key changes nothing, and the visible characters
   *  of a formatted key are those of the upper-cased input. */
  lemma FormatKeyIdempotent(key: string)
    ensures FormatKey(FormatKey(key)) == FormatKey(key)
    ensures Visible(FormatKey(key)) == Visible(Upper(key))
  {
    var k := FormatKey(key);
    UpperNoSpace(k);
    CollapseNoSpace(Upper(k));
    assert Upper(k) == k by {
      forall i | 0 <= i < |k|
        ensures Upper(k)[i] == k[i]
      {
        UpperCollapsed(Upper(key), i);
      }
    }
    CollapseKeepsVisible(Upper(key));
  }

  /** Every character of a collapsed upper-case text is itself upper case or
   *  not a letter. */
  lemma {:induction false} UpperCollapsed(s: string, i: nat)
    requires forall j :: 0 <= j < |s| ==> !('a' <= s[j] <= 'z')
    requires i < |CollapseSpaces(s)|
    ensures !('a' <= CollapseSpaces(s)[i] <= 'z')
    decreases |s|
  {
    if IsSpace(s[0]) {
      var rest := TrimStart(s);
      assert |rest| < |s|;
      if i > 0 {
        assert forall j :: 0 <= j < |rest| ==> rest[j] == s[|s| - |rest| + j];
        UpperCollapsed(rest, i - 1);
      }
    } else if i > 0 {
      UpperCollapsed(s[1..], i - 1);
    }
  }

  /** The dialog: whether it is open and its three fields. */
  datatype Form = Form(open: bool, key: string, name: string, description: string)

  /** What `onAdd` receives. */
  datatype NewService = NewService(key: string, name: string, description: string)

  /** `handleSubmit`: nothing happens without a key and a name; otherwise the
   *  formatted key is reported and the dialog closes with empty fields. */
  function Submit(f: Form): (r: (Form, Option<NewService>))
    ensures f.key == [] || f.name == [] ==> r == (f, None)
    ensures f.key != [] && f.name != [] ==>
      r.0 == Form(false, [], [], []) && r.1 == Some(NewService(FormatKey(f.key), f.name, f.description))
  {
    if f.key == [] || f.name == [] then (f, None)
    else (Form(false, [], [], []), Some(NewService(FormatKey(f.key), f.name, f.description)))
  }

  /** A reported key never holds whitespace, and submitting it again as the
   *  key would report the same key. */
  lemma SubmittedKeyFormatted(f: Form)
    requires Submit(f).1.Some?
    ensures NoSpace(Submit(f).1.value.key)
    ensures var k := Submit(f).1.value.key;
      Submit(Form(true, k, f.name, f.description)).1 == Some(NewService(k, f.name, f.description))
  {
    FormatKeyIdempotent(f.key);
  }
}
