/** Job-title suggestions: the suggestion endpoint
 *  (src/app/api/job-titles/route.ts) and the two offline builders of its
 *  lookup tables, the prefix index (src/scripts/process-job-titles.ts) and
 *  the word index (scripts/preprocess.js). File reading and writing are
 *  left to the caller: the builders take the file's text and return the
 *  table. Tables are only ever looked up by key, so they are Dafny maps. */
module JobTitles {
  import opened Wrappers
  import opened Text
  import Lists
  import Sorting

  type Table = map<string, seq<string>>

  /** `table[key] || []`. */
  function Lookup(table: Table, key: string): seq<string>
  {
    if key in table then table[key] else []
  }

  predicate NoDuplicates(xs: seq<string>)
  {
    forall i, j :: 0 <= i < j < |xs| ==> xs[i] != xs[j]
  }

  /** `Array.from(new Set(xs))`: each value once, at its first occurrence. */
  function Dedup(xs: seq<string>): (r: seq<string>)
    ensures forall x :: x in r <==> x in xs
    ensures NoDuplicates(r)
    ensures forall i, j :: 0 <= i < j < |r| ==> IndexOf(xs, r[i]) < IndexOf(xs, r[j])
  {
    if |xs| == 0 then []
    else
      var init := xs[..|xs| - 1];
      var last := xs[|xs| - 1];
      var r := Dedup(init);
      assert xs == init + [last];
      assert forall x :: x in xs <==> x in init || x == last;
      forall y | y in init
        ensures IndexOf(xs, y) == IndexOf(init, y)
      {
        IndexOfAppend(init, last, y);
      }
      if last in r then r
      else
        assert IndexOf(xs, last) == |init|;
        r + [last]
  }

  lemma {:induction false} IndexOfAppend(xs: seq<string>, z: string, y: string)
    requires y in xs
    ensures IndexOf(xs + [z], y) == IndexOf(xs, y)
  {
    if xs[0] != y {
      assert (xs + [z])[1..] == xs[1..] + [z];
      IndexOfAppend(xs[1..], z, y);
    }
  }

  /** `xs.slice(0, n)`. */
  function Take(xs: seq<string>, n: nat): (r: seq<string>)
    ensures |r| <= n && r <= xs
    ensures |xs| <= n ==> r == xs
    ensures |xs| > n ==> |r| == n
  {
    if |xs| <= n then xs else xs[..n]
  }

  // ---------------------------------------------------------------------
  // The suggestion endpoint

  /** `w.charAt(0).toUpperCase() + w.slice(1).toLowerCase()`. */
  function TitleWord(w: string): (r: string)
    ensures |r| == |w|
  {
    if |w| == 0 then w else [UpperChar(w[0])] + Lower(w[1..])
  }

  function TitleWords(ws: seq<string>): (r: seq<string>)
    ensures |r| == |ws| && forall i :: 0 <= i < |ws| ==> r[i] == TitleWord(ws[i])
  {
    seq(|ws|, i requires 0 <= i < |ws| => TitleWord(ws[i]))
  }

  /** Every space-separated word of `s` in title case. */
  function TitleCase(s: string): string
  {
    Join(TitleWords(Split(s, ' ')), ' ')
  }

  function TitleCaseAll(xs: seq<string>): (r: seq<string>)
    ensures |r| == |xs| && forall i :: 0 <= i < |xs| ==> r[i] == TitleCase(xs[i])
  {
    seq(|xs|, i requires 0 <= i < |xs| => TitleCase(xs[i]))
  }

  /** The text after the last space of the query. */
  function LastWord(q: string): (w: string)
    ensures ' ' !in w && EndsWith(q, w)
  {
    SplitLastSuffix(q, ' ');
    Last(Split(q, ' '))
  }

  /** The stored suggestions for the whole query, then those for its last
   *  word when there is one, each kept once. */
  function Candidates(table: Table, q: string): (r: seq<string>)
    ensures NoDuplicates(r)
    ensures forall s :: s in r <==>
      s in Lookup(table, q) || (LastWord(q) != [] && s in Lookup(table, LastWord(q)))
  {
    Dedup(Lookup(table, q) + (if LastWord(q) != [] then Lookup(table, LastWord(q)) else []))
  }

  function MatchesQuery(q: string): string -> bool
  {
    (s: string) => Contains(Lower(s), q)
  }

  /** `GET /api/job-titles?query=…`: `query` is `None` when the parameter is
   *  absent. */
  function Suggest(table: Table, query: Option<string>): (r: seq<string>)
    ensures |r| <= 10
    ensures query.None? || query.value == [] ==> r == []
  {
    var q := if query.Some? then Lower(query.value) else [];
    if q == [] then []
    else Take(TitleCaseAll(Lists.Filter(Candidates(table, q), MatchesQuery(q))), 10)
  }

  /** The suggestions are the matching candidates in candidate order, cut
   *  at ten: a candidate that contains the query, with fewer than ten such
   *  candidates before it, is suggested in title case, at the position
   *  given by how many come before it; and there are as many suggestions
   *  as matching candidates, up to ten. */
  lemma SuggestComplete(table: Table, query: string, j: nat)
    requires Lower(query) != []
    requires j < |Candidates(table, Lower(query))|
    requires Contains(Lower(Candidates(table, Lower(query))[j]), Lower(query))
    requires Lists.CountIf(Candidates(table, Lower(query))[..j], MatchesQuery(Lower(query))) < 10
    ensures var n := Lists.CountIf(Candidates(table, Lower(query))[..j], MatchesQuery(Lower(query)));
      n < |Suggest(table, Some(query))| &&
      Suggest(table, Some(query))[n] == TitleCase(Candidates(table, Lower(query))[j])
    ensures var m := Lists.CountIf(Candidates(table, Lower(query)), MatchesQuery(Lower(query)));
      |Suggest(table, Some(query))| == if m <= 10 then m else 10
  {
    var q := Lower(query);
    var cs := Candidates(table, q);
    var kept := Lists.Filter(cs, MatchesQuery(q));
    assert Suggest(table, Some(query)) == Take(TitleCaseAll(kept), 10);
    Lists.FilterPosition(cs, MatchesQuery(q), j);
    Lists.FilterCount(cs, MatchesQuery(q));
    FirstTenTitled(kept, Lists.CountIf(cs[..j], MatchesQuery(q)));
  }

  lemma FirstTenTitled(kept: seq<string>, n: nat)
    requires n < |kept| && n < 10
    ensures n < |Take(TitleCaseAll(kept), 10)| && Take(TitleCaseAll(kept), 10)[n] == TitleCase(kept[n])
    ensures |Take(TitleCaseAll(kept), 10)| == if |kept| <= 10 then |kept| else 10
  {
  }

  lemma LowerUpperChar(c: char)
    ensures LowerChar(UpperChar(c)) == LowerChar(c)
  {
  }

  lemma LowerTitleWord(w: string)
    ensures Lower(TitleWord(w)) == Lower(w)
  {
    if |w| > 0 {
      LowerConcat([UpperChar(w[0])], Lower(w[1..]));
      LowerConcat([w[0]], w[1..]);
      LowerIdempotent(w[1..]);
      LowerUpperChar(w[0]);
      assert w == [w[0]] + w[1..];
    }
  }

  function LowerAll(ws: seq<string>): (r: seq<string>)
    ensures |r| == |ws| && forall i :: 0 <= i < |ws| ==> r[i] == Lower(ws[i])
  {
    seq(|ws|, i requires 0 <= i < |ws| => Lower(ws[i]))
  }

  lemma {:induction false} LowerJoin(ws: seq<string>)
    ensures Lower(Join(ws, ' ')) == Join(LowerAll(ws), ' ')
  {
    if |ws| > 1 {
      LowerJoin(ws[1..]);
      LowerConcat(ws[0] + [' '], Join(ws[1..], ' '));
      LowerConcat(ws[0], [' ']);
      assert LowerAll(ws)[1..] == LowerAll(ws[1..]);
    }
  }

  /** Title case changes letter case only. */
  lemma LowerTitleCase(s: string)
    ensures Lower(TitleCase(s)) == Lower(s)
  {
    var ws := Split(s, ' ');
    LowerJoin(TitleWords(ws));
    forall i | 0 <= i < |ws|
      ensures LowerAll(TitleWords(ws))[i] == LowerAll(ws)[i]
    {
      LowerTitleWord(ws[i]);
    }
    assert LowerAll(TitleWords(ws)) == LowerAll(ws);
    LowerJoin(ws);
    JoinSplit(s, ' ');
  }

  /** Every suggestion is the title-cased form of a stored suggestion for the
   *  query or its last word, and contains the query whatever the case. */
  lemma SuggestMatchesQuery(table: Table, query: string, i: nat)
    requires i < |Suggest(table, Some(query))|
    ensures var q := Lower(query);
      Contains(Lower(Suggest(table, Some(query))[i]), q)
      && exists c :: c in Candidates(table, q) && Suggest(table, Some(query))[i] == TitleCase(c)
  {
    var q := Lower(query);
    var kept := Lists.Filter(Candidates(table, q), MatchesQuery(q));
    var c := kept[i];
    assert Suggest(table, Some(query))[i] == TitleCase(c);
    assert MatchesQuery(q)(c);
    LowerTitleCase(c);
  }

  lemma TitleWordNoSpace(w: string)
    requires ' ' !in w
    ensures ' ' !in TitleWord(w)
  {
    if |w| > 0 {
      assert w[0] != ' ';
      assert forall k :: 0 <= k < |w| - 1 ==> w[1..][k] != ' ';
    }
  }

  /** The words of a title-cased suggestion are the stored title's words,
   *  each with its first character upper case and the rest lower case. */
  lemma TitleCaseWords(s: string)
    ensures Split(TitleCase(s), ' ') == TitleWords(Split(s, ' '))
  {
    var ws := Split(s, ' ');
    forall k | 0 <= k < |ws|
      ensures ' ' !in TitleWords(ws)[k]
    {
      TitleWordNoSpace(ws[k]);
    }
    SplitJoin(TitleWords(ws), ' ');
  }

  // ---------------------------------------------------------------------
  // The prefix index

  predicate NonEmpty(s: string) { s != [] }

  function TrimAll(ls: seq<string>): (r: seq<string>)
    ensures |r| == |ls| && forall i :: 0 <= i < |ls| ==> r[i] == Trim(ls[i])
  {
    seq(|ls|, i requires 0 <= i < |ls| => Trim(ls[i]))
  }

  /** The default order of `sort()`: code unit by code unit. */
  function TitleOrder(): (string, string) -> int
  {
    (a: string, b: string) => Sorting.StrCmp(a, b)
  }

  lemma TitleOrderConsistent()
    ensures Sorting.Consistent(TitleOrder())
  {
    forall a: string, b: string
      ensures Sorting.Sign(TitleOrder()(a, b)) == -Sorting.Sign(TitleOrder()(b, a))
    {
      Sorting.StrCmpAntisymmetric(a, b);
    }
    forall a: string, b: string, c: string | TitleOrder()(a, b) <= 0 && TitleOrder()(b, c) <= 0
      ensures TitleOrder()(a, c) <= 0
    {
      Sorting.StrCmpTransitive(a, b, c);
    }
  }

  /** The raw file's lines, trimmed, without the empty ones, sorted. The
   *  `Set` the builder then makes holds a fresh object per line, so it
   *  removes nothing and is left out. */
  function RawTitles(text: string): (r: seq<string>)
    ensures multiset(r) == multiset(Lists.Filter(TrimAll(Split(text, '\n')), NonEmpty))
  {
    Sorting.SortBy(Lists.Filter(TrimAll(Split(text, '\n')), NonEmpty), TitleOrder())
  }

  /** Every raw title is a non-empty trimmed line of the file, and they come
   *  in order. */
  lemma RawTitlesShape(text: string)
    ensures Sorting.Sorted(RawTitles(text), TitleOrder())
    ensures forall i :: 0 <= i < |RawTitles(text)| ==>
      RawTitles(text)[i] != [] && RawTitles(text)[i] in TrimAll(Split(text, '\n'))
  {
    TitleOrderConsistent();
    var kept := Lists.Filter(TrimAll(Split(text, '\n')), NonEmpty);
    Sorting.SortBySorted(kept, TitleOrder());
    forall i | 0 <= i < |RawTitles(text)|
      ensures RawTitles(text)[i] != [] && RawTitles(text)[i] in TrimAll(Split(text, '\n'))
    {
      assert RawTitles(text)[i] in multiset(kept);
    }
  }

  /** The non-empty prefixes of `s`, shortest first. */
  function Prefixes(s: string): (r: seq<string>)
    ensures |r| == |s| && forall i :: 0 <= i < |s| ==> r[i] == s[..i + 1]
  {
    seq(|s|, i requires 0 <= i < |s| => s[..i + 1])
  }

  function WordPrefixes(words: seq<string>): seq<string>
  {
    if |words| == 0 then [] else Prefixes(words[0]) + WordPrefixes(words[1..])
  }

  /** The keys a title is filed under, in the order the builder visits them:
   *  the prefixes of its lower-case form, then the prefixes of each of its
   *  space-separated words. */
  function KeysOf(title: string): seq<string>
  {
    Prefixes(Lower(title)) + WordPrefixes(Split(Lower(title), ' '))
  }

  lemma PrefixesMembers(s: string, k: string)
    ensures k in Prefixes(s) <==> |k| > 0 && k <= s
  {
    if |k| > 0 && k <= s {
      assert Prefixes(s)[|k| - 1] == k;
    }
  }

  lemma {:induction false} WordPrefixesMembers(words: seq<string>, k: string)
    ensures k in WordPrefixes(words) <==> exists w :: w in words && |k| > 0 && k <= w
  {
    if |words| > 0 {
      WordPrefixesMembers(words[1..], k);
      PrefixesMembers(words[0], k);
      assert WordPrefixes(words) == Prefixes(words[0]) + WordPrefixes(words[1..]);
      if k in WordPrefixes(words) {
        if k in Prefixes(words[0]) {
          assert words[0] in words;
        } else {
          var w :| w in words[1..] && |k| > 0 && k <= w;
          assert w in words;
        }
      }
      if exists w :: w in words && |k| > 0 && k <= w {
        var w :| w in words && |k| > 0 && k <= w;
        if w != words[0] {
          assert w in words[1..];
        }
      }
    }
  }

  /** A title is filed exactly under the non-empty prefixes of its
   *  lower-case form and of each of its words. */
  lemma KeysOfMembers(title: string, k: string)
    ensures k in KeysOf(title) <==>
      |k| > 0 && (k <= Lower(title) || exists w :: w in Split(Lower(title), ' ') && k <= w)
  {
    var words := Split(Lower(title), ' ');
    PrefixesMembers(Lower(title), k);
    WordPrefixesMembers(words, k);
    assert k in KeysOf(title) <==> k in Prefixes(Lower(title)) || k in WordPrefixes(words);
    if exists w :: w in words && k <= w {
      var w :| w in words && k <= w;
      if |k| > 0 {
        assert w in words && |k| > 0 && k <= w;
      }
    }
  }

  predicate NoDuplicateLists(table: Table)
  {
    forall k :: k in table ==> NoDuplicates(table[k])
  }

  /** One step of the builder: `title` goes at the end of `key`'s list
   *  unless it is already there. */
  function File(table: Table, key: string, title: string): (r: Table)
    ensures forall k, x :: x in Lookup(r, k) <==> x in Lookup(table, k) || (k == key && x == title)
    ensures forall k :: Lookup(table, k) <= Lookup(r, k)
    ensures NoDuplicateLists(table) ==> NoDuplicateLists(r)
  {
    if title in Lookup(table, key) then table
    else table[key := Lookup(table, key) + [title]]
  }

  function FileAll(table: Table, keys: seq<string>, title: string): (r: Table)
    decreases |keys|
  {
    if |keys| == 0 then table else FileAll(File(table, keys[0], title), keys[1..], title)
  }

  function Index(table: Table, titles: seq<string>): Table
    decreases |titles|
  {
    if |titles| == 0 then table else Index(FileAll(table, KeysOf(titles[0]), titles[0]), titles[1..])
  }

  /** `slice(0, 10)` on every list. */
  function Truncate(table: Table): (r: Table)
    ensures r.Keys == table.Keys
    ensures forall k :: k in r ==> r[k] == Take(table[k], 10)
  {
    map k | k in table :: Take(table[k], 10)
  }

  /** `processJobTitles`: the prefix index of the raw file's text. */
  function PrefixIndex(text: string): (r: Table)
    ensures forall k :: k in r ==> |r[k]| <= 10
  {
    Truncate(Index(map[], RawTitles(text)))
  }

  lemma {:induction false} FileAllMembers(table: Table, keys: seq<string>, title: string, k: string, x: string)
    ensures x in Lookup(FileAll(table, keys, title), k) <==> x in Lookup(table, k) || (k in keys && x == title)
    decreases |keys|
  {
    if |keys| > 0 {
      FileAllMembers(File(table, keys[0], title), keys[1..], title, k, x);
      assert k in keys <==> k == keys[0] || k in keys[1..];
    }
  }

  lemma {:induction false} FileAllDistinct(table: Table, keys: seq<string>, title: string)
    requires NoDuplicateLists(table)
    ensures NoDuplicateLists(FileAll(table, keys, title))
    decreases |keys|
  {
    if |keys| > 0 {
      FileAllDistinct(File(table, keys[0], title), keys[1..], title);
    }
  }

  lemma {:induction false} IndexMembers(table: Table, titles: seq<string>, k: string, x: string)
    ensures x in Lookup(Index(table, titles), k) <==>
      x in Lookup(table, k) || (x in titles && k in KeysOf(x))
    decreases |titles|
  {
    if |titles| > 0 {
      var t := FileAll(table, KeysOf(titles[0]), titles[0]);
      FileAllMembers(table, KeysOf(titles[0]), titles[0], k, x);
      IndexMembers(t, titles[1..], k, x);
      assert x in titles <==> x == titles[0] || x in titles[1..];
    }
  }

  lemma {:induction false} IndexDistinct(table: Table, titles: seq<string>)
    requires NoDuplicateLists(table)
    ensures NoDuplicateLists(Index(table, titles))
    decreases |titles|
  {
    if |titles| > 0 {
      FileAllDistinct(table, KeysOf(titles[0]), titles[0]);
      IndexDistinct(FileAll(table, KeysOf(titles[0]), titles[0]), titles[1..]);
    }
  }

  /** Before the lists are cut to ten, a title is listed under a key exactly
   *  when the key is a non-empty prefix of its lower-case form or of one of
   *  its words; no list names a title twice; and the index keeps the first
   *  ten of each list. */
  lemma PrefixIndexContents(text: string, k: string, x: string)
    ensures var full := Index(map[], RawTitles(text));
      && (x in Lookup(full, k) <==>
          x in RawTitles(text) && |k| > 0
          && (k <= Lower(x) || exists w :: w in Split(Lower(x), ' ') && k <= w))
      && NoDuplicates(Lookup(full, k))
      && Lookup(PrefixIndex(text), k) == Take(Lookup(full, k), 10)
  {
    IndexMembers(map[], RawTitles(text), k, x);
    IndexDistinct(map[], RawTitles(text));
    KeysOfMembers(x, k);
  }

  // ---------------------------------------------------------------------
  // The word index

  /** The position of the first whitespace character, or the end. */
  function FirstSpace(s: string): (i: nat)
    ensures i <= |s| && (i < |s| ==> IsSpace(s[i]))
    ensures forall j :: 0 <= j < i ==> !IsSpace(s[j])
  {
    if |s| == 0 || IsSpace(s[0]) then 0 else 1 + FirstSpace(s[1..])
  }

  /** The position of the first non-whitespace character, or the end. */
  function FirstNonSpace(s: string): (i: nat)
    ensures i <= |s| && (i < |s| ==> !IsSpace(s[i]))
    ensures forall j :: 0 <= j < i ==> IsSpace(s[j])
  {
    if |s| == 0 || !IsSpace(s[0]) then 0 else 1 + FirstNonSpace(s[1..])
  }

  /** `s.split(/\s+/)`: the text between runs of whitespace. */
  function SplitSpaces(s: string): (parts: seq<string>)
    ensures |parts| >= 1
    ensures forall k :: 0 <= k < |parts| ==> NoSpace(parts[k])
    decreases |s|
  {
    var i := FirstSpace(s);
    if i == |s| then [s]
    else
      var j := i + FirstNonSpace(s[i..]);
      [s[..i]] + SplitSpaces(s[j..])
  }

  /** The file's lines, each trimmed and in lower case. */
  function NormalizedLines(text: string): (r: seq<string>)
    ensures |r| == |Split(text, '\n')|
  {
    var lines := Split(text, '\n');
    seq(|lines|, i requires 0 <= i < |lines| => Lower(Trim(lines[i])))
  }

  /** Every normalized title is in lower case, with no whitespace at
   *  either end. */
  lemma NormalizedLinesShape(text: string, i: nat)
    requires i < |NormalizedLines(text)|
    ensures var t := NormalizedLines(text)[i];
      Lower(t) == t && (|t| > 0 ==> !IsSpace(t[0]) && !IsSpace(t[|t| - 1]))
  {
    var line := Split(text, '\n')[i];
    LowerIdempotent(Trim(line));
  }

  function Count(words: seq<string>, w: string): nat
  {
    if |words| == 0 then 0 else (if words[0] == w then 1 else 0) + Count(words[1..], w)
  }

  function Repeat(x: string, n: nat): (r: seq<string>)
    ensures |r| == n && forall i :: 0 <= i < n ==> r[i] == x
  {
    seq(n, _ => x)
  }

  /** The reference reading of the word index: `w` lists every title once
   *  per occurrence of `w` among its words, in input order. */
  function Occurrences(titles: seq<string>, w: string): seq<string>
  {
    if |titles| == 0 then []
    else Repeat(titles[0], Count(SplitSpaces(titles[0]), w)) + Occurrences(titles[1..], w)
  }

  function FileWords(table: Table, words: seq<string>, title: string): Table
    decreases |words|
  {
    if |words| == 0 then table
    else FileWords(table[words[0] := Lookup(table, words[0]) + [title]], words[1..], title)
  }

  function WordIndex(table: Table, titles: seq<string>): Table
    decreases |titles|
  {
    if |titles| == 0 then table else WordIndex(FileWords(table, SplitSpaces(titles[0]), titles[0]), titles[1..])
  }

  /** `preprocessJobTitles`. */
  function Preprocess(titles: seq<string>): Table
  {
    WordIndex(map[], titles)
  }

  lemma {:induction false} FileWordsLookup(table: Table, words: seq<string>, title: string, w: string)
    ensures Lookup(FileWords(table, words, title), w) == Lookup(table, w) + Repeat(title, Count(words, w))
    ensures w in FileWords(table, words, title) <==> w in table || w in words
    decreases |words|
  {
    if |words| > 0 {
      var t := table[words[0] := Lookup(table, words[0]) + [title]];
      FileWordsLookup(t, words[1..], title, w);
      if words[0] == w {
        assert Repeat(title, Count(words, w)) == [title] + Repeat(title, Count(words[1..], w));
      } else {
        assert Repeat(title, Count(words, w)) == Repeat(title, Count(words[1..], w));
      }
      assert w in words <==> w == words[0] || w in words[1..];
    }
  }

  lemma {:induction false} WordIndexLookup(table: Table, titles: seq<string>, w: string)
    ensures Lookup(WordIndex(table, titles), w) == Lookup(table, w) + Occurrences(titles, w)
    decreases |titles|
  {
    if |titles| > 0 {
      var t := FileWords(table, SplitSpaces(titles[0]), titles[0]);
      FileWordsLookup(table, SplitSpaces(titles[0]), titles[0], w);
      WordIndexLookup(t, titles[1..], w);
    }
  }

  lemma {:induction false} WordIndexKeys(table: Table, titles: seq<string>, w: string)
    ensures w in WordIndex(table, titles) <==>
      w in table || exists j :: 0 <= j < |titles| && w in SplitSpaces(titles[j])
    decreases |titles|
  {
    if |titles| > 0 {
      var t := FileWords(table, SplitSpaces(titles[0]), titles[0]);
      FileWordsLookup(table, SplitSpaces(titles[0]), titles[0], w);
      WordIndexKeys(t, titles[1..], w);
      if exists j :: 0 <= j < |titles| && w in SplitSpaces(titles[j]) {
        var j :| 0 <= j < |titles| && w in SplitSpaces(titles[j]);
        if j > 0 {
          assert titles[1..][j - 1] == titles[j];
        }
      }
      if exists j :: 0 <= j < |titles[1..]| && w in SplitSpaces(titles[1..][j]) {
        var j :| 0 <= j < |titles[1..]| && w in SplitSpaces(titles[1..][j]);
        assert titles[j + 1] == titles[1..][j];
      }
    }
  }

  /** A word's list holds every title once per occurrence of the word among
   *  its words, in input order, so a repeated word repeats the title; the
   *  keys are exactly the words that occur. */
  lemma PreprocessContents(titles: seq<string>, w: string)
    ensures Lookup(Preprocess(titles), w) == Occurrences(titles, w)
    ensures w in Preprocess(titles) <==> exists j :: 0 <= j < |titles| && w in SplitSpaces(titles[j])
  {
    WordIndexLookup(map[], titles, w);
    WordIndexKeys(map[], titles, w);
  }

  /** An empty line is filed under the empty word. */
  lemma EmptyLineIsFiled()
    ensures Preprocess([""]) == map["" := [""]]
  {
    assert SplitSpaces("") == [""];
    var empty: Table := map[];
    assert Lookup(empty, "") + [""] == [""];
    assert [""][1..] == [];
    assert FileWords(empty, [""], "") == FileWords(empty["" := [""]], [], "");
  }
}
