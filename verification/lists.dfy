/** `filter`, `filter`-after-`map`, `find` and prefix sums over sequences,
 *  with the facts the application relies on proved once. */
module Lists {
  import opened Wrappers

  /** `xs.filter(p)`. */
  function Filter<A>(xs: seq<A>, p: A -> bool): (r: seq<A>)
    ensures |r| <= |xs|
    ensures forall i :: 0 <= i < |r| ==> r[i] in xs && p(r[i])
    ensures forall i :: 0 <= i < |xs| && p(xs[i]) ==> xs[i] in r
  {
    if |xs| == 0 then []
    else
      var rest := Filter(xs[1..], p);
      assert forall i :: 1 <= i < |xs| ==> xs[i] == xs[1..][i - 1];
      if p(xs[0]) then [xs[0]] + rest else rest
  }

  /** How many elements of `xs` satisfy `p`. */
  function CountIf<A>(xs: seq<A>, p: A -> bool): nat
  {
    if |xs| == 0 then 0 else (if p(xs[0]) then 1 else 0) + CountIf(xs[1..], p)
  }

  lemma {:induction false} FilterCount<A>(xs: seq<A>, p: A -> bool)
    ensures |Filter(xs, p)| == CountIf(xs, p)
  {
    if |xs| > 0 {
      FilterCount(xs[1..], p);
    }
  }

  /** Filtering distributes over concatenation, so the kept elements stay in
   *  their original order. */
  lemma {:induction false} FilterAppend<A>(a: seq<A>, b: seq<A>, p: A -> bool)
    ensures Filter(a + b, p) == Filter(a, p) + Filter(b, p)
  {
    if |a| == 0 {
      assert a + b == b;
    } else {
      assert (a + b)[1..] == a[1..] + b;
      FilterAppend(a[1..], b, p);
    }
  }

  /** A kept element lands at the position given by how many elements
   *  before it are kept. */
  lemma FilterPosition<A>(xs: seq<A>, p: A -> bool, j: nat)
    requires j < |xs| && p(xs[j])
    ensures CountIf(xs[..j], p) < |Filter(xs, p)|
    ensures Filter(xs, p)[CountIf(xs[..j], p)] == xs[j]
  {
    var rest := [xs[j]] + xs[j + 1..];
    assert xs == xs[..j] + rest;
    FilterAppend(xs[..j], rest, p);
    FilterCount(xs[..j], p);
    assert rest[1..] == xs[j + 1..];
  }

  /** A filter that keeps everything changes nothing. */
  lemma {:induction false} FilterKeepsAll<A>(xs: seq<A>, p: A -> bool)
    requires forall i :: 0 <= i < |xs| ==> p(xs[i])
    ensures Filter(xs, p) == xs
  {
    if |xs| > 0 {
      FilterKeepsAll(xs[1..], p);
    }
  }

  /** Filters with the same verdict on every element give the same list. */
  lemma {:induction false} FilterSame<A>(xs: seq<A>, p: A -> bool, q: A -> bool)
    requires forall i :: 0 <= i < |xs| ==> p(xs[i]) == q(xs[i])
    ensures Filter(xs, p) == Filter(xs, q)
  {
    if |xs| > 0 {
      FilterSame(xs[1..], p, q);
    }
  }

  /** `a` is `b` with some elements left out: an ordered sub-list. */
  ghost predicate Subseq<A>(a: seq<A>, b: seq<A>)
    decreases |b|
  {
    |a| == 0 || (|b| > 0 && ((a[0] == b[0] && Subseq(a[1..], b[1..])) || Subseq(a, b[1..])))
  }

  /** A filter keeps the survivors in their original order. */
  lemma {:induction false} FilterSubseq<A>(xs: seq<A>, p: A -> bool)
    ensures Subseq(Filter(xs, p), xs)
  {
    if |xs| > 0 {
      FilterSubseq(xs[1..], p);
      var r := Filter(xs, p);
      if p(xs[0]) {
        assert r[0] == xs[0] && r[1..] == Filter(xs[1..], p);
      }
    }
  }

  /** Filtering twice is filtering once by both conditions. */
  lemma {:induction false} FilterFilter<A>(xs: seq<A>, p: A -> bool, q: A -> bool)
    ensures Filter(Filter(xs, p), q) == Filter(xs, x => p(x) && q(x))
  {
    if |xs| > 0 {
      FilterFilter(xs[1..], p, q);
    }
  }

  /** `xs.map(f).filter(v => v !== null)`. */
  function FilterMap<A, B>(xs: seq<A>, f: A -> Option<B>): (r: seq<B>)
    ensures |r| <= |xs|
  {
    if |xs| == 0 then []
    else
      var rest := FilterMap(xs[1..], f);
      match f(xs[0])
      case None => rest
      case Some(y) => [y] + rest
  }

  lemma {:induction false} FilterMapSound<A, B>(xs: seq<A>, f: A -> Option<B>, i: nat)
    requires i < |FilterMap(xs, f)|
    ensures exists j :: 0 <= j < |xs| && f(xs[j]) == Some(FilterMap(xs, f)[i])
  {
    if f(xs[0]).Some? && i == 0 {
      assert f(xs[0]) == Some(FilterMap(xs, f)[0]);
    } else {
      var i' := if f(xs[0]).Some? then i - 1 else i;
      FilterMapSound(xs[1..], f, i');
      var j :| 0 <= j < |xs[1..]| && f(xs[1..][j]) == Some(FilterMap(xs[1..], f)[i']);
      assert xs[j + 1] == xs[1..][j];
    }
  }

  lemma {:induction false} FilterMapComplete<A, B>(xs: seq<A>, f: A -> Option<B>, j: nat)
    requires j < |xs| && f(xs[j]).Some?
    ensures f(xs[j]).value in FilterMap(xs, f)
  {
    if j > 0 {
      assert xs[1..][j - 1] == xs[j];
      FilterMapComplete(xs[1..], f, j - 1);
    }
  }

  lemma {:induction false} FilterMapAppend<A, B>(a: seq<A>, b: seq<A>, f: A -> Option<B>)
    ensures FilterMap(a + b, f) == FilterMap(a, f) + FilterMap(b, f)
  {
    if |a| == 0 {
      assert a + b == b;
    } else {
      assert (a + b)[1..] == a[1..] + b;
      FilterMapAppend(a[1..], b, f);
    }
  }

  /** `xs.findIndex(p)`: the first position whose element satisfies `p`, or -1. */
  function FindIndex<A>(xs: seq<A>, p: A -> bool): (i: int)
    ensures -1 <= i < |xs|
    ensures i == -1 <==> forall j :: 0 <= j < |xs| ==> !p(xs[j])
    ensures 0 <= i ==> p(xs[i]) && forall j :: 0 <= j < i ==> !p(xs[j])
  {
    if |xs| == 0 then -1
    else if p(xs[0]) then 0
    else
      var k := FindIndex(xs[1..], p);
      assert forall j :: 1 <= j < |xs| ==> xs[j] == xs[1..][j - 1];
      if k < 0 then -1 else k + 1
  }

  /** `xs.find(p)`. */
  function Find<A>(xs: seq<A>, p: A -> bool): (r: Option<A>)
    ensures r.None? <==> forall j :: 0 <= j < |xs| ==> !p(xs[j])
    ensures r.Some? ==> r == Some(xs[FindIndex(xs, p)])
  {
    var i := FindIndex(xs, p);
    if i < 0 then None else Some(xs[i])
  }

  /** Replaces every element that `p` picks by `f` of it (`xs.map(x => p(x) ? f(x) : x)`). */
  function MapWhere<A>(xs: seq<A>, p: A -> bool, f: A -> A): (r: seq<A>)
    ensures |r| == |xs|
    ensures forall i :: 0 <= i < |xs| ==> r[i] == (if p(xs[i]) then f(xs[i]) else xs[i])
  {
    seq(|xs|, i requires 0 <= i < |xs| => if p(xs[i]) then f(xs[i]) else xs[i])
  }

  function SumInts(xs: seq<int>): int
  {
    if |xs| == 0 then 0 else SumInts(xs[..|xs| - 1]) + xs[|xs| - 1]
  }
}
