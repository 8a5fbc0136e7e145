/** `Array.prototype.sort` with a comparator. Since ES2019 the sort is
 *  stable, so it is modelled as a stable insertion sort: the result is a
 *  permutation of the input whatever the comparator does, and it is
 *  ordered when the comparator is consistent. */
module Sorting {

  function Sign(x: int): int
  {
    if x < 0 then -1 else if x > 0 then 1 else 0
  }

  /** What `sort` asks of a comparator: swapping the arguments flips the sign,
   *  and "not after" is transitive. */
  ghost predicate Consistent<T(!new)>(cmp: (T, T) -> int)
  {
    (forall a, b :: Sign(cmp(a, b)) == -Sign(cmp(b, a)))
    && (forall a, b, c :: cmp(a, b) <= 0 && cmp(b, c) <= 0 ==> cmp(a, c) <= 0)
  }

  ghost predicate Sorted<T>(xs: seq<T>, cmp: (T, T) -> int)
  {
    forall i, j :: 0 <= i < j < |xs| ==> cmp(xs[i], xs[j]) <= 0
  }

  /** Places `x` after every element it does not sort strictly before. */
  function Insert<T>(x: T, xs: seq<T>, cmp: (T, T) -> int): (r: seq<T>)
    ensures multiset(r) == multiset(xs) + multiset{x}
    ensures |r| == |xs| + 1
  {
    if |xs| == 0 then [x]
    else if cmp(x, xs[0]) < 0 then [x] + xs
    else
      assert xs == [xs[0]] + xs[1..];
      [xs[0]] + Insert(x, xs[1..], cmp)
  }

  /** `xs.slice().sort(cmp)`. */
  function SortBy<T>(xs: seq<T>, cmp: (T, T) -> int): (r: seq<T>)
    ensures multiset(r) == multiset(xs)
    ensures |r| == |xs|
  {
    if |xs| == 0 then []
    else
      assert xs == xs[..|xs| - 1] + [xs[|xs| - 1]];
      Insert(xs[|xs| - 1], SortBy(xs[..|xs| - 1], cmp), cmp)
  }

  /** No element of `xs` sorts strictly before `y`. */
  ghost predicate LowerBound<T>(y: T, xs: seq<T>, cmp: (T, T) -> int)
  {
    forall k :: 0 <= k < |xs| ==> cmp(y, xs[k]) <= 0
  }

  lemma {:induction false} InsertLowerBound<T>(y: T, x: T, xs: seq<T>, cmp: (T, T) -> int)
    requires LowerBound(y, xs, cmp) && cmp(y, x) <= 0
    ensures LowerBound(y, Insert(x, xs, cmp), cmp)
  {
    if |xs| > 0 && cmp(x, xs[0]) >= 0 {
      InsertLowerBound(y, x, xs[1..], cmp);
    }
  }

  lemma ConsSorted<T>(y: T, xs: seq<T>, cmp: (T, T) -> int)
    requires LowerBound(y, xs, cmp) && Sorted(xs, cmp)
    ensures Sorted([y] + xs, cmp)
  {
    var r := [y] + xs;
    forall i, j | 0 <= i < j < |r|
      ensures cmp(r[i], r[j]) <= 0
    {
      assert r[j] == xs[j - 1];
      if i > 0 {
        assert r[i] == xs[i - 1];
      }
    }
  }

  lemma {:induction false} InsertSorted<T(!new)>(x: T, xs: seq<T>, cmp: (T, T) -> int)
    requires Consistent(cmp) && Sorted(xs, cmp)
    ensures Sorted(Insert(x, xs, cmp), cmp)
  {
    if |xs| == 0 {
    } else if cmp(x, xs[0]) < 0 {
      forall k | 0 <= k < |xs|
        ensures cmp(x, xs[k]) <= 0
      {
        if k > 0 {
          assert cmp(xs[0], xs[k]) <= 0;
        }
      }
      ConsSorted(x, xs, cmp);
    } else {
      assert Sign(cmp(xs[0], x)) == -Sign(cmp(x, xs[0]));
      assert LowerBound(xs[0], xs[1..], cmp) by {
        forall k | 0 <= k < |xs[1..]|
          ensures cmp(xs[0], xs[1..][k]) <= 0
        {
          assert xs[1..][k] == xs[k + 1];
        }
      }
      InsertLowerBound(xs[0], x, xs[1..], cmp);
      InsertSorted(x, xs[1..], cmp);
      ConsSorted(xs[0], Insert(x, xs[1..], cmp), cmp);
    }
  }

  /** With a consistent comparator the sort really orders the list. */
  lemma {:induction false} SortBySorted<T(!new)>(xs: seq<T>, cmp: (T, T) -> int)
    requires Consistent(cmp)
    ensures Sorted(SortBy(xs, cmp), cmp)
  {
    if |xs| > 0 {
      SortBySorted(xs[..|xs| - 1], cmp);
      InsertSorted(xs[|xs| - 1], SortBy(xs[..|xs| - 1], cmp), cmp);
    }
  }

  /** A comparator that calls everything equal leaves the order alone
   *  (stability). */
  lemma {:induction false} SortByNeutral<T>(xs: seq<T>, cmp: (T, T) -> int)
    requires forall a, b :: cmp(a, b) == 0
    ensures SortBy(xs, cmp) == xs
  {
    if |xs| > 0 {
      var init := xs[..|xs| - 1];
      SortByNeutral(init, cmp);
      InsertLast(xs[|xs| - 1], init, cmp);
      assert xs == init + [xs[|xs| - 1]];
    }
  }

  lemma {:induction false} InsertLast<T>(x: T, xs: seq<T>, cmp: (T, T) -> int)
    requires forall a, b :: cmp(a, b) == 0
    ensures Insert(x, xs, cmp) == xs + [x]
  {
    if |xs| > 0 {
      InsertLast(x, xs[1..], cmp);
      assert xs == [xs[0]] + xs[1..];
    }
  }

  /** Code-point order on strings, the model of `localeCompare`. */
  function StrCmp(a: string, b: string): int
  {
    if |a| == 0 && |b| == 0 then 0
    else if |a| == 0 then -1
    else if |b| == 0 then 1
    else if a[0] < b[0] then -1
    else if a[0] > b[0] then 1
    else StrCmp(a[1..], b[1..])
  }

  lemma {:induction false} StrCmpZero(a: string, b: string)
    ensures StrCmp(a, b) == 0 <==> a == b
  {
    if |a| > 0 && |b| > 0 && a[0] == b[0] {
      StrCmpZero(a[1..], b[1..]);
      assert a == [a[0]] + a[1..] && b == [b[0]] + b[1..];
    }
  }

  lemma {:induction false} StrCmpAntisymmetric(a: string, b: string)
    ensures StrCmp(a, b) == -StrCmp(b, a)
    ensures -1 <= StrCmp(a, b) <= 1
  {
    if |a| > 0 && |b| > 0 && a[0] == b[0] {
      StrCmpAntisymmetric(a[1..], b[1..]);
    }
  }

  lemma {:induction false} StrCmpTransitive(a: string, b: string, c: string)
    requires StrCmp(a, b) <= 0 && StrCmp(b, c) <= 0
    ensures StrCmp(a, c) <= 0
  {
    if |a| > 0 && |b| > 0 && |c| > 0 && a[0] == b[0] && b[0] == c[0] {
      StrCmpTransitive(a[1..], b[1..], c[1..]);
    }
  }

  lemma StrCmpConsistent()
    ensures Consistent((a: string, b: string) => StrCmp(a, b))
  {
    forall a: string, b: string
      ensures Sign(StrCmp(a, b)) == -Sign(StrCmp(b, a))
    {
      StrCmpAntisymmetric(a, b);
    }
    forall a: string, b: string, c: string | StrCmp(a, b) <= 0 && StrCmp(b, c) <= 0
      ensures StrCmp(a, c) <= 0
    {
      StrCmpTransitive(a, b, c);
    }
  }

  /** Reversing a consistent comparator keeps it consistent. */
  lemma ReverseConsistent<T(!new)>(cmp: (T, T) -> int)
    requires Consistent(cmp)
    ensures Consistent((a: T, b: T) => cmp(b, a))
  {
  }

  /** Comparing an integer key (`a.k - b.k`) is consistent. */
  lemma KeyConsistent<T(!new)>(key: T -> int)
    ensures Consistent((a: T, b: T) => key(a) - key(b))
  {
  }
}
