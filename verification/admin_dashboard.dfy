/** The admin statistics: the server action that counts users by tier and by
 *  sign-up day (src/app/actions/server/admin/dashboard/primary.ts) and the
 *  chart that turns the daily counts into running totals
 *  (src/app/admin/components/dashboard.tsx). Sign-up days arrive as the
 *  "YYYY-MM-DD" strings the action cuts from each timestamp. */
module AdminDashboard {
  import opened Wrappers
  import JsObject
  import Sorting

  datatype Growth = Growth(date: string, count: int)

  datatype Total = Total(date: string, total: int)

  datatype Stats = Stats(totalUsers: nat, free: nat, pro: nat, power: nat, userGrowth: seq<Growth>)

  function SumCounts(g: seq<Growth>): int
  {
    if |g| == 0 then 0 else g[0].count + SumCounts(g[1..])
  }

  lemma {:induction false} SumCountsSnoc(g: seq<Growth>, x: Growth)
    ensures SumCounts(g + [x]) == SumCounts(g) + x.count
  {
    if |g| > 0 {
      assert (g + [x])[1..] == g[1..] + [x];
      SumCountsSnoc(g[1..], x);
    }
  }

  /** The sum of the first `n` daily counts. */
  function PrefixSum(g: seq<Growth>, n: nat): int
    requires n <= |g|
  {
    if n == 0 then 0 else PrefixSum(g, n - 1) + g[n - 1].count
  }

  /** Prefix sums do not look past their prefix. */
  lemma {:induction false} PrefixSumsAgree(g: seq<Growth>, h: seq<Growth>, n: nat)
    requires n <= |g| && n <= |h| && g[..n] == h[..n]
    ensures PrefixSum(g, n) == PrefixSum(h, n)
  {
    if n > 0 {
      assert g[..n - 1] == g[..n][..n - 1] && h[..n - 1] == h[..n][..n - 1];
      assert g[n - 1] == g[..n][n - 1] && h[n - 1] == h[..n][n - 1];
      PrefixSumsAgree(g, h, n - 1);
    }
  }

  lemma PrefixSumsOfInit(g: seq<Growth>)
    requires |g| > 0
    ensures forall n :: 0 <= n <= |g| - 1 ==> PrefixSum(g[..|g| - 1], n) == PrefixSum(g, n)
  {
    forall n | 0 <= n <= |g| - 1
      ensures PrefixSum(g[..|g| - 1], n) == PrefixSum(g, n)
    {
      PrefixSumsAgree(g[..|g| - 1], g, n);
    }
  }

  /** The running totals: the i-th total is the sum of the first i+1 daily
   *  counts, under the same date. */
  function CumulativeGrowth(g: seq<Growth>): (r: seq<Total>)
    ensures |r| == |g|
    ensures forall i :: 0 <= i < |g| ==> r[i].date == g[i].date && r[i].total == PrefixSum(g, i + 1)
    ensures (forall k :: 0 <= k < |g| ==> g[k].count >= 0) ==>
      forall i :: 0 < i < |r| ==> r[i - 1].total <= r[i].total
  {
    if |g| == 0 then []
    else
      var init := g[..|g| - 1];
      var prev := CumulativeGrowth(init);
      var before := if |prev| > 0 then prev[|prev| - 1].total else 0;
      PrefixSumsOfInit(g);
      prev + [Total(g[|g| - 1].date, before + g[|g| - 1].count)]
  }

  lemma {:induction false} PrefixSumAll(g: seq<Growth>)
    ensures PrefixSum(g, |g|) == SumCounts(g)
  {
    if |g| > 0 {
      var init := g[..|g| - 1];
      PrefixSumAll(init);
      PrefixSumsOfInit(g);
      SumCountsSnoc(init, g[|g| - 1]);
      assert g == init + [g[|g| - 1]];
    }
  }

  /** The last total is the sum of every count. */
  lemma CumulativeGrowthLast(g: seq<Growth>)
    requires |g| > 0
    ensures CumulativeGrowth(g)[|g| - 1].total == SumCounts(g)
  {
    PrefixSumAll(g);
  }

  /** What the statistics panel shows. */
  datatype View = Loading | LoadError | Charts(stats: Stats, growth: seq<Total>)

  /** The panel: a placeholder while loading or after a failed load, the
   *  charts otherwise. */
  function Render(loading: bool, stats: Option<Stats>): (r: View)
    ensures r.Charts? <==> !loading && stats.Some?
    ensures r.Charts? ==> r.stats == stats.value && |r.growth| == |stats.value.userGrowth|
    ensures r == Loading <==> loading
  {
    if loading then Loading
    else if stats.None? then LoadError
    else Charts(stats.value, CumulativeGrowth(stats.value.userGrowth))
  }

  /** How many entries equal `x`. */
  function Count<T(==)>(xs: seq<T>, x: T): (n: nat)
    ensures n <= |xs|
    ensures n == 0 <==> x !in xs
  {
    if |xs| == 0 then 0 else Count(xs[..|xs| - 1], x) + (if xs[|xs| - 1] == x then 1 else 0)
  }

  /** Every entry is counted under its own value: the counts of three
   *  different values add up to at most the length, and to exactly the
   *  length when no entry has another value. */
  lemma {:induction false} CountThree<T>(xs: seq<T>, a: T, b: T, c: T)
    requires a != b && b != c && a != c
    ensures Count(xs, a) + Count(xs, b) + Count(xs, c) <= |xs|
    ensures Count(xs, a) + Count(xs, b) + Count(xs, c) == |xs| <==>
      forall k :: 0 <= k < |xs| ==> xs[k] == a || xs[k] == b || xs[k] == c
  {
    if |xs| > 0 {
      var init := xs[..|xs| - 1];
      CountThree(init, a, b, c);
      assert forall k :: 0 <= k < |init| ==> init[k] == xs[k];
    }
  }

  /** `(acc[d] || 0) + 1`. */
  function NextCount(o: JsObject.Obj<int>, d: string): int
  {
    JsObject.Get(o, d).GetOr(0) + 1
  }

  /** `acc[d] = (acc[d] || 0) + 1`. */
  function Tally(o: JsObject.Obj<int>, d: string): JsObject.Obj<int>
  {
    JsObject.Put(o, d, NextCount(o, d))
  }

  /** The users of each sign-up day, in the order the days first appear. */
  function ByDate(days: seq<string>): (o: JsObject.Obj<int>)
  {
    if |days| == 0 then [] else Tally(ByDate(days[..|days| - 1]), days[|days| - 1])
  }

  /** One more sign-up on `d` raises its count by one. */
  lemma TallyBump(o: JsObject.Obj<int>, d: string, n: nat)
    requires JsObject.Get(o, d) == if n > 0 then Some(n) else None
    ensures JsObject.Get(Tally(o, d), d) == Some(n + 1)
  {
    JsObject.GetPutSame(o, d, NextCount(o, d));
  }

  /** A sign-up on another day leaves `d` alone. */
  lemma TallyOther(o: JsObject.Obj<int>, last: string, d: string)
    requires d != last
    ensures JsObject.Get(Tally(o, last), d) == JsObject.Get(o, d)
  {
    JsObject.GetPutOther(o, last, NextCount(o, last), d);
  }

  /** Each day reads the number of users who signed up on it, and a day
   *  nobody signed up on is not a key. */
  lemma {:induction false} ByDateCounts(days: seq<string>, d: string)
    ensures JsObject.Get(ByDate(days), d) == if Count(days, d) > 0 then Some(Count(days, d)) else None
  {
    if |days| > 0 {
      var init := days[..|days| - 1];
      var last := days[|days| - 1];
      ByDateCounts(init, d);
      var n := Count(init, d);
      assert Count(days, d) == n + if d == last then 1 else 0;
      if d == last {
        TallyBump(ByDate(init), d, n);
      } else {
        TallyOther(ByDate(init), last, d);
      }
    }
  }

  lemma PutWellFormed<V>(o: JsObject.Obj<V>, k: string, v: V)
    requires JsObject.WellFormed(o)
    ensures JsObject.WellFormed(JsObject.Put(o, k, v))
  {
    var r := JsObject.Put(o, k, v);
    assert forall i :: 0 <= i < |o| ==> JsObject.Keys(o)[i] == o[i].0;
    assert forall i :: 0 <= i < |r| ==> JsObject.Keys(r)[i] == r[i].0;
  }

  lemma {:induction false} ByDateWellFormed(days: seq<string>)
    ensures JsObject.WellFormed(ByDate(days))
  {
    if |days| > 0 {
      var init := days[..|days| - 1];
      var last := days[|days| - 1];
      ByDateWellFormed(init);
      PutWellFormed(ByDate(init), last, NextCount(ByDate(init), last));
      assert ByDate(days) == Tally(ByDate(init), last);
    }
  }

  function ObjSum(o: JsObject.Obj<int>): int
  {
    if |o| == 0 then 0 else o[0].1 + ObjSum(o[1..])
  }

  /** Storing `v` under `k` replaces what `k` held. */
  lemma {:induction false} ObjSumPut(o: JsObject.Obj<int>, k: string, v: int)
    ensures ObjSum(JsObject.Put(o, k, v)) == ObjSum(o) - JsObject.Get(o, k).GetOr(0) + v
  {
    if |o| > 0 && o[0].0 != k {
      ObjSumPut(o[1..], k, v);
      assert JsObject.Put(o, k, v)[1..] == JsObject.Put(o[1..], k, v);
    }
  }

  /** The day counts add up to the number of users. */
  lemma {:induction false} ByDateSum(days: seq<string>)
    ensures ObjSum(ByDate(days)) == |days|
  {
    if |days| > 0 {
      var init := days[..|days| - 1];
      var last := days[|days| - 1];
      ByDateSum(init);
      ObjSumPut(ByDate(init), last, NextCount(ByDate(init), last));
    }
  }

  /** `Object.entries(usersByDate).map(([date, count]) => ({ date, count }))`. */
  function Entries(o: JsObject.Obj<int>): (g: seq<Growth>)
    ensures |g| == |o|
    ensures forall i :: 0 <= i < |o| ==> g[i] == Growth(o[i].0, o[i].1)
  {
    seq(|o|, i requires 0 <= i < |o| => Growth(o[i].0, o[i].1))
  }

  lemma {:induction false} EntriesSum(o: JsObject.Obj<int>)
    ensures SumCounts(Entries(o)) == ObjSum(o)
  {
    if |o| > 0 {
      assert Entries(o)[1..] == Entries(o[1..]);
      EntriesSum(o[1..]);
    }
  }

  /** `a.date.localeCompare(b.date)`. */
  function DateOrder(): (Growth, Growth) -> int
  {
    (a: Growth, b: Growth) => Sorting.StrCmp(a.date, b.date)
  }

  lemma DateOrderConsistent()
    ensures Sorting.Consistent(DateOrder())
  {
    forall a: Growth, b: Growth
      ensures Sorting.Sign(DateOrder()(a, b)) == -Sorting.Sign(DateOrder()(b, a))
    {
      Sorting.StrCmpAntisymmetric(a.date, b.date);
    }
    forall a: Growth, b: Growth, c: Growth | DateOrder()(a, b) <= 0 && DateOrder()(b, c) <= 0
      ensures DateOrder()(a, c) <= 0
    {
      Sorting.StrCmpTransitive(a.date, b.date, c.date);
    }
  }

  lemma {:induction false} SumInsert(x: Growth, xs: seq<Growth>, cmp: (Growth, Growth) -> int)
    ensures SumCounts(Sorting.Insert(x, xs, cmp)) == x.count + SumCounts(xs)
  {
    if |xs| > 0 && cmp(x, xs[0]) >= 0 {
      SumInsert(x, xs[1..], cmp);
    }
  }

  /** Sorting keeps the total. */
  lemma {:induction false} SumSortBy(xs: seq<Growth>, cmp: (Growth, Growth) -> int)
    ensures SumCounts(Sorting.SortBy(xs, cmp)) == SumCounts(xs)
  {
    if |xs| > 0 {
      var init := xs[..|xs| - 1];
      SumSortBy(init, cmp);
      SumInsert(xs[|xs| - 1], Sorting.SortBy(init, cmp), cmp);
      SumCountsSnoc(init, xs[|xs| - 1]);
      assert xs == init + [xs[|xs| - 1]];
    }
  }

  /** `Object.entries(usersByDate)...sort(...)`: the daily counts in date
   *  order. */
  function UserGrowth(signupDays: seq<string>): (g: seq<Growth>)
    ensures multiset(g) == multiset(Entries(ByDate(signupDays)))
  {
    Sorting.SortBy(Entries(ByDate(signupDays)), DateOrder())
  }

  lemma UserGrowthSorted(signupDays: seq<string>)
    ensures Sorting.Sorted(UserGrowth(signupDays), DateOrder())
  {
    DateOrderConsistent();
    Sorting.SortBySorted(Entries(ByDate(signupDays)), DateOrder());
  }

  lemma UserGrowthSum(signupDays: seq<string>)
    ensures SumCounts(UserGrowth(signupDays)) == |signupDays|
  {
    var o := ByDate(signupDays);
    SumSortBy(Entries(o), DateOrder());
    EntriesSum(o);
    ByDateSum(signupDays);
  }

  /** Every sign-up day has its entry, carrying that day's count. */
  lemma UserGrowthCovers(signupDays: seq<string>, d: string)
    requires d in signupDays
    ensures Growth(d, Count(signupDays, d)) in UserGrowth(signupDays)
  {
    var o := ByDate(signupDays);
    var e := Entries(o);
    ByDateCounts(signupDays, d);
    var c := Count(signupDays, d);
    assert JsObject.Get(o, d) == Some(c);
    var i :| 0 <= i < |o| && o[i] == (d, c);
    assert e[i] == Growth(d, c);
    assert e[i] in multiset(UserGrowth(signupDays));
  }

  /** Every entry is a sign-up day with its count. */
  lemma UserGrowthSound(signupDays: seq<string>, x: Growth)
    requires x in UserGrowth(signupDays)
    ensures x.date in signupDays && x.count == Count(signupDays, x.date)
  {
    var o := ByDate(signupDays);
    var e := Entries(o);
    assert x in multiset(e);
    var i :| 0 <= i < |e| && e[i] == x;
    ByDateWellFormed(signupDays);
    JsObject.GetAt(o, i);
    ByDateCounts(signupDays, o[i].0);
  }

  /** `srv_getDashboardStats`: refused unless the caller is an admin;
   *  otherwise the number of sign-ups, the stored users per tier, and the
   *  sign-ups per day in date order. */
  function GetStats(isAdmin: bool, signupDays: seq<string>, tiers: seq<string>): (r: Result<Stats, string>)
    ensures !isAdmin <==> r == Err("Forbidden")
    ensures r.Ok? ==>
      (r.value.totalUsers == |signupDays| &&
       r.value.free == Count(tiers, "free") && r.value.pro == Count(tiers, "pro") &&
       r.value.power == Count(tiers, "power"))
  {
    if !isAdmin then Err("Forbidden")
    else Ok(Stats(|signupDays|, Count(tiers, "free"), Count(tiers, "pro"), Count(tiers, "power"),
                  UserGrowth(signupDays)))
  }

  /** The daily counts come in date order, add up to the number of sign-ups,
   *  and hold exactly one entry per sign-up day, carrying that day's count. */
  lemma GetStatsGrowth(signupDays: seq<string>, tiers: seq<string>)
    ensures var g := GetStats(true, signupDays, tiers).value.userGrowth;
      Sorting.Sorted(g, DateOrder()) && SumCounts(g) == |signupDays| &&
      (forall d :: d in signupDays ==> Growth(d, Count(signupDays, d)) in g) &&
      (forall x :: x in g ==> x.date in signupDays && x.count == Count(signupDays, x.date))
  {
    UserGrowthSorted(signupDays);
    UserGrowthSum(signupDays);
    forall d | d in signupDays
      ensures Growth(d, Count(signupDays, d)) in UserGrowth(signupDays)
    {
      UserGrowthCovers(signupDays, d);
    }
    forall x | x in UserGrowth(signupDays)
      ensures x.date in signupDays && x.count == Count(signupDays, x.date)
    {
      UserGrowthSound(signupDays, x);
    }
  }

  /** Users whose stored tier is none of the three are counted nowhere. */
  lemma TierCountsCoverKnownTiers(tiers: seq<string>)
    ensures var s := GetStats(true, [], tiers).value;
      s.free + s.pro + s.power <= |tiers| &&
      (s.free + s.pro + s.power == |tiers| <==>
        forall k :: 0 <= k < |tiers| ==> tiers[k] == "free" || tiers[k] == "pro" || tiers[k] == "power")
  {
    CountThree(tiers, "free", "pro", "power");
  }
}
