/** Service usage records (src/app/actions/server/job-board/serviceUsage.ts):
 *  what is stored when the language model or the e-mail finder is used,
 *  and the totals the admin page shows over the newest records. The
 *  database is a sequence of records; authentication is an input. */
module ServiceUsage {
  import opened Wrappers
  import JsObject
  import Sorting

  /** The numbers a `usage` entry may carry; each may be missing. */
  datatype Usage = Usage(totalTokens: Option<int>, inputTokens: Option<int>, outputTokens: Option<int>,
                         credits: Option<int>)

  /** A metadata value: the `usage` entry, or any other caller-supplied
   *  value, kept as text. */
  datatype Value = UsageValue(usage: Usage) | Other(text: string)

  datatype UsageRecord = UsageRecord(userId: string, service: string, createdAt: int, metadata: JsObject.Obj<Value>)

  /** `{...metadata, usage}`: the computed entry replaces any `usage` the
   *  caller passed and every other key is kept. */
  function WithUsage(metadata: JsObject.Obj<Value>, u: Usage): (m: JsObject.Obj<Value>)
    ensures JsObject.Get(m, "usage") == Some(UsageValue(u))
    ensures forall k :: k != "usage" ==> JsObject.Get(m, k) == JsObject.Get(metadata, k)
  {
    forall k ensures JsObject.Get(JsObject.Put(metadata, "usage", UsageValue(u)), k) ==
      if k == "usage" then Some(UsageValue(u)) else JsObject.Get(metadata, k)
    {
      JsObject.GetPut(metadata, "usage", UsageValue(u), k);
    }
    JsObject.Put(metadata, "usage", UsageValue(u))
  }

  /** `srv_addOpenAIUsage`: refused without a signed-in user; otherwise a
   *  record for the language model carrying the three token counts. */
  function AddOpenAIUsage(userId: Option<string>, totalTokens: int, inputTokens: int, outputTokens: int,
                          metadata: JsObject.Obj<Value>, now: int): (r: Result<UsageRecord, string>)
    ensures userId.None? || userId.value == [] <==> r == Err("No authenticated user found")
    ensures r.Ok? ==>
      (r.value.userId == userId.value && r.value.service == "OPENAI" &&
       JsObject.Get(r.value.metadata, "usage") ==
         Some(UsageValue(Usage(Some(totalTokens), Some(inputTokens), Some(outputTokens), None))))
  {
    if userId.None? || userId.value == [] then Err("No authenticated user found")
    else Ok(UsageRecord(userId.value, "OPENAI", now,
                        WithUsage(metadata, Usage(Some(totalTokens), Some(inputTokens), Some(outputTokens), None))))
  }

  /** `srv_addHunterUsage`: the same, for the e-mail finder's credits. */
  function AddHunterUsage(userId: Option<string>, credits: int, metadata: JsObject.Obj<Value>, now: int):
    (r: Result<UsageRecord, string>)
    ensures userId.None? || userId.value == [] <==> r == Err("No authenticated user found")
    ensures r.Ok? ==>
      (r.value.userId == userId.value && r.value.service == "HUNTER" &&
       JsObject.Get(r.value.metadata, "usage") == Some(UsageValue(Usage(None, None, None, Some(credits)))))
  {
    if userId.None? || userId.value == [] then Err("No authenticated user found")
    else Ok(UsageRecord(userId.value, "HUNTER", now, WithUsage(metadata, Usage(None, None, None, Some(credits)))))
  }

  /** The `usage` entry of a record, when it has one. */
  function UsageOf(r: UsageRecord): Option<Usage>
  {
    var v := JsObject.Get(r.metadata, "usage");
    if v.Some? && v.value.UsageValue? then Some(v.value.usage) else None
  }

  /** What one record adds to the token total. */
  function Tokens(r: UsageRecord): int
  {
    if r.service == "OPENAI" && UsageOf(r).Some? then
      UsageOf(r).value.inputTokens.GetOr(0) + UsageOf(r).value.outputTokens.GetOr(0)
    else 0
  }

  /** What one record adds to the credit total. */
  function Credits(r: UsageRecord): int
  {
    if r.service == "HUNTER" && UsageOf(r).Some? then UsageOf(r).value.credits.GetOr(0) else 0
  }

  function TotalTokens(rs: seq<UsageRecord>): int
  {
    if |rs| == 0 then 0 else Tokens(rs[0]) + TotalTokens(rs[1..])
  }

  function TotalCredits(rs: seq<UsageRecord>): int
  {
    if |rs| == 0 then 0 else Credits(rs[0]) + TotalCredits(rs[1..])
  }

  /** The totals split over a concatenation. */
  lemma {:induction false} TotalsAppend(a: seq<UsageRecord>, b: seq<UsageRecord>)
    ensures TotalTokens(a + b) == TotalTokens(a) + TotalTokens(b)
    ensures TotalCredits(a + b) == TotalCredits(a) + TotalCredits(b)
  {
    if |a| == 0 {
      assert a + b == b;
    } else {
      assert (a + b)[0] == a[0];
      assert (a + b)[1..] == a[1..] + b;
      TotalsAppend(a[1..], b);
    }
  }

  /** A record the language-model action stores adds its input and output
   *  tokens to the token total and nothing to the credit total; a record
   *  the finder action stores adds its credits and no tokens. */
  lemma AddedUsageCounted(userId: string, totalTokens: int, inputTokens: int, outputTokens: int, credits: int,
                          metadata: JsObject.Obj<Value>, now: int, rs: seq<UsageRecord>)
    requires userId != []
    ensures var r := AddOpenAIUsage(Some(userId), totalTokens, inputTokens, outputTokens, metadata, now).value;
      TotalTokens(rs + [r]) == TotalTokens(rs) + inputTokens + outputTokens &&
      TotalCredits(rs + [r]) == TotalCredits(rs)
    ensures var r := AddHunterUsage(Some(userId), credits, metadata, now).value;
      TotalTokens(rs + [r]) == TotalTokens(rs) && TotalCredits(rs + [r]) == TotalCredits(rs) + credits
  {
    var o := AddOpenAIUsage(Some(userId), totalTokens, inputTokens, outputTokens, metadata, now).value;
    var h := AddHunterUsage(Some(userId), credits, metadata, now).value;
    TotalsAppend(rs, [o]);
    TotalsAppend(rs, [h]);
    assert UsageOf(o) == Some(Usage(Some(totalTokens), Some(inputTokens), Some(outputTokens), None));
    assert UsageOf(h) == Some(Usage(None, None, None, Some(credits)));
  }

  /** `orderBy: { createdAt: 'desc' }`. */
  function NewestFirst(): (UsageRecord, UsageRecord) -> int
  {
    (a: UsageRecord, b: UsageRecord) => b.createdAt - a.createdAt
  }

  lemma NewestFirstConsistent()
    ensures Sorting.Consistent(NewestFirst())
  {
  }

  function Take<T>(xs: seq<T>, n: nat): (r: seq<T>)
    ensures |r| <= n && r <= xs
    ensures |xs| <= n ==> r == xs
  {
    if |xs| <= n then xs else xs[..n]
  }

  datatype Stats = Stats(totalOpenAITokens: int, totalHunterCredits: int, recentUsage: seq<UsageRecord>)

  /** `srv_getServiceUsageStats`: the totals over the hundred newest records
   *  and the ten newest of them. */
  function GetStats(records: seq<UsageRecord>): (s: Stats)
    ensures |s.recentUsage| <= 10
  {
    var newest := Take(Sorting.SortBy(records, NewestFirst()), 100);
    Stats(TotalTokens(newest), TotalCredits(newest), Take(newest, 10))
  }

  /** Sorting by `createdAt` descending puts every record before the older
   *  ones. */
  lemma NewestSorted(records: seq<UsageRecord>)
    ensures var s := Sorting.SortBy(records, NewestFirst());
      forall i, j :: 0 <= i < j < |s| ==> s[i].createdAt >= s[j].createdAt
  {
    var s := Sorting.SortBy(records, NewestFirst());
    NewestFirstConsistent();
    Sorting.SortBySorted(records, NewestFirst());
    forall i, j | 0 <= i < j < |s|
      ensures s[i].createdAt >= s[j].createdAt
    {
      assert NewestFirst()(s[i], s[j]) <= 0;
    }
  }

  function Min(a: nat, b: nat): nat
  {
    if a <= b then a else b
  }

  /** The totals cover the `min(100, n)` newest records and the recent list
   *  is the first ten of those: nothing left out is newer than anything
   *  kept, and each window is drawn from the stored records. */
  lemma GetStatsWindow(records: seq<UsageRecord>)
    ensures var sorted := Sorting.SortBy(records, NewestFirst());
      var s := GetStats(records);
      var n := Min(|records|, 100);
      s.totalOpenAITokens == TotalTokens(sorted[..n]) && s.totalHunterCredits == TotalCredits(sorted[..n]) &&
      s.recentUsage == sorted[..Min(|records|, 10)] &&
      multiset(sorted[..n]) <= multiset(records) &&
      (forall i, j :: 0 <= i < n <= j < |sorted| ==> sorted[i].createdAt >= sorted[j].createdAt)
  {
    var sorted := Sorting.SortBy(records, NewestFirst());
    var n := Min(|records|, 100);
    NewestSorted(records);
    assert Take(sorted, 100) == sorted[..n];
    assert Take(sorted[..n], 10) == sorted[..Min(|records|, 10)];
    assert sorted == sorted[..n] + sorted[n..];
  }
}
