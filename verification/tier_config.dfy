/** The admin editor for tier limits and services, and its quota table
 *  (src/app/admin/components/tier-config.tsx). */
module TierConfig {
  import opened Wrappers
  import opened JsObject
  import opened ConfigData
  import opened Text
  import opened Lists

  /** One row of the quota table. */
  datatype QuotaRow = QuotaRow(email: string, tier: string, usage: map<string, int>)

  /** The limit typed into a number input: empty reads as 0. Text that
   *  `parseInt` reads as `NaN` is outside the model. */
  function LimitFromInput(value: string): int
    requires value == "" || ParseInt(value).Some?
  {
    if value == "" then 0 else ParseInt(value).value
  }

  /** `handleInputChange`: a no-op without a configuration; otherwise the
   *  (tier, service) limit object is replaced wholesale by `{limit}`. */
  function HandleInputChange(config: Option<Config>, tier: string, serviceKey: string, value: string): (r: Option<Config>)
    requires value == "" || ParseInt(value).Some?
    ensures config.None? ==> r.None?
    ensures config.Some? ==> r.Some? && r.value.services == config.value.services
    ensures config.Some? ==>
      Get(r.value.tierLimits, tier).Some?
      && Get(Get(r.value.tierLimits, tier).value, serviceKey) == Some(QuotaLimit(LimitFromInput(value), None))
  {
    match config
    case None => None
    case Some(c) =>
      var limits := Get(c.tierLimits, tier).GetOr([]);
      var newLimits := Put(limits, serviceKey, QuotaLimit(LimitFromInput(value), None));
      GetPut(limits, serviceKey, QuotaLimit(LimitFromInput(value), None), serviceKey);
      GetPut(c.tierLimits, tier, newLimits, tier);
      Some(c.(tierLimits := Put(c.tierLimits, tier, newLimits)))
  }

  /** An edit changes nothing but its own (tier, service) entry. */
  lemma EditTouchesOneEntry(c: Config, tier: string, serviceKey: string, value: string, t: string, k: string)
    requires value == "" || ParseInt(value).Some?
    requires t != tier || k != serviceKey
    ensures var r := HandleInputChange(Some(c), tier, serviceKey, value).value;
      t != tier ==> Get(r.tierLimits, t) == Get(c.tierLimits, t)
    ensures var r := HandleInputChange(Some(c), tier, serviceKey, value).value;
      t == tier && HasKey(c.tierLimits, tier) ==>
        Get(Get(r.tierLimits, t).value, k) == Get(Get(c.tierLimits, t).value, k)
  {
    var limits := Get(c.tierLimits, tier).GetOr([]);
    var newLimits := Put(limits, serviceKey, QuotaLimit(LimitFromInput(value), None));
    GetPut(c.tierLimits, tier, newLimits, t);
    GetPut(limits, serviceKey, QuotaLimit(LimitFromInput(value), None), k);
  }

  /** `limits[serviceKey] || {limit: 0}` shown in the input, 0 as empty. */
  function DisplayedLimit(config: Config, tier: string, serviceKey: string): (r: string)
    ensures (!HasKey(config.tierLimits, tier) || !HasKey(Get(config.tierLimits, tier).value, serviceKey)) ==> r == ""
  {
    var limits := Get(config.tierLimits, tier).GetOr([]);
    var limit := match Get(limits, serviceKey) case None => 0 case Some(q) => q.limit;
    if limit == 0 then "" else IntToString(limit)
  }

  /** Typing a number and reading the input back shows what was typed; typing
   *  0 or clearing the input shows an empty input. */
  lemma InputRoundTrip(c: Config, tier: string, serviceKey: string, n: int)
    ensures ParseInt(IntToString(n)) == Some(n)
    ensures var r := HandleInputChange(Some(c), tier, serviceKey, IntToString(n)).value;
      DisplayedLimit(r, tier, serviceKey) == if n == 0 then "" else IntToString(n)
    ensures var r := HandleInputChange(Some(c), tier, serviceKey, "").value;
      DisplayedLimit(r, tier, serviceKey) == ""
  {
    TypedLimit(n);
    var r := HandleInputChange(Some(c), tier, serviceKey, IntToString(n)).value;
    assert Get(Get(r.tierLimits, tier).value, serviceKey) == Some(QuotaLimit(n, None));
    var e := HandleInputChange(Some(c), tier, serviceKey, "").value;
    assert Get(Get(e.tierLimits, tier).value, serviceKey) == Some(QuotaLimit(0, None));
  }

  /** A typed number is the limit it spells. */
  lemma TypedLimit(n: int)
    ensures IntToString(n) != "" && ParseInt(IntToString(n)).Some? && LimitFromInput(IntToString(n)) == n
  {
    ParseIntRoundTrip(n);
    assert |IntToString(n)| > 0;
  }

  /** The active switch: only that service's `active` flag changes. */
  function ToggleService(config: Config, key: string, checked: bool): (r: Config)
    requires HasKey(config.services, key)
    ensures r.tierLimits == config.tierLimits
    ensures Keys(r.services) == Keys(config.services)
    ensures Get(r.services, key) == Some(Get(config.services, key).value.(active := checked))
    ensures forall k :: k != key ==> Get(r.services, k) == Get(config.services, k)
  {
    var s := Get(config.services, key).value;
    var r := config.(services := Put(config.services, key, s.(active := checked)));
    assert forall k :: Get(r.services, k) == if k == key then Some(s.(active := checked)) else Get(config.services, k) by {
      forall k {
        GetPut(config.services, key, s.(active := checked), k);
      }
    }
    r
  }

  /** The description field: only that service's description changes. */
  function EditDescription(config: Config, key: string, text: string): (r: Config)
    requires HasKey(config.services, key)
    ensures r.tierLimits == config.tierLimits
    ensures Keys(r.services) == Keys(config.services)
    ensures Get(r.services, key) == Some(Get(config.services, key).value.(description := text))
    ensures forall k :: k != key ==> Get(r.services, k) == Get(config.services, k)
  {
    var s := Get(config.services, key).value;
    var r := config.(services := Put(config.services, key, s.(description := text)));
    assert forall k :: Get(r.services, k) == if k == key then Some(s.(description := text)) else Get(config.services, k) by {
      forall k {
        GetPut(config.services, key, s.(description := text), k);
      }
    }
    r
  }

  /** Switching a service off and on again (or on and off) gives back the
   *  configuration exactly. */
  lemma ToggleTwiceRestores(config: Config, key: string)
    requires WellFormed(config.services) && HasKey(config.services, key)
    ensures var s := Get(config.services, key).value;
      ToggleService(ToggleService(config, key, !s.active), key, s.active) == config
  {
    var s := Get(config.services, key).value;
    PutTwice(config.services, key, s.(active := !s.active), s);
    PutOwnValue(config.services, key);
  }

  lemma {:induction false} PutTwice<V>(o: Obj<V>, k: string, v: V, w: V)
    ensures Put(Put(o, k, v), k, w) == Put(o, k, w)
  {
    if |o| > 0 && o[0].0 != k {
      PutTwice(o[1..], k, v, w);
    }
  }

  lemma {:induction false} PutOwnValue<V>(o: Obj<V>, k: string)
    requires WellFormed(o) && HasKey(o, k)
    ensures Put(o, k, Get(o, k).value) == o
  {
    if o[0].0 != k {
      assert Keys(o) == [o[0].0] + Keys(o[1..]);
      PutOwnValue(o[1..], k);
    }
  }

  /** The quota table's search: case-insensitive substring of the e-mail. */
  function FilterQuotaRows(rows: seq<QuotaRow>, query: string): (r: seq<QuotaRow>)
    ensures forall i :: 0 <= i < |r| ==> r[i] in rows && Contains(Lower(r[i].email), Lower(query))
    ensures forall i :: 0 <= i < |rows| && Contains(Lower(rows[i].email), Lower(query)) ==> rows[i] in r
  {
    Filter(rows, (u: QuotaRow) => Contains(Lower(u.email), Lower(query)))
  }

  /** An empty search shows every row. */
  lemma EmptyQueryKeepsAll(rows: seq<QuotaRow>)
    ensures FilterQuotaRows(rows, "") == rows
  {
    forall i | 0 <= i < |rows|
      ensures Contains(Lower(rows[i].email), Lower(""))
    {
      ContainsEmpty(Lower(rows[i].email));
    }
    FilterKeepsAll(rows, (u: QuotaRow) => Contains(Lower(u.email), Lower("")));
  }

  /** The usage cells of a row, one per service in services order, missing
   *  usage shown as 0. */
  function UsageCells(config: Config, row: QuotaRow): (r: seq<int>)
    ensures |r| == |config.services|
    ensures forall i :: 0 <= i < |r| ==>
      r[i] == (if config.services[i].0 in row.usage then row.usage[config.services[i].0] else 0)
  {
    seq(|config.services|, i requires 0 <= i < |config.services| =>
      var k := config.services[i].0; if k in row.usage then row.usage[k] else 0)
  }
}
