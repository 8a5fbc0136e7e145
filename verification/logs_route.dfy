/** The admin log search (src/app/api/admin/logs/route.ts): who may ask,
 *  how the query parameters become a database query, and the pagination
 *  figures that come back. The database itself is outside the model: the
 *  route's output is the find request it issues together with the count
 *  of matching records, which is an input. */
module LogsRoute {
  import opened Wrappers
  import JsObject
  import Text

  /** The URL's query parameters; `get` returns the first value of a name. */
  type Params = JsObject.Obj<string>

  /** `searchParams.get(name) || fallback`: a missing or empty parameter
   *  takes the fallback. */
  function Param(ps: Params, name: string, fallback: string): string
  {
    var v := JsObject.Get(ps, name);
    if v.None? || v.value == [] then fallback else v.value
  }

  /** A filter that is set only when its parameter is non-empty. */
  function Filter(ps: Params, name: string): Option<string>
  {
    var v := Param(ps, name, "");
    if v == [] then None else Some(v)
  }

  /** The width, in milliseconds, of each named time range. */
  function RangeMs(name: string): (r: Option<int>)
    ensures r.Some? <==> name in ["15m", "1h", "6h", "24h", "7d"]
    ensures r.Some? ==> r.value > 0
    ensures name == "1h" ==> r == Some(3600000)
  {
    if name == "15m" then Some(15 * 60 * 1000)
    else if name == "1h" then Some(60 * 60 * 1000)
    else if name == "6h" then Some(6 * 60 * 60 * 1000)
    else if name == "24h" then Some(24 * 60 * 60 * 1000)
    else if name == "7d" then Some(7 * 24 * 60 * 60 * 1000)
    else None
  }

  /** The named ranges are nested: each is wider than the one before. */
  lemma RangesWiden()
    ensures RangeMs("15m").value < RangeMs("1h").value < RangeMs("6h").value
      < RangeMs("24h").value < RangeMs("7d").value
    ensures RangeMs("7d").value == 7 * RangeMs("24h").value == 168 * RangeMs("1h").value
  {
  }

  /** The `timestamp` condition: records since an instant, or between two
   *  dates as the caller wrote them. */
  datatype Window = Since(from: int) | Between(start: string, end: string)

  /** The conditions of the query; `action` and `search` are
   *  case-insensitive patterns, `search` over action, service, message and
   *  user id. */
  datatype Query = Query(level: Option<string>, service: Option<string>, ip: Option<string>,
                         action: Option<string>, search: Option<string>, timestamp: Option<Window>)

  /** The `find` the route issues: the query, the sort field and direction
   *  (-1 newest first), and the skip and limit; `None` stands for `NaN`. */
  datatype Find = Find(query: Query, sortField: string, direction: int, skip: Option<int>, limit: Option<int>)

  datatype Pagination = Pagination(total: nat, page: Option<int>, limit: Option<int>, pages: Option<int>)

  datatype Response = Refused(status: int, message: string) | Logs(find: Find, pagination: Pagination)

  /** The time condition: a custom range needs both ends, any other value
   *  must name a known range, which then ends now. */
  function TimeWindow(ps: Params, now: int): (w: Option<Window>)
    ensures Param(ps, "timeRange", "1h") == "custom" ==>
      (w.Some? <==> Filter(ps, "startDate").Some? && Filter(ps, "endDate").Some?)
    ensures w.Some? && w.value.Between? ==>
      (Filter(ps, "startDate").Some? && Filter(ps, "endDate").Some? &&
       w.value == Between(Filter(ps, "startDate").value, Filter(ps, "endDate").value))
    ensures Param(ps, "timeRange", "1h") != "custom" ==>
      (w.Some? <==> RangeMs(Param(ps, "timeRange", "1h")).Some?) &&
      (w.Some? ==> w.value.Since? && now - w.value.from == RangeMs(Param(ps, "timeRange", "1h")).value)
  {
    var tr := Param(ps, "timeRange", "1h");
    if tr == "custom" then
      var s := Filter(ps, "startDate");
      var e := Filter(ps, "endDate");
      if s.Some? && e.Some? then Some(Between(s.value, e.value)) else None
    else
      var ms := RangeMs(tr);
      if ms.Some? then Some(Since(now - ms.value)) else None
  }

  function BuildQuery(ps: Params, now: int): (q: Query)
    ensures q.level.Some? <==> Param(ps, "level", "") != []
    ensures q.service.Some? <==> Param(ps, "service", "") != []
    ensures q.ip.Some? <==> Param(ps, "ip", "") != []
    ensures q.action.Some? <==> Param(ps, "action", "") != []
    ensures q.search.Some? <==> Param(ps, "search", "") != []
    ensures q.level.Some? ==> q.level.value == JsObject.Get(ps, "level").value
    ensures q.service.Some? ==> q.service.value == JsObject.Get(ps, "service").value
    ensures q.ip.Some? ==> q.ip.value == JsObject.Get(ps, "ip").value
    ensures q.action.Some? ==> q.action.value == JsObject.Get(ps, "action").value
    ensures q.search.Some? ==> q.search.value == JsObject.Get(ps, "search").value
  {
    Query(Filter(ps, "level"), Filter(ps, "service"), Filter(ps, "ip"), Filter(ps, "action"),
          Filter(ps, "search"), TimeWindow(ps, now))
  }

  /** `(page - 1) * limit`, with `NaN` spreading. */
  function Skip(page: Option<int>, limit: Option<int>): Option<int>
  {
    if page.Some? && limit.Some? then Some((page.value - 1) * limit.value) else None
  }

  /** `Math.ceil(total / limit)` when it is a finite number: the least whole
   *  number at or above the quotient. A zero or `NaN` limit gives no finite
   *  page count. */
  function Pages(total: nat, limit: Option<int>): (r: Option<int>)
    ensures r.Some? <==> limit.Some? && limit.value != 0
    ensures r.Some? && limit.value > 0 ==> (r.value - 1) * limit.value < total <= r.value * limit.value
    ensures r.Some? && limit.value < 0 ==> r.value * limit.value <= total < (r.value - 1) * limit.value
  {
    if limit.None? || limit.value == 0 then None
    else if limit.value > 0 then Some((total + limit.value - 1) / limit.value)
    else Some(-(total / -limit.value))
  }

  /** With a positive limit the pages cover every matching record exactly
   *  once: record `i` (0-based, in sort order) is on page `i / limit + 1`,
   *  which is among the counted pages and whose window holds `i`. */
  lemma EveryRecordOnAPage(total: nat, limit: int, i: nat)
    requires limit > 0 && i < total
    ensures var p := i / limit + 1;
      1 <= p <= Pages(total, Some(limit)).value &&
      Skip(Some(p), Some(limit)).value <= i < Skip(Some(p), Some(limit)).value + limit
  {
    var p := i / limit + 1;
    var n := Pages(total, Some(limit)).value;
    assert (p - 1) * limit <= i;
  }

  /** `GET`: no user gives 401, anyone but an admin 403; otherwise the
   *  parameters, with their defaults, become the find request. */
  function Get(userId: Option<string>, role: Option<string>, ps: Params, now: int, total: nat): (r: Response)
    ensures userId.None? || userId.value == [] <==> r == Refused(401, "Unauthorized")
    ensures userId.Some? && userId.value != [] && role != Some("admin") <==> r == Refused(403, "Forbidden")
    ensures r.Logs? <==> userId.Some? && userId.value != [] && role == Some("admin")
    ensures r.Logs? ==>
      r.find.query == BuildQuery(ps, now) && r.find.limit == r.pagination.limit &&
      r.find.skip == Skip(r.pagination.page, r.pagination.limit) &&
      r.pagination.total == total && r.pagination.pages == Pages(total, r.pagination.limit)
    ensures r.Logs? ==> (r.find.direction == -1 <==> Param(ps, "sortOrder", "desc") == "desc")
    ensures r.Logs? ==> r.find.direction in {-1, 1}
  {
    if userId.None? || userId.value == [] then Refused(401, "Unauthorized")
    else if role != Some("admin") then Refused(403, "Forbidden")
    else Search(ps, now, total)
  }

  /** What an admin's request turns into: the parameters, with their
   *  defaults, as a find request and its pagination. */
  function Search(ps: Params, now: int, total: nat): (r: Response)
    ensures r.Logs?
  {
    var page := Text.ParseInt(Param(ps, "page", "1"));
    var limit := Text.ParseInt(Param(ps, "limit", "50"));
    var direction := if Param(ps, "sortOrder", "desc") == "desc" then -1 else 1;
    Logs(Find(BuildQuery(ps, now), Param(ps, "sortBy", "timestamp"), direction, Skip(page, limit), limit),
         Pagination(total, page, limit, Pages(total, limit)))
  }

  /** With no parameters at all an admin gets the first fifty records of
   *  the last hour, newest first. */
  lemma DefaultsApply(userId: string, now: int, total: nat)
    requires userId != []
    ensures var r := Get(Some(userId), Some("admin"), [], now, total);
      r.Logs? && r.find.query == Query(None, None, None, None, None, Some(Since(now - 3600000))) &&
      r.find.sortField == "timestamp" && r.find.direction == -1 &&
      r.pagination.page == Some(1) && r.pagination.limit == Some(50) && r.find.skip == Some(0) &&
      r.pagination.pages == Some((total + 49) / 50)
  {
    assert Get(Some(userId), Some("admin"), [], now, total) == Search([], now, total);
    DefaultSearch(now, total);
  }

  lemma DefaultSearch(now: int, total: nat)
    ensures Search([], now, total) ==
      Logs(Find(Query(None, None, None, None, None, Some(Since(now - 3600000))), "timestamp", -1, Some(0), Some(50)),
           Pagination(total, Some(1), Some(50), Some((total + 49) / 50)))
  {
    DefaultPaging();
    NoParams("sortOrder", "desc");
    NoParams("sortBy", "timestamp");
    DefaultQuery(now);
    PagesOfFifty(total);
  }

  lemma PagesOfFifty(total: nat)
    ensures Pages(total, Some(50)) == Some((total + 49) / 50)
  {
  }

  /** Without parameters the page is 1 and the limit 50. */
  lemma DefaultPaging()
    ensures Text.ParseInt(Param([], "page", "1")) == Some(1)
    ensures Text.ParseInt(Param([], "limit", "50")) == Some(50)
  {
    NoParams("page", "1");
    NoParams("limit", "50");
    ParseOne();
    ParseFifty();
  }

  /** Without parameters every one reads as its fallback. */
  lemma NoParams(name: string, fallback: string)
    ensures Param([], name, fallback) == fallback
  {
  }

  /** Without parameters the query holds only the last hour. */
  lemma DefaultQuery(now: int)
    ensures BuildQuery([], now) == Query(None, None, None, None, None, Some(Since(now - 3600000)))
  {
    NoParams("timeRange", "1h");
    assert "1h" != "custom";
    var w := TimeWindow([], now);
    assert w == Some(Since(now - 3600000));
  }

  /** `parseInt` is called without a radix, so a page written "0x2" is
   *  page 2 and skips the first fifty records. */
  lemma HexPageReadsAsBaseSixteen(now: int, total: nat)
    ensures var r := Search([("page", "0x2")], now, total);
      r.pagination.page == Some(2) && r.pagination.limit == Some(50) && r.find.skip == Some(50)
  {
    HexPageParams();
  }

  lemma HexPageParams()
    ensures Text.ParseInt(Param([("page", "0x2")], "page", "1")) == Some(2)
    ensures Text.ParseInt(Param([("page", "0x2")], "limit", "50")) == Some(50)
  {
    var ps: Params := [("page", "0x2")];
    assert Param(ps, "page", "1") == "0x" + "2" by { assert JsObject.Get(ps, "page") == Some("0x2"); }
    assert Param(ps, "limit", "50") == "50" by { assert JsObject.Get(ps, "limit") == None; }
    HexTwo();
    ParseFifty();
  }

  lemma HexTwo()
    ensures Text.ParseInt("0x" + "2") == Some(2)
  {
    Text.ParseIntHex("2");
    assert Text.HexValue("2") == 2 by { assert "2"[..0] == []; }
  }

  lemma ParseOne()
    ensures Text.ParseInt("1") == Some(1)
  {
    Text.ParseIntDigits("1");
    assert "1"[..0] == [];
  }

  lemma ParseFifty()
    ensures Text.ParseInt("50") == Some(50)
  {
    assert Text.NatToString(5) == "5";
    assert Text.IntToString(50) == "50";
    Text.ParseIntRoundTrip(50);
  }
}
