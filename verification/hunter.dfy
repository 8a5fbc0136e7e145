/** The e-mail finder endpoint (src/app/api/hunter/route.ts): its domain
 *  check, the argument checks of the search helper and the order of the
 *  endpoint's answers. The database connection, authentication and the
 *  finder service itself are inputs. */
module Hunter {
  import opened Wrappers
  import opened Text
  import Domains

  /** The departments the finder service knows. */
  const Departments: seq<string> := ["executive", "it", "finance", "management", "sales", "legal",
    "support", "hr", "marketing", "communication", "education", "design", "health", "operations"]

  predicate IsLetter(c: char) { 'a' <= c <= 'z' || 'A' <= c <= 'Z' }

  predicate IsAlnum(c: char) { IsLetter(c) || IsDigit(c) }

  /** `[a-zA-Z0-9][a-zA-Z0-9-]{1,61}[a-zA-Z0-9]`: a host label of 3 to 63
   *  characters, letters, digits and '-', not starting or ending with '-'. */
  predicate ValidLabel(l: string)
  {
    3 <= |l| <= 63 && IsAlnum(l[0]) && IsAlnum(l[|l| - 1])
    && forall k :: 0 <= k < |l| ==> IsAlnum(l[k]) || l[k] == '-'
  }

  /** `[a-zA-Z]{2,}`: at least two letters. */
  predicate ValidTld(t: string)
  {
    |t| >= 2 && forall k :: 0 <= k < |t| ==> IsLetter(t[k])
  }

  /** The host splits at position `i` into a label, a '.', and a top-level
   *  part. */
  predicate SplitsAt(s: string, i: int)
  {
    0 <= i < |s| && s[i] == '.' && ValidLabel(s[..i]) && ValidTld(s[i + 1..])
  }

  /** The regular expression read literally: some '.' splits the host into
   *  a label and a top-level part. */
  ghost predicate MatchesPattern(s: string)
  {
    exists i :: SplitsAt(s, i)
  }

  /** `domainPattern.test(s)`, deciding at the first '.'. */
  predicate DomainPattern(s: string)
  {
    SplitsAt(s, IndexOf(s, '.'))
  }

  /** Deciding at the first '.' is the same as the regular expression, since
   *  a label holds no '.'. */
  lemma DomainPatternIsRegex(s: string)
    ensures DomainPattern(s) <==> MatchesPattern(s)
  {
    if MatchesPattern(s) {
      var j :| SplitsAt(s, j);
      IndexOfAtMost(s, '.', j);
      assert forall k :: 0 <= k < j ==> s[..j][k] != '.';
    }
  }

  /** A host with a second '.' never passes: the top-level part is letters
   *  only. */
  lemma TwoDotsRejected(s: string, a: nat, b: nat)
    requires a < b < |s| && s[a] == '.' && s[b] == '.'
    ensures !DomainPattern(s)
  {
    var i := IndexOf(s, '.');
    IndexOfAtMost(s, '.', a);
    assert s[i + 1..][b - i - 1] == '.';
  }

  /** `isValidDomain`: the pattern, matched against the cleaned host. */
  predicate IsValidDomain(domain: string)
  {
    DomainPattern(Domains.CleanDomain(domain))
  }

  /** `hunterDomainSearch`'s argument checks, departments first. */
  function CheckSearchArguments(amount: int, departments: seq<string>): (r: Result<(), string>)
    ensures r == Err("Invalid department") <==> exists d :: d in departments && d !in Departments
    ensures r == Err("Invalid amount") <==>
      (forall d :: d in departments ==> d in Departments) && (amount < 1 || amount > 30)
    ensures r.Ok? <==> (forall d :: d in departments ==> d in Departments) && 1 <= amount <= 30
  {
    if |departments| > 0 && !(forall d :: d in departments ==> d in Departments) then Err("Invalid department")
    else if amount < 1 || amount > 30 then Err("Invalid amount")
    else Ok(())
  }

  /** The endpoint calls the helper with its defaults (5 results, every
   *  department), which always pass. */
  lemma DefaultArgumentsPass()
    ensures CheckSearchArguments(5, []).Ok?
  {
  }

  /** The answer's status, with the host searched for when the search was
   *  started. */
  datatype Answer = Answer(status: int, message: string, searched: Option<string>)

  /** `GET /api/hunter?domain=…`. `connected` says whether the database
   *  connection succeeded, `searchOk` whether the finder service answered. */
  function Get(connected: bool, userId: Option<string>, domain: Option<string>, searchOk: bool): (r: Answer)
    ensures !connected ==> r.status == 500 && r.searched.None?
    ensures connected && (userId.None? || userId.value == []) ==> r == Answer(401, "Unauthorized", None)
    ensures r.status == 200 ==> r.searched.Some? && IsValidDomain(r.searched.value)
  {
    if !connected then Answer(500, "Error processing request", None)
    else if userId.None? || userId.value == [] then Answer(401, "Unauthorized", None)
    else if domain.None? || domain.value == [] then Answer(400, "Domain parameter is required", None)
    else Search(domain.value, searchOk)
  }

  /** The part after the parameter checks: the host is cleaned, checked, and
   *  searched for. */
  function Search(domain: string, searchOk: bool): (r: Answer)
    ensures r.searched.Some? ==> r.searched.value == Domains.CleanDomain(domain)
    ensures r.status == 200 ==> r.searched.Some? && IsValidDomain(r.searched.value)
  {
    var host := Domains.CleanDomain(domain);
    if !IsValidDomain(host) then Answer(400, "Invalid domain format", None)
    else if !searchOk then Answer(500, "Error processing request", Some(host))
    else Answer(200, "", Some(host))
  }

  /** The checks come in order: 401 before any domain check, a missing
   *  domain before its format, and only a well-formed host is searched. */
  lemma GetCheckOrder(userId: string, domain: Option<string>, searchOk: bool)
    requires userId != []
    ensures domain.None? || domain.value == [] ==>
      Get(true, Some(userId), domain, searchOk) == Answer(400, "Domain parameter is required", None)
    ensures domain.Some? && domain.value != [] ==>
      (Get(true, Some(userId), domain, searchOk).searched.Some? <==>
        IsValidDomain(Domains.CleanDomain(domain.value)))
  {
  }

  /** The endpoint cleans the host and then the check cleans it again, so a
   *  doubled "www." slips through: the search runs on a host that the check
   *  itself would refuse. */
  lemma DoubleWwwSearchesInvalidHost(h: string)
    requires Domains.Bare(h) && DomainPattern(h)
    ensures var r := Get(true, Some("u"), Some("www.www." + h), true);
      r.status == 200 && r.searched == Some("www." + h) && !DomainPattern("www." + h)
  {
    Domains.CleanStripsOneWww(h);
    assert IsValidDomain("www." + h) by {
      assert Domains.CleanDomain("www." + h) == h;
    }
    CleanedHostSearched("u", "www.www." + h);
    WwwHostRejected(h);
  }

  /** A request whose cleaned host passes the check is searched for that
   *  cleaned host. */
  lemma CleanedHostSearched(userId: string, domain: string)
    requires userId != [] && domain != [] && IsValidDomain(Domains.CleanDomain(domain))
    ensures Get(true, Some(userId), Some(domain), true) == Answer(200, "", Some(Domains.CleanDomain(domain)))
  {
    assert Get(true, Some(userId), Some(domain), true) == Search(domain, true);
  }

  lemma WwwHostRejected(h: string)
    requires DomainPattern(h)
    ensures !DomainPattern("www." + h)
  {
    var i := IndexOf(h, '.');
    var s := "www." + h;
    assert s[3] == '.' && s[i + 4] == h[i];
    TwoDotsRejected(s, 3, i + 4);
  }
}
