/** `s.replace(/^(https?:\/\/)?(www\.)?/, '').split('/')[0]`: the host part of
 *  a website, as the job card and the Hunter route both compute it. The
 *  pattern is case-sensitive and anchored at the start. */
module Domains {
  import opened Text

  /** Drops a leading "https://" or "http://". */
  function StripScheme(s: string): (r: string)
    ensures "https://" <= s ==> r == s[8..]
    ensures "http://" <= s && !("https://" <= s) ==> r == s[7..]
    ensures !("https://" <= s) && !("http://" <= s) ==> r == s
  {
    if "https://" <= s then s[8..] else if "http://" <= s then s[7..] else s
  }

  /** Drops a leading "www.". */
  function StripWww(s: string): (r: string)
    ensures "www." <= s ==> r == s[4..]
    ensures !("www." <= s) ==> r == s
  {
    if "www." <= s then s[4..] else s
  }

  /** `s.split('/')[0]`: everything before the first '/'. */
  function BeforeSlash(s: string): (r: string)
    ensures r <= s && '/' !in r
    ensures |r| < |s| ==> s[|r|] == '/'
    ensures '/' !in s ==> r == s
  {
    var i := IndexOf(s, '/');
    if i < 0 then s else s[..i]
  }

  function CleanDomain(s: string): (r: string)
    ensures '/' !in r
  {
    BeforeSlash(StripWww(StripScheme(s)))
  }

  /** A host without "www." or path; having no '/', it has no scheme
   *  either, whatever letter it starts with. */
  predicate Bare(h: string)
  {
    '/' !in h && |h| > 0 && !("www." <= h)
  }

  /** A bare host is its own clean form. */
  lemma CleanBareHost(h: string)
    requires Bare(h)
    ensures CleanDomain(h) == h
  {
    SchemeHasSlash(h);
  }

  /** Both schemes contain a '/', so a string without one has neither. */
  lemma SchemeHasSlash(h: string)
    ensures "http://" <= h ==> |h| > 5 && h[5] == '/'
    ensures "https://" <= h ==> |h| > 6 && h[6] == '/'
  {
  }

  /** A full "https://www." URL cleans to its host. */
  lemma CleanFullUrl(h: string, path: string)
    requires Bare(h)
    ensures CleanDomain("https://" + ("www." + (h + "/" + path))) == h
  {
    var rest := h + "/" + path;
    var t := "www." + rest;
    var s := "https://" + t;
    assert "https://" <= s && s[8..] == t;
    assert "www." <= t && t[4..] == rest;
    Text.IndexOfAfter(h, '/', path);
    assert h + "/" + path == h + ['/'] + path;
  }

  /** Cleaning strips only one "www.", so cleaning a cleaned host can change
   *  it again. */
  lemma CleanStripsOneWww(h: string)
    requires Bare(h)
    ensures CleanDomain("www." + h) == h
    ensures CleanDomain("www.www." + h) == "www." + h
    ensures CleanDomain(CleanDomain("www.www." + h)) != CleanDomain("www.www." + h)
  {
    var s1 := "www." + h;
    var s2 := "www.www." + h;
    assert s1[0] == 'w' && s2[0] == 'w';
    assert "www." <= s1 && s1[4..] == h;
    assert "www." <= s2 && s2[4..] == s1;
    assert '/' !in s1 by {
      assert forall k :: 0 <= k < |s1| ==> s1[k] == (if k < 4 then "www."[k] else h[k - 4]);
    }
    assert |s1| != |h|;
  }
}
