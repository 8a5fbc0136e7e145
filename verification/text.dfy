/** String helpers with the JavaScript meaning the application relies on.
 *  Case mapping covers ASCII letters only; whitespace is the ASCII set plus
 *  the no-break space, the byte-order mark and the two Unicode line
 *  separators. */
module Text {
  import opened Wrappers

  /** `toLowerCase` on one character. */
  function LowerChar(c: char): char
  {
    if 'A' <= c <= 'Z' then (c as int + 32) as char else c
  }

  /** `toUpperCase` on one character. */
  function UpperChar(c: char): char
  {
    if 'a' <= c <= 'z' then (c as int - 32) as char else c
  }

  function Lower(s: string): (r: string)
    ensures |r| == |s|
    ensures forall i :: 0 <= i < |s| ==> r[i] == LowerChar(s[i])
  {
    seq(|s|, i requires 0 <= i < |s| => LowerChar(s[i]))
  }

  function Upper(s: string): (r: string)
    ensures |r| == |s|
    ensures forall i :: 0 <= i < |s| ==> r[i] == UpperChar(s[i])
  {
    seq(|s|, i requires 0 <= i < |s| => UpperChar(s[i]))
  }

  lemma LowerIdempotent(s: string)
    ensures Lower(Lower(s)) == Lower(s)
  {
  }

  lemma LowerConcat(a: string, b: string)
    ensures Lower(a + b) == Lower(a) + Lower(b)
  {
  }

  /** The whitespace that `trim` and the regular-expression class `\s` match. */
  predicate IsSpace(c: char)
  {
    c == ' ' || 9 <= c as int <= 13 || c as int == 0xA0 || c as int == 0xFEFF
    || c as int == 0x2028 || c as int == 0x2029
  }

  predicate NoSpace(s: string)
  {
    forall i :: 0 <= i < |s| ==> !IsSpace(s[i])
  }

  function TrimStart(s: string): (r: string)
    ensures |r| <= |s|
    ensures r == s[|s| - |r|..]
    ensures |r| > 0 ==> !IsSpace(r[0])
    ensures forall i :: 0 <= i < |s| - |r| ==> IsSpace(s[i])
  {
    if |s| > 0 && IsSpace(s[0]) then TrimStart(s[1..]) else s
  }

  function TrimEnd(s: string): (r: string)
    ensures |r| <= |s|
    ensures r == s[..|r|]
    ensures |r| > 0 ==> !IsSpace(r[|r| - 1])
    ensures forall i :: |r| <= i < |s| ==> IsSpace(s[i])
  {
    if |s| > 0 && IsSpace(s[|s| - 1]) then TrimEnd(s[..|s| - 1]) else s
  }

  /** `String.prototype.trim`. */
  function Trim(s: string): (r: string)
    ensures |r| <= |s|
    ensures |r| > 0 ==> !IsSpace(r[0]) && !IsSpace(r[|r| - 1])
  {
    TrimEnd(TrimStart(s))
  }

  /** A string is blank when `trim` leaves nothing of it. */
  lemma TrimEmptyIffBlank(s: string)
    ensures Trim(s) == [] <==> forall i :: 0 <= i < |s| ==> IsSpace(s[i])
  {
    var t := TrimStart(s);
    if |t| > 0 {
      assert t[0] == s[|s| - |t|];
    }
  }

  /** `s.endsWith(suffix)`. */
  predicate EndsWith(s: string, suffix: string)
  {
    |suffix| <= |s| && s[|s| - |suffix|..] == suffix
  }

  /** `s.includes(sub)`: `sub` occurs in `s` at some position. */
  predicate Contains(s: string, sub: string)
  {
    sub <= s || (|s| > 0 && Contains(s[1..], sub))
  }

  lemma ContainsEmpty(s: string)
    ensures Contains(s, [])
  {
  }

  /** `Contains` agrees with the positional reading of `includes`. */
  lemma {:induction false} ContainsAt(s: string, sub: string, k: nat)
    requires k + |sub| <= |s| && s[k..k + |sub|] == sub
    ensures Contains(s, sub)
  {
    if k > 0 {
      assert s[1..][k - 1..k - 1 + |sub|] == sub;
      ContainsAt(s[1..], sub, k - 1);
    } else {
      assert sub <= s;
    }
  }

  /** The first position of `x` in `xs`, or -1 (`indexOf`). */
  function IndexOf<T(==)>(xs: seq<T>, x: T): (i: int)
    ensures -1 <= i < |xs|
    ensures i == -1 <==> x !in xs
    ensures 0 <= i ==> xs[i] == x && x !in xs[..i]
  {
    if |xs| == 0 then -1
    else if xs[0] == x then 0
    else
      var j := IndexOf(xs[1..], x);
      assert xs[1..][..if j < 0 then 0 else j] == xs[1..1 + (if j < 0 then 0 else j)];
      if j == -1 then -1 else j + 1
  }

  /** `indexOf` finds the first occurrence, so no later than any other. */
  lemma {:induction false} IndexOfAtMost<T>(xs: seq<T>, x: T, j: nat)
    requires j < |xs| && xs[j] == x
    ensures 0 <= IndexOf(xs, x) <= j
  {
    if xs[0] != x {
      IndexOfAtMost(xs[1..], x, j - 1);
    }
  }

  /** `s.replace(from, to)` with a one-character string pattern: only the
   *  first occurrence is replaced. */
  function ReplaceFirst(s: string, from: char, to: char): (r: string)
    ensures |r| == |s|
    ensures from !in s ==> r == s
    ensures from in s ==> r == s[..IndexOf(s, from)] + [to] + s[IndexOf(s, from) + 1..]
  {
    if |s| == 0 then s
    else if s[0] == from then [to] + s[1..]
    else [s[0]] + ReplaceFirst(s[1..], from, to)
  }

  /** Replacing the first `from` in a text where it follows a stretch free
   *  of it. */
  lemma ReplaceFirstAfter(pre: string, post: string, from: char, to: char)
    requires from !in pre
    ensures ReplaceFirst(pre + [from] + post, from, to) == pre + [to] + post
  {
    var s := pre + [from] + post;
    IndexOfAfter(pre, from, post);
    assert s[..|pre|] == pre && s[|pre| + 1..] == post;
  }

  /** The text before the first `x` lacks whatever the whole text lacks. */
  lemma NotBeforeIndexOf(s: string, x: char, y: char)
    requires y !in s && x in s
    ensures y !in s[..IndexOf(s, x)]
  {
    var i := IndexOf(s, x);
    forall k | 0 <= k < i
      ensures s[..i][k] != y
    {
      assert s[..i][k] == s[k];
    }
  }

  /** The text around the first `from`, before and after replacing it. */
  lemma ReplaceFirstAt(s: string, from: char, to: char)
    requires from in s
    ensures var i := IndexOf(s, from);
      ReplaceFirst(s, from, to) == s[..i] + [to] + s[i + 1..] && s == s[..i] + [from] + s[i + 1..]
  {
  }

  /** `s.split(sep)` with a one-character separator: always at least one part. */
  function Split(s: string, sep: char): (parts: seq<string>)
    ensures |parts| >= 1
    ensures forall k :: 0 <= k < |parts| ==> sep !in parts[k]
    decreases |s|
  {
    var i := IndexOf(s, sep);
    if i < 0 then [s] else [s[..i]] + Split(s[i + 1..], sep)
  }

  /** `parts.join(sep)`. */
  function Join(parts: seq<string>, sep: char): string
  {
    if |parts| == 0 then []
    else if |parts| == 1 then parts[0]
    else parts[0] + [sep] + Join(parts[1..], sep)
  }

  /** Splitting loses nothing: joining the parts with the separator gives the
   *  text back. */
  lemma {:induction false} JoinSplit(s: string, sep: char)
    ensures Join(Split(s, sep), sep) == s
    decreases |s|
  {
    var i := IndexOf(s, sep);
    if i >= 0 {
      var rest := s[i + 1..];
      var tail := Split(rest, sep);
      JoinSplit(rest, sep);
      SplitUnfold(s, sep);
      JoinCons(s[..i], tail, sep);
      Around(s, i);
    }
  }

  lemma SplitUnfold(s: string, sep: char)
    requires IndexOf(s, sep) >= 0
    ensures var i := IndexOf(s, sep); Split(s, sep) == [s[..i]] + Split(s[i + 1..], sep)
  {
  }

  lemma JoinCons(p: string, tail: seq<string>, sep: char)
    requires |tail| >= 1
    ensures Join([p] + tail, sep) == p + [sep] + Join(tail, sep)
  {
    assert ([p] + tail)[1..] == tail;
  }

  /** A sequence is the part before position `i`, the element there, and
   *  the part after. */
  lemma Around<T>(s: seq<T>, i: int)
    requires 0 <= i < |s|
    ensures s == s[..i] + [s[i]] + s[i + 1..]
  {
  }

  /** `indexOf` of a character that first occurs right after `a`. */
  lemma IndexOfAfter(a: string, x: char, b: string)
    requires x !in a
    ensures IndexOf(a + [x] + b, x) == |a|
  {
    var s := a + [x] + b;
    assert s[|a|] == x;
  }

  /** Splitting undoes joining when no part holds the separator. */
  lemma {:induction false} SplitJoin(ws: seq<string>, sep: char)
    requires |ws| >= 1 && forall k :: 0 <= k < |ws| ==> sep !in ws[k]
    ensures Split(Join(ws, sep), sep) == ws
  {
    if |ws| > 1 {
      var rest := Join(ws[1..], sep);
      var s := ws[0] + [sep] + rest;
      IndexOfAfter(ws[0], sep, rest);
      assert s[..|ws[0]|] == ws[0] && s[|ws[0]| + 1..] == rest;
      SplitJoin(ws[1..], sep);
    }
  }

  function Last<T>(xs: seq<T>): T
    requires |xs| > 0
  {
    xs[|xs| - 1]
  }

  /** The last part of a split is the text after the last separator:
   *  `s.split(sep).pop()`. */
  lemma {:induction false} SplitLastSuffix(s: string, sep: char)
    ensures EndsWith(s, Last(Split(s, sep)))
    ensures sep !in Last(Split(s, sep))
    decreases |s|
  {
    var i := IndexOf(s, sep);
    if i >= 0 {
      var rest := s[i + 1..];
      SplitUnfold(s, sep);
      SplitLastSuffix(rest, sep);
      LastAfterFirst(s[..i], Split(rest, sep));
      EndsWithTail(s, i + 1, Last(Split(rest, sep)));
    }
  }

  lemma LastAfterFirst<T>(x: T, xs: seq<T>)
    requires |xs| > 0
    ensures Last([x] + xs) == Last(xs)
  {
  }

  /** A suffix of a tail is a suffix of the whole. */
  lemma EndsWithTail(s: string, j: int, suffix: string)
    requires 0 <= j <= |s| && EndsWith(s[j..], suffix)
    ensures EndsWith(s, suffix)
  {
    assert s[|s| - |suffix|..] == s[j..][|s[j..]| - |suffix|..];
  }

  predicate IsDigit(c: char)
  {
    '0' <= c <= '9'
  }

  /** The decimal form of a natural number, as template literals print it. */
  function NatToString(n: nat): (r: string)
    ensures |r| >= 1
    ensures forall i :: 0 <= i < |r| ==> IsDigit(r[i])
  {
    var d := ['0' + (n % 10) as char];
    if n < 10 then d else NatToString(n / 10) + d
  }

  /** The decimal form of an integer, with a leading '-' when negative. */
  function IntToString(n: int): string
  {
    if n < 0 then "-" + NatToString(-n) else NatToString(n)
  }

  /** `s.charAt(0).toUpperCase() + s.slice(1)`. */
  function Capitalize(s: string): (r: string)
    ensures |r| == |s|
    ensures |s| > 0 ==> r[0] == UpperChar(s[0]) && r[1..] == s[1..]
  {
    if |s| == 0 then s else [UpperChar(s[0])] + s[1..]
  }

  function DigitValue(c: char): nat
    requires IsDigit(c)
  {
    c as int - '0' as int
  }

  predicate AllDigits(s: string)
  {
    forall i :: 0 <= i < |s| ==> IsDigit(s[i])
  }

  /** The number a run of decimal digits denotes. */
  function DigitsValue(s: string): nat
    requires AllDigits(s)
  {
    if |s| == 0 then 0 else DigitsValue(s[..|s| - 1]) * 10 + DigitValue(s[|s| - 1])
  }

  /** The longest run of digits at the start of `s`. */
  function LeadingDigits(s: string): (r: string)
    ensures r <= s && AllDigits(r)
    ensures |r| < |s| ==> !IsDigit(s[|r|])
  {
    if |s| > 0 && IsDigit(s[0]) then [s[0]] + LeadingDigits(s[1..]) else []
  }

  predicate IsHexDigit(c: char)
  {
    IsDigit(c) || 'a' <= c <= 'f' || 'A' <= c <= 'F'
  }

  function HexDigitValue(c: char): (v: nat)
    requires IsHexDigit(c)
    ensures v < 16
    ensures IsDigit(c) ==> v == DigitValue(c)
  {
    if IsDigit(c) then DigitValue(c)
    else if 'a' <= c <= 'f' then c as int - 'a' as int + 10
    else c as int - 'A' as int + 10
  }

  predicate AllHex(s: string)
  {
    forall i :: 0 <= i < |s| ==> IsHexDigit(s[i])
  }

  /** The number a run of hexadecimal digits denotes. */
  function HexValue(s: string): nat
    requires AllHex(s)
  {
    if |s| == 0 then 0 else HexValue(s[..|s| - 1]) * 16 + HexDigitValue(s[|s| - 1])
  }

  /** The longest run of hexadecimal digits at the start of `s`. */
  function LeadingHexDigits(s: string): (r: string)
    ensures r <= s && AllHex(r)
    ensures |r| < |s| ==> !IsHexDigit(s[|r|])
  {
    if |s| > 0 && IsHexDigit(s[0]) then [s[0]] + LeadingHexDigits(s[1..]) else []
  }

  /** `parseInt` without a radix reads "0x" or "0X" as a switch to base 16. */
  predicate HexPrefixed(body: string)
  {
    |body| >= 2 && body[0] == '0' && (body[1] == 'x' || body[1] == 'X')
  }

  /** The number at the start of `body`: after a "0x" or "0X", the
   *  hexadecimal digits that follow, otherwise the decimal digits; `None`
   *  when there are none. */
  function ParseUnsigned(body: string): (r: Option<nat>)
    ensures r.Some? <==>
      if HexPrefixed(body) then |body| > 2 && IsHexDigit(body[2]) else |body| > 0 && IsDigit(body[0])
  {
    if HexPrefixed(body) then
      var hs := LeadingHexDigits(body[2..]);
      if |hs| == 0 then None else Some(HexValue(hs))
    else
      var ds := LeadingDigits(body);
      if |ds| == 0 then None else Some(DigitsValue(ds))
  }

  /** What follows the leading whitespace: an optional sign, then the
   *  number. */
  function ParseSigned(t: string): (r: Option<int>)
    ensures r.Some? ==> exists k :: 0 <= k < |t| && IsDigit(t[k])
  {
    if |t| > 0 && (t[0] == '-' || t[0] == '+') then
      match ParseUnsigned(t[1..])
      case None => None
      case Some(v) => assert IsDigit(t[1]); Some(if t[0] == '-' then -(v as int) else v)
    else
      match ParseUnsigned(t)
      case None => None
      case Some(v) => assert IsDigit(t[0]); Some(v)
  }

  /** `parseInt(s)` with no radix argument: leading whitespace, an optional
   *  sign, then either "0x" or "0X" and as many hexadecimal digits as follow,
   *  or as many decimal digits as follow; `None` stands for `NaN`. */
  function ParseInt(s: string): (r: Option<int>)
  {
    ParseSigned(TrimStart(s))
  }

  /** "0x" followed by hexadecimal digits reads in base 16, so "0x10" is
   *  sixteen, not zero; "0x" alone is `NaN`. */
  lemma {:induction false} ParseIntHex(h: string)
    requires |h| > 0 && AllHex(h)
    ensures ParseInt("0x" + h) == Some(HexValue(h) as int)
    ensures ParseInt("0x") == None
  {
    var s := "0x" + h;
    TrimStartUnspaced(s);
    assert HexPrefixed(s) && s[2..] == h;
    LeadingHexAll(h);
    TrimStartUnspaced("0x");
    assert HexPrefixed("0x");
  }

  lemma {:induction false} LeadingHexAll(s: string)
    requires AllHex(s)
    ensures LeadingHexDigits(s) == s
  {
    if |s| > 0 {
      LeadingHexAll(s[1..]);
      assert s == [s[0]] + s[1..];
    }
  }

  lemma {:induction false} NatToStringValue(n: nat)
    ensures DigitsValue(NatToString(n)) == n
  {
    var d := ['0' + (n % 10) as char];
    if n >= 10 {
      NatToStringValue(n / 10);
      var s := NatToString(n / 10) + d;
      assert s[..|s| - 1] == NatToString(n / 10);
    }
  }

  lemma {:induction false} TrimStartUnspaced(s: string)
    requires |s| > 0 && !IsSpace(s[0])
    ensures TrimStart(s) == s
  {
  }

  lemma {:induction false} ParseUnsignedDigits(d: string)
    requires |d| > 0 && AllDigits(d)
    ensures ParseUnsigned(d) == Some(DigitsValue(d))
  {
    LeadingDigitsAll(d);
  }

  /** A non-empty run of digits parses as its decimal value. */
  lemma {:induction false} ParseIntDigits(s: string)
    requires |s| > 0 && AllDigits(s)
    ensures ParseInt(s) == Some(DigitsValue(s) as int)
  {
    assert IsDigit(s[0]);
    TrimStartUnspaced(s);
    ParseUnsignedDigits(s);
    assert ParseSigned(s) == Some(DigitsValue(s) as int);
  }

  /** A minus sign before digits that read as `v` gives `-v`. */
  lemma {:induction false} ParseIntNegative(d: string, v: nat)
    requires ParseUnsigned(d) == Some(v)
    ensures ParseInt("-" + d) == Some(-(v as int))
  {
    var s := "-" + d;
    TrimStartUnspaced(s);
    assert s[0] == '-' && s[1..] == d;
  }

  lemma {:induction false} ParseNatString(n: int)
    requires n >= 0
    ensures ParseInt(IntToString(n)) == Some(n)
  {
    var d := NatToString(n);
    assert IntToString(n) == d;
    ParseIntDigits(d);
    NatToStringValue(n);
  }

  lemma {:induction false} ParseNegativeString(n: int)
    requires n < 0
    ensures ParseInt(IntToString(n)) == Some(n)
  {
    var d := NatToString(-n);
    assert IntToString(n) == "-" + d;
    ParseUnsignedDigits(d);
    NatToStringValue(-n);
    ParseIntNegative(d, -n);
  }

  lemma {:induction false} ParseIntRoundTrip(n: int)
    ensures ParseInt(IntToString(n)) == Some(n)
  {
    if n >= 0 {
      ParseNatString(n);
    } else {
      ParseNegativeString(n);
    }
  }

  lemma {:induction false} LeadingDigitsAll(s: string)
    requires AllDigits(s)
    ensures LeadingDigits(s) == s
  {
    if |s| > 0 {
      LeadingDigitsAll(s[1..]);
    }
  }
}
