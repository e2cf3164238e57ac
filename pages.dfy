/** `Url.change_page` (scraper/utils.py): the URL of page n of a listing.

    The source rewrites the URL with two regular expressions.  When the URL
    already holds a page marker `_P<digits>.htm` it substitutes
    `(?:_P\d+)*.htm`; otherwise it substitutes `.htm`.  In both patterns the dot
    is unescaped, so it stands for any character but a newline.  Every match is
    replaced by `_P{page}.htm`, and an unchanged URL fails the `assert`.

    The matcher below follows the backtracking order of Python's `re`: the
    repetition tries one more `_P\d+` group first, each group tries its longest
    digit run first and backs off one digit at a time, and only then does the
    repetition stop and `.htm` get matched.  `re.sub` scans left to right and
    resumes after each match; a match is never empty.
 */
module Pages {
  import opened Wrappers
  import opened Text

  /** The length of the run of decimal digits starting at j. */
  function DigitRun(s: string, j: nat): (n: nat)
    requires j <= |s|
    ensures j + n <= |s|
    ensures forall k :: j <= k < j + n ==> IsDigit(s[k])
    ensures j + n == |s| || !IsDigit(s[j + n])
    decreases |s| - j
  {
    if j < |s| && IsDigit(s[j]) then 1 + DigitRun(s, j + 1) else 0
  }

  /** `.htm` with an unescaped dot: any character but a newline, then `htm`. */
  predicate AnyHtmAt(s: string, i: nat) {
    i + 4 <= |s| && s[i] != '\n' && s[i + 1] == 'h' && s[i + 2] == 't' && s[i + 3] == 'm'
  }

  /** The end of a `.htm` match at i. */
  function Tail(s: string, i: nat): (r: Option<nat>)
    ensures r.Some? <==> AnyHtmAt(s, i)
    ensures r.Some? ==> r.value == i + 4
  {
    if AnyHtmAt(s, i) then Some(i + 4) else None
  }

  /** The end of a `(?:_P\d+)*.htm` match at i: one more group, if there is one,
      with its digit run backed off from the longest; else `.htm` at i. */
  function Groups(s: string, i: nat): (r: Option<nat>)
    requires i <= |s|
    ensures r.Some? ==> i + 4 <= r.value <= |s| && AnyHtmAt(s, r.value - 4)
    decreases |s| - i, 1, 0
  {
    if OccursAt(s, "_P", i) && DigitRun(s, i + 2) > 0 then Backoff(s, i, DigitRun(s, i + 2))
    else Tail(s, i)
  }

  /** The group at i taking k digits, then k - 1, ..., then no group at all. */
  function Backoff(s: string, i: nat, k: nat): (r: Option<nat>)
    requires OccursAt(s, "_P", i) && k <= DigitRun(s, i + 2)
    ensures r.Some? ==> i + 4 <= r.value <= |s| && AnyHtmAt(s, r.value - 4)
    decreases |s| - i, 0, k
  {
    if k == 0 then Tail(s, i)
    else
      match Groups(s, i + 2 + k)
      case Some(e) => Some(e)
      case None => Backoff(s, i, k - 1)
  }

  /** `_P\d+\.htm` at i. */
  predicate PageMarkerAt(s: string, i: nat) {
    OccursAt(s, "_P", i) && DigitRun(s, i + 2) > 0 && OccursAt(s, ".htm", i + 2 + DigitRun(s, i + 2))
  }

  /** `re.search(r"_P\d+\.htm", url)`. */
  predicate HasPageMarker(s: string) {
    exists i :: 0 <= i < |s| && PageMarkerAt(s, i)
  }

  /** The match of the chosen pattern at i. */
  function MatchAt(s: string, i: nat, groups: bool): (r: Option<nat>)
    requires i <= |s|
    ensures r.Some? ==> i + 4 <= r.value <= |s| && AnyHtmAt(s, r.value - 4)
  {
    if groups then Groups(s, i) else Tail(s, i)
  }

  /** `re.sub(pattern, rep, s[i:])`. */
  function Sub(s: string, i: nat, groups: bool, rep: string): string
    requires i <= |s|
    decreases |s| - i
  {
    if i == |s| then []
    else
      match MatchAt(s, i, groups)
      case Some(e) => rep + Sub(s, e, groups, rep)
      case None => [s[i]] + Sub(s, i + 1, groups, rep)
  }

  /** f"_P{page}.htm" */
  function PageSuffix(page: int): string {
    "_P" + IntToString(page) + ".htm"
  }

  /** `Url.change_page(url, page)`. */
  function ChangePage(url: string, page: int): Result<string> {
    var rep := PageSuffix(page);
    // with a marker the repeated-group pattern, else the plain `.htm` one
    var paged := Sub(url, 0, HasPageMarker(url), rep);
    if paged == url then Raise(AssertionError) else Ok(paged)
  }

  // ---------------------------------------------------------------------------
  // How the substitution walks the URL
  // ---------------------------------------------------------------------------

  /** Text without a match is copied. */
  lemma {:induction false} SubSkip(s: string, i: nat, j: nat, groups: bool, rep: string)
    requires i <= j <= |s|
    requires forall k :: i <= k < j ==> MatchAt(s, k, groups).None?
    ensures Sub(s, i, groups, rep) == s[i..j] + Sub(s, j, groups, rep)
    decreases j - i
  {
    if i < j {
      SubSkip(s, i + 1, j, groups, rep);
      assert [s[i]] + s[i + 1..j] == s[i..j];
    }
  }

  /** Without `htm` after position i, nothing from i on is replaced. */
  lemma SubNoHtm(s: string, i: nat, groups: bool, rep: string)
    requires i <= |s| && forall k :: i <= k < |s| ==> !AnyHtmAt(s, k)
    ensures Sub(s, i, groups, rep) == s[i..]
  {
    SubSkip(s, i, |s|, groups, rep);
  }

  lemma NotInLeft(a: string, b: string, t: string, k: nat)
    requires !Contains(a, t) && k + |t| <= |a|
    ensures !OccursAt(a + b, t, k)
  {
    assert (a + b)[k..k + |t|] == a[k..k + |t|];
    assert !OccursAt(a, t, k);
  }

  lemma NotInRight(a: string, b: string, t: string, k: nat)
    requires !Contains(b, t) && |a| <= k
    ensures !OccursAt(a + b, t, k)
  {
    if k + |t| <= |a + b| {
      assert (a + b)[k..k + |t|] == b[k - |a|..k - |a| + |t|];
      assert !OccursAt(b, t, k - |a|);
    }
  }

  // ---------------------------------------------------------------------------
  // The two cases of a listing URL `a + ".htm" + q`
  // ---------------------------------------------------------------------------

  /** What a listing URL must avoid for the rewrite to touch only its end:
      no `htm` and no `_P` before the `.htm`, and no `htm` after it. */
  predicate PlainParts(a: string, q: string) {
    !Contains(a, "htm") && !Contains(a, "_P") && !Contains(q, "htm")
  }

  /** A URL without a page marker gets the marker before its `.htm`. */
  lemma ChangeFresh(a: string, q: string, page: int)
    requires PlainParts(a, q)
    ensures ChangePage(a + ".htm" + q, page) == Ok(a + PageSuffix(page) + q)
  {
    var s := a + ".htm" + q;
    var rep := PageSuffix(page);
    FreshNoMarker(a, q);
    FreshSub(a, q, rep);
    assert (a + rep + q)[|a|] == '_' && s[|a|] == '.';
  }

  /** The plain pattern replaces just the `.htm` of such a URL. */
  lemma FreshSub(a: string, q: string, rep: string)
    requires !Contains(a, "htm") && !Contains(q, "htm")
    ensures Sub(a + ".htm" + q, 0, false, rep) == a + rep + q
  {
    var s := a + ".htm" + q;
    forall k | 0 <= k < |a| ensures Tail(s, k).None? {
      FreshNoHtmBefore(a, q, k);
    }
    SubSkip(s, 0, |a|, false, rep);
    assert AnyHtmAt(s, |a|);
    forall k | |a| + 4 <= k < |s| ensures !AnyHtmAt(s, k) {
      NotInRight(a + ".htm", q, "htm", k + 1);
    }
    SubNoHtm(s, |a| + 4, false, rep);
    assert s[..|a|] == a && s[|a| + 4..] == q;
    assert Sub(s, |a|, false, rep) == rep + q;
  }

  lemma FreshNoHtmBefore(a: string, q: string, k: nat)
    requires !Contains(a, "htm") && k < |a|
    ensures !AnyHtmAt(a + ".htm" + q, k)
  {
    var s := a + ".htm" + q;
    if k + 4 <= |a| {
      NotInLeft(a, ".htm" + q, "htm", k + 1);
      assert s == a + (".htm" + q);
    } else if k + 4 <= |s| {
      assert s[k + 1..k + 4][|a| - k - 1] == '.';
    }
  }

  lemma FreshNoMarker(a: string, q: string)
    requires !Contains(a, "_P") && !Contains(q, "htm")
    ensures !HasPageMarker(a + ".htm" + q)
  {
    forall i | 0 <= i < |a + ".htm" + q| ensures !PageMarkerAt(a + ".htm" + q, i) {
      FreshNoMarkerAt(a, q, i);
    }
  }

  lemma FreshNoMarkerAt(a: string, q: string, i: nat)
    requires !Contains(a, "_P") && !Contains(q, "htm")
    ensures !PageMarkerAt(a + ".htm" + q, i)
  {
    var s := a + ".htm" + q;
    if i + 2 <= |a| {
      NotInLeft(a, ".htm" + q, "_P", i);
      assert s == a + (".htm" + q);
    } else if i < |a| + 4 {
      if i + 2 <= |s| {
        var c := s[i..i + 2];
        if i == |a| - 1 {
          assert c[1] == '.';
        } else {
          assert c[0] == s[i];
        }
      }
    } else if OccursAt(s, "_P", i) {
      var m := i + 2 + DigitRun(s, i + 2);
      NotInRight(a + ".htm", q, "htm", m + 1);
      if m + 4 <= |s| {
        assert s[m + 1..m + 4] == s[m..m + 4][1..];
      }
    }
  }

  /** A URL with a page marker gets the new number in its place; asking for the
      page it already shows fails the assertion. */
  lemma ChangeRepage(a: string, d: string, q: string, page: int)
    requires PlainParts(a, q) && |d| > 0 && AllDigits(d)
    ensures ChangePage(a + "_P" + d + ".htm" + q, page) ==
      if d == IntToString(page) then Raise(AssertionError) else Ok(a + PageSuffix(page) + q)
  {
    var s := a + "_P" + d + ".htm" + q;
    var rep := PageSuffix(page);
    MarkerAt(a, d, q);
    RepageSub(a, d, q, rep);
    assert ChangePage(s, page) == if a + rep + q == s then Raise(AssertionError) else Ok(a + rep + q);
    RepageSame(a, d, q, page);
  }

  /** The rewritten URL equals the original exactly when the number is the same. */
  lemma RepageSame(a: string, d: string, q: string, page: int)
    ensures a + PageSuffix(page) + q == a + "_P" + d + ".htm" + q <==> d == IntToString(page)
  {
    var rep := PageSuffix(page);
    if d == IntToString(page) {
      assert rep == "_P" + d + ".htm";
      assert a + rep + q == a + "_P" + d + ".htm" + q;
    } else {
      SuffixDiffers(d, page);
      RepageDiffers(a, "_P" + d + ".htm", rep, q);
      assert a + "_P" + d + ".htm" + q == a + ("_P" + d + ".htm") + q;
    }
  }

  lemma RepageSub(a: string, d: string, q: string, rep: string)
    requires PlainParts(a, q) && |d| > 0 && AllDigits(d)
    ensures Sub(a + "_P" + d + ".htm" + q, 0, true, rep) == a + rep + q
  {
    var s := a + "_P" + d + ".htm" + q;
    var e := |a| + 2 + |d| + 4;
    forall k | 0 <= k < |a| ensures Groups(s, k).None? {
      RepageNothingBefore(a, d, q, k);
    }
    GroupsAtMarker(a, d, q);
    forall k | e <= k < |s| ensures !AnyHtmAt(s, k) {
      NotInRight(a + "_P" + d + ".htm", q, "htm", k + 1);
    }
    SubOneMatch(s, |a|, e, rep);
    assert s[..|a|] == a && s[e..] == q;
  }

  /** With a single match, from i to e, only that match is replaced. */
  lemma SubOneMatch(s: string, i: nat, e: nat, rep: string)
    requires i <= e <= |s|
    requires forall k :: 0 <= k < i ==> Groups(s, k).None?
    requires Groups(s, i) == Some(e)
    requires forall k :: e <= k < |s| ==> !AnyHtmAt(s, k)
    ensures Sub(s, 0, true, rep) == s[..i] + rep + s[e..]
  {
    SubSkip(s, 0, i, true, rep);
    SubNoHtm(s, e, true, rep);
    assert Sub(s, i, true, rep) == rep + Sub(s, e, true, rep);
  }

  lemma RepageDiffers(a: string, x: string, y: string, q: string)
    requires x != y
    ensures a + x + q != a + y + q
  {
    if |x| == |y| {
      var k :| 0 <= k < |x| && x[k] != y[k];
      assert (a + x + q)[|a| + k] == x[k];
      assert (a + y + q)[|a| + k] == y[k];
    }
  }

  /** Different numbers make different markers. */
  lemma SuffixDiffers(d: string, page: int)
    requires d != IntToString(page)
    ensures "_P" + d + ".htm" != PageSuffix(page)
  {
    var t := IntToString(page);
    if |d| == |t| {
      var k :| 0 <= k < |d| && d[k] != t[k];
      assert ("_P" + d + ".htm")[2 + k] == d[k];
      assert PageSuffix(page)[2 + k] == t[k];
    }
  }

  lemma MarkerAt(a: string, d: string, q: string)
    requires |d| > 0 && AllDigits(d)
    ensures HasPageMarker(a + "_P" + d + ".htm" + q)
  {
    var s := a + "_P" + d + ".htm" + q;
    RunAtMarker(a, d, q);
    assert s[|a|..|a| + 2] == "_P";
    assert s[|a| + 2 + |d|..|a| + 2 + |d| + 4] == ".htm";
    assert PageMarkerAt(s, |a|);
  }

  lemma RunAtMarker(a: string, d: string, q: string)
    requires AllDigits(d)
    ensures |a| + 2 <= |a + "_P" + d + ".htm" + q|
    ensures DigitRun(a + "_P" + d + ".htm" + q, |a| + 2) == |d|
  {
    var s := a + "_P" + d + ".htm" + q;
    assert s[|a| + 2 + |d|] == '.';
    assert forall k :: 0 <= k < |d| ==> s[|a| + 2 + k] == d[k];
  }

  /** The repetition at the marker matches the marker and its `.htm`. */
  lemma GroupsAtMarker(a: string, d: string, q: string)
    requires |d| > 0 && AllDigits(d)
    ensures Groups(a + "_P" + d + ".htm" + q, |a|) == Some(|a| + 2 + |d| + 4)
  {
    var s := a + "_P" + d + ".htm" + q;
    var m := |a| + 2 + |d|;
    MarkerShape(a, d, q);
    GroupsAtHtm(s, m);
    GroupThenStop(s, |a|, |d|, m + 4);
  }

  lemma MarkerShape(a: string, d: string, q: string)
    requires AllDigits(d)
    ensures var s := a + "_P" + d + ".htm" + q; var m := |a| + 2 + |d|;
      && OccursAt(s, "_P", |a|) && DigitRun(s, |a| + 2) == |d|
      && m + 4 <= |s| && s[m] == '.' && s[m + 1..m + 4] == "htm"
  {
    var s := a + "_P" + d + ".htm" + q;
    var m := |a| + 2 + |d|;
    RunAtMarker(a, d, q);
    assert s[|a|..|a| + 2] == "_P";
    assert s[m..m + 4] == ".htm";
  }

  /** A group of n digits at i followed by a match ending at e. */
  lemma GroupThenStop(s: string, i: nat, n: nat, e: nat)
    requires OccursAt(s, "_P", i) && n > 0 && DigitRun(s, i + 2) == n
    requires Groups(s, i + 2 + n) == Some(e)
    ensures Groups(s, i) == Some(e)
  {
    assert Backoff(s, i, n) == Some(e);
  }

  /** At a `.htm` the repetition matches no further group. */
  lemma GroupsAtHtm(s: string, i: nat)
    requires i + 4 <= |s| && s[i] == '.' && s[i + 1..i + 4] == "htm"
    ensures Groups(s, i) == Some(i + 4)
  {
    assert s[i..i + 2][0] == '.';
    assert !OccursAt(s, "_P", i);
  }

  lemma RepageNothingBefore(a: string, d: string, q: string, k: nat)
    requires PlainParts(a, q) && k < |a|
    ensures Groups(a + "_P" + d + ".htm" + q, k).None?
  {
    var s := a + "_P" + d + ".htm" + q;
    var rest := "_P" + d + ".htm" + q;
    assert s == a + rest;
    if k + 2 <= |a| {
      NotInLeft(a, rest, "_P", k);
    } else {
      assert s[k..k + 2][1] == '_';
    }
    if k + 4 <= |a| {
      NotInLeft(a, rest, "htm", k + 1);
    } else if k + 4 <= |s| {
      assert s[k + 1..k + 4][|a| - k - 1] == '_';
    }
  }

  // ---------------------------------------------------------------------------
  // The page marker the method is evidently meant to set
  // ---------------------------------------------------------------------------

  /** The length of the run of digits ending the string. */
  function TrailingDigits(s: string): (n: nat)
    ensures n <= |s|
    ensures forall k :: |s| - n <= k < |s| ==> IsDigit(s[k])
    ensures n == |s| || !IsDigit(s[|s| - n - 1])
    decreases |s|
  {
    if |s| > 0 && IsDigit(s[|s| - 1]) then 1 + TrailingDigits(s[..|s| - 1]) else 0
  }

  /** The path with a trailing `_P<digits>` removed. */
  function StripPage(b: string): (r: string)
    ensures r <= b
  {
    var n := TrailingDigits(b);
    if n > 0 && n + 2 <= |b| && b[|b| - n - 2..|b| - n] == "_P" then b[..|b| - n - 2] else b
  }

  /** The position of the first `?`, or the length. */
  function QueryStart(url: string): (i: nat)
    ensures i <= |url|
    ensures forall k :: 0 <= k < i ==> url[k] != '?'
    ensures i < |url| ==> url[i] == '?'
    decreases |url|
  {
    if |url| == 0 then 0
    else if url[0] == '?' then 0
    else 1 + QueryStart(url[1..])
  }

  /** The page number set on the page's own path: the marker goes before the
      `.htm` that ends the path, replacing a marker already there; a path that
      does not end in `.htm` cannot be paged. */
  function ChangePageFixed(url: string, page: int): Result<string> {
    var i := QueryStart(url);
    var path := url[..i];
    if |path| < 4 || path[|path| - 4..] != ".htm" then Raise(AssertionError)
    else
      var paged := StripPage(path[..|path| - 4]) + PageSuffix(page) + url[i..];
      if paged == url then Raise(AssertionError) else Ok(paged)
  }

  /** A query part: empty, or starting at the `?`. */
  predicate IsQuery(q: string) {
    q == [] || q[0] == '?'
  }

  lemma QueryStartAt(a: string, q: string)
    requires NoChar(a, '?') && IsQuery(q)
    ensures QueryStart(a + q) == |a|
    decreases |a|
  {
    if |a| > 0 {
      assert (a + q)[1..] == a[1..] + q;
      QueryStartAt(a[1..], q);
    } else {
      assert a + q == q;
    }
  }

  lemma StripMarker(a: string, d: string)
    requires |d| > 0 && AllDigits(d)
    ensures StripPage(a + "_P" + d) == a
  {
    var b := a + "_P" + d;
    TrailingOf(a + "_P", d);
    assert b[|b| - |d| - 2..|b| - |d|] == "_P";
    assert b[..|b| - |d| - 2] == a;
  }

  lemma {:induction false} TrailingOf(a: string, d: string)
    requires AllDigits(d) && |a| > 0 && !IsDigit(a[|a| - 1])
    ensures TrailingDigits(a + d) == |d|
    decreases |d|
  {
    if |d| > 0 {
      assert (a + d)[..|a + d| - 1] == a + d[..|d| - 1];
      TrailingOf(a, d[..|d| - 1]);
    } else {
      assert a + d == a;
    }
  }

  /** The same URL with the query kept and the marker before `.htm` set. */
  lemma FixedFresh(a: string, q: string, page: int)
    requires NoChar(a, '?') && IsQuery(q) && StripPage(a) == a
    ensures ChangePageFixed(a + ".htm" + q, page) == Ok(a + PageSuffix(page) + q)
  {
    var s := a + ".htm" + q;
    assert s == (a + ".htm") + q;
    QueryStartAt(a + ".htm", q);
    assert s[..|a| + 4] == a + ".htm" && s[|a| + 4..] == q;
    assert (a + ".htm")[..|a|] == a;
    assert (a + PageSuffix(page) + q)[|a|] == '_' && s[|a|] == '.';
  }

  lemma FixedRepage(a: string, d: string, q: string, page: int)
    requires NoChar(a, '?') && IsQuery(q) && |d| > 0 && AllDigits(d)
    ensures ChangePageFixed(a + "_P" + d + ".htm" + q, page) ==
      if d == IntToString(page) then Raise(AssertionError) else Ok(a + PageSuffix(page) + q)
  {
    var p := a + "_P" + d;
    var s := a + "_P" + d + ".htm" + q;
    assert s == (p + ".htm") + q;
    assert NoChar(p + ".htm", '?') by {
      assert forall k :: 0 <= k < |d| ==> (p + ".htm")[|a| + 2 + k] == d[k];
    }
    QueryStartAt(p + ".htm", q);
    assert s[..|p| + 4] == p + ".htm" && s[|p| + 4..] == q;
    assert (p + ".htm")[..|p|] == p;
    StripMarker(a, d);
    RepageSame(a, d, q, page);
  }

  /** On URLs that keep `htm` and `_P` to their end, the source's rewrite is the
      intended one. */
  lemma ChangeAgrees(a: string, q: string, page: int)
    requires PlainParts(a, q) && NoChar(a, '?') && IsQuery(q)
    ensures ChangePage(a + ".htm" + q, page) == ChangePageFixed(a + ".htm" + q, page)
  {
    ChangeFresh(a, q, page);
    NoMarkerNoStrip(a);
    FixedFresh(a, q, page);
  }

  lemma RepageAgrees(a: string, d: string, q: string, page: int)
    requires PlainParts(a, q) && NoChar(a, '?') && IsQuery(q) && |d| > 0 && AllDigits(d)
    ensures ChangePage(a + "_P" + d + ".htm" + q, page) == ChangePageFixed(a + "_P" + d + ".htm" + q, page)
  {
    ChangeRepage(a, d, q, page);
    FixedRepage(a, d, q, page);
  }

  lemma NoMarkerNoStrip(a: string)
    requires !Contains(a, "_P")
    ensures StripPage(a) == a
  {
    var n := TrailingDigits(a);
    if n > 0 && n + 2 <= |a| && a[|a| - n - 2..|a| - n] == "_P" {
      ContainsAt(a, "_P", |a| - n - 2);
    }
  }

  // ---------------------------------------------------------------------------
  // An employer name holding `htm`
  // ---------------------------------------------------------------------------

  /** The plain pattern only looks at the characters from i on. */
  lemma {:induction false} SubShift(x: string, y: string, i: nat, rep: string)
    requires i <= |y|
    ensures Sub(x + y, |x| + i, false, rep) == Sub(y, i, false, rep)
    decreases |y| - i
  {
    if i < |y| {
      if AnyHtmAt(y, i) {
        SubShift(x, y, i + 4, rep);
        ShiftMatched(x, y, i, rep);
      } else {
        SubShift(x, y, i + 1, rep);
        ShiftCopied(x, y, i, rep);
      }
    }
  }

  lemma ShiftMatched(x: string, y: string, i: nat, rep: string)
    requires i < |y| && AnyHtmAt(y, i)
    requires Sub(x + y, |x| + (i + 4), false, rep) == Sub(y, i + 4, false, rep)
    ensures Sub(x + y, |x| + i, false, rep) == Sub(y, i, false, rep)
  {
    TailShift(x, y, i);
    SubMatched(x + y, |x| + i, rep);
    SubMatched(y, i, rep);
  }

  lemma ShiftCopied(x: string, y: string, i: nat, rep: string)
    requires i < |y| && !AnyHtmAt(y, i)
    requires Sub(x + y, |x| + (i + 1), false, rep) == Sub(y, i + 1, false, rep)
    ensures Sub(x + y, |x| + i, false, rep) == Sub(y, i, false, rep)
  {
    TailShift(x, y, i);
    SubCopied(x + y, |x| + i, rep);
    SubCopied(y, i, rep);
    assert (x + y)[|x| + i] == y[i];
  }

  lemma SubMatched(s: string, i: nat, rep: string)
    requires AnyHtmAt(s, i)
    ensures Sub(s, i, false, rep) == rep + Sub(s, i + 4, false, rep)
  {
  }

  lemma SubCopied(s: string, i: nat, rep: string)
    requires i < |s| && !AnyHtmAt(s, i)
    ensures Sub(s, i, false, rep) == [s[i]] + Sub(s, i + 1, false, rep)
  {
  }

  lemma TailShift(x: string, y: string, i: nat)
    requires i <= |y|
    ensures AnyHtmAt(x + y, |x| + i) <==> AnyHtmAt(y, i)
  {
    if i + 4 <= |y| {
      assert (x + y)[|x| + i + 1..|x| + i + 4] == y[i + 1..i + 4];
      assert (x + y)[|x| + i] == y[i];
    }
  }

  /** The unescaped dot lets `.htm` match inside the path: when the text before
      the final `.htm` holds `htm`, the character before it and the `htm` are
      replaced too. */
  lemma ChangeInName(a: string, b: string, q: string, page: int)
    requires |a| > 0 && a[|a| - 1] != '\n' && a[|a| - 1] != 'h' && a[|a| - 1] != '_'
    requires !Contains(a, "htm") && !Contains(a, "_P")
    requires !Contains(b, "htm") && !Contains(b, "_P") && !Contains(q, "htm")
    ensures ChangePage(a + "htm" + b + ".htm" + q, page) ==
      Ok(a[..|a| - 1] + PageSuffix(page) + b + PageSuffix(page) + q)
  {
    var rep := PageSuffix(page);
    var s := a + "htm" + b + ".htm" + q;
    InNameNoP(a, b);
    FreshNoMarker(a + "htm" + b, q);
    InNameSub(a, b, q, rep);
    assert (a[..|a| - 1] + rep + b + rep + q)[|a| - 1] == '_' && s[|a| - 1] == a[|a| - 1];
  }

  lemma InNameSub(a: string, b: string, q: string, rep: string)
    requires |a| > 0 && a[|a| - 1] != '\n' && a[|a| - 1] != 'h'
    requires !Contains(a, "htm") && !Contains(b, "htm") && !Contains(q, "htm")
    ensures Sub(a + "htm" + b + ".htm" + q, 0, false, rep) == a[..|a| - 1] + rep + b + rep + q
  {
    var r := b + ".htm" + q;
    assert a + "htm" + b + ".htm" + q == (a + "htm") + r;
    InNameHead(a, r, rep);
    SubShift(a + "htm", r, 0, rep);
    FreshSub(b, q, rep);
  }

  lemma InNameHead(a: string, r: string, rep: string)
    requires |a| > 0 && a[|a| - 1] != '\n' && a[|a| - 1] != 'h' && !Contains(a, "htm")
    ensures Sub((a + "htm") + r, 0, false, rep) == a[..|a| - 1] + rep + Sub((a + "htm") + r, |a| + 3, false, rep)
  {
    var s := (a + "htm") + r;
    forall k | 0 <= k < |a| - 1 ensures Tail(s, k).None? {
      InNameNoHtmBefore(a, r, k);
    }
    SubSkip(s, 0, |a| - 1, false, rep);
    assert s[|a|..|a| + 3] == "htm";
    SubMatched(s, |a| - 1, rep);
    assert s[..|a| - 1] == a[..|a| - 1];
  }

  lemma InNameNoHtmBefore(a: string, r: string, k: nat)
    requires |a| > 0 && a[|a| - 1] != 'h' && !Contains(a, "htm") && k < |a| - 1
    ensures !AnyHtmAt(a + "htm" + r, k)
  {
    var s := a + "htm" + r;
    if k + 4 <= |a| {
      NotInLeft(a, "htm" + r, "htm", k + 1);
      assert s == a + ("htm" + r);
    } else if k + 3 == |a| {
      assert s[k + 1..k + 4][2] == 'h';
    } else {
      assert s[k + 1..k + 4][0] == a[|a| - 1];
    }
  }

  lemma InNameNoP(a: string, b: string)
    requires !Contains(a, "_P") && !Contains(b, "_P")
    ensures !Contains(a + "htm" + b, "_P")
  {
    var s := a + "htm" + b;
    forall k: nat | k + 2 <= |s| ensures !OccursAt(s, "_P", k) {
      if k + 2 <= |a| {
        NotInLeft(a, "htm" + b, "_P", k);
        assert s == a + ("htm" + b);
      } else if k < |a| + 3 {
        if k == |a| - 1 {
          assert s[k..k + 2][1] == 'h';
        } else {
          assert s[k..k + 2][0] == s[k];
        }
      } else {
        NotInRight(a + "htm", b, "_P", k);
      }
    }
  }

  /** Where the name holds `htm`, the intended rewrite differs from the
      source's: it leaves the name alone. */
  lemma InNameFixed(a: string, b: string, q: string, page: int)
    requires NoChar(a, '?') && NoChar(b, '?') && IsQuery(q)
    requires !Contains(a, "_P") && !Contains(b, "_P")
    ensures ChangePageFixed(a + "htm" + b + ".htm" + q, page) == Ok(a + "htm" + b + PageSuffix(page) + q)
  {
    var x := a + "htm" + b;
    InNameNoP(a, b);
    NoMarkerNoStrip(x);
    assert NoChar(x, '?') by {
      assert forall k :: 0 <= k < |b| ==> x[|a| + 3 + k] == b[k];
    }
    FixedFresh(x, q, page);
  }
}
