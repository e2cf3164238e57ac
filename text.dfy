/** Python `str` operations on ASCII text, as the scraper uses them.

    Characters outside ASCII are treated as ordinary non-word, non-space
    characters; Unicode classes and case mapping are not modelled.
 */
module Text {
  import opened Wrappers

  // ---------------------------------------------------------------------------
  // Character classes (the ASCII part of Python's `\s`, `\w`, `\d`, str.isspace)
  // ---------------------------------------------------------------------------

  /** `\s` / str.isspace on ASCII: space, \t \n \v \f \r, and the separators 0x1C-0x1F. */
  predicate IsSpace(c: char) {
    c == ' ' || (9 <= c as int <= 13) || (0x1C <= c as int <= 0x1F)
  }

  predicate IsDigit(c: char) {
    '0' <= c <= '9'
  }

  predicate IsUpper(c: char) {
    'A' <= c <= 'Z'
  }

  predicate IsLower(c: char) {
    'a' <= c <= 'z'
  }

  predicate IsLetter(c: char) {
    IsUpper(c) || IsLower(c)
  }

  /** `\w` on ASCII: letters, digits and the underscore. */
  predicate IsWordChar(c: char) {
    IsLetter(c) || IsDigit(c) || c == '_'
  }

  predicate AllDigits(s: string) {
    forall i :: 0 <= i < |s| ==> IsDigit(s[i])
  }

  predicate NoChar(s: string, c: char) {
    forall i :: 0 <= i < |s| ==> s[i] != c
  }

  /** str.lower on one ASCII character. */
  function Lower(c: char): (r: char)
    ensures !IsUpper(r)
    ensures IsUpper(c) ==> r as int == c as int + 32
    ensures !IsUpper(c) ==> r == c
  {
    if IsUpper(c) then (c as int + 32) as char else c
  }

  /** str.lower */
  function LowerStr(s: string): (r: string)
    ensures |r| == |s|
    ensures forall i :: 0 <= i < |s| ==> r[i] == Lower(s[i])
  {
    seq(|s|, i requires 0 <= i < |s| => Lower(s[i]))
  }

  // ---------------------------------------------------------------------------
  // Searching
  // ---------------------------------------------------------------------------

  predicate OccursAt(s: string, t: string, i: nat) {
    i + |t| <= |s| && s[i..i + |t|] == t
  }

  /** The first index at or after `from` where `t` occurs in `s`. */
  function FindFrom(s: string, t: string, from: nat): (r: Option<nat>)
    ensures r.Some? ==> from <= r.value && OccursAt(s, t, r.value)
    ensures r.Some? ==> forall j :: from <= j < r.value ==> !OccursAt(s, t, j)
    ensures r.None? ==> forall j :: from <= j ==> !OccursAt(s, t, j)
    decreases |s| - from
  {
    if from + |t| > |s| then None
    else if s[from..from + |t|] == t then Some(from)
    else FindFrom(s, t, from + 1)
  }

  /** Python `t in s` for strings. */
  predicate Contains(s: string, t: string) {
    FindFrom(s, t, 0).Some?
  }

  /** Python `s.find(t)`: the first index, or -1. */
  function PyFind(s: string, t: string): (r: int)
    ensures r == -1 <==> !Contains(s, t)
    ensures r >= 0 ==> OccursAt(s, t, r) && forall j :: 0 <= j < r ==> !OccursAt(s, t, j)
  {
    match FindFrom(s, t, 0)
    case None => -1
    case Some(i) => i
  }

  /** t occurs in a + t + b right after a. */
  lemma OccursMid(a: string, t: string, b: string)
    ensures OccursAt(a + t + b, t, |a|)
  {
    assert (a + t + b)[|a|..|a| + |t|] == t;
  }

  lemma ContainsAt(s: string, t: string, i: nat)
    requires OccursAt(s, t, i)
    ensures Contains(s, t)
  {
  }

  // ---------------------------------------------------------------------------
  // Replacing and splitting
  // ---------------------------------------------------------------------------

  /** Python `s.replace(pat, rep)`: every non-overlapping occurrence, scanning
      left to right; an empty `pat` inserts `rep` around every character. */
  function ReplaceStr(s: string, pat: string, rep: string): string
    decreases |s|
  {
    if |pat| == 0 then
      if |s| == 0 then rep else rep + [s[0]] + ReplaceStr(s[1..], pat, rep)
    else if pat <= s then rep + ReplaceStr(s[|pat|..], pat, rep)
    else if |s| == 0 then []
    else [s[0]] + ReplaceStr(s[1..], pat, rep)
  }

  /** Text without an occurrence of `pat` is left unchanged by the replace. */
  lemma {:induction false} ReplaceAbsent(s: string, pat: string, rep: string)
    requires |pat| > 0 && !Contains(s, pat)
    ensures ReplaceStr(s, pat, rep) == s
    decreases |s|
  {
    if |s| > 0 {
      assert !OccursAt(s, pat, 0);
      assert !(pat <= s);
      forall j | 0 <= j
        ensures !OccursAt(s[1..], pat, j)
      {
        OccursShift(s, pat, j);
      }
      ReplaceAbsent(s[1..], pat, rep);
    }
  }

  lemma OccursShift(s: string, t: string, j: nat)
    requires |s| > 0
    ensures OccursAt(s[1..], t, j) <==> OccursAt(s, t, j + 1)
  {
    if j + |t| <= |s| - 1 {
      assert s[1..][j..j + |t|] == s[j + 1..j + 1 + |t|];
    }
  }

  /** The scan keeps the text before the first occurrence, substitutes it, and
      goes on after it. */
  lemma {:induction false} ReplaceFirst(s: string, pat: string, rep: string, i: nat)
    requires |pat| > 0 && OccursAt(s, pat, i)
    requires forall j :: 0 <= j < i ==> !OccursAt(s, pat, j)
    ensures ReplaceStr(s, pat, rep) == s[..i] + rep + ReplaceStr(s[i + |pat|..], pat, rep)
    decreases i
  {
    if i == 0 {
      ReplaceMatch(s, pat, rep);
      assert s[..i] + rep == rep;
    } else {
      FirstShift(s, pat, i);
      ReplaceFirst(s[1..], pat, rep, i - 1);
      ReplaceSkip(s, pat, rep, i);
    }
  }

  /** Dropping the first character moves the first occurrence one to the left. */
  lemma FirstShift(s: string, pat: string, i: nat)
    requires 0 < i && OccursAt(s, pat, i)
    requires forall j :: 0 <= j < i ==> !OccursAt(s, pat, j)
    ensures OccursAt(s[1..], pat, i - 1)
    ensures forall j :: 0 <= j < i - 1 ==> !OccursAt(s[1..], pat, j)
  {
    OccursShift(s, pat, i - 1);
    forall j | 0 <= j < i - 1
      ensures !OccursAt(s[1..], pat, j)
    {
      OccursShift(s, pat, j);
    }
  }

  lemma ReplaceMatch(s: string, pat: string, rep: string)
    requires |pat| > 0 && OccursAt(s, pat, 0)
    ensures ReplaceStr(s, pat, rep) == rep + ReplaceStr(s[|pat|..], pat, rep)
  {
    assert pat <= s;
  }

  lemma ReplaceNoMatch(s: string, pat: string, rep: string)
    requires |pat| > 0 && |s| > 0 && !OccursAt(s, pat, 0)
    ensures ReplaceStr(s, pat, rep) == [s[0]] + ReplaceStr(s[1..], pat, rep)
  {
    assert !(pat <= s);
  }

  lemma ReplaceSkip(s: string, pat: string, rep: string, i: nat)
    requires |pat| > 0 && 0 < i && i + |pat| <= |s| && !OccursAt(s, pat, 0)
    requires ReplaceStr(s[1..], pat, rep) == s[1..][..i - 1] + rep + ReplaceStr(s[1..][i - 1 + |pat|..], pat, rep)
    ensures ReplaceStr(s, pat, rep) == s[..i] + rep + ReplaceStr(s[i + |pat|..], pat, rep)
  {
    ReplaceNoMatch(s, pat, rep);
    assert s[1..][i - 1 + |pat|..] == s[i + |pat|..];
    ConsPrefix(s, i, rep, ReplaceStr(s[i + |pat|..], pat, rep));
  }

  lemma ConsPrefix(s: string, i: nat, mid: string, rest: string)
    requires 0 < i <= |s|
    ensures [s[0]] + (s[1..][..i - 1] + mid + rest) == s[..i] + mid + rest
  {
    assert [s[0]] + s[1..][..i - 1] == s[..i];
  }

  /** The first occurrence from position `from` is at i. */
  lemma FindFromFirstAt(s: string, t: string, from: nat, i: nat)
    requires from <= i && OccursAt(s, t, i)
    requires forall j :: from <= j < i ==> !OccursAt(s, t, j)
    ensures FindFrom(s, t, from) == Some(i)
  {
  }

  /** A character that t holds and s lacks keeps t out of s. */
  /** A character absent from both parts is absent from their concatenation. */
  lemma NoCharConcat(a: string, b: string, c: char)
    requires NoChar(a, c) && NoChar(b, c)
    ensures NoChar(a + b, c)
  {
    forall i | 0 <= i < |a + b| ensures (a + b)[i] != c {
      if i >= |a| {
        assert (a + b)[i] == b[i - |a|];
      }
    }
  }

  lemma NoCharNotContains(s: string, t: string, m: nat, c: char)
    requires m < |t| && t[m] == c && NoChar(s, c)
    ensures !Contains(s, t)
  {
    forall j: nat | j + |t| <= |s| ensures !OccursAt(s, t, j) {
      assert s[j..j + |t|][m] == s[j + m];
    }
  }

  /** Python `s.split(sep)` with a non-empty separator (Python raises ValueError
      for an empty one). */
  function Split(s: string, sep: string): (parts: seq<string>)
    requires |sep| > 0
    ensures |parts| >= 1
    ensures !Contains(s, sep) ==> parts == [s]
    ensures Contains(s, sep) ==> |parts| >= 2 && parts[0] == s[..FindFrom(s, sep, 0).value]
    decreases |s|
  {
    match FindFrom(s, sep, 0)
    case None => [s]
    case Some(i) => [s[..i]] + Split(s[i + |sep|..], sep)
  }

  /** Python `s.split(sep)[k]`, raising IndexError when there are too few parts. */
  function SplitPart(s: string, sep: string, k: nat): (r: Result<string>)
    requires |sep| > 0
    ensures r.Raise? <==> k >= |Split(s, sep)|
  {
    var parts := Split(s, sep);
    if k < |parts| then Ok(parts[k]) else Raise(IndexError)
  }

  // ---------------------------------------------------------------------------
  // Whitespace stripping
  // ---------------------------------------------------------------------------

  function LStrip(s: string): (r: string)
    ensures |r| <= |s| && r == s[|s| - |r|..]
    ensures |r| > 0 ==> !IsSpace(r[0])
    ensures forall i :: 0 <= i < |s| - |r| ==> IsSpace(s[i])
  {
    if |s| > 0 && IsSpace(s[0]) then LStrip(s[1..]) else s
  }

  function RStrip(s: string): (r: string)
    ensures |r| <= |s| && r == s[..|r|]
    ensures |r| > 0 ==> !IsSpace(r[|r| - 1])
    ensures forall i :: |r| <= i < |s| ==> IsSpace(s[i])
  {
    if |s| > 0 && IsSpace(s[|s| - 1]) then RStrip(s[..|s| - 1]) else s
  }

  /** Python `s.strip()` (no argument). */
  function Strip(s: string): (r: string)
    ensures |r| > 0 ==> !IsSpace(r[0]) && !IsSpace(r[|r| - 1])
  {
    LStrip(RStrip(s))
  }

  // ---------------------------------------------------------------------------
  // Decimal numbers
  // ---------------------------------------------------------------------------

  function DigitChar(d: nat): (c: char)
    requires d < 10
    ensures IsDigit(c) && c as int - '0' as int == d
  {
    ('0' as int + d) as char
  }

  /** The value of a string of decimal digits. */
  function DigitsValue(s: string): nat
    requires AllDigits(s)
    decreases |s|
  {
    if |s| == 0 then 0
    else 10 * DigitsValue(s[..|s| - 1]) + (s[|s| - 1] as int - '0' as int)
  }

  /** f"{n}" for a natural number. */
  function NatToString(n: nat): (r: string)
    ensures |r| > 0 && AllDigits(r)
    ensures DigitsValue(r) == n
    decreases n
  {
    if n < 10 then [DigitChar(n)]
    else
      var r := NatToString(n / 10) + [DigitChar(n % 10)];
      assert r[..|r| - 1] == NatToString(n / 10);
      r
  }

  /** f"{i}" for any integer. */
  function IntToString(i: int): string {
    if i < 0 then "-" + NatToString(-i) else NatToString(i)
  }

  /** Python's `int(s)` on a string: optional surrounding whitespace, an optional
      sign, then at least one decimal digit; anything else raises ValueError.
      (Digit-group underscores are not modelled.) */
  function PyIntOfString(s: string): (r: Result<int>)
    ensures r.Ok? ==> |Strip(s)| > 0
  {
    var t := Strip(s);
    if |t| > 0 && (t[0] == '-' || t[0] == '+') && |t| > 1 && AllDigits(t[1..]) then
      Ok(if t[0] == '-' then 0 - DigitsValue(t[1..]) else DigitsValue(t[1..]))
    else if |t| > 0 && AllDigits(t) then Ok(DigitsValue(t))
    else Raise(ValueError)
  }
}
