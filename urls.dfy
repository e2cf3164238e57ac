/** The URL helpers of scraper/utils.py: `Url.reviews`, `Url.overview`,
    `transform_url` and `extract_id`, with the regular expressions they use
    written out as searches over positions.
 */
module Urls {
  import opened Wrappers
  import opened Text
  import Pages

  // ---------------------------------------------------------------------------
  // Regions
  // ---------------------------------------------------------------------------

  /** The Glassdoor region ids of the `Region` enum. */
  datatype Region =
    | UnitedStates | UnitedKingdom | CanadaEnglish | India | Australia | France
    | Germany | Spain | Brazil | Netherlands | Austria | Mexico | Argentina
    | BelgiumNederlands | BelgiumFrench | SwitzerlandGerman | SwitzerlandFrench
    | Ireland | CanadaFrench | HongKong | NewZealand | Singapore | Italy

  function Number(r: Region): (n: nat)
    ensures 1 <= n <= 23
  {
    match r
    case UnitedStates => 1
    case UnitedKingdom => 2
    case CanadaEnglish => 3
    case India => 4
    case Australia => 5
    case France => 6
    case Germany => 7
    case Spain => 8
    case Brazil => 9
    case Netherlands => 10
    case Austria => 11
    case Mexico => 12
    case Argentina => 13
    case BelgiumNederlands => 14
    case BelgiumFrench => 15
    case SwitzerlandGerman => 16
    case SwitzerlandFrench => 17
    case Ireland => 18
    case CanadaFrench => 19
    case HongKong => 20
    case NewZealand => 21
    case Singapore => 22
    case Italy => 23
  }

  /** `region.value`: the id as a decimal string. */
  function Value(r: Region): (v: string)
    ensures |v| > 0 && AllDigits(v) && DigitsValue(v) == Number(r)
  {
    NatToString(Number(r))
  }

  // ---------------------------------------------------------------------------
  // Url.reviews and Url.overview
  // ---------------------------------------------------------------------------

  const Host: string := "https://www.glassdoor.com"
  const ReviewsDir: string := "/Reviews/"
  const OverviewDir: string := "/Overview/"
  const WorkingAt: string := "Working-at-"
  const FilterKey: string := "filter.countryId="

  /** `employer.replace(" ", "-")`. */
  function Hyphenate(e: string): string {
    ReplaceStr(e, " ", "-")
  }

  /** `sep.join(parts)`. */
  function Join(sep: string, parts: seq<string>): string
    decreases |parts|
  {
    if |parts| == 0 then ""
    else if |parts| == 1 then parts[0]
    else parts[0] + sep + Join(sep, parts[1..])
  }

  /** f"filter.countryId={region.value}" */
  function Filter(r: Region): string {
    FilterKey + Value(r)
  }

  function Filters(rs: seq<Region>): (fs: seq<string>)
    ensures |fs| == |rs| && forall i :: 0 <= i < |rs| ==> fs[i] == Filter(rs[i])
  {
    seq(|rs|, i requires 0 <= i < |rs| => Filter(rs[i]))
  }

  /** The reviews page path up to its `.htm`. */
  function ReviewsStem(e: string, id: string): string {
    Host + ReviewsDir + Hyphenate(e) + "-Reviews-E" + id
  }

  /** The query that `Url.reviews` appends: only for a non-empty region list. */
  function RegionQuery(regions: Option<seq<Region>>): string {
    if regions.Some? && |regions.value| > 0 then "?" + Join("&", Filters(regions.value)) else ""
  }

  /** `Url.reviews(employer, employer_id, regions)`. */
  function ReviewsUrl(e: string, id: string, regions: Option<seq<Region>>): string {
    ReviewsStem(e, id) + ".htm" + RegionQuery(regions)
  }

  /** The overview page path before the name slice. */
  function OverviewStem(e: string, id: string): string {
    Host + OverviewDir + WorkingAt + Hyphenate(e) + "-EI_IE" + id
  }

  /** `url.split("/Overview/")[1]`: the stem always holds the separator, so the
      split has a second part. */
  function Segment(stem: string): string
    requires OccursAt(stem, OverviewDir, |Host|)
  {
    ContainsAt(stem, OverviewDir, |Host|);
    Split(stem, OverviewDir)[1]
  }

  lemma StemHasDir(e: string, id: string)
    ensures OccursAt(OverviewStem(e, id), OverviewDir, |Host|)
  {
    var rest := WorkingAt + Hyphenate(e) + "-EI_IE" + id;
    assert OverviewStem(e, id) == Host + OverviewDir + rest;
    OccursMid(Host, OverviewDir, rest);
  }

  /** `_start`: where the name is first found in the segment. */
  function NameStart(e: string, id: string): int {
    StemHasDir(e, id);
    PyFind(Segment(OverviewStem(e, id)), Hyphenate(e))
  }

  /** The query that `Url.overview` appends: enum members are always truthy. */
  function OverviewQuery(region: Option<Region>): string {
    if region.Some? then "?" + Filter(region.value) else ""
  }

  /** f".{start},{end}.htm" */
  function SliceSuffix(start: int, len: nat): string {
    "." + IntToString(start) + "," + IntToString(start + len) + ".htm"
  }

  /** `Url.overview(employer, employer_id, region)`. */
  function OverviewUrl(e: string, id: string, region: Option<Region>): string {
    OverviewStem(e, id) + SliceSuffix(NameStart(e, id), |Hyphenate(e)|) + OverviewQuery(region)
  }

  /** The overview URL with the slice the docstring describes: the name's place
      right after `Working-at-`. */
  function OverviewUrlFixed(e: string, id: string, region: Option<Region>): string {
    OverviewStem(e, id) + SliceSuffix(|WorkingAt|, |Hyphenate(e)|) + OverviewQuery(region)
  }

  // ---------------------------------------------------------------------------
  // transform_url and extract_id
  // ---------------------------------------------------------------------------

  /** `[\w%-]`. */
  predicate IsNameChar(c: char) {
    IsWordChar(c) || c == '%' || c == '-'
  }

  /** The length of the run of `[\w%-]` characters starting at j. */
  function NameRun(s: string, j: nat): (n: nat)
    requires j <= |s|
    ensures j + n <= |s|
    ensures forall k :: j <= k < j + n ==> IsNameChar(s[k])
    ensures j + n == |s| || !IsNameChar(s[j + n])
    decreases |s| - j
  {
    if j < |s| && IsNameChar(s[j]) then 1 + NameRun(s, j + 1) else 0
  }

  /** The last `-E` starting in [lo, hi): where the greedy `[\w%-]+` backs off to. */
  function LastDashE(s: string, lo: nat, hi: nat): (r: Option<nat>)
    ensures r.Some? ==> lo <= r.value < hi && OccursAt(s, "-E", r.value)
    ensures r.Some? ==> forall p :: r.value < p < hi ==> !OccursAt(s, "-E", p)
    ensures r.None? ==> forall p :: lo <= p < hi ==> !OccursAt(s, "-E", p)
    decreases hi
  {
    if hi <= lo then None
    else if OccursAt(s, "-E", hi - 1) then Some(hi - 1)
    else LastDashE(s, lo, hi - 1)
  }

  /** The group of `Working-at-([\w%-]+)-E` matched at j. */
  function NameAt(s: string, j: nat): Option<string> {
    if !OccursAt(s, WorkingAt, j) then None
    else
      var from := j + |WorkingAt|;
      match LastDashE(s, from + 1, from + NameRun(s, from))
      case Some(p) => Some(s[from..p])
      case None => None
  }

  /** The group of `-EI_IE(\d+)\.` matched at j. */
  function IdAt(s: string, j: nat): Option<string> {
    if !OccursAt(s, "-EI_IE", j) then None
    else
      var n := Pages.DigitRun(s, j + 6);
      if n > 0 && j + 6 + n < |s| && s[j + 6 + n] == '.' then Some(s[j + 6..j + 6 + n]) else None
  }

  /** The group of `-E(\d+)` matched at j. */
  function EmployerIdAt(s: string, j: nat): (r: Option<string>)
    ensures r.Some? ==> |r.value| > 0 && AllDigits(r.value)
  {
    if !OccursAt(s, "-E", j) then None
    else
      var n := Pages.DigitRun(s, j + 2);
      if n > 0 then Some(s[j + 2..j + 2 + n]) else None
  }

  datatype Pattern = NamePattern | IdPattern | EmployerIdPattern

  function GroupAt(p: Pattern, s: string, j: nat): Option<string> {
    match p
    case NamePattern => NameAt(s, j)
    case IdPattern => IdAt(s, j)
    case EmployerIdPattern => EmployerIdAt(s, j)
  }

  /** Where `re.search(pattern, s)` finds its leftmost match, from position j on. */
  function SearchFrom(p: Pattern, s: string, j: nat): (r: Option<nat>)
    ensures r.Some? ==> j <= r.value <= |s| && GroupAt(p, s, r.value).Some?
    ensures r.Some? ==> forall k :: j <= k < r.value ==> GroupAt(p, s, k).None?
    ensures r.None? ==> forall k :: j <= k <= |s| ==> GroupAt(p, s, k).None?
    decreases |s| + 1 - j
  {
    if j > |s| then None
    else if GroupAt(p, s, j).Some? then Some(j)
    else SearchFrom(p, s, j + 1)
  }

  /** `re.search(pattern, s).group(1)`, or None when nothing matches. */
  function Search(p: Pattern, s: string): Option<string> {
    match SearchFrom(p, s, 0)
    case None => None
    case Some(k) => GroupAt(p, s, k)
  }

  /** `transform_url(url)`. */
  function TransformUrl(url: string): Option<string> {
    if Contains(url, ReviewsDir) then Some(url)
    else
      match (Search(IdPattern, url), Search(NamePattern, url))
      case (Some(id), Some(name)) => Some(Host + ReviewsDir + name + "-Reviews-E" + id + ".htm")
      case _ => None
  }

  /** `extract_id`'s result: an int, or numpy's NaN. */
  datatype IdValue = Id(n: nat) | NaN

  /** `extract_id(url)`, with `None` for Python's None. */
  function ExtractId(url: Option<string>): IdValue {
    if url.None? then NaN
    else
      match SearchFrom(EmployerIdPattern, url.value, 0)
      case Some(k) => Id(DigitsValue(EmployerIdAt(url.value, k).value))
      case None => NaN
  }

  // ---------------------------------------------------------------------------
  // Character facts
  // ---------------------------------------------------------------------------

  /** `Url.overview` up to the employer name. */
  const OverviewHead: string := Host + OverviewDir + WorkingAt

  /** `Url.reviews` up to the employer name. */
  const ReviewsHead: string := Host + ReviewsDir

  lemma OverviewHeadFacts()
    ensures |OverviewHead| == 46 && OverviewHead[45] == '-' && OverviewHead[35..] == WorkingAt
    ensures NoChar(OverviewHead, 'R') && NoChar(OverviewHead, '_')
    ensures forall k :: 0 <= k < 35 ==> OverviewHead[k] != 'W'
  {
  }

  lemma ReviewsHeadFacts()
    ensures |ReviewsHead| == 34
    ensures NoChar(ReviewsHead, '-') && NoChar(ReviewsHead, '_') && NoChar(ReviewsHead, '?')
    ensures !Contains(ReviewsHead, "htm")
  {
    NoPairNotContains(ReviewsHead, "htm", 1);
  }

  /** Text in which two neighbouring characters of t never stand side by side
      does not contain t. */
  lemma NoPairNotContains(s: string, t: string, m: nat)
    requires m + 1 < |t|
    requires forall k :: 0 <= k < |s| - 1 ==> s[k] != t[m] || s[k + 1] != t[m + 1]
    ensures !Contains(s, t)
  {
    forall j: nat | j + |t| <= |s|
      ensures !OccursAt(s, t, j)
    {
      assert s[j..j + |t|][m] == s[j + m] && s[j..j + |t|][m + 1] == s[j + m + 1];
    }
  }

  /** The replace turns each space into a hyphen and keeps every other character. */
  lemma {:induction false} HyphenateChars(e: string)
    ensures |Hyphenate(e)| == |e|
    ensures forall i :: 0 <= i < |e| ==> Hyphenate(e)[i] == if e[i] == ' ' then '-' else e[i]
    decreases |e|
  {
    if |e| > 0 {
      HyphenateChars(e[1..]);
      if e[0] == ' ' {
        assert " " <= e;
        assert Hyphenate(e) == "-" + Hyphenate(e[1..]);
      } else {
        assert !(" " <= e);
        assert Hyphenate(e) == [e[0]] + Hyphenate(e[1..]);
      }
    }
  }

  lemma IntToStringChars(x: int)
    ensures forall i :: 0 <= i < |IntToString(x)| ==> IsDigit(IntToString(x)[i]) || IntToString(x)[i] == '-'
  {
  }

  lemma DigitRunIs(s: string, j: nat, m: nat)
    requires j + m <= |s| && forall k :: j <= k < j + m ==> IsDigit(s[k])
    requires j + m == |s| || !IsDigit(s[j + m])
    ensures Pages.DigitRun(s, j) == m
    decreases m
  {
    if m > 0 {
      DigitRunIs(s, j + 1, m - 1);
    }
  }

  lemma NameRunIs(s: string, j: nat, m: nat)
    requires j + m <= |s| && forall k :: j <= k < j + m ==> IsNameChar(s[k])
    requires j + m == |s| || !IsNameChar(s[j + m])
    ensures NameRun(s, j) == m
    decreases m
  {
    if m > 0 {
      NameRunIs(s, j + 1, m - 1);
    }
  }

  // ---------------------------------------------------------------------------
  // transform_url on the URLs the builders make
  // ---------------------------------------------------------------------------

  /** Every character may stand in `[\w%-]`. */
  predicate NameChars(n: string) {
    forall i :: 0 <= i < |n| ==> IsNameChar(n[i])
  }

  /** The parts of an overview URL around the name: `M` is what follows it. */
  lemma OverviewNoReviews(n: string, m: string)
    requires NameChars(n) && NoChar(m, 'R')
    ensures !Contains(OverviewHead + n + m, ReviewsDir)
  {
    var s := OverviewHead + n + m;
    OverviewHeadFacts();
    forall k | 0 <= k < |s| - 1
      ensures s[k] != ReviewsDir[0] || s[k + 1] != ReviewsDir[1]
    {
      if k + 1 < 46 {
        assert s[k + 1] == OverviewHead[k + 1];
      } else if k + 1 == 46 {
        assert s[k] == OverviewHead[45];
      } else if k + 1 < 46 + |n| {
        assert s[k] == n[k - 46];
      } else {
        assert s[k + 1] == m[k + 1 - 46 - |n|];
      }
    }
    NoPairNotContains(s, ReviewsDir, 0);
  }

  /** No `Working-at-` starts inside the head h before its own one. */
  lemma NameNotBefore(h: string, n: string, m: string)
    requires |h| >= |WorkingAt| && forall k :: 0 <= k < |h| - |WorkingAt| ==> h[k] != 'W'
    ensures forall k :: 0 <= k < |h| - |WorkingAt| ==> GroupAt(NamePattern, h + n + m, k).None?
  {
    var s := h + n + m;
    forall k | 0 <= k < |h| - |WorkingAt|
      ensures GroupAt(NamePattern, s, k).None?
    {
      if k + |WorkingAt| <= |s| {
        assert s[k..k + |WorkingAt|][0] == s[k] == h[k];
      }
    }
  }

  /** What follows the name in an overview URL: `-EI_IE`, the id, then a tail
      that starts with a dot. */
  lemma IdPartFacts(id: string, t: string)
    requires |id| > 0 && AllDigits(id) && |t| > 0 && t[0] == '.'
    ensures var m := "-EI_IE" + id + t;
      && m[..6] == "-EI_IE" && m[6..6 + |id|] == id && m[6 + |id|] == '.'
      && (forall j :: 0 <= j < 6 + |id| ==> IsNameChar(m[j]))
      && (forall j :: 0 < j < 6 + |id| ==> m[j] != '-')
      && (forall j :: 6 <= j < 6 + |id| ==> IsDigit(m[j]))
  {
    var m := "-EI_IE" + id + t;
    forall j | 6 <= j < 6 + |id|
      ensures m[j] == id[j - 6]
    {
    }
  }

  /** The `[\w%-]` run from the name's start covers the name and the next
      `run` characters. */
  lemma NameRunOver(h: string, n: string, m: string, run: nat)
    requires NameChars(n) && run < |m| && !IsNameChar(m[run])
    requires forall j :: 0 <= j < run ==> IsNameChar(m[j])
    ensures NameRun(h + n + m, |h|) == |n| + run
  {
    var s := h + n + m;
    RunChars(h, n, m, run);
    NameRunIs(s, |h|, |n| + run);
  }

  lemma RunChars(h: string, n: string, m: string, run: nat)
    requires NameChars(n) && run < |m| && !IsNameChar(m[run])
    requires forall j :: 0 <= j < run ==> IsNameChar(m[j])
    ensures forall k :: |h| <= k < |h| + |n| + run ==> IsNameChar((h + n + m)[k])
    ensures |h| + |n| + run < |h + n + m| && !IsNameChar((h + n + m)[|h| + |n| + run])
  {
    var s := h + n + m;
    forall k | |h| <= k < |h| + |n| + run
      ensures IsNameChar(s[k])
    {
      if k < |h| + |n| {
        assert s[k] == n[k - |h|];
      } else {
        assert s[k] == m[k - |h| - |n|];
      }
    }
    assert s[|h| + |n| + run] == m[run];
  }

  /** The greedy group backs off to the `-E` at the start of m. */
  lemma NameBackoff(h: string, n: string, m: string, run: nat)
    requires |n| > 0 && 2 <= run <= |m| && m[..2] == "-E"
    requires forall j :: 0 < j < run ==> m[j] != '-'
    ensures LastDashE(h + n + m, |h| + 1, |h| + |n| + run) == Some(|h| + |n|)
  {
    var s := h + n + m;
    var p := |h| + |n|;
    assert s[p..p + 2] == m[..2];
    assert OccursAt(s, "-E", p);
    forall q | p < q < p + run
      ensures !OccursAt(s, "-E", q)
    {
      assert s[q] == m[q - p];
    }
  }

  /** The leftmost match is the first position where the pattern matches. */
  lemma SearchFirst(p: Pattern, s: string, k: nat)
    requires k <= |s| && GroupAt(p, s, k).Some?
    requires forall i :: 0 <= i < k ==> GroupAt(p, s, i).None?
    ensures SearchFrom(p, s, 0) == Some(k) && Search(p, s) == GroupAt(p, s, k)
  {
    assert SearchFrom(p, s, 0) == Some(k);
  }

  /** At the end of the head h, `Working-at-([\w%-]+)-E` matches the name when
      it is followed by a `-E`, then `run` characters without a hyphen that the
      class admits. */
  lemma NameAtHead(h: string, n: string, m: string, run: nat)
    requires |h| >= |WorkingAt| && h[|h| - |WorkingAt|..] == WorkingAt
    requires |n| > 0 && NameChars(n)
    requires 2 <= run < |m| && m[..2] == "-E" && !IsNameChar(m[run])
    requires forall j :: 0 <= j < run ==> IsNameChar(m[j])
    requires forall j :: 0 < j < run ==> m[j] != '-'
    ensures NameAt(h + n + m, |h| - |WorkingAt|) == Some(n)
  {
    var s := h + n + m;
    var w := |h| - |WorkingAt|;
    assert s[w..|h|] == h[w..];
    NameRunOver(h, n, m, run);
    NameBackoff(h, n, m, run);
    assert s[|h|..|h| + |n|] == n;
  }

  lemma NameMatch(h: string, n: string, m: string, run: nat)
    requires |h| >= |WorkingAt| && h[|h| - |WorkingAt|..] == WorkingAt
    requires forall k :: 0 <= k < |h| - |WorkingAt| ==> h[k] != 'W'
    requires |n| > 0 && NameChars(n)
    requires 2 <= run < |m| && m[..2] == "-E" && !IsNameChar(m[run])
    requires forall j :: 0 <= j < run ==> IsNameChar(m[j])
    requires forall j :: 0 < j < run ==> m[j] != '-'
    ensures Search(NamePattern, h + n + m) == Some(n)
  {
    NameNotBefore(h, n, m);
    NameAtHead(h, n, m, run);
    SearchFirst(NamePattern, h + n + m, |h| - |WorkingAt|);
  }

  lemma OverviewName(h: string, n: string, id: string, t: string)
    requires |h| >= |WorkingAt| && h[|h| - |WorkingAt|..] == WorkingAt
    requires forall k :: 0 <= k < |h| - |WorkingAt| ==> h[k] != 'W'
    requires |n| > 0 && NameChars(n)
    requires |id| > 0 && AllDigits(id) && |t| > 0 && t[0] == '.'
    ensures Search(NamePattern, h + n + ("-EI_IE" + id + t)) == Some(n)
  {
    var m := "-EI_IE" + id + t;
    IdPartFacts(id, t);
    assert m[..2] == m[..6][..2];
    NameMatch(h, n, m, 6 + |id|);
  }

  /** No `-EI_IE` starts before the builder's one: neither the head nor the
      name holds an underscore. */
  lemma IdNotBefore(h: string, n: string, m: string)
    requires NoChar(h, '_') && NoChar(n, '_') && |m| >= 3 && NoChar(m[..3], '_')
    ensures forall k :: 0 <= k < |h| + |n| ==> GroupAt(IdPattern, h + n + m, k).None?
  {
    var s := h + n + m;
    var p := |h| + |n|;
    forall k | 0 <= k < p
      ensures GroupAt(IdPattern, s, k).None?
    {
      if k + 6 <= |s| {
        assert s[k..k + 6][3] == s[k + 3];
        if k + 3 < |h| {
          assert s[k + 3] == h[k + 3];
        } else if k + 3 < p {
          assert s[k + 3] == n[k + 3 - |h|];
        } else {
          assert s[k + 3] == m[..3][k + 3 - p];
        }
      }
    }
  }

  /** The id group at the builder's `-EI_IE`. */
  lemma IdAtBuilt(h: string, n: string, m: string, d: nat)
    requires 6 + d < |m| && m[..6] == "-EI_IE" && m[6 + d] == '.' && d > 0
    requires forall j :: 6 <= j < 6 + d ==> IsDigit(m[j])
    ensures IdAt(h + n + m, |h| + |n|) == Some(m[6..6 + d])
  {
    var s := h + n + m;
    var p := |h| + |n|;
    assert s[p..p + 6] == m[..6];
    forall k | p + 6 <= k < p + 6 + d
      ensures IsDigit(s[k])
    {
      assert s[k] == m[k - p];
    }
    assert s[p + 6 + d] == m[6 + d];
    DigitRunIs(s, p + 6, d);
    assert s[p + 6..p + 6 + d] == m[6..6 + d];
  }

  /** `-EI_IE(\d+)\.` first matches where the builder put it. */
  lemma OverviewId(h: string, n: string, id: string, t: string)
    requires NoChar(h, '_') && NoChar(n, '_')
    requires |id| > 0 && AllDigits(id) && |t| > 0 && t[0] == '.'
    ensures Search(IdPattern, h + n + ("-EI_IE" + id + t)) == Some(id)
  {
    var m := "-EI_IE" + id + t;
    var s := h + n + m;
    var p := |h| + |n|;
    IdPartFacts(id, t);
    assert m[..3] == m[..6][..3];
    IdNotBefore(h, n, m);
    IdAtBuilt(h, n, m, |id|);
    SearchFirst(IdPattern, s, p);
  }

  lemma TailNoR(id: string, t: string)
    requires AllDigits(id) && NoChar(t, 'R')
    ensures NoChar("-EI_IE" + id + t, 'R')
  {
    var m := "-EI_IE" + id + t;
    forall i | 0 <= i < |m|
      ensures m[i] != 'R'
    {
      if i < 6 {
      } else if i < 6 + |id| {
        assert m[i] == id[i - 6];
      } else {
        assert m[i] == t[i - 6 - |id|];
      }
    }
  }

  /** transform_url turns an overview URL into the reviews URL of the same
      employer. */
  lemma TransformOverviewStem(e: string, id: string, t: string)
    requires |Hyphenate(e)| > 0 && NameChars(Hyphenate(e)) && NoChar(Hyphenate(e), '_')
    requires |id| > 0 && AllDigits(id)
    requires |t| > 0 && t[0] == '.' && NoChar(t, 'R')
    ensures TransformUrl(OverviewStem(e, id) + t) == Some(ReviewsUrl(e, id, None))
  {
    var n := Hyphenate(e);
    var m := "-EI_IE" + id + t;
    var s := OverviewHead + n + m;
    assert OverviewStem(e, id) + t == s;
    OverviewHeadFacts();
    TailNoR(id, t);
    OverviewNoReviews(n, m);
    OverviewName(OverviewHead, n, id, t);
    OverviewId(OverviewHead, n, id, t);
    assert ReviewsUrl(e, id, None) == Host + ReviewsDir + n + "-Reviews-E" + id + ".htm";
  }

  /** The slice suffix and the region query hold no `R`. */
  lemma OverviewTailFacts(start: int, len: nat, region: Option<Region>)
    ensures var t := SliceSuffix(start, len) + OverviewQuery(region);
      |t| > 0 && t[0] == '.' && NoChar(t, 'R')
  {
    IntToStringChars(start);
    IntToStringChars(start + len);
    var a := IntToString(start);
    var b := IntToString(start + len);
    var q := OverviewQuery(region);
    assert NoChar(q, 'R') by {
      if region.Some? {
        var v := Value(region.value);
        assert q == "?" + FilterKey + v;
        NoCharConcat("?" + FilterKey, v, 'R');
      }
    }
    NoCharConcat(".", a, 'R');
    NoCharConcat("." + a, ",", 'R');
    NoCharConcat("." + a + ",", b, 'R');
    NoCharConcat("." + a + "," + b, ".htm", 'R');
    NoCharConcat("." + a + "," + b + ".htm", q, 'R');
    var t := "." + a + "," + b + ".htm" + q;
    assert t == SliceSuffix(start, len) + OverviewQuery(region);
  }

  /** transform_url turns an overview URL into the reviews URL of the same
      employer, whatever slice the URL carries. */
  lemma TransformSlice(e: string, id: string, start: int, region: Option<Region>)
    requires |Hyphenate(e)| > 0 && NameChars(Hyphenate(e)) && NoChar(Hyphenate(e), '_')
    requires |id| > 0 && AllDigits(id)
    ensures TransformUrl(OverviewStem(e, id) + SliceSuffix(start, |Hyphenate(e)|) + OverviewQuery(region))
      == Some(ReviewsUrl(e, id, None))
  {
    var stem := OverviewStem(e, id);
    var a := SliceSuffix(start, |Hyphenate(e)|);
    var q := OverviewQuery(region);
    OverviewTailFacts(start, |Hyphenate(e)|, region);
    TransformOverviewStem(e, id, a + q);
    assert stem + a + q == stem + (a + q);
  }

  lemma TransformOverview(e: string, id: string, region: Option<Region>)
    requires |Hyphenate(e)| > 0 && NameChars(Hyphenate(e)) && NoChar(Hyphenate(e), '_')
    requires |id| > 0 && AllDigits(id)
    ensures TransformUrl(OverviewUrl(e, id, region)) == Some(ReviewsUrl(e, id, None))
    ensures TransformUrl(OverviewUrlFixed(e, id, region)) == Some(ReviewsUrl(e, id, None))
  {
    TransformSlice(e, id, NameStart(e, id), region);
    TransformSlice(e, id, |WorkingAt|, region);
  }

  /** A reviews URL is left as it is. */
  lemma TransformReviews(e: string, id: string, regions: Option<seq<Region>>)
    ensures TransformUrl(ReviewsUrl(e, id, regions)) == Some(ReviewsUrl(e, id, regions))
  {
    ReviewsHasDir(e, id, regions);
    TransformWithDir(ReviewsUrl(e, id, regions));
  }

  lemma ReviewsHasDir(e: string, id: string, regions: Option<seq<Region>>)
    ensures Contains(ReviewsUrl(e, id, regions), ReviewsDir)
  {
    var rest := Hyphenate(e) + "-Reviews-E" + id + ".htm" + RegionQuery(regions);
    assert ReviewsUrl(e, id, regions) == Host + ReviewsDir + rest;
    OccursMid(Host, ReviewsDir, rest);
  }

  /** A URL already holding the reviews directory is returned as it is. */
  lemma TransformWithDir(url: string)
    requires Contains(url, ReviewsDir)
    ensures TransformUrl(url) == Some(url)
  {
  }

  /** Transforming twice changes nothing more: every URL transform_url returns
      is a reviews URL. */
  lemma TransformIdempotent(url: string)
    ensures TransformUrl(url).Some? ==> TransformUrl(TransformUrl(url).value) == TransformUrl(url)
  {
    if TransformUrl(url).Some? && !Contains(url, ReviewsDir) {
      var id := Search(IdPattern, url).value;
      var name := Search(NamePattern, url).value;
      var rest := name + "-Reviews-E" + id + ".htm";
      assert TransformUrl(url).value == Host + ReviewsDir + rest;
      OccursMid(Host, ReviewsDir, rest);
    }
  }

  // ---------------------------------------------------------------------------
  // The name slice of Url.overview
  // ---------------------------------------------------------------------------

  /** The segment after `/Overview/` that the slice numbers index. */
  function NameSegment(e: string, id: string): string {
    WorkingAt + Hyphenate(e) + "-EI_IE" + id
  }

  lemma SplitSecond(x: string, sep: string, r: string)
    requires |sep| > 0 && !Contains(r, sep) && FindFrom(x + sep + r, sep, 0) == Some(|x|)
    ensures |Split(x + sep + r, sep)| == 2 && Split(x + sep + r, sep)[1] == r
  {
    assert (x + sep + r)[|x| + |sep|..] == r;
  }

  /** A separator whose second character x lacks, and which does not start
      with that character, cannot start inside x. */
  lemma NotBeforeSep(x: string, sep: string, r: string)
    requires |sep| >= 2 && NoChar(x, sep[1]) && sep[0] != sep[1]
    ensures forall j :: 0 <= j < |x| ==> !OccursAt(x + sep + r, sep, j)
  {
    var s := x + sep + r;
    forall j | 0 <= j < |x|
      ensures !OccursAt(s, sep, j)
    {
      if j + |sep| <= |s| {
        assert s[j..j + |sep|][1] == s[j + 1];
        if j + 1 < |x| {
          assert s[j + 1] == x[j + 1];
        } else {
          assert s[j + 1] == sep[0];
        }
      }
    }
  }

  lemma SegmentNoSlash(e: string, id: string)
    requires NoChar(Hyphenate(e), '/') && NoChar(id, '/')
    ensures NoChar(NameSegment(e, id), '/')
  {
    var r := NameSegment(e, id);
    var n := Hyphenate(e);
    forall i | 0 <= i < |r|
      ensures r[i] != '/'
    {
      if |WorkingAt| <= i < |WorkingAt| + |n| {
        assert r[i] == n[i - |WorkingAt|];
      } else if |WorkingAt| + |n| + 6 <= i {
        assert r[i] == id[i - |WorkingAt| - |n| - 6];
      }
    }
  }

  /** Without a `/` in the name or the id, the split's second part is the
      whole segment. */
  lemma SegmentIs(e: string, id: string)
    requires NoChar(Hyphenate(e), '/') && NoChar(id, '/')
    ensures OccursAt(OverviewStem(e, id), OverviewDir, |Host|)
    ensures Segment(OverviewStem(e, id)) == NameSegment(e, id)
  {
    var r := NameSegment(e, id);
    var s := OverviewStem(e, id);
    assert s == Host + OverviewDir + r;
    StemHasDir(e, id);
    assert NoChar(Host, 'O');
    NotBeforeSep(Host, OverviewDir, r);
    FindFromFirstAt(s, OverviewDir, 0, |Host|);
    SegmentNoSlash(e, id);
    NoCharNotContains(r, OverviewDir, 0, '/');
    SplitSecond(Host, OverviewDir, r);
  }

  /** As written, the slice starts at the first place the name occurs in the
      segment: at the latest right after `Working-at-`, earlier when the name
      also occurs inside `Working-at-`. Either way the slice spells the name. */
  lemma NameStartFirst(e: string, id: string)
    requires NoChar(Hyphenate(e), '/') && NoChar(id, '/')
    ensures 0 <= NameStart(e, id) <= |WorkingAt|
    ensures NameStart(e, id) == |WorkingAt| <==>
      forall j :: 0 <= j < |WorkingAt| ==> !OccursAt(NameSegment(e, id), Hyphenate(e), j)
    ensures NameSegment(e, id)[NameStart(e, id)..NameStart(e, id) + |Hyphenate(e)|] == Hyphenate(e)
  {
    SegmentIs(e, id);
    var n := Hyphenate(e);
    var seg := NameSegment(e, id);
    assert NameStart(e, id) == PyFind(seg, n);
    SegmentHasName(e, id);
    FindNoLater(seg, n, |WorkingAt|);
  }

  lemma SegmentHasName(e: string, id: string)
    ensures OccursAt(NameSegment(e, id), Hyphenate(e), |WorkingAt|)
  {
    var n := Hyphenate(e);
    var rest := "-EI_IE" + id;
    assert NameSegment(e, id) == WorkingAt + n + rest;
    OccursMid(WorkingAt, n, rest);
  }

  /** With t at i, `find` returns i or an earlier occurrence. */
  lemma FindNoLater(s: string, t: string, i: nat)
    requires OccursAt(s, t, i)
    ensures 0 <= PyFind(s, t) <= i
    ensures PyFind(s, t) == i <==> forall j :: 0 <= j < i ==> !OccursAt(s, t, j)
    ensures s[PyFind(s, t)..PyFind(s, t) + |t|] == t
  {
    ContainsAt(s, t, i);
    var r := PyFind(s, t);
    if r < i {
      assert OccursAt(s, t, r);
    }
  }

  /** The fixed slice starts right after `Working-at-` and spells the name. */
  lemma FixedSlice(e: string, id: string)
    ensures var seg := NameSegment(e, id);
      seg[..|WorkingAt|] == WorkingAt && seg[|WorkingAt|..|WorkingAt| + |Hyphenate(e)|] == Hyphenate(e)
  {
    var n := Hyphenate(e);
    var rest := "-EI_IE" + id;
    assert NameSegment(e, id) == WorkingAt + n + rest;
    OccursMid(WorkingAt, n, rest);
  }

  lemma CancelAround(p: string, a: string, b: string, q: string)
    requires p + a + q == p + b + q
    ensures a == b
  {
    assert |a| == |b|;
    assert (p + a + q)[|p|..|p| + |a|] == a;
    assert (p + b + q)[|p|..|p| + |b|] == b;
  }

  /** Text before the first comma. */
  lemma CommaSplit(x: string, u: string)
    requires NoChar(x, ',')
    ensures FindFrom(x + "," + u, ",", 0) == Some(|x|) && (x + "," + u)[..|x|] == x
  {
    var s := x + "," + u;
    forall j | 0 <= j < |x|
      ensures !OccursAt(s, ",", j)
    {
      assert s[j..j + 1][0] == s[j] == x[j];
    }
    assert s[|x|..|x| + 1] == ",";
    FindFromFirstAt(s, ",", 0, |x|);
  }

  /** Past its dot, the slice suffix is the start, then a comma. */
  lemma SliceHead(a: int, n: nat)
    ensures SliceSuffix(a, n)[1..] == IntToString(a) + "," + (IntToString(a + n) + ".htm")
  {
    var x := IntToString(a);
    var u := IntToString(a + n) + ".htm";
    assert SliceSuffix(a, n) == "." + (x + "," + u);
  }

  lemma NatStringNoComma(a: nat)
    ensures IntToString(a) == NatToString(a) && NoChar(NatToString(a), ',')
  {
  }

  /** Different non-negative starts give different slice suffixes. */
  lemma SliceStartInjective(a: nat, b: nat, n: nat)
    requires SliceSuffix(a, n) == SliceSuffix(b, n)
    ensures a == b
  {
    var x := NatToString(a);
    var y := NatToString(b);
    NatStringNoComma(a);
    NatStringNoComma(b);
    SliceHead(a, n);
    SliceHead(b, n);
    CommaSplit(x, IntToString(a + n) + ".htm");
    CommaSplit(y, IntToString(b + n) + ".htm");
    assert x == y;
  }

  /** The two builders agree exactly when the name does not occur inside
      `Working-at-`. */
  lemma OverviewAgrees(e: string, id: string, region: Option<Region>)
    requires NoChar(Hyphenate(e), '/') && NoChar(id, '/')
    ensures OverviewUrl(e, id, region) == OverviewUrlFixed(e, id, region) <==>
      forall j :: 0 <= j < |WorkingAt| ==> !OccursAt(NameSegment(e, id), Hyphenate(e), j)
  {
    NameStartFirst(e, id);
    var n := |Hyphenate(e)|;
    var start := NameStart(e, id);
    var stem := OverviewStem(e, id);
    var q := OverviewQuery(region);
    assert OverviewUrl(e, id, region) == stem + SliceSuffix(start, n) + q;
    assert OverviewUrlFixed(e, id, region) == stem + SliceSuffix(|WorkingAt|, n) + q;
    if OverviewUrl(e, id, region) == OverviewUrlFixed(e, id, region) {
      CancelAround(stem, SliceSuffix(start, n), SliceSuffix(|WorkingAt|, n), q);
      SliceStartInjective(start, |WorkingAt|, n);
    }
  }

  /** A name that starts with a capital other than `W` cannot occur inside
      `Working-at-`, so both builders agree on it. */
  lemma CapitalisedAgrees(e: string, id: string, region: Option<Region>)
    requires NoChar(Hyphenate(e), '/') && NoChar(id, '/')
    requires |Hyphenate(e)| > 0 && IsUpper(Hyphenate(e)[0]) && Hyphenate(e)[0] != 'W'
    ensures NameStart(e, id) == |WorkingAt|
    ensures OverviewUrl(e, id, region) == OverviewUrlFixed(e, id, region)
  {
    var n := Hyphenate(e);
    var seg := NameSegment(e, id);
    assert seg[..|WorkingAt|] == WorkingAt by { FixedSlice(e, id); }
    forall j | 0 <= j < |WorkingAt|
      ensures !OccursAt(seg, n, j)
    {
      if j + |n| <= |seg| {
        assert seg[j..j + |n|][0] == seg[j] == WorkingAt[j];
      }
    }
    OverviewAgrees(e, id, region);
    NameStartFirst(e, id);
  }

  // ---------------------------------------------------------------------------
  // extract_id and change_page on reviews URLs
  // ---------------------------------------------------------------------------

  /** No `-E` followed by a digit starts before the builder's `-E<id>`: the head
      holds no hyphen, the name no `-E`, and the next `k` characters after the
      name start with a hyphen that is not followed by `E`, then hold none. */
  lemma EmployerIdNotBefore(h: string, n: string, m: string, k: nat)
    requires NoChar(h, '-') && !Contains(n, "-E")
    requires 2 <= k <= |m| && m[0] == '-' && m[1] != 'E'
    requires forall j :: 0 < j < k ==> m[j] != '-'
    ensures forall i :: 0 <= i < |h| + |n| + k ==> GroupAt(EmployerIdPattern, h + n + m, i).None?
  {
    var s := h + n + m;
    var p := |h| + |n|;
    forall i | 0 <= i < p + k
      ensures !OccursAt(s, "-E", i)
    {
      if i + 2 <= |s| {
        assert s[i..i + 2][0] == s[i] && s[i..i + 2][1] == s[i + 1];
        if i < |h| {
          assert s[i] == h[i];
        } else if i + 2 <= p {
          assert s[i..i + 2] == n[i - |h|..i - |h| + 2];
          assert !OccursAt(n, "-E", i - |h|);
        } else if i + 1 == p {
          assert s[i + 1] == m[0];
        } else if i == p {
          assert s[i + 1] == m[1];
        } else {
          assert s[i] == m[i - p];
        }
      }
    }
  }

  /** The group of `-E(\d+)` at the builder's `-E<id>`. */
  lemma EmployerIdAtBuilt(h: string, id: string, t: string)
    requires |id| > 0 && AllDigits(id) && |t| > 0 && !IsDigit(t[0])
    ensures EmployerIdAt(h + ("-E" + id + t), |h|) == Some(id)
  {
    var m := "-E" + id + t;
    var s := h + m;
    assert s[|h|..|h| + 2] == "-E";
    forall j | |h| + 2 <= j < |h| + 2 + |id|
      ensures IsDigit(s[j])
    {
      assert s[j] == id[j - |h| - 2];
    }
    assert s[|h| + 2 + |id|] == t[0];
    DigitRunIs(s, |h| + 2, |id|);
    assert s[|h| + 2..|h| + 2 + |id|] == id;
  }

  lemma ReviewsTailFacts(id: string, t: string)
    ensures var m := "-Reviews" + ("-E" + id + t);
      |m| >= 8 && m[0] == '-' && m[1] != 'E' && (forall j :: 0 < j < 8 ==> m[j] != '-')
  {
  }

  /** The reviews URL splits into the head, the name, and the rest. */
  lemma ReviewsUrlParts(e: string, id: string, regions: Option<seq<Region>>)
    ensures var t := ".htm" + RegionQuery(regions);
      && ReviewsUrl(e, id, regions) == ReviewsHead + Hyphenate(e) + ("-Reviews" + ("-E" + id + t))
      && ReviewsUrl(e, id, regions) == (ReviewsHead + Hyphenate(e) + "-Reviews") + ("-E" + id + t)
  {
  }

  /** `-E(\d+)` first matches at the `-E` after `-Reviews`. */
  lemma ExtractBuilt(h: string, n: string, id: string, t: string)
    requires NoChar(h, '-') && !Contains(n, "-E") && |id| > 0 && AllDigits(id)
    requires |t| > 0 && !IsDigit(t[0])
    ensures var s := h + n + ("-Reviews" + ("-E" + id + t));
      SearchFrom(EmployerIdPattern, s, 0) == Some(|h| + |n| + 8)
      && EmployerIdAt(s, |h| + |n| + 8) == Some(id)
  {
    var m := "-Reviews" + ("-E" + id + t);
    var s := h + n + m;
    ReviewsTailFacts(id, t);
    EmployerIdNotBefore(h, n, m, 8);
    assert s == (h + n + "-Reviews") + ("-E" + id + t);
    EmployerIdAtBuilt(h + n + "-Reviews", id, t);
    SearchFirst(EmployerIdPattern, s, |h| + |n| + 8);
  }

  /** extract_id reads back the id a reviews URL was built with, when the
      hyphenated name holds no `-E`. */
  lemma ExtractReviews(e: string, id: string, regions: Option<seq<Region>>)
    requires !Contains(Hyphenate(e), "-E") && |id| > 0 && AllDigits(id)
    ensures ExtractId(Some(ReviewsUrl(e, id, regions))) == Id(DigitsValue(id))
  {
    var t := ".htm" + RegionQuery(regions);
    ReviewsUrlParts(e, id, regions);
    ReviewsHeadFacts();
    ExtractBuilt(ReviewsHead, Hyphenate(e), id, t);
  }

  /** `sep.join(parts)` keeps out a character that neither the separator nor
      any part holds. */
  lemma {:induction false} JoinNoChar(sep: string, parts: seq<string>, c: char)
    requires NoChar(sep, c) && forall i :: 0 <= i < |parts| ==> NoChar(parts[i], c)
    ensures NoChar(Join(sep, parts), c)
    decreases |parts|
  {
    if |parts| > 1 {
      JoinNoChar(sep, parts[1..], c);
      var rest := Join(sep, parts[1..]);
      var r := parts[0] + sep + rest;
      forall i | 0 <= i < |r|
        ensures r[i] != c
      {
        if i < |parts[0]| {
          assert r[i] == parts[0][i];
        } else if i < |parts[0]| + |sep| {
          assert r[i] == sep[i - |parts[0]|];
        } else {
          assert r[i] == rest[i - |parts[0]| - |sep|];
        }
      }
    }
  }

  /** The region query is empty or starts the query part, and holds neither
      `h` nor `?` past its start. */
  lemma RegionQueryFacts(regions: Option<seq<Region>>)
    ensures var q := RegionQuery(regions);
      Pages.IsQuery(q) && NoChar(q, 'h') && (|q| == 0 || NoChar(q[1..], '?'))
  {
    var q := RegionQuery(regions);
    if regions.Some? && |regions.value| > 0 {
      var fs := Filters(regions.value);
      forall i | 0 <= i < |fs|
        ensures NoChar(fs[i], 'h') && NoChar(fs[i], '?')
      {
        var v := Value(regions.value[i]);
        forall j | 0 <= j < |fs[i]|
          ensures fs[i][j] != 'h' && fs[i][j] != '?'
        {
          if j >= |FilterKey| {
            assert fs[i][j] == v[j - |FilterKey|];
          }
        }
      }
      JoinNoChar("&", fs, 'h');
      JoinNoChar("&", fs, '?');
      var j := Join("&", fs);
      assert q == "?" + j && q[1..] == j;
      forall i | 0 <= i < |q|
        ensures q[i] != 'h'
      {
        if i > 0 {
          assert q[i] == j[i - 1];
        }
      }
    }
  }

  /** No `htm` is split between x and y when x's last character cannot start
      one across the seam, or y's first cannot end one. */
  lemma NoHtmJoin(x: string, y: string)
    requires !Contains(x, "htm") && !Contains(y, "htm")
    requires (|x| > 0 && x[|x| - 1] != 'h' && x[|x| - 1] != 't') || (|y| > 0 && y[0] != 't' && y[0] != 'm')
    ensures !Contains(x + y, "htm")
  {
    var s := x + y;
    forall j | 0 <= j
      ensures !OccursAt(s, "htm", j)
    {
      if j + 3 <= |s| {
        if j + 3 <= |x| {
          assert s[j..j + 3] == x[j..j + 3];
          assert !OccursAt(x, "htm", j);
        } else if |x| <= j {
          assert s[j..j + 3] == y[j - |x|..j - |x| + 3];
          assert !OccursAt(y, "htm", j - |x|);
        } else if j + 1 == |x| {
          assert s[j..j + 3][0] == x[|x| - 1] && s[j..j + 3][1] == y[0];
        } else {
          assert s[j..j + 3][1] == x[|x| - 1] && s[j..j + 3][2] == y[0];
        }
      }
    }
  }

  /** The reviews path before `.htm`: no `htm`, `_`, or `?` in it when the name
      holds none. */
  lemma ReviewsStemFacts(e: string, id: string)
    requires !Contains(Hyphenate(e), "htm") && NoChar(Hyphenate(e), '_') && NoChar(Hyphenate(e), '?')
    requires AllDigits(id)
    ensures var a := ReviewsStem(e, id);
      !Contains(a, "htm") && NoChar(a, '_') && NoChar(a, '?')
  {
    var n := Hyphenate(e);
    var y := "-Reviews-E" + id;
    ReviewsHeadFacts();
    assert NoChar(y, 'h') && NoChar(y, '_') && NoChar(y, '?') by {
      forall i | 10 <= i < |y|
        ensures y[i] == id[i - 10]
      {
      }
    }
    NoCharNotContains(y, "htm", 0, 'h');
    NoHtmJoin(ReviewsHead, n);
    NoHtmJoin(ReviewsHead + n, y);
    var a := ReviewsHead + n + y;
    assert ReviewsStem(e, id) == a;
    forall i | 0 <= i < |a|
      ensures a[i] != '_' && a[i] != '?'
    {
      if i < |ReviewsHead| {
        assert a[i] == ReviewsHead[i];
      } else if i < |ReviewsHead| + |n| {
        assert a[i] == n[i - |ReviewsHead|];
      } else {
        assert a[i] == y[i - |ReviewsHead| - |n|];
      }
    }
  }

  /** For a name without `htm`, `_` or `?`, both rewrites put the page marker
      before the `.htm` and keep the region query. */
  lemma ReviewsPaging(e: string, id: string, regions: Option<seq<Region>>, page: int)
    requires !Contains(Hyphenate(e), "htm") && NoChar(Hyphenate(e), '_') && NoChar(Hyphenate(e), '?')
    requires AllDigits(id)
    ensures Pages.ChangePage(ReviewsUrl(e, id, regions), page)
      == Ok(ReviewsStem(e, id) + Pages.PageSuffix(page) + RegionQuery(regions))
    ensures Pages.ChangePageFixed(ReviewsUrl(e, id, regions), page)
      == Pages.ChangePage(ReviewsUrl(e, id, regions), page)
  {
    var a := ReviewsStem(e, id);
    var q := RegionQuery(regions);
    ReviewsStemFacts(e, id);
    RegionQueryFacts(regions);
    NoCharNotContains(a, "_P", 0, '_');
    NoCharNotContains(q, "htm", 0, 'h');
    Pages.ChangeFresh(a, q, page);
    Pages.ChangeAgrees(a, q, page);
  }

  /** The intended rewrite pages every reviews URL whose name holds no `_` or
      `?`, `htm` or not. */
  lemma ReviewsPagingFixed(e: string, id: string, regions: Option<seq<Region>>, page: int)
    requires NoChar(Hyphenate(e), '_') && NoChar(Hyphenate(e), '?') && AllDigits(id)
    ensures Pages.ChangePageFixed(ReviewsUrl(e, id, regions), page)
      == Ok(ReviewsStem(e, id) + Pages.PageSuffix(page) + RegionQuery(regions))
  {
    var n := Hyphenate(e);
    var a := ReviewsStem(e, id);
    var y := "-Reviews-E" + id;
    ReviewsHeadFacts();
    assert a == ReviewsHead + n + y;
    forall i | 0 <= i < |a|
      ensures a[i] != '_' && a[i] != '?'
    {
      if i < |ReviewsHead| {
        assert a[i] == ReviewsHead[i];
      } else if i < |ReviewsHead| + |n| {
        assert a[i] == n[i - |ReviewsHead|];
      } else if i >= |ReviewsHead| + |n| + 10 {
        assert a[i] == id[i - |ReviewsHead| - |n| - 10];
      }
    }
    RegionQueryFacts(regions);
    NoCharNotContains(a, "_P", 0, '_');
    Pages.NoMarkerNoStrip(a);
    Pages.FixedFresh(a, RegionQuery(regions), page);
  }

  /** The reviews URL of a name c + "htm" + d, split around the `htm`. */
  lemma ReviewsInNameParts(e: string, c: string, d: string, id: string)
    requires Hyphenate(e) == c + "htm" + d
    ensures ReviewsStem(e, id) == (ReviewsHead + c) + "htm" + (d + "-Reviews-E" + id)
  {
  }

  /** Text without `_` holds no `_P`. */
  lemma NoUnderscoreNoMarker(s: string)
    requires NoChar(s, '_')
    ensures !Contains(s, "_P")
  {
    NoCharNotContains(s, "_P", 0, '_');
  }

  /** The head and the part of the name before its `htm`. */
  lemma InNameLeft(c: string)
    requires !Contains(c, "htm") && NoChar(c, '_')
    ensures !Contains(ReviewsHead + c, "htm") && NoChar(ReviewsHead + c, '_')
  {
    var a := ReviewsHead + c;
    ReviewsHeadFacts();
    NoHtmJoin(ReviewsHead, c);
    forall i | 0 <= i < |a|
      ensures a[i] != '_'
    {
      if i < |ReviewsHead| {
        assert a[i] == ReviewsHead[i];
      } else {
        assert a[i] == c[i - |ReviewsHead|];
      }
    }
  }

  /** The reviews marker and the id. */
  lemma ReviewsMarkerFacts(id: string)
    requires AllDigits(id)
    ensures var y := "-Reviews-E" + id;
      |y| > 0 && y[0] == '-' && NoChar(y, 'h') && NoChar(y, '_') && !Contains(y, "htm")
  {
    var y := "-Reviews-E" + id;
    forall i | 10 <= i < |y|
      ensures y[i] == id[i - 10]
    {
    }
    NoCharNotContains(y, "htm", 0, 'h');
  }

  /** The part of the name after its `htm`, the marker and the id. */
  lemma InNameRight(d: string, id: string)
    requires !Contains(d, "htm") && NoChar(d, '_') && AllDigits(id)
    ensures !Contains(d + "-Reviews-E" + id, "htm") && NoChar(d + "-Reviews-E" + id, '_')
  {
    var y := "-Reviews-E" + id;
    var b := d + y;
    assert d + "-Reviews-E" + id == b;
    ReviewsMarkerFacts(id);
    NoHtmJoin(d, y);
    forall i | 0 <= i < |b|
      ensures b[i] != '_'
    {
      if i < |d| {
        assert b[i] == d[i];
      } else {
        assert b[i] == y[i - |d|];
      }
    }
  }

  /** The reviews URL of a name c + "htm" + d, split around the `htm`. */
  lemma ReviewsInNameUrl(e: string, c: string, d: string, id: string, regions: Option<seq<Region>>)
    requires Hyphenate(e) == c + "htm" + d
    ensures ReviewsUrl(e, id, regions) ==
      (ReviewsHead + c) + "htm" + (d + "-Reviews-E" + id) + ".htm" + RegionQuery(regions)
  {
  }

  /** The page marker set twice, as the source's rewrite leaves it. */
  lemma InNameResult(h: string, c: string, rep: string, b: string, q: string)
    requires |c| > 0
    ensures (h + c)[..|h + c| - 1] + rep + b + rep + q == h + c[..|c| - 1] + rep + b + rep + q
  {
    assert (h + c)[..|h + c| - 1] == h + c[..|c| - 1];
  }

  /** As written, a name holding `htm` loses the character before it, and the
      marker lands both inside the name and before the `.htm`. */
  lemma ReviewsNameHtm(e: string, c: string, d: string, id: string, regions: Option<seq<Region>>, page: int)
    requires Hyphenate(e) == c + "htm" + d
    requires |c| > 0 && c[|c| - 1] != '\n' && c[|c| - 1] != 'h' && c[|c| - 1] != '_'
    requires !Contains(c, "htm") && NoChar(c, '_') && !Contains(d, "htm") && NoChar(d, '_')
    requires AllDigits(id)
    ensures Pages.ChangePage(ReviewsUrl(e, id, regions), page) ==
      Ok(ReviewsHead + c[..|c| - 1] + Pages.PageSuffix(page) + (d + "-Reviews-E" + id)
         + Pages.PageSuffix(page) + RegionQuery(regions))
  {
    var a := ReviewsHead + c;
    var b := d + "-Reviews-E" + id;
    var q := RegionQuery(regions);
    InNameLeft(c);
    InNameRight(d, id);
    NoUnderscoreNoMarker(a);
    NoUnderscoreNoMarker(b);
    RegionQueryFacts(regions);
    NoCharNotContains(q, "htm", 0, 'h');
    ReviewsInNameUrl(e, c, d, id, regions);
    assert a[|a| - 1] == c[|c| - 1];
    Pages.ChangeInName(a, b, q, page);
    InNameResult(ReviewsHead, c, Pages.PageSuffix(page), b, q);
  }

  // ---------------------------------------------------------------------------
  // Worked examples
  // ---------------------------------------------------------------------------

  /** A name without spaces is used as it is. */
  lemma HyphenateNoSpace(e: string)
    requires NoChar(e, ' ')
    ensures Hyphenate(e) == e
  {
    HyphenateChars(e);
  }

  lemma OverviewUrlNone(e: string, id: string, start: int, n: nat)
    requires NameStart(e, id) == start && |Hyphenate(e)| == n
    ensures OverviewUrl(e, id, None) == OverviewStem(e, id) + SliceSuffix(start, n)
    ensures OverviewUrlFixed(e, id, None) == OverviewStem(e, id) + SliceSuffix(|WorkingAt|, n)
  {
  }

  lemma NvidiaStart(e: string, id: string)
    requires e == "NVIDIA" && id == "7633"
    ensures NameStart(e, id) == 11 && Hyphenate(e) == e
  {
    HyphenateNoSpace(e);
    assert NoChar(id, '/');
    CapitalisedAgrees(e, id, None);
  }

  /** The docstring's example: `Url.overview("NVIDIA", "7633")` carries the
      slice 11,17. */
  lemma OverviewNvidia(e: string, id: string)
    requires e == "NVIDIA" && id == "7633"
    ensures NameStart(e, id) == 11
    ensures OverviewUrl(e, id, None) == OverviewStem(e, id) + ".11,17.htm"
  {
    NvidiaStart(e, id);
    OverviewUrlNone(e, id, 11, 6);
    assert SliceSuffix(11, 6) == ".11,17.htm";
  }

  /** A first occurrence inside x is the first one in x + y. */
  lemma FindInPrefix(x: string, y: string, t: string, j: nat)
    requires j + |t| <= |x| && OccursAt(x, t, j)
    requires forall i :: 0 <= i < j ==> !OccursAt(x, t, i)
    ensures PyFind(x + y, t) == j
  {
    var s := x + y;
    forall i | 0 <= i <= j
      ensures OccursAt(s, t, i) == OccursAt(x, t, i)
    {
      assert s[i..i + |t|] == x[i..i + |t|];
    }
    FindFromFirstAt(s, t, 0, j);
  }

  lemma AtInWorkingAt()
    ensures OccursAt(WorkingAt, "at", 8) && forall i :: 0 <= i < 8 ==> !OccursAt(WorkingAt, "at", i)
  {
    forall i | 0 <= i < 8
      ensures !OccursAt(WorkingAt, "at", i)
    {
      assert WorkingAt[i..i + 2][0] == WorkingAt[i];
    }
  }

  lemma AtFind(e: string, id: string)
    requires e == "at" && id == "1"
    ensures PyFind(NameSegment(e, id), e) == 8
  {
    AtInWorkingAt();
    FindInPrefix(WorkingAt, e + "-EI_IE" + id, e, 8);
    assert NameSegment(e, id) == WorkingAt + (e + "-EI_IE" + id);
  }

  /** The slice start is where the hyphenated name is first found in the
      segment. */
  lemma NameStartIs(e: string, id: string)
    requires NoChar(Hyphenate(e), '/') && NoChar(id, '/')
    ensures NameStart(e, id) == PyFind(NameSegment(e, id), Hyphenate(e))
  {
    SegmentIs(e, id);
  }

  lemma AtStart(e: string, id: string)
    requires e == "at" && id == "1"
    ensures NameStart(e, id) == 8 && Hyphenate(e) == e
  {
    HyphenateNoSpace(e);
    NameStartIs(e, id);
    AtFind(e, id);
  }

  /** As written, the name "at" is found inside `Working-at-`, so the slice
      is 8,10 instead of 11,13. */
  lemma OverviewAt(e: string, id: string)
    requires e == "at" && id == "1"
    ensures NameStart(e, id) == 8
    ensures OverviewUrl(e, id, None) == OverviewStem(e, id) + ".8,10.htm"
    ensures OverviewUrlFixed(e, id, None) == OverviewStem(e, id) + ".11,13.htm"
  {
    AtStart(e, id);
    OverviewUrlNone(e, id, 8, 2);
    AtSlices();
  }

  lemma AtSlices()
    ensures SliceSuffix(8, 2) == ".8,10.htm" && SliceSuffix(11, 2) == ".11,13.htm"
  {
  }

  lemma LightmatterParts(e: string, c: string, d: string)
    requires e == "Lightmatter" && c == "Lig" && d == "atter"
    ensures Hyphenate(e) == c + "htm" + d
    ensures |c| > 0 && c[|c| - 1] == 'g' && c[..|c| - 1] == "Li"
    ensures !Contains(c, "htm") && NoChar(c, '_') && !Contains(d, "htm") && NoChar(d, '_')
    ensures NoChar(Hyphenate(e), '_') && NoChar(Hyphenate(e), '?')
  {
    HyphenateNoSpace(e);
    NoCharNotContains(c, "htm", 1, 't');
    NoCharNotContains(d, "htm", 0, 'h');
  }

  /** As written, paging the reviews URL of "Lightmatter" rewrites the `ghtm`
      inside the name; the intended rewrite only sets the marker. */
  lemma ReviewsLightmatter(e: string, id: string, c: string, d: string)
    requires e == "Lightmatter" && id == "1" && c == "Lig" && d == "atter"
    ensures Pages.ChangePage(ReviewsUrl(e, id, None), 2)
      == Ok(ReviewsHead + "Li" + "_P2.htm" + (d + "-Reviews-E" + id) + "_P2.htm")
    ensures Pages.ChangePageFixed(ReviewsUrl(e, id, None), 2)
      == Ok(ReviewsStem(e, id) + "_P2.htm")
  {
    LightmatterParts(e, c, d);
    var rep := Pages.PageSuffix(2);
    assert rep == "_P2.htm";
    assert RegionQuery(None) == "";
    ReviewsNameHtm(e, c, d, id, None, 2);
    var x := ReviewsHead + c[..|c| - 1] + rep + (d + "-Reviews-E" + id) + rep;
    assert x + "" == x;
    ReviewsPagingFixed(e, id, None, 2);
    assert ReviewsStem(e, id) + rep + "" == ReviewsStem(e, id) + rep;
  }
}
