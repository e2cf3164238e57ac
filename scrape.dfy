/** `scrape_data` (scraper/glassdoor.py): the pagination loop that fetches each
    page of a reviews listing, parses the overview once and merges the reviews
    of every page.

    The number of pages is fixed before the loop: `max_pages`, or 20 when it is
    not given (or is 0).  The reassignment of `total_pages` after the overview is
    parsed does not change the `range` the loop already iterates over; its one
    effect is the subscript `overview["number_of_pages"]`, which raises
    TypeError when the overview came back as `None` and no `max_pages` was
    given.  Page 1 is the URL itself, every later page the URL with its page
    marker set.  The `asyncio.sleep` between pages is left out.
 */
module Scrape {
  import opened Wrappers
  import opened Text
  import opened Json
  import OD = OrderedDict
  import Pages
  import Urls
  import Apollo
  import Overview
  import Reviews

  const DefaultPages: int := 20
  const CountryKey: string := "filter.countryId"
  /** The query appended to a URL without a country filter. */
  const CountryFilter: string := "?" + CountryKey + "=1&" + CountryKey + "=3"

  /** The initial `overview = {}`, or what `parse_overview` returned. */
  datatype Seen = Unset | Parsed(value: Option<Overview.Overview>)

  /** The loop's state: `overview` and `reviews`; `overview_parsed` is
      `overview.Parsed?`. */
  datatype Scraped = Scraped(overview: Seen, reviews: Reviews.ReviewMap)

  /** The three steps of a page, as functions of the URL and of the decoded
      state: `get_apollo`, `parse_overview` and `parse_reviews`. */
  datatype Steps = Steps(
    apollo: string -> Result<Json>,
    overview: Json -> Result<Option<Overview.Overview>>,
    reviews: Json -> Result<Reviews.ReviewMap>)

  /** The steps as the rest of this model defines them. */
  function StepsOf(env: Apollo.Env): Steps {
    Steps(u => Apollo.GetApolloSpec(env, u), c => Overview.ParseOverviewSpec(c), c => Reviews.ParseReviewsSpec(c, env.isIso))
  }

  /** `max_pages` is truthy. */
  predicate MaxGiven(maxPages: Option<int>) {
    maxPages.Some? && maxPages.value != 0
  }

  /** `max_pages if max_pages else 20`. */
  function TotalPages(maxPages: Option<int>): int {
    if MaxGiven(maxPages) then maxPages.value else DefaultPages
  }

  /** The URL with the country filters, unless it already has one. */
  function WithFilter(url: string): (r: string)
    ensures Contains(r, CountryKey)
    ensures r == url <==> Contains(url, CountryKey)
    ensures url <= r
  {
    if Contains(url, CountryKey) then url
    else
      FilterAppended(url);
      url + CountryFilter
  }

  lemma FilterAppended(url: string)
    ensures Contains(url + CountryFilter, CountryKey)
  {
    var rest := "=1&" + CountryKey + "=3";
    assert url + CountryFilter == (url + "?") + CountryKey + rest;
    OccursMid(url + "?", CountryKey, rest);
    ContainsAt(url + CountryFilter, CountryKey, |url| + 1);
  }

  /** `url if page_num == 1 else Url.change_page(url, page=page_num)`, with the
      rewrite as written (see `Pages.ChangePage`). */
  function PageUrl(url: string, n: int): Result<string> {
    if n == 1 then Ok(url) else Pages.ChangePage(url, n)
  }

  /** The overview of the first page with state, and the subscript that follows
      it when no `max_pages` was given. */
  function FirstOverview(g: Steps, cache: Json, maxPages: Option<int>): Result<Option<Overview.Overview>> {
    var o :- g.overview(cache);
    if !MaxGiven(maxPages) && o.None? then Raise(TypeError) else Ok(o)
  }

  /** The overview after a page with state: parsed on the first such page only. */
  function OverviewOf(g: Steps, cache: Json, maxPages: Option<int>, seen: Seen): Result<Seen> {
    if seen.Parsed? then Ok(seen)
    else
      var o :- FirstOverview(g, cache, maxPages);
      Ok(Parsed(o))
  }

  /** One page's work on the state it finds: a page without state is skipped. */
  function Visit(g: Steps, maxPages: Option<int>, cache: Json, st: Scraped): Result<Scraped> {
    if !Truthy(cache) then Ok(st)
    else
      var seen :- OverviewOf(g, cache, maxPages, st.overview);
      var found :- g.reviews(cache);
      Ok(Scraped(seen, OD.Update(st.reviews, found)))
  }

  /** Pages n to total, in order. */
  function Loop(g: Steps, url: string, maxPages: Option<int>, n: int, total: int, st: Scraped): Result<Scraped>
    decreases total + 1 - n
  {
    if n > total then Ok(st)
    else
      var st' :- Step(g, url, maxPages, n, st);
      Loop(g, url, maxPages, n + 1, total, st')
  }

  /** Page n: build its URL, fetch its state, visit it. */
  function Step(g: Steps, url: string, maxPages: Option<int>, n: int, st: Scraped): Result<Scraped> {
    var pageUrl :- PageUrl(url, n);
    var cache :- g.apollo(pageUrl);
    Visit(g, maxPages, cache, st)
  }

  /** `return {}, {}` when no reviews were collected. */
  function Finish(st: Scraped): Scraped {
    if |st.reviews| == 0 then Scraped(Unset, []) else st
  }

  /** `scrape_data(url, max_pages)`. */
  function ScrapeSpec(g: Steps, url: string, maxPages: Option<int>): Result<Scraped> {
    var st :- Loop(g, WithFilter(url), maxPages, 1, TotalPages(maxPages), Scraped(Unset, []));
    Ok(Finish(st))
  }

  method ScrapeData(env: Apollo.Env, url: string, maxPages: Option<int>) returns (r: Result<Scraped>)
    ensures r == ScrapeSpec(StepsOf(env), url, maxPages)
  {
    var total := TotalPages(maxPages);
    var u := url;
    if !Contains(u, CountryKey) {
      u := u + CountryFilter;
    }
    assert u == WithFilter(url);
    var res := PagesLoop(env, u, maxPages, total);
    if res.Raise? {
      return Raise(res.exc);
    }
    var st := res.value;
    if |st.reviews| == 0 {
      return Ok(Scraped(Unset, []));
    }
    return Ok(st);
  }

  /** `for page_num in range(1, total_pages + 1): ...` */
  method PagesLoop(env: Apollo.Env, u: string, maxPages: Option<int>, total: int) returns (r: Result<Scraped>)
    ensures r == Loop(StepsOf(env), u, maxPages, 1, total, Scraped(Unset, []))
  {
    ghost var g := StepsOf(env);
    var st := Scraped(Unset, []);
    var n := 1;
    while n <= total
      invariant Loop(g, u, maxPages, 1, total, Scraped(Unset, [])) == Loop(g, u, maxPages, n, total, st)
      decreases total + 1 - n
    {
      var next := ScrapePage(env, u, maxPages, n, st);
      if next.Raise? {
        return Raise(next.exc);
      }
      st := next.value;
      n := n + 1;
    }
    return Ok(st);
  }

  /** The body of the loop. */
  method ScrapePage(env: Apollo.Env, url: string, maxPages: Option<int>, n: int, st: Scraped) returns (r: Result<Scraped>)
    ensures r == Step(StepsOf(env), url, maxPages, n, st)
  {
    var pageUrl := PageUrl(url, n);
    if pageUrl.Raise? {
      return Raise(pageUrl.exc);
    }
    var cache := Apollo.GetApollo(env, pageUrl.value);
    if cache.Raise? {
      return Raise(cache.exc);
    }
    r := VisitPage(env, maxPages, cache.value, st);
  }

  /** A fetched page. */
  method VisitPage(env: Apollo.Env, maxPages: Option<int>, cache: Json, st: Scraped) returns (r: Result<Scraped>)
    ensures r == Visit(StepsOf(env), maxPages, cache, st)
  {
    if !Truthy(cache) {
      return Ok(st);   // continue
    }
    var seen := OverviewPage(env, maxPages, cache, st.overview);
    if seen.Raise? {
      return Raise(seen.exc);
    }
    var found := Reviews.ParseReviews(cache, env.isIso);
    if found.Raise? {
      return Raise(found.exc);
    }
    return Ok(Scraped(seen.value, OD.Update(st.reviews, found.value)));
  }

  /** `if not overview_parsed: ...` */
  method OverviewPage(env: Apollo.Env, maxPages: Option<int>, cache: Json, seen: Seen) returns (r: Result<Seen>)
    ensures r == OverviewOf(StepsOf(env), cache, maxPages, seen)
  {
    if seen.Parsed? {
      return Ok(seen);
    }
    var o := Overview.ParseOverview(cache);
    if o.Raise? {
      return Raise(o.exc);
    }
    if !MaxGiven(maxPages) && o.value.None? {
      return Raise(TypeError);   // None["number_of_pages"]
    }
    return Ok(Parsed(o.value));
  }

  // ---------------------------------------------------------------------------
  // The pages the loop visits
  // ---------------------------------------------------------------------------

  /** The state of pages n to total when every page URL can be built and every
      fetch returns without raising. */
  function Fetched(g: Steps, url: string, n: int, total: int): Option<seq<Json>>
    decreases total + 1 - n
  {
    if n > total then Some([])
    else
      match PageUrl(url, n)
      case Raise(_) => None
      case Ok(pageUrl) =>
        match g.apollo(pageUrl)
        case Raise(_) => None
        case Ok(cache) =>
          match Fetched(g, url, n + 1, total)
          case None => None
          case Some(rest) => Some([cache] + rest)
  }

  /** The visits of a list of page states, in order. */
  function Visits(g: Steps, maxPages: Option<int>, caches: seq<Json>, st: Scraped): Result<Scraped>
    decreases |caches|
  {
    if |caches| == 0 then Ok(st)
    else
      var st' :- Visit(g, maxPages, caches[0], st);
      Visits(g, maxPages, caches[1..], st')
  }

  /** When nothing raises on the way, the loop visits exactly the pages n to
      total, whatever those pages say. */
  lemma {:induction false} LoopVisits(g: Steps, url: string, maxPages: Option<int>, n: int, total: int,
                                      st: Scraped, caches: seq<Json>)
    requires Fetched(g, url, n, total) == Some(caches)
    ensures Loop(g, url, maxPages, n, total, st) == Visits(g, maxPages, caches, st)
    decreases total + 1 - n
  {
    if n <= total {
      var pageUrl := PageUrl(url, n).value;
      var cache := g.apollo(pageUrl).value;
      var rest := Fetched(g, url, n + 1, total).value;
      assert caches == [cache] + rest;
      assert caches[1..] == rest;
      match Visit(g, maxPages, cache, st)
      case Raise(_) =>
      case Ok(st') =>
        LoopVisits(g, url, maxPages, n + 1, total, st', rest);
    }
  }

  /** One state per page from n to total. */
  lemma {:induction false} FetchedLength(g: Steps, url: string, n: int, total: int, caches: seq<Json>)
    requires Fetched(g, url, n, total) == Some(caches)
    ensures |caches| == if n <= total then total + 1 - n else 0
    decreases total + 1 - n
  {
    if n <= total {
      var rest := Fetched(g, url, n + 1, total).value;
      FetchedLength(g, url, n + 1, total, rest);
    }
  }

  /** `scrape_data` visits exactly `max_pages` pages, or 20 without it: the
      number of pages the overview reports changes nothing. */
  lemma ScrapeVisitsAll(g: Steps, url: string, maxPages: Option<int>, caches: seq<Json>)
    requires Fetched(g, WithFilter(url), 1, TotalPages(maxPages)) == Some(caches)
    ensures !MaxGiven(maxPages) ==> |caches| == DefaultPages
    ensures MaxGiven(maxPages) ==> |caches| == if maxPages.value >= 1 then maxPages.value else 0
    ensures ScrapeSpec(g, url, maxPages) == match Visits(g, maxPages, caches, Scraped(Unset, []))
      case Ok(st) => Ok(Finish(st))
      case Raise(e) => Raise(e)
  {
    FetchedLength(g, WithFilter(url), 1, TotalPages(maxPages), caches);
    LoopVisits(g, WithFilter(url), maxPages, 1, TotalPages(maxPages), Scraped(Unset, []), caches);
  }

  /** A negative `max_pages` is truthy and gives an empty range: nothing is
      fetched and the result is two empty dicts. */
  lemma NegativeMaxPages(g: Steps, url: string, m: int)
    requires m < 0
    ensures ScrapeSpec(g, url, Some(m)) == Ok(Scraped(Unset, []))
  {
  }

  // ---------------------------------------------------------------------------
  // What the visits collect
  // ---------------------------------------------------------------------------

  function Truthful(caches: seq<Json>): (r: seq<Json>)
    ensures forall i :: 0 <= i < |r| ==> Truthy(r[i])
    decreases |caches|
  {
    if |caches| == 0 then []
    else if Truthy(caches[0]) then [caches[0]] + Truthful(caches[1..])
    else Truthful(caches[1..])
  }

  /** Pages without state are skipped: dropping them changes nothing. */
  lemma {:induction false} SkipEmptyPages(g: Steps, maxPages: Option<int>, caches: seq<Json>, st: Scraped)
    ensures Visits(g, maxPages, caches, st) == Visits(g, maxPages, Truthful(caches), st)
    decreases |caches|
  {
    if |caches| > 0 {
      var t := Truthful(caches[1..]);
      if Truthy(caches[0]) {
        assert Truthful(caches) == [caches[0]] + t;
        assert Truthful(caches)[1..] == t;
        match Visit(g, maxPages, caches[0], st)
        case Raise(_) =>
        case Ok(st') =>
          SkipEmptyPages(g, maxPages, caches[1..], st');
      } else {
        SkipEmptyPages(g, maxPages, caches[1..], st);
      }
    }
  }

  /** Once parsed, the overview is never parsed again. */
  lemma {:induction false} OverviewKept(g: Steps, maxPages: Option<int>, caches: seq<Json>, st: Scraped)
    requires st.overview.Parsed? && Visits(g, maxPages, caches, st).Ok?
    ensures Visits(g, maxPages, caches, st).value.overview == st.overview
    decreases |caches|
  {
    if |caches| > 0 {
      var st' := Visit(g, maxPages, caches[0], st).value;
      OverviewKept(g, maxPages, caches[1..], st');
    }
  }

  /** The overview is the one of the first page with state; before it, nothing
      changes. */
  lemma {:induction false} OverviewOfFirstPage(g: Steps, maxPages: Option<int>, caches: seq<Json>,
                                               d: Reviews.ReviewMap, i: nat)
    requires i < |caches| && Truthy(caches[i]) && forall j :: 0 <= j < i ==> !Truthy(caches[j])
    requires Visits(g, maxPages, caches, Scraped(Unset, d)).Ok?
    ensures g.overview(caches[i]).Ok?
    ensures Visits(g, maxPages, caches, Scraped(Unset, d)).value.overview
      == Parsed(g.overview(caches[i]).value)
    decreases i
  {
    if i == 0 {
      var st' := Visit(g, maxPages, caches[0], Scraped(Unset, d)).value;
      OverviewKept(g, maxPages, caches[1..], st');
    } else {
      OverviewOfFirstPage(g, maxPages, caches[1..], d, i - 1);
    }
  }

  /** Without `max_pages`, a first page whose overview is `None` raises
      TypeError at the subscript. */
  lemma {:induction false} NoOverviewRaises(g: Steps, maxPages: Option<int>, caches: seq<Json>,
                                            d: Reviews.ReviewMap, i: nat)
    requires i < |caches| && Truthy(caches[i]) && forall j :: 0 <= j < i ==> !Truthy(caches[j])
    requires !MaxGiven(maxPages) && g.overview(caches[i]) == Ok(None)
    ensures Visits(g, maxPages, caches, Scraped(Unset, d)) == Raise(TypeError)
    decreases i
  {
    if i > 0 {
      NoOverviewRaises(g, maxPages, caches[1..], d, i - 1);
    }
  }

  /** Where a review id's record comes from: the last page with state whose
      reviews hold it, else the reviews already collected. */
  function LastRecord(g: Steps, caches: seq<Json>, k: Json, prior: Option<Reviews.Extracted>): Option<Reviews.Extracted>
    decreases |caches|
  {
    if |caches| == 0 then prior
    else
      var page := g.reviews(caches[0]);
      var here := if Truthy(caches[0]) && page.Ok? && k in OD.Keys(page.value) then OD.Get(page.value, k) else prior;
      LastRecord(g, caches[1..], k, here)
  }

  /** `reviews.update(new_reviews)` on every page: each id appears once, and the
      last page that has it wins. */
  lemma {:induction false} ReviewsMerged(g: Steps, maxPages: Option<int>, caches: seq<Json>, st: Scraped)
    requires OD.NoDupKeys(st.reviews) && Visits(g, maxPages, caches, st).Ok?
    ensures OD.NoDupKeys(Visits(g, maxPages, caches, st).value.reviews)
    ensures forall k :: (OD.Get(Visits(g, maxPages, caches, st).value.reviews, k)
      == LastRecord(g, caches, k, OD.Get(st.reviews, k)))
    decreases |caches|
  {
    if |caches| > 0 {
      var st' := Visit(g, maxPages, caches[0], st).value;
      if Truthy(caches[0]) {
        var found := g.reviews(caches[0]).value;
        assert st'.reviews == OD.Update(st.reviews, found);
        OD.UpdateProps(st.reviews, found);
      }
      ReviewsMerged(g, maxPages, caches[1..], st');
    }
  }

  /** The state keeps a parsed overview whenever it holds reviews. */
  predicate Consistent(st: Scraped) {
    |st.reviews| > 0 ==> st.overview.Parsed?
  }

  lemma {:induction false} LoopConsistent(g: Steps, url: string, maxPages: Option<int>, n: int, total: int, st: Scraped)
    requires Consistent(st) && Loop(g, url, maxPages, n, total, st).Ok?
    ensures Consistent(Loop(g, url, maxPages, n, total, st).value)
    decreases total + 1 - n
  {
    if n <= total {
      var st' := Step(g, url, maxPages, n, st).value;
      LoopConsistent(g, url, maxPages, n + 1, total, st');
    }
  }

  /** The result is two empty dicts when no reviews were collected, and
      otherwise holds the parsed overview with the reviews. */
  lemma ScrapeResult(g: Steps, url: string, maxPages: Option<int>)
    requires ScrapeSpec(g, url, maxPages).Ok?
    ensures |ScrapeSpec(g, url, maxPages).value.reviews| == 0 ==> ScrapeSpec(g, url, maxPages).value == Scraped(Unset, [])
    ensures |ScrapeSpec(g, url, maxPages).value.reviews| > 0 ==> ScrapeSpec(g, url, maxPages).value.overview.Parsed?
  {
    LoopConsistent(g, WithFilter(url), maxPages, 1, TotalPages(maxPages), Scraped(Unset, []));
  }

  // ---------------------------------------------------------------------------
  // The page URLs of a reviews listing
  // ---------------------------------------------------------------------------

  /** The query appended is the one `Url.reviews` builds for the United States
      and English-speaking Canada. */
  lemma CountryFilterIsRegions()
    ensures CountryFilter == Urls.RegionQuery(Some([Urls.UnitedStates, Urls.CanadaEnglish]))
  {
    var rs := [Urls.UnitedStates, Urls.CanadaEnglish];
    var fs := Urls.Filters(rs);
    RegionValues();
    assert fs == [Urls.FilterKey + "1", Urls.FilterKey + "3"];
    JoinTwo(Urls.FilterKey + "1", Urls.FilterKey + "3");
    assert Urls.FilterKey == CountryKey + "=";
  }

  lemma RegionValues()
    ensures Urls.Value(Urls.UnitedStates) == "1" && Urls.Value(Urls.CanadaEnglish) == "3"
  {
  }

  lemma JoinTwo(a: string, b: string)
    ensures Urls.Join("&", [a, b]) == a + "&" + b
  {
    assert [a, b][1..] == [b];
  }

  /** A reviews URL built with regions already has a country filter, and each
      later page of it differs only in the page marker, when the name holds no
      `htm`. */
  lemma RegionPages(e: string, id: string, rs: seq<Urls.Region>, n: int)
    requires |rs| > 0 && n != 1
    requires !Contains(Urls.Hyphenate(e), "htm")
    requires NoChar(Urls.Hyphenate(e), '_') && NoChar(Urls.Hyphenate(e), '?') && AllDigits(id)
    ensures WithFilter(Urls.ReviewsUrl(e, id, Some(rs))) == Urls.ReviewsUrl(e, id, Some(rs))
    ensures PageUrl(Urls.ReviewsUrl(e, id, Some(rs)), n)
      == Ok(Urls.ReviewsStem(e, id) + Pages.PageSuffix(n) + Urls.RegionQuery(Some(rs)))
  {
    RegionsHaveKey(e, id, rs);
    Urls.ReviewsPaging(e, id, Some(rs), n);
  }

  /** A name holding `htm` is paged as `Url.change_page` is written: the later
      pages the loop fetches lose the character before the `htm` and carry the
      marker twice. */
  lemma RegionPagesInName(e: string, c: string, d: string, id: string, rs: seq<Urls.Region>, n: int)
    requires |rs| > 0 && n != 1
    requires Urls.Hyphenate(e) == c + "htm" + d
    requires |c| > 0 && c[|c| - 1] != '\n' && c[|c| - 1] != 'h' && c[|c| - 1] != '_'
    requires !Contains(c, "htm") && NoChar(c, '_') && !Contains(d, "htm") && NoChar(d, '_')
    requires AllDigits(id)
    ensures WithFilter(Urls.ReviewsUrl(e, id, Some(rs))) == Urls.ReviewsUrl(e, id, Some(rs))
    ensures PageUrl(Urls.ReviewsUrl(e, id, Some(rs)), n)
      == Ok(Urls.ReviewsHead + c[..|c| - 1] + Pages.PageSuffix(n) + (d + "-Reviews-E" + id)
            + Pages.PageSuffix(n) + Urls.RegionQuery(Some(rs)))
  {
    RegionsHaveKey(e, id, rs);
    Urls.ReviewsNameHtm(e, c, d, id, Some(rs), n);
  }

  lemma RegionsHaveKey(e: string, id: string, rs: seq<Urls.Region>)
    requires |rs| > 0
    ensures Contains(Urls.ReviewsUrl(e, id, Some(rs)), CountryKey)
  {
    var a := Urls.ReviewsStem(e, id) + ".htm";
    var j := Urls.Join("&", Urls.Filters(rs));
    JoinStartsWithKey(rs);
    var rest := j[|CountryKey|..];
    assert j == CountryKey + rest;
    assert Urls.ReviewsUrl(e, id, Some(rs)) == (a + "?") + CountryKey + rest;
    OccursMid(a + "?", CountryKey, rest);
    ContainsAt(Urls.ReviewsUrl(e, id, Some(rs)), CountryKey, |a| + 1);
  }

  lemma JoinStartsWithKey(rs: seq<Urls.Region>)
    requires |rs| > 0
    ensures CountryKey <= Urls.Join("&", Urls.Filters(rs))
  {
    var fs := Urls.Filters(rs);
    assert fs[0] == Urls.FilterKey + Urls.Value(rs[0]);
    assert CountryKey <= fs[0];
    if |fs| > 1 {
      assert Urls.Join("&", fs) == fs[0] + ("&" + Urls.Join("&", fs[1..]));
    }
  }
}
