/** `get_apollo` end to end (scraper/glassdoor.py): fetch the page with the
    retry loop, find the state text among its scripts, rewrite the GraphQL call
    keys and decode the result.

    Everything outside the scraper is an input collected in `Env`: the network
    (the outcome of each attempt for each URL), the HTML parser (a page body to
    its script elements), the JSON parser (a text to its syntax tree, keeping
    duplicate keys, or `None` for a text that is not JSON) and
    `datetime.fromisoformat` (whether a text is an ISO date-time).
 */
module Apollo {
  import opened Wrappers
  import opened Text
  import opened Json
  import OD = OrderedDict
  import Retry
  import Locator
  import GraphQLKeys

  datatype Env = Env(
    fetch: string -> nat -> Retry.Outcome,
    scripts: string -> seq<Locator.Script>,
    parse: string -> Option<Json>,
    isIso: string -> bool)

  const CacheMarker: string := "apolloCache"

  /** `json.loads(text)`: the parsed tree with every object made a dict. */
  function Loads(text: string, parse: string -> Option<Json>): Result<Json> {
    match parse(text)
    case None => Raise(JsonDecodeError)
    case Some(raw) => Ok(Normalize(raw))
  }

  /** The last step of `get_apollo`: a text that mentions `apolloCache` is a
      Next.js page whose cache sits at `props.pageProps.apolloCache`; any other
      text is decoded, dumped and decoded again. */
  function Load(text: string, parse: string -> Option<Json>): Result<Json> {
    var data :- Loads(text, parse);
    if Contains(text, CacheMarker) then
      var props :- Index(data, "props");
      var pageProps :- Index(props, "pageProps");
      Index(pageProps, CacheMarker)
    else
      Ok(Normalize(data))
  }

  /** A page of the newer kind answers its `props.pageProps.apolloCache` object. */
  lemma LoadCache(text: string, parse: string -> Option<Json>, raw: Json,
                  top: seq<(string, Json)>, props: seq<(string, Json)>, pageProps: seq<(string, Json)>, cache: Json)
    requires Contains(text, CacheMarker) && parse(text) == Some(raw)
    requires Normalize(raw) == JObj(top) && OD.Get(top, "props") == Some(JObj(props))
    requires OD.Get(props, "pageProps") == Some(JObj(pageProps)) && OD.Get(pageProps, CacheMarker) == Some(cache)
    ensures Load(text, parse) == Ok(cache)
  {
  }

  /** On a page of the newer kind, a decoded document without
      `props.pageProps.apolloCache` makes the loader raise KeyError. */
  lemma LoadCacheMissing(text: string, parse: string -> Option<Json>, raw: Json, top: seq<(string, Json)>)
    requires Contains(text, CacheMarker) && parse(text) == Some(raw)
    requires Normalize(raw) == JObj(top) && "props" !in OD.Keys(top)
    ensures Load(text, parse) == Raise(KeyError)
  {
  }

  /** Any other page answers the decoded object itself: every object with unique
      keys (the last duplicate wins), and dumping and decoding it again changes
      nothing. */
  lemma LoadPlain(text: string, parse: string -> Option<Json>, raw: Json)
    requires !Contains(text, CacheMarker) && parse(text) == Some(raw)
    ensures Load(text, parse) == Ok(Normalize(raw))
    ensures IsNormal(Load(text, parse).value)
    ensures Normalize(Load(text, parse).value) == Load(text, parse).value
  {
    NormalizeIdempotent(raw);
    NormalizeIsNormal(raw);
  }

  /** A text that is not JSON raises JSONDecodeError. */
  lemma LoadNotJson(text: string, parse: string -> Option<Json>)
    requires parse(text).None?
    ensures Load(text, parse) == Raise(JsonDecodeError)
  {
  }

  // ---------------------------------------------------------------------------
  // The whole of get_apollo
  // ---------------------------------------------------------------------------

  /** The value `get_apollo(url)` returns, with Python's `None` as `JNull`. */
  function GetApolloSpec(env: Env, url: string): Result<Json> {
    var stop := Retry.RetryRun(env.fetch(url));
    if !stop.exit.Success? then Ok(JNull)
    else
      match Locator.Locate(env.scripts(stop.exit.body))
      case None => Raise(TypeError)   // re.findall on the None of an empty __NEXT_DATA__ script
      case Some(text) =>
        var rewritten :- GraphQLKeys.Rewrite(text);
        Load(rewritten, env.parse)
  }

  method GetApollo(env: Env, url: string) returns (r: Result<Json>)
    ensures r == GetApolloSpec(env, url)
  {
    var stop := Retry.FetchLoop(env.fetch(url));
    if !stop.exit.Success? {
      return Ok(JNull);
    }
    var text := Locator.Locate(env.scripts(stop.exit.body));
    if text.None? {
      return Raise(TypeError);
    }
    var rewritten := GraphQLKeys.RewriteKeys(text.value);
    if rewritten.Raise? {
      return Raise(rewritten.exc);
    }
    r := Load(rewritten.value, env.parse);
  }

  /** `None` (here `JNull`) comes back when the fetch gave up: a cap was
      reached or another request error occurred.  The only other way to it is a
      fetched page whose state text, rewritten, decodes to `null`. */
  lemma GetApolloFailedFetch(env: Env, url: string)
    ensures var stop := Retry.RetryRun(env.fetch(url));
      (stop.http == Retry.MaxHttpAttempts || stop.network == Retry.MaxNetworkAttempts || stop.exit.Aborted?) ==>
      GetApolloSpec(env, url) == Ok(JNull)
    ensures var stop := Retry.RetryRun(env.fetch(url));
      GetApolloSpec(env, url) == Ok(JNull) ==>
        stop.http == Retry.MaxHttpAttempts || stop.network == Retry.MaxNetworkAttempts || stop.exit.Aborted? ||
        (stop.exit.Success? &&
         var text := Locator.Locate(env.scripts(stop.exit.body));
         text.Some? && GraphQLKeys.Rewrite(text.value).Ok? &&
         Load(GraphQLKeys.Rewrite(text.value).value, env.parse) == Ok(JNull))
  {
    Retry.RetryProps(env.fetch(url));
  }

  /** A fetched page whose `__NEXT_DATA__` text is `null` also comes back as
      `None`: `json.loads("null")` is None, and the text has no `apolloCache`. */
  lemma GetApolloNullState(env: Env, url: string, i: nat)
    requires Retry.RetryRun(env.fetch(url)).exit.Success?
    requires var page := env.scripts(Retry.RetryRun(env.fetch(url)).exit.body);
      i < |page| && Locator.IsNextData(page[i]) && (forall j :: 0 <= j < i ==> !Locator.IsNextData(page[j])) &&
      page[i].text == "null" && env.parse("null") == Some(JNull)
    ensures GetApolloSpec(env, url) == Ok(JNull)
  {
    var page := env.scripts(Retry.RetryRun(env.fetch(url)).exit.body);
    Locator.LocateNextData(page, i);
    GraphQLKeys.RewriteNoQuote("null");
    assert !Contains("null", CacheMarker);
  }

  /** A fetched page in which no script holds the state leaves the state text
      empty, and decoding the empty text raises JSONDecodeError: such a page does
      not come back as `None`. */
  lemma GetApolloNoState(env: Env, url: string)
    requires Retry.RetryRun(env.fetch(url)).exit.Success?
    requires var page := env.scripts(Retry.RetryRun(env.fetch(url)).exit.body);
      forall j :: 0 <= j < |page| ==> !Locator.IsNextData(page[j]) && !Locator.HasState(page[j])
    requires env.parse("").None?
    ensures GetApolloSpec(env, url) == Raise(JsonDecodeError)
  {
    Locator.LocateNone(env.scripts(Retry.RetryRun(env.fetch(url)).exit.body));
    GraphQLKeys.RewriteNoQuote("");
  }

  /** A page of the newer kind whose state has no GraphQL call keys: the text of
      its first `__NEXT_DATA__` script is decoded and its apolloCache returned. */
  lemma GetApolloNextData(env: Env, url: string, i: nat, raw: Json,
                          top: seq<(string, Json)>, props: seq<(string, Json)>, pageProps: seq<(string, Json)>, cache: Json)
    requires Retry.RetryRun(env.fetch(url)).exit.Success?
    requires var page := env.scripts(Retry.RetryRun(env.fetch(url)).exit.body);
      i < |page| && Locator.IsNextData(page[i]) && (forall j :: 0 <= j < i ==> !Locator.IsNextData(page[j])) &&
      |page[i].text| > 0 && GraphQLKeys.FindAll(page[i].text, 0) == [] &&
      Contains(page[i].text, CacheMarker) && env.parse(page[i].text) == Some(raw)
    requires Normalize(raw) == JObj(top) && OD.Get(top, "props") == Some(JObj(props))
    requires OD.Get(props, "pageProps") == Some(JObj(pageProps)) && OD.Get(pageProps, CacheMarker) == Some(cache)
    ensures GetApolloSpec(env, url) == Ok(cache)
  {
    var page := env.scripts(Retry.RetryRun(env.fetch(url)).exit.body);
    Locator.LocateNextData(page, i);
    GraphQLKeys.RewriteNoQuery(page[i].text);
    LoadCache(page[i].text, env.parse, raw, top, props, pageProps, cache);
  }
}
