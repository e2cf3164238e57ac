# Glassdoor scraper: a verified model

This project models the core of a Glassdoor scraper in Dafny. The scraper has
five stages:

- It looks companies up through Glassdoor's search-suggestion endpoint and
  keeps a `company` table of employer ids and names (`scraper/companies.py`).
- It fetches each company's paginated review pages (`scraper/glassdoor.py`).
  From every page it takes the embedded Apollo state.
- It rewrites the GraphQL call keys in that state into plain JSON keys, then
  reads out the company overview and the reviews.
- It cleans review text and builds and rewrites Glassdoor URLs
  (`scraper/utils.py`).
- It validates the scraped records (`scraper/database/base_models.py`). It
  stores them in the `company` and `review` tables
  (`scraper/database/models.py`). Worker processes each take a share of the
  URLs, and the reviews are committed in batches of a hundred
  (`scraper/main.py`).

The model works as follows:

- Python exceptions are values: `Result.Raise(kind)`.
- Python dicts are ordered association lists. A later write wins and keeps the
  key's first position.
- Decoded JSON is the `Json` datatype.
- Every regular expression the core uses is written out as a search over
  positions.
- Code that loops and updates variables is a `method` with loop invariants.
  Each such method is proved equal to a specification function. The
  properties are proved about that function.
- The two objects that change state are classes: the company table
  (`Companies.CompanyTable`) and the database session of a worker
  (`Orchestration.Session`). So is the ORM `Review` object (`Models.Review`).

The outside world enters as parameters:

- the HTTP outcome of the k-th request to a URL;
- the HTML parser's list of script tags;
- the JSON parser;
- `datetime.fromisoformat`;
- whether the k-th database commit succeeds.

Files, in dependency order:

- `wrappers.dfy`: Option, Result and Python's exception kinds.
- `text.dfy`: Python `str` operations.
- `ordered_dict.dfy`: dicts.
- `json.dfy`: JSON values and `json.loads` normalisation.
- `retry.dfy`: the request retry loop.
- `locator.dfy`: finding the state script.
- `graphql_keys.dfy`: the call-key rewrite.
- `apollo.dfy`: `get_apollo`.
- `overview.dfy`: `parse_overview`.
- `clean_text.dfy`: `clean_text`.
- `reviews.dfy`: `parse_reviews`.
- `pages.dfy`: `Url.change_page`.
- `urls.dfy`: `Url.reviews`, `Url.overview`, `transform_url` and `extract_id`.
- `scrape.dfy`: `scrape_data`.
- `base_models.dfy`: the pydantic records.
- `models.dfy`: the tables.
- `companies.dfy`: company lookup.
- `orchestration.dfy`: the worker process.

Where the code and its documentation disagree, the model follows the code:

- A fetched page without a state script leaves `apollo_cache_str` empty, and
  `json.loads("")` raises JSONDecodeError. The page is not skipped quietly
  (`Apollo.GetApolloNoState`).
- The `apolloState` capture is a lazy `{.*?}` up to the first `};</script>`.
  It is not a balanced-brace match, so a state object that ends in `}}` loses
  its last brace (`Locator.CaptureUnbalanced`).
- `parse_overview` does not set a missing key to None:
  - a KeyError in the dict display returns None for the whole record;
  - a cache without an `Employer:` node raises TypeError at `int(None)`;
  - a cache without ROOT_QUERY raises NameError.
- `scrape_data` computes `range(1, total_pages + 1)` once. The later
  reassignment of `total_pages` to the overview's page count therefore never
  changes the number of pages visited (`Scrape.ScrapeVisitsAll`).

## Model

| member | source | states |
|---|---|---|
| Retry.FetchLoop | scraper/glassdoor.py:54-81 | the `while` loop over the attempts ends in the same exit and with the same counters as the recursive run |
| Retry.RunProps | scraper/glassdoor.py:54-81 | a run from any reachable state stops at the first success or other error, or when a counter reaches its cap (10 HTTP errors, 60 network errors); the counters count exactly the retried errors |
| Retry.RetryProps | scraper/glassdoor.py:54-81 | the whole run gives no usable response exactly when a cap was reached or another request error occurred |
| Retry.AlwaysHttpError | scraper/glassdoor.py:54-69 | a server that always answers with an error status is asked exactly ten times, and the last error page is still held |
| Retry.OtherErrorFirst | scraper/glassdoor.py:75-78 | any other request error stops the loop after that one attempt |
| Locator.CaptureSpec | scraper/glassdoor.py:117-121 | the capture succeeds exactly when some `apolloState":{` is followed by a `};</script>`; it runs from the first `{` to the first `}` of the nearest such close |
| Locator.LocateNextData | scraper/glassdoor.py:103-108 | the first `__NEXT_DATA__` script wins, and its text is taken verbatim |
| Locator.LocateState | scraper/glassdoor.py:113-125 | otherwise the first script mentioning `apolloState` is captured; a failed capture leaves the empty text |
| Locator.LocateNone | scraper/glassdoor.py:100-131 | a page with neither kind of script yields the empty text |
| Locator.CaptureUnbalanced | scraper/glassdoor.py:117-121 | a state object ending in `}}` is captured without its last brace |
| Locator.CaptureTypical | scraper/glassdoor.py:117-121 | on a typical older page the capture is the state object exactly |
| GraphQLKeys.FindAllSound | scraper/glassdoor.py:134 | every string `re.findall` returns matches the call-key pattern as a whole and occurs in the text |
| GraphQLKeys.RewriteKeys | scraper/glassdoor.py:134-172 | the two loops (fill the table, then replace) compute the rewrite function |
| GraphQLKeys.BuildTableRaise | scraper/glassdoor.py:139-167 | once a match fails to give a key, the whole table fails with that exception |
| GraphQLKeys.BuildTableDict | scraper/glassdoor.py:139-167 | a successful table is `dict` of the (match, key) pairs, in order |
| GraphQLKeys.TableProps | scraper/glassdoor.py:137-167 | the table holds each distinct match once, its keys are exactly the matches, and each maps to its key |
| GraphQLKeys.RewriteNoQuery | scraper/glassdoor.py:169-172 | a text with no call key is left unchanged |
| GraphQLKeys.RewriteNoQuote | scraper/glassdoor.py:134 | a text without quotes has no call key, so it is left unchanged |
| GraphQLKeys.NameKeyPlain | scraper/glassdoor.py:144-167 | the key of a plain GraphQL name is the name followed by `id` |
| GraphQLKeys.NameKeyReviews | scraper/glassdoor.py:144-167 | the reviews aggregate's name `employerReviewsRG` gets the key `employerReviewsRGid`, the prefix `parse_overview` looks for |
| GraphQLKeys.KeyOfCall | scraper/glassdoor.py:141-167 | the key of a call key `"name({args})"` is the key of its name |
| GraphQLKeys.RewriteSingle | scraper/glassdoor.py:169-172 | with a single distinct match, the text before its first occurrence is kept and every occurrence is replaced by the quoted key |
| GraphQLKeys.RewriteOneKey | scraper/glassdoor.py:134-172 | a text with one call key has that key replaced by its quoted plain key, and nothing else changes |
| GraphQLKeys.RewriteSegments | scraper/glassdoor.py:134-172 | for a text of plain pieces without `(` and call keys, distinct or repeated: `re.findall` finds exactly the call keys in order, and the rewrite replaces each one by its own quoted key and keeps every plain piece |
| GraphQLKeys.RewriteTwoKeys | scraper/glassdoor.py:134-172 | `pre + key1 + sep + key2 + post` becomes `pre + "k1" + sep + "k2" + post`, each key rewritten to its own name key |
| GraphQLKeys.ReplaceRender | scraper/glassdoor.py:169-172 | one `replace` of a call key changes exactly the call keys equal to it and nothing else |
| GraphQLKeys.RewriteExample | scraper/glassdoor.py:134-172 | `{"field({"a":1})": {"id": 7}}` becomes `{"fieldid": {"id": 7}}` |
| Json.NormalizeIdempotent | scraper/glassdoor.py:186-194 | the dump-and-reload round trip changes nothing more the second time |
| Json.PyEqRefl | scraper/companies.py:150-158 | Python's `==` on decoded JSON, which list comparison uses, holds between a value and itself |
| Json.NormalizeLookup | scraper/glassdoor.py:186-194 | a key of a reloaded object answers the value of its last occurrence in the text |
| Apollo.LoadCache | scraper/glassdoor.py:179-184 | a newer page answers its `props.pageProps.apolloCache` object |
| Apollo.LoadCacheMissing | scraper/glassdoor.py:179-184 | a newer page without `props` raises KeyError |
| Apollo.LoadPlain | scraper/glassdoor.py:185-194 | any other page answers the decoded object with duplicate keys removed, which is its own normal form |
| Apollo.LoadNotJson | scraper/glassdoor.py:179-194 | a text that is not JSON raises JSONDecodeError |
| Apollo.GetApollo | scraper/glassdoor.py:32-200 | the method computes the end-to-end function: fetch, locate, rewrite, load |
| Apollo.GetApolloFailedFetch | scraper/glassdoor.py:54-194 | None comes back when the fetch gave up; the only other way to None is a fetched state text that decodes to `null` |
| Apollo.GetApolloNullState | scraper/glassdoor.py:100-194 | a fetched page whose state script holds `null` answers None although the fetch succeeded |
| Apollo.GetApolloNoState | scraper/glassdoor.py:100-194 | a fetched page without a state script raises JSONDecodeError |
| Apollo.GetApolloNextData | scraper/glassdoor.py:103-184 | a newer page without call keys yields its `apolloCache` object |
| Overview.OverviewKeysDistinct | scraper/glassdoor.py:271-317 | the returned dict has fifteen distinct keys, and `employer_name` is not one of them |
| Overview.FindEmployerId | scraper/glassdoor.py:249-253 | the loop with `break` returns the `id` of the first `Employer:` node, or None |
| Overview.FindCeo | scraper/glassdoor.py:256-267 | the loop with `break` returns the stripped name of the first `Ceo:` node, or raises when that name is not a string |
| Overview.ParseOverview | scraper/glassdoor.py:203-324 | the method computes `parse_overview`'s value |
| Overview.AggregateFirst | scraper/glassdoor.py:233-244 | the aggregate is the first qualifying ROOT_QUERY entry |
| Overview.AggregateNone | scraper/glassdoor.py:235-244 | without a qualifying entry the aggregate is `{}` |
| Overview.BuildParts | scraper/glassdoor.py:271-317 | a built record consists of the values of its four stages, in dict order |
| Overview.EmployerIdChoice | scraper/glassdoor.py:272-280 | the employer id is `int(employer_id)` when that is non-zero, and the `__ref` fallback otherwise |
| Overview.RefIdSecondPart | scraper/glassdoor.py:272-278 | the fallback reads the second `:`-separated part of the `__ref` |
| Overview.NoEmployerNode | scraper/glassdoor.py:249-272 | without an `Employer:` node, `int(None)` raises TypeError |
| Overview.NoRootQuery | scraper/glassdoor.py:233-257 | a cache without ROOT_QUERY raises NameError at the `Ceo:` scan |
| Overview.NoAggregateGivesNone | scraper/glassdoor.py:243-322 | without an aggregate entry the first count lookup raises KeyError, and the function returns None |
| Overview.CeoFromCache | scraper/glassdoor.py:263-267 | the CEO is looked up in the cache only when ROOT_QUERY has no `Ceo:` node |
| Overview.CeoFromRoot | scraper/glassdoor.py:256-260 | ROOT_QUERY's first `Ceo:` node with a string name wins |
| Overview.CeoFallback | scraper/glassdoor.py:285-291 | a non-empty CEO name from the nodes is used; otherwise the rated CEO's name |
| Overview.RatedCeoCases | scraper/glassdoor.py:287-290 | the rated CEO's `name`, or None when it has none |
| Overview.ParsedFromAggregate | scraper/glassdoor.py:281-316 | every count and rating of a parsed overview is the aggregate's own value at its path |
| Reviews.ParseReviews | scraper/glassdoor.py:327-444 | the method computes `parse_reviews`'s value |
| Reviews.ExtractReview | scraper/glassdoor.py:372-438 | the loop body computes one review's id and extracted dict, or the exception that aborts the page |
| Reviews.Fields | scraper/glassdoor.py:372-423 | an extracted review has the display's field names in order; the first failing field aborts |
| Reviews.CollectAbort | scraper/glassdoor.py:371-442 | a review that raises aborts the page with its exception |
| Reviews.CollectOfEntries | scraper/glassdoor.py:371-438 | the loop builds `dict` of the (id, extracted) pairs; it fails exactly when some review fails |
| Reviews.EntriesFirstError | scraper/glassdoor.py:371-438 | the first review that fails decides the exception |
| Reviews.EntryId | scraper/glassdoor.py:372-438 | a stored review is keyed by its `reviewId`, which is hashable |
| Reviews.CollectKeys | scraper/glassdoor.py:369-438 | the result's keys are exactly the reviews' ids, each appears once, and a unique id keeps its own review |
| Reviews.NoRootQuery | scraper/glassdoor.py:341-371 | without ROOT_QUERY the loop meets an unbound `reviews_data` (NameError) |
| Reviews.NotADict | scraper/glassdoor.py:341-344 | a cache that is not a dict raises TypeError |
| Reviews.NoReviewsEntry | scraper/glassdoor.py:341-355 | a page with no qualifying entry, or an empty reviews list, gives `{}` |
| Reviews.ReviewsDataFirst | scraper/glassdoor.py:341-355 | the reviews come from the first qualifying ROOT_QUERY entry |
| Reviews.CatalogGet | scraper/glassdoor.py:357-363 | the catalog answers a cache value exactly for keys starting with `City` or `JobTitle` |
| Reviews.EntryKeys | scraper/glassdoor.py:372-438 | an extracted review has exactly the 25 fields, in display order |
| Reviews.TitleChoice | scraper/glassdoor.py:399-408 | the job title is `jobTitle.text`, else `jobTitle.__ref`, else None |
| Reviews.ResolveCases | scraper/glassdoor.py:425-435 | a value that is a catalog key is replaced by the named attribute of its entry; any other value is kept |
| CleanText.CleanJson | scraper/utils.py:86-87 | None stays None; a string is cleaned; anything else raises |
| CleanText.FirstKey | scraper/utils.py:211-221 | the alternative the engine takes is the first key in pattern order that matches, ignoring case |
| CleanText.BlankMap | scraper/utils.py:222-223 | the two character substitutions keep word characters and turn everything else into blanks |
| CleanText.SqueezeShape | scraper/utils.py:224 | after squeezing, no two blanks stand together |
| CleanText.CleanShape | scraper/utils.py:81-225 | every output is lowercase letters, digits, underscores and single blanks, with no apostrophe |
| CleanText.ExpandNoApostrophe | scraper/utils.py:211-221 | a text without an apostrophe has no contraction to expand |
| CleanText.CleanFixed | scraper/utils.py:211-225 | a clean text is its own cleaning |
| CleanText.CleanIdempotent | scraper/utils.py:81-225 | `clean_text` is idempotent |
| CleanText.TidyTwoWords | scraper/utils.py:222-225 | two words joined by a non-word character come out lowercased with one blank between |
| CleanText.TableEntries | scraper/utils.py:89-208 | the table has 118 entries; it includes `can't`→`cannot`, `don't`→`do not` and `I'm`→`I am` at their positions |
| CleanText.KeyFacts | scraper/utils.py:89-208 | every key of the table holds an apostrophe |
| CleanText.CantVeFirst | scraper/utils.py:211-212 | on `can't've` the alternation takes `can't`, which comes first, over `can't've` |
| CleanText.CleanCantVe | scraper/utils.py:81-225 | so `can't've` cleans to `cannot ve` |
| CleanText.DontFirst | scraper/utils.py:211-212 | `Don't` matches the key `don't`, ignoring case |
| CleanText.ExpansionDont | scraper/utils.py:214-221 | and is looked up lowercased, giving `do not` |
| CleanText.CleanDont | scraper/utils.py:81-225 | `Don't` cleans to `do not` |
| CleanText.CapitalKeyWith | scraper/utils.py:211-221 | a capitalised key matches, but its lowercased lookup misses and the match is replaced by nothing |
| CleanText.CapitalKeyDropped | scraper/utils.py:81-225 | `I'm` in any capitalisation cleans to the empty text |
| CleanText.TidyTabBang | scraper/utils.py:222-225 | whitespace and specials become blanks, runs collapse to one, the text is lowercased |
| CleanText.CleanTabBang | scraper/utils.py:81-225 | `"A\t!"` cleans to `"a "` |
| Pages.Groups | scraper/utils.py:344 | the repetition `(?:_P\d+)*.htm` at a position ends at a `.htm` match |
| Pages.ChangeFresh | scraper/utils.py:343-348 | a URL without a page marker gets `_P<page>` before its `.htm` |
| Pages.FreshSub | scraper/utils.py:346 | the plain pattern replaces just the `.htm` of such a URL |
| Pages.FreshNoMarker | scraper/utils.py:343 | such a URL has no page marker |
| Pages.ChangeRepage | scraper/utils.py:343-348 | a URL with a page marker gets the new number in its place; asking for the same page fails the assertion |
| Pages.RepageSame | scraper/utils.py:347 | the rewritten URL equals the original exactly when the page number is the same |
| Pages.RepageSub | scraper/utils.py:344 | the repetition replaces the marker and its `.htm` |
| Pages.GroupsAtMarker | scraper/utils.py:344 | at the marker, the repetition matches the marker and its `.htm` |
| Pages.MarkerAt | scraper/utils.py:343 | a URL with `_P<digits>.htm` has a page marker |
| Pages.ChangeInName | scraper/utils.py:343-348 | as written: a path with `htm` before its `.htm` loses the character before that `htm` and gets the marker twice |
| Pages.InNameSub | scraper/utils.py:346 | as written: the unescaped dot lets `.htm` match inside the path |
| Pages.FixedFresh | scraper/utils.py:330-348 | corrected: the marker goes right before the path's own `.htm`, and the query is kept |
| Pages.FixedRepage | scraper/utils.py:330-348 | corrected: the page number of an existing marker is replaced |
| Pages.ChangeAgrees | scraper/utils.py:343-348 | on URLs whose only `htm` is their own, the source's rewrite agrees with the corrected one |
| Pages.RepageAgrees | scraper/utils.py:343-348 | the same for URLs that already carry a marker |
| Pages.InNameFixed | scraper/utils.py:330-348 | corrected: a path holding `htm` keeps it and gets the marker once, before its own `.htm` |
| Urls.Value | scraper/utils.py:236-263 | a region's value is the decimal string of its id, 1 to 23 |
| Urls.Filters | scraper/utils.py:325 | one `filter.countryId=<value>` per region, in order |
| Urls.SearchFirst | scraper/utils.py:60-75 | `re.search` returns the group of the leftmost position where the pattern matches |
| Urls.OverviewName | scraper/utils.py:61 | `Working-at-([\w%-]+)-E` reads back the name an overview URL was built with |
| Urls.OverviewId | scraper/utils.py:60 | `-EI_IE(\d+)\.` reads back the id an overview URL was built with |
| Urls.TransformOverviewStem | scraper/utils.py:53-67 | `transform_url` turns an overview URL into the reviews URL of the same employer |
| Urls.TransformSlice | scraper/utils.py:53-67 | the same holds whatever slice and region the overview URL carries |
| Urls.TransformOverview | scraper/utils.py:53-67 | for both overview builders, the transform gives the employer's reviews URL |
| Urls.TransformReviews | scraper/utils.py:57-58 | a reviews URL is left as it is |
| Urls.TransformWithDir | scraper/utils.py:57-58 | any URL holding `/Reviews/` is returned unchanged |
| Urls.TransformIdempotent | scraper/utils.py:53-67 | transforming twice changes nothing more |
| Urls.ExtractReviews | scraper/utils.py:70-78 | `extract_id` reads back the id a reviews URL was built with, when the name holds no `-E` |
| Urls.NameStartFirst | scraper/utils.py:297-299 | as written: the slice starts where the name is first found in the segment; that is right after `Working-at-` exactly when the name does not occur earlier |
| Urls.OverviewAt | scraper/utils.py:295-299 | as written: the name `at` is found inside `Working-at-`, so the slice is `8,10` instead of `11,13` |
| Urls.OverviewNvidia | scraper/utils.py:270-272 | the docstring's example yields the slice `11,17` |
| Urls.FixedSlice | scraper/utils.py:274-276 | corrected: the slice starts right after `Working-at-` and spells the name |
| Urls.OverviewAgrees | scraper/utils.py:295-299 | the two overview builders agree exactly when the name does not occur inside `Working-at-` |
| Urls.CapitalisedAgrees | scraper/utils.py:295-299 | a name whose first letter is a capital other than `W` gets the right slice |
| Urls.ReviewsPaging | scraper/utils.py:304-348 | for a name without `htm`, `_` or `?`, both rewrites page a reviews URL by putting the marker before `.htm` and keeping the region query |
| Urls.ReviewsPagingFixed | scraper/utils.py:304-348 | corrected: the rewrite pages every reviews URL whose name holds no `_` or `?` |
| Urls.ReviewsNameHtm | scraper/utils.py:343-348 | as written: a reviews URL whose name holds `htm` loses the character before it and gets the marker twice |
| Urls.ReviewsLightmatter | scraper/utils.py:343-348 | as written: paging `Lightmatter` rewrites the `ghtm` inside the name; the corrected rewrite only sets the marker |
| Scrape.WithFilter | scraper/glassdoor.py:469-470 | the URL gains the country filters unless it already holds one, and only then |
| Scrape.ScrapeData | scraper/glassdoor.py:447-509 | the method computes `scrape_data`'s value |
| Scrape.PagesLoop | scraper/glassdoor.py:472-492 | the `for` loop over the pages computes the recursive page run |
| Scrape.ScrapePage | scraper/glassdoor.py:473-476 | a page's URL is the URL itself for page 1 and `change_page` as written otherwise; the page's state is then fetched |
| Scrape.VisitPage | scraper/glassdoor.py:478-489 | a page without state is skipped; otherwise its reviews are merged in |
| Scrape.OverviewPage | scraper/glassdoor.py:482-485 | the overview is parsed on the first page with state only, and then subscripted for the page count |
| Scrape.LoopVisits | scraper/glassdoor.py:472-492 | when nothing raises on the way, the loop visits exactly the pages from n to the total, in order |
| Scrape.ScrapeVisitsAll | scraper/glassdoor.py:463-472 | `scrape_data` visits exactly `max_pages` pages, or 20 without it, whatever the overview says |
| Scrape.NegativeMaxPages | scraper/glassdoor.py:463-495 | a negative `max_pages` visits nothing and returns two empty dicts |
| Scrape.SkipEmptyPages | scraper/glassdoor.py:478-480 | dropping the pages without state changes nothing |
| Scrape.OverviewKept | scraper/glassdoor.py:482-485 | once parsed, the overview is never parsed again |
| Scrape.OverviewOfFirstPage | scraper/glassdoor.py:482-485 | the overview is the one of the first page with state |
| Scrape.NoOverviewRaises | scraper/glassdoor.py:483-484 | without `max_pages`, a first page whose overview is None raises TypeError |
| Scrape.ReviewsMerged | scraper/glassdoor.py:488-489 | each review id appears once, holding the record of the last page that had it |
| Scrape.LoopConsistent | scraper/glassdoor.py:472-492 | whenever reviews were collected, the overview was parsed |
| Scrape.ScrapeResult | scraper/glassdoor.py:494-509 | the result is two empty dicts when no reviews were collected, and holds a parsed overview otherwise |
| Scrape.CountryFilterIsRegions | scraper/glassdoor.py:470 | the appended query is the one `Url.reviews` builds for the United States and English Canada |
| Scrape.RegionPages | scraper/glassdoor.py:469-473 | a reviews URL built with regions is not filtered twice, and, when the name holds no `htm`, each later page keeps the regions |
| Scrape.RegionPagesInName | scraper/glassdoor.py:469-473 | as written: when the name holds `htm`, each later page loses the character before it and carries the page marker twice, still with the regions |
| BaseModels.ValidateProps | scraper/database/base_models.py:33-131 | validation succeeds exactly when every declared field gets a value; it fails with ValidationError; the record lists the declared fields in order |
| BaseModels.FieldValueCases | scraper/database/base_models.py:33-131 | a field gets the value given for it when its check accepts it, or its default when not given; a required field not given fails |
| BaseModels.CompanyBaseRequired | scraper/database/base_models.py:33-57 | `CompanyBase(**data)` succeeds exactly when `employer_id` is given and every given field passes its check |
| BaseModels.ReviewBaseRequired | scraper/database/base_models.py:101-131 | `ReviewBase(**data)` succeeds exactly when `review_id` and `date_time` are given and every given field passes its check |
| BaseModels.ReadBack | scraper/database/base_models.py:33-131 | a validated field reads back as the value given for it, or its default |
| BaseModels.ReviewTexts | scraper/database/base_models.py:124-127 | the four text fields read back as given, defaulting to `""` |
| BaseModels.ReviewTextOfRecord | scraper/database/base_models.py:133-135 | `review_text` is the four text fields joined by single blanks |
| BaseModels.DefaultReviewText | scraper/database/base_models.py:124-135 | a review given none of the text fields has `review_text` equal to three blanks |
| BaseModels.ReviewTextTracks | scraper/database/base_models.py:133-135 | the property tracks the current fields: replacing `pros` changes its first part |
| Models.RowWithId | scraper/database/models.py:61 | the first row with the given employer id, or none when no row has it |
| Models.IdentifiesRow | scraper/database/models.py:61-63 | under the key constraints, the row found by an employer id is the only row with it |
| Models.SetOtherKeepsKeys | scraper/database/models.py:61-85 | setting a column other than the two keys keeps the constraints |
| Models.ColumnsAreFields | scraper/database/models.py:61-85 | the table's columns are the fields of `CompanyBase`, in the same order |
| Models.Review.constructor | scraper/database/models.py:166-168 | the new object stores its arguments and a `review_text` that agrees with them |
| Models.Review.Set | scraper/database/models.py:155-158 | assigning a text column changes that column alone and leaves the stored text as it was |
| Models.Review.Flush | scraper/database/models.py:172-189 | the before-insert/before-update listener makes the stored text agree with the columns again |
| Models.ReassignPros | scraper/database/models.py:166-189 | after `review.pros = p` and a flush, the stored text starts with p and keeps the other three columns |
| Models.UnsetReviewText | scraper/database/models.py:168 | a review built with no text column stores `None None None None` |
| Companies.Filter | scraper/companies.py:131-135 | the comprehension fails exactly when some condition raises; it is empty exactly when none accepts |
| Companies.FilterMembers | scraper/companies.py:131-147 | the comprehension keeps exactly the items its condition accepts |
| Companies.MaxScan | scraper/companies.py:150-158 | `max` returns an item's position and confidence, or the KeyError/TypeError of a comparison |
| Companies.Gt | scraper/companies.py:150-158 | the `>` that `max` applies to two confidences raises only TypeError |
| Companies.ListExtendGt | scraper/companies.py:150-158 | a list followed by more items is greater than the list itself, and never smaller: equal items are passed over |
| Companies.ListFirstDiff | scraper/companies.py:150-158 | two lists whose first items are not `==` compare as those items do, whatever follows |
| Companies.ListRaises | scraper/companies.py:150-158 | a list against a number, or lists that first differ at a number and a string, raise TypeError |
| Companies.MaxScanLists | scraper/companies.py:150-158 | two candidates with confidences `[0]` and `[1]`: `max` picks the second |
| Companies.Select | scraper/companies.py:131-168 | the selection raises only KeyError or TypeError; a returned dict has exactly the keys `employer_id` and `employer_name`, with a non-empty name |
| Companies.FindCompany | scraper/companies.py:78-168 | the method computes `find_company`'s value |
| Companies.FindCompanySpec | scraper/companies.py:78-168 | `find_company` raises only AttributeError, JSONDecodeError, KeyError or TypeError; a returned dict has the two keys and a non-empty name |
| Companies.SelectBest | scraper/companies.py:131-168 | with no candidate the answer is None; otherwise it is the first candidate of maximal confidence, among the direct hits when there are any |
| Companies.FilterHits | scraper/companies.py:131-147 | filtering the candidates for direct hits is filtering the suggestions for both conditions |
| Companies.BestInPool | scraper/companies.py:150-158 | the item `max` picks is the first one of maximal confidence in its pool |
| Companies.FindCompanyOutcomes | scraper/companies.py:80-125 | `None.text` raises AttributeError exactly when a retry cap was reached without a response; another request error returns None |
| Companies.ErrorPageParsed | scraper/companies.py:80-125 | unlike `get_apollo`, an error page after ten HTTP errors is still decoded |
| Companies.RowNamed | scraper/companies.py:193-195 | the first row with the given `employer_name`, or none |
| Companies.SetAttrs | scraper/companies.py:207-208 | the `setattr` loop assigns each pair of the result in order |
| Companies.Schedule | scraper/companies.py:259-263 | the task list has one task per row whose `id_not_found` is not 1, in table order |
| Companies.Scheduled | scraper/companies.py:260-263 | a row is scheduled exactly when its `id_not_found` is not True |
| Companies.CompanyTable.AddCompanyToDb | scraper/companies.py:171-222 | the table afterwards and the outcome are those of the specification; the key constraints hold |
| Companies.CompanyTable.FindAllCompanies | scraper/companies.py:225-268 | the scheduled rows are chosen from the table as it was; each task then runs in turn under the lock; the key constraints hold |
| Companies.AddKeepsKeys | scraper/companies.py:171-222 | an update keeps the key constraints: a commit that would break them is rolled back |
| Companies.NotFoundMarks | scraper/companies.py:197-201 | a lookup that found nothing marks the first row of that name, and nothing else changes |
| Companies.MarkedIsSkipped | scraper/companies.py:197-201 | the marked row is skipped by the next `find_all_companies` |
| Companies.EmptyResultIgnored | scraper/companies.py:202-203 | an empty dict changes nothing |
| Companies.AssignGet | scraper/companies.py:207-208 | assigning the pairs of a result overwrites exactly the columns it names |
| Companies.ExistingOverwritten | scraper/companies.py:205-222 | a result for an existing row overwrites its named columns when the commit keeps the constraints |
| Companies.NewRowAdded | scraper/companies.py:209-222 | a result for a new name appends a row with exactly its columns when the constraints allow it |
| Orchestration.Partition | scraper/main.py:183-187 | the slices as written, or a ZeroDivisionError |
| Orchestration.PartitionCovers | scraper/main.py:186-187 | every URL lies in some slice |
| Orchestration.PartitionCount | scraper/main.py:183-187 | there are as many slices as workers when the URLs divide evenly, and more otherwise |
| Orchestration.PartitionOverlaps | scraper/main.py:186-187 | as written: five URLs on two workers give three overlapping slices, `[0:3]`, `[2:4]` and `[4:5]` |
| Orchestration.PartitionEmpty | scraper/main.py:183-186 | no URL, or no CPU, raises ZeroDivisionError |
| Orchestration.PartitionFixedSplits | scraper/main.py:183-187 | corrected: one slice per worker, slice lengths differ by at most one, and the slices concatenate to the URL list |
| Orchestration.Session.Commit | scraper/main.py:101-112 | a commit succeeds as the given outcome says; it keeps the session's rows or rolls them back |
| Orchestration.Session.SaveCompany | scraper/main.py:71-112 | the company part of the loop body, overwriting every field as written, or only the given fields as corrected in Findings |
| Orchestration.Session.SaveRow | scraper/main.py:85-112 | find the row by the validated employer id, assign the fields (all of them as written, the given ones as corrected) and commit, rolling back on failure |
| Orchestration.Session.AddReview | scraper/main.py:119-158 | one turn of the review loop: validate, add, count, and commit at a hundred |
| Orchestration.Session.StoreReviews | scraper/main.py:115-158 | the review loop computes its specification from a fresh counter |
| Orchestration.Session.SaveBatch | scraper/main.py:115-162 | the review loop, then the final commit when the counter is positive |
| Orchestration.Session.SaveUrl | scraper/main.py:59-162 | the loop body for one URL, with the company update as written |
| Orchestration.Session.ScrapeAndStore | scraper/main.py:58-162 | the worker stores each URL's scrape in turn, with the company update as written |
| Orchestration.AssignGiven | scraper/main.py:92-99 | corrected: only the fields the input gave are assigned |
| Orchestration.GivenItemsGet | scraper/main.py:92-99 | corrected: the filter keeps exactly the pairs of the given fields |
| Orchestration.UpdateRaises | scraper/main.py:71-82 | the update raises only TypeError, exactly when the overview is not a dict |
| Orchestration.ValidCompany | scraper/main.py:72 | a validated company record has one value per column, in column order, and keeps the given employer id |
| Orchestration.UpdateSkips | scraper/main.py:77-112 | a skipped URL leaves the committed rows as they were |
| Orchestration.RowCommits | scraper/main.py:85-101 | a committed update found the row with the record's employer id |
| Orchestration.RowColumns | scraper/main.py:92-101 | the columns a committed update assigned |
| Orchestration.UpdateCommits | scraper/main.py:71-101 | a committed update was given a valid overview whose employer id names a stored row |
| Orchestration.AsWrittenOverwritesAll | scraper/main.py:92-99 | as written: every column of the found row is overwritten, given or defaulted |
| Orchestration.CorrectedKeepsUnset | scraper/main.py:92-99 | corrected: a column the overview did not give keeps its stored value |
| Orchestration.OverwriteWipesName | scraper/main.py:92-99 | as written: a stored company name is replaced by `""`, since the overview has no `employer_name` |
| Orchestration.CorrectedKeepsName | scraper/main.py:92-99 | corrected: the stored company name is kept |
| Orchestration.StoredNameWiped | scraper/main.py:59-112 | as written: storing a URL's scrape whose company update commits leaves the company's name `""` |
| Orchestration.ValidatedRaises | scraper/main.py:121-130 | validation raises ValidationError on a dict that does not validate, and TypeError on anything else |
| Orchestration.LoopRaises | scraper/main.py:118-158 | the review loop raises exactly when some review fails with an error other than ValidationError |
| Orchestration.AddedBatches | scraper/main.py:140-152 | one added row when every commit succeeds: it joins the pending rows, and at a hundred they are committed |
| Orchestration.LoopBatches | scraper/main.py:115-158 | when every commit succeeds, the valid reviews are committed a hundred at a time and the rest stay pending; the counter equals the pending count and the company rows do not change |
| Orchestration.StoredInBatches | scraper/main.py:115-162 | when every commit succeeds, one URL's valid reviews are all committed, with one commit per hundred plus one for the rest |
| Orchestration.FinalCommitWhen | scraper/main.py:161-162 | the final commit happens exactly when reviews were counted since the last one |
| Orchestration.FailedBatchLost | scraper/main.py:146-158 | a failed batch commit loses its hundred reviews and leaves the counter at a hundred |
| Orchestration.StoredReviewText | scraper/main.py:121-140 | a stored review's `review_text` is its four text fields joined by blanks |
| Orchestration.StoreBatchKeeps | scraper/main.py:115-162 | storing reviews leaves the company rows alone and only adds committed review rows |
| Orchestration.UpdateKeeps | scraper/main.py:71-112 | the company update keeps the key constraints |
| Orchestration.WorkerKeeps | scraper/main.py:58-162 | a worker, updating companies as written, keeps the key constraints and only adds committed review rows; a JSONDecodeError or KeyError from scraping never escapes |

## Left out

- Logging, `time.sleep` and `asyncio.sleep` are left out. They do not change any value.
- The proxy credentials, headers and `requests` are left out. The outcome of the k-th request to a URL is a parameter.
- The HTML parser (BeautifulSoup) is a parameter: it gives the list of script tags of a body.
- The JSON parser is a parameter that gives the raw syntax tree, duplicate keys included. `json.dumps` is folded into the normalisation.
- The GraphQL library's `parse`/`print_ast` of `query { name { id } }` is not modelled. For a GraphQL name it is taken to print the same tokens back. Any other operation name is taken to raise GraphQLSyntaxError, although the library accepts some of them, such as two names separated by a blank.
- GraphQLKeys.RewriteOneKey, GraphQLKeys.RewriteSegments: the rewrite is proved for texts whose plain pieces hold no `(` and whose call arguments hold no parenthesis. A state text with a `(` outside a call key is not covered.
- `datetime.fromisoformat` is left out. The check that a string is an ISO date is a parameter.
- `Pool.map` over the workers is left out. The worker processes are modelled one at a time, each with its own session.
- The `asyncio.Lock` and `asyncio.gather` in `find_all_companies` are modelled as tasks that run one after another, each holding the lock for its whole run.
- SQLAlchemy's internals are left out. A commit checks the key constraints of the company table. The success of the k-th review commit is the parameter `ok`.
- The relationship between a review and its company is not modelled beyond storing the company's id.
- Orchestration.Session.ScrapeAndStore: main.py:61 calls the coroutine `scrape_data` without `await`, which makes the tuple unpacking fail. The model treats the call as awaited.
- Orchestration.ScrapedAll: every URL is scraped before any is stored. Scraping does not depend on the database, so the stored result is the same.
- `cpu_count()` returning None is not modelled. The CPU count is a natural number.
- pydantic's type checks and coercion are left out. The model's check of a field only rejects None for a field that is not Optional and a non-string for a `str` field. Any other value is kept as given, with no kind check and no coercion. The "exactly when" of BaseModels.CompanyBaseRequired and BaseModels.ReviewBaseRequired is about this check, not pydantic's.
- Python's key equality across numeric kinds (`1 == 1.0 == True`) is not modelled. Dict keys and looked-up ids compare as JSON values, so `JInt(1)` and `JFloat(1.0)` are distinct keys. This holds for the `OrderedDict` module, `Reviews.CollectKeys` and `Models.RowWithId`.
- `create_urls`, `get_all_urls`, `db_utils.py`, `query_db.py` and `create_company.py` are not part of this model. They read or write spreadsheets and set up the engine.
- Strings are sequences of characters with ASCII semantics. Unicode case folding and `\w` beyond ASCII are not modelled.
- Python floats are modelled as reals, with no rounding.

## Findings

| source | as written | input that shows it | evidently intended | confidence | as-written member | corrected member |
|---|---|---|---|---|---|---|
| scraper/utils.py:343-346 | `.htm` with an unescaped dot matches any character followed by `htm`, anywhere in the URL | `Url.change_page(Url.reviews("Lightmatter", "1"), 2)` rewrites the `ghtm` inside the name | set the page marker only before the path's own `.htm` | high (not executed) | Pages.ChangeInName, Urls.ReviewsNameHtm, Urls.ReviewsLightmatter | Pages.InNameFixed, Urls.ReviewsPagingFixed |
| scraper/utils.py:297-299 | `_start` is the first place the name occurs in the segment after `/Overview/`, which can be inside `Working-at-` | `Url.overview("at", "1")` carries the slice `8,10` | the slice right after `Working-at-`, `11,13` for this input | high (not executed) | Urls.OverviewAt, Urls.NameStartFirst | Urls.FixedSlice, Urls.TransformOverview |
| scraper/main.py:186-187 | the slices step by `urls_per_worker` but are one longer for the first `remainder` of them, so they overlap, and there can be more slices than workers | 5 URLs and 2 CPUs give `[0:3]`, `[2:4]`, `[4:5]` | one slice per worker, the first `remainder` one longer, with no overlap | high (not executed) | Orchestration.PartitionOverlaps | Orchestration.PartitionFixedSplits |
| scraper/main.py:92-99 | `key in valid_data.__dict__` holds for every field, so every column is overwritten with the validated value or its default | an overview from `parse_overview`, which has no `employer_name`, sets the stored name to `""` | assign only the fields the overview gave | medium (not executed) | Orchestration.OverwriteWipesName, Orchestration.AsWrittenOverwritesAll | Orchestration.CorrectedKeepsName, Orchestration.CorrectedKeepsUnset |
