/** `parse_reviews` (scraper/glassdoor.py): the reviews of one page of the
    decoded state, keyed by review id.

    The reviews are the `reviews` list of the first `employerReviewsRG...` entry
    of ROOT_QUERY.  Each review becomes a dict of 25 named fields, built in
    display order, so the first field whose lookup fails decides the exception;
    the job title and the location are then replaced by their names from the
    `City...`/`JobTitle...` catalog of the cache, and the dict is stored under the
    review's id, a later review with the same id overwriting an earlier one.

    `datetime.fromisoformat` is the parameter `isIso`: the value kept for a date
    is its text with `T` replaced by a blank, which is what the parser reads.
 */
module Reviews {
  import opened Wrappers
  import opened Text
  import opened Json
  import OD = OrderedDict
  import CleanText

  /** One extracted review, as field name to value. */
  type Extracted = OD.Dict<string, Json>
  /** The reviews of a page, as review id to extracted review. */
  type ReviewMap = OD.Dict<Json, Extracted>

  const ReviewsPrefix: string := "employerReviewsRG"
  const ReviewsType: string := "EmployerReviewsRG"

  // ---------------------------------------------------------------------------
  // Where the reviews are
  // ---------------------------------------------------------------------------

  /** The condition of the generator: the key's prefix, an object value of the
      right `__typename`, with a `reviews` entry. */
  predicate IsReviewsEntry(kv: (string, Json)) {
    ReviewsPrefix <= kv.0 && kv.1.JObj? && GetOrNull(kv.1.fields, "__typename") == JStr(ReviewsType)
      && "reviews" in OD.Keys(kv.1.fields)
  }

  /** `reviews_data`: the `reviews` of the first qualifying entry, else `[]`. */
  function ReviewsData(rq: seq<(string, Json)>): Json {
    match FirstIndex(rq, IsReviewsEntry)
    case Some(i) => GetOrNull(rq[i].1.fields, "reviews")
    case None => JArr([])
  }

  /** `key.startswith(("City", "JobTitle"))`. */
  predicate IsCatalogKey(k: string) {
    "City" <= k || "JobTitle" <= k
  }

  /** The cache entries whose keys are catalog keys, in cache order. */
  function CatalogPairs(items: seq<(string, Json)>): (r: seq<(string, Json)>)
    ensures forall p :: p in r ==> p in items && IsCatalogKey(p.0)
    decreases |items|
  {
    if |items| == 0 then []
    else
      var last := items[|items| - 1];
      CatalogPairs(items[..|items| - 1]) + (if IsCatalogKey(last.0) then [last] else [])
  }

  /** `city_job_title`: the dict comprehension over the catalog entries. */
  function Catalog(items: seq<(string, Json)>): OD.Dict<string, Json> {
    OD.FromPairs(CatalogPairs(items))
  }

  // ---------------------------------------------------------------------------
  // One review
  // ---------------------------------------------------------------------------

  /** How a field of the extracted review is read from the review. */
  datatype Field =
    | Plain(key: string)      // review[key]
    | Stamp(key: string)      // datetime.fromisoformat(review[key].replace("T", " "))
    | Flag(key: string)       // bool(review[key])
    | Optional(key: string)   // review[key] if key in review and review[key] is not None else None
    | Title(key: string)      // review[key]["text"], else review[key]["__ref"], else None
    | Ref(key: string)        // review[key]["__ref"] if review[key] is not None else None
    | Cleaned(key: string)    // clean_text(review[key])
    | MaybeFlag(key: string)  // bool(review[key]) if key in review else None

  /** The value of one field; for `rating_ceo` the source's
      `x if x is not None else None` is `x` itself, a plain read. */
  function FieldValue(review: Json, f: Field, isIso: string -> bool): Result<Json> {
    match f
    case Plain(k) => Index(review, k)
    case Stamp(k) =>
      var v :- Index(review, k);
      var s :- StrOf(v);
      var t := ReplaceStr(s, "T", " ");
      if isIso(t) then Ok(JStr(t)) else Raise(ValueError)
    case Flag(k) =>
      var v :- Index(review, k);
      Ok(JBool(Truthy(v)))
    case Optional(k) =>
      var present :- In(k, review);
      if present then Index(review, k) else Ok(JNull)
    case Title(k) => TitleValue(review, k)
    case Ref(k) =>
      var v :- Index(review, k);
      if v == JNull then Ok(JNull) else Index(v, "__ref")
    case Cleaned(k) =>
      var v :- Index(review, k);
      var c :- CleanText.CleanJson(v);
      Ok(if c.None? then JNull else JStr(c.value))
    case MaybeFlag(k) =>
      var present :- In(k, review);
      if present then
        var v :- Index(review, k);
        Ok(JBool(Truthy(v)))
      else Ok(JNull)
  }

  /** The job title's nested conditional. */
  function TitleValue(review: Json, k: string): Result<Json> {
    var jt :- Index(review, k);
    if jt == JNull then Ok(JNull)
    else
      var hasText :- In("text", jt);
      if hasText then Index(jt, "text")
      else
        var hasRef :- In("__ref", jt);
        if hasRef then Index(jt, "__ref") else Ok(JNull)
  }

  /** The dict display of `extracted_review`, in source order. */
  const ReviewFields: seq<(string, Field)> := [
    ("review_id", Plain("reviewId")),
    ("date_time", Stamp("reviewDateTime")),
    ("rating_overall", Plain("ratingOverall")),
    ("rating_ceo", Plain("ratingCeo")),
    ("rating_business_outlook", Plain("ratingBusinessOutlook")),
    ("rating_work_life_balance", Plain("ratingWorkLifeBalance")),
    ("rating_culture_and_values", Plain("ratingCultureAndValues")),
    ("rating_diversity_and_inclusion", Plain("ratingDiversityAndInclusion")),
    ("rating_senior_leadership", Plain("ratingSeniorLeadership")),
    ("rating_recommend_to_friend", Plain("ratingRecommendToFriend")),
    ("rating_career_opportunities", Plain("ratingCareerOpportunities")),
    ("rating_compensation_and_benefits", Plain("ratingCompensationAndBenefits")),
    ("is_current_job", Flag("isCurrentJob")),
    ("length_of_employment", Plain("lengthOfEmployment")),
    ("employment_status", Plain("employmentStatus")),
    ("job_ending_year", Optional("jobEndingYear")),
    ("job_title", Title("jobTitle")),
    ("location", Ref("location")),
    ("pros", Cleaned("pros")),
    ("cons", Cleaned("cons")),
    ("summary", Cleaned("summary")),
    ("advice", Cleaned("advice")),
    ("count_helpful", Plain("countHelpful")),
    ("count_not_helpful", Plain("countNotHelpful")),
    ("is_covid19", MaybeFlag("isCovid19"))]

  /** The field names, in order. */
  function Names(fs: seq<(string, Field)>): (ns: seq<string>)
    ensures |ns| == |fs|
    ensures forall i :: 0 <= i < |fs| ==> ns[i] == fs[i].0
  {
    seq(|fs|, i requires 0 <= i < |fs| => fs[i].0)
  }

  /** The fields evaluated in order; the first exception wins. */
  function Fields(review: Json, fs: seq<(string, Field)>, isIso: string -> bool): (r: Result<Extracted>)
    ensures r.Ok? ==> |r.value| == |fs| && forall i :: 0 <= i < |fs| ==> r.value[i].0 == fs[i].0
    decreases |fs|
  {
    if |fs| == 0 then Ok([])
    else
      var v :- FieldValue(review, fs[0].1, isIso);
      var rest :- Fields(review, fs[1..], isIso);
      Ok([(fs[0].0, v)] + rest)
  }

  /** `if value in city_job_title: value = city_job_title[value][attr]`.  The
      catalog's keys are strings, so only a string value can be found; a list or
      a dict cannot even be looked up. */
  function Resolve(catalog: OD.Dict<string, Json>, v: Json, attr: string): Result<Json> {
    if !Hashable(v) then Raise(TypeError)
    else
      match v
      case JStr(s) =>
        (match OD.Get(catalog, s)
         case Some(entry) => Index(entry, attr)
         case None => Ok(v))
      case _ => Ok(v)
  }

  /** The loop body for one review: its id and its extracted dict, or the
      exception that aborts the page. */
  function ReviewEntry(review: Json, catalog: OD.Dict<string, Json>, isIso: string -> bool): Result<(Json, Extracted)> {
    var fields :- Fields(review, ReviewFields, isIso);
    Finish(review, fields, catalog)
  }

  /** After the dict display: the two catalog replacements, then the id. */
  function Finish(review: Json, fields: Extracted, catalog: OD.Dict<string, Json>): Result<(Json, Extracted)> {
    var title :- Resolve(catalog, GetOrNull(fields, "job_title"), "text");
    var withTitle := OD.Set(fields, "job_title", title);
    var location :- Resolve(catalog, GetOrNull(withTitle, "location"), "name");
    var extracted := OD.Set(withTitle, "location", location);
    var id :- Index(review, "reviewId");
    if !Hashable(id) then Raise(TypeError) else Ok((id, extracted))
  }

  // ---------------------------------------------------------------------------
  // All reviews
  // ---------------------------------------------------------------------------

  /** The loop body, as a function of the review. */
  type EntryFn = Json -> Result<(Json, Extracted)>

  function EntryOf(catalog: OD.Dict<string, Json>, isIso: string -> bool): EntryFn {
    review => ReviewEntry(review, catalog, isIso)
  }

  /** The loop: each review stored under its id in turn. */
  function Collect(items: seq<Json>, entry: EntryFn): Result<ReviewMap>
    decreases |items|
  {
    if |items| == 0 then Ok([])
    else
      var prev :- Collect(items[..|items| - 1], entry);
      var e :- entry(items[|items| - 1]);
      Ok(OD.Set(prev, e.0, e.1))
  }

  /** Every review's (id, extracted) pair, in order; the first exception wins. */
  function Entries(items: seq<Json>, entry: EntryFn): (r: Result<seq<(Json, Extracted)>>)
    ensures r.Ok? ==> |r.value| == |items|
    decreases |items|
  {
    if |items| == 0 then Ok([])
    else
      var prev :- Entries(items[..|items| - 1], entry);
      var e :- entry(items[|items| - 1]);
      Ok(prev + [e])
  }

  /** The value `parse_reviews(apollo_cache)` returns.  A missing ROOT_QUERY is
      logged, leaving `reviews_data` unbound, and the loop then raises
      UnboundLocalError, a NameError. */
  function ParseReviewsSpec(cache: Json, isIso: string -> bool): Result<ReviewMap> {
    match cache
    case JObj(top) =>
      (match OD.Get(top, "ROOT_QUERY")
       case None => Raise(NameError)
       case Some(rq) =>
         var rqItems :- Items(rq);
         var items :- Iter(ReviewsData(rqItems));
         Collect(items, EntryOf(Catalog(top), isIso)))
    case _ => Raise(TypeError)   // apollo_cache["ROOT_QUERY"] on a list, a string, a number or None
  }

  method ParseReviews(cache: Json, isIso: string -> bool) returns (r: Result<ReviewMap>)
    ensures r == ParseReviewsSpec(cache, isIso)
  {
    if !cache.JObj? {
      return Raise(TypeError);
    }
    var rq := OD.Get(cache.fields, "ROOT_QUERY");
    if rq.None? {
      return Raise(NameError);
    }
    var rqItems := Items(rq.value);
    if rqItems.Raise? {
      return Raise(rqItems.exc);
    }
    var catalog := Catalog(cache.fields);
    var items := Iter(ReviewsData(rqItems.value));
    if items.Raise? {
      return Raise(items.exc);
    }
    ghost var entry := EntryOf(catalog, isIso);
    var reviews: ReviewMap := [];
    for i := 0 to |items.value|
      invariant Collect(items.value[..i], entry) == Ok(reviews)
    {
      assert items.value[..i + 1][..i] == items.value[..i];
      var e := ExtractReview(items.value[i], catalog, isIso);
      if e.Raise? {
        CollectAbort(items.value, i, entry);
        return Raise(e.exc);
      }
      reviews := OD.Set(reviews, e.value.0, e.value.1);
    }
    assert items.value[..|items.value|] == items.value;
    r := Ok(reviews);
  }

  /** The loop body for one review: the dict display, the two catalog
      replacements, then the id it is stored under. */
  method ExtractReview(review: Json, catalog: OD.Dict<string, Json>, isIso: string -> bool)
    returns (r: Result<(Json, Extracted)>)
    ensures r == ReviewEntry(review, catalog, isIso)
  {
    var fields := Fields(review, ReviewFields, isIso);
    if fields.Raise? {
      return Raise(fields.exc);
    }
    var extracted := fields.value;
    var title := Resolve(catalog, GetOrNull(extracted, "job_title"), "text");
    if title.Raise? {
      return Raise(title.exc);
    }
    extracted := OD.Set(extracted, "job_title", title.value);
    var location := Resolve(catalog, GetOrNull(extracted, "location"), "name");
    if location.Raise? {
      return Raise(location.exc);
    }
    extracted := OD.Set(extracted, "location", location.value);
    IdPresent(review, isIso);
    var id := Index(review, "reviewId").value;
    if !Hashable(id) {
      return Raise(TypeError);
    }
    r := Ok((id, extracted));
  }

  /** The first field read is `reviewId`: once the fields are read, the id
      lookup at the end of the loop body cannot fail. */
  lemma IdPresent(review: Json, isIso: string -> bool)
    requires Fields(review, ReviewFields, isIso).Ok?
    ensures Index(review, "reviewId").Ok?
  {
    assert ReviewFields[0] == ("review_id", Plain("reviewId"));
  }

  // ---------------------------------------------------------------------------
  // Properties
  // ---------------------------------------------------------------------------

  /** A review that raises aborts the page with its exception. */
  lemma CollectAbort(items: seq<Json>, i: nat, entry: EntryFn)
    requires i < |items| && Collect(items[..i], entry).Ok?
    requires entry(items[i]).Raise?
    ensures Collect(items, entry) == Raise(entry(items[i]).exc)
  {
    assert items[..i + 1][..i] == items[..i];
    CollectRaised(items, i + 1, entry);
  }

  /** Once a prefix has raised, every longer prefix raises the same. */
  lemma {:induction false} CollectRaised(items: seq<Json>, n: nat, entry: EntryFn)
    requires n <= |items| && Collect(items[..n], entry).Raise?
    ensures Collect(items, entry) == Collect(items[..n], entry)
    decreases |items| - n
  {
    if n < |items| {
      var m := |items| - 1;
      assert items[..m][..n] == items[..n];
      CollectRaised(items[..m], n, entry);
    } else {
      assert items[..n] == items;
    }
  }

  /** The loop builds `dict(pairs)` of the (id, extracted) pairs: the page fails
      exactly when some review fails, with that review's exception. */
  lemma {:induction false} CollectOfEntries(items: seq<Json>, entry: EntryFn)
    ensures Entries(items, entry).Ok? ==> Collect(items, entry) == Ok(OD.FromPairs(Entries(items, entry).value))
    ensures Entries(items, entry).Raise? ==> Collect(items, entry) == Raise(Entries(items, entry).exc)
    decreases |items|
  {
    if |items| > 0 {
      var init := items[..|items| - 1];
      CollectOfEntries(init, entry);
      match Entries(init, entry)
      case Raise(_) =>
      case Ok(ps) =>
        match entry(items[|items| - 1])
        case Raise(_) =>
        case Ok(e) =>
          var qs := ps + [e];
          assert qs[..|qs| - 1] == ps;
    }
  }

  /** Each pair is the entry of the review at the same position. */
  lemma {:induction false} EntriesOk(items: seq<Json>, entry: EntryFn)
    requires Entries(items, entry).Ok?
    ensures forall i :: 0 <= i < |items| ==> entry(items[i]) == Ok(Entries(items, entry).value[i])
    decreases |items|
  {
    if |items| > 0 {
      var init := items[..|items| - 1];
      EntriesOk(init, entry);
      forall i | 0 <= i < |items| ensures entry(items[i]) == Ok(Entries(items, entry).value[i]) {
        if i < |items| - 1 {
          assert items[i] == init[i];
        }
      }
    }
  }

  /** The first review that fails decides the exception. */
  lemma {:induction false} EntriesFirstError(items: seq<Json>, i: nat, entry: EntryFn)
    requires i < |items| && entry(items[i]).Raise?
    requires forall k :: 0 <= k < i ==> entry(items[k]).Ok?
    ensures Entries(items, entry) == Raise(entry(items[i]).exc)
    decreases |items|
  {
    var init := items[..|items| - 1];
    if i < |items| - 1 {
      forall k | 0 <= k < i ensures entry(init[k]).Ok? {
        assert init[k] == items[k];
      }
      assert init[i] == items[i];
      EntriesFirstError(init, i, entry);
    } else {
      EntriesAllOk(init, entry);
    }
  }

  /** When every review succeeds, so does the page. */
  lemma {:induction false} EntriesAllOk(items: seq<Json>, entry: EntryFn)
    requires forall k :: 0 <= k < |items| ==> entry(items[k]).Ok?
    ensures Entries(items, entry).Ok?
    decreases |items|
  {
    if |items| > 0 {
      var init := items[..|items| - 1];
      forall k | 0 <= k < |init| ensures entry(init[k]).Ok? {
        assert init[k] == items[k];
      }
      EntriesAllOk(init, entry);
    }
  }

  /** The id of a stored review is its `reviewId`, and it is hashable. */
  lemma EntryId(review: Json, catalog: OD.Dict<string, Json>, isIso: string -> bool)
    requires ReviewEntry(review, catalog, isIso).Ok?
    ensures Index(review, "reviewId") == Ok(ReviewEntry(review, catalog, isIso).value.0)
    ensures Hashable(ReviewEntry(review, catalog, isIso).value.0)
  {
    FinishId(review, Fields(review, ReviewFields, isIso).value, catalog);
  }

  lemma FinishId(review: Json, fields: Extracted, catalog: OD.Dict<string, Json>)
    requires Finish(review, fields, catalog).Ok?
    ensures Index(review, "reviewId") == Ok(Finish(review, fields, catalog).value.0)
    ensures Hashable(Finish(review, fields, catalog).value.0)
  {
  }

  /** The loop body stores each review under its `reviewId`. */
  ghost predicate IdsAgree(items: seq<Json>, entry: EntryFn) {
    forall i :: 0 <= i < |items| && entry(items[i]).Ok? ==> Index(items[i], "reviewId") == Ok(entry(items[i]).value.0)
  }

  lemma EntryOfIds(items: seq<Json>, catalog: OD.Dict<string, Json>, isIso: string -> bool)
    ensures IdsAgree(items, EntryOf(catalog, isIso))
  {
    forall i | 0 <= i < |items| && ReviewEntry(items[i], catalog, isIso).Ok?
      ensures Index(items[i], "reviewId") == Ok(ReviewEntry(items[i], catalog, isIso).value.0)
    {
      EntryId(items[i], catalog, isIso);
    }
  }

  /** The result's keys are exactly the reviews' ids; a unique key keeps its
      review, and an id that occurs more than once keeps its last review. */
  lemma CollectKeys(items: seq<Json>, entry: EntryFn)
    requires Collect(items, entry).Ok? && IdsAgree(items, entry)
    ensures OD.NoDupKeys(Collect(items, entry).value)
    ensures forall k :: k in OD.Keys(Collect(items, entry).value) <==>
      exists i :: 0 <= i < |items| && Index(items[i], "reviewId") == Ok(k)
    ensures forall i :: (0 <= i < |items| && entry(items[i]).Ok? &&
      (forall j :: i < j < |items| ==> Index(items[j], "reviewId") != Index(items[i], "reviewId"))) ==>
      OD.Get(Collect(items, entry).value, entry(items[i]).value.0) == Some(entry(items[i]).value.1)
  {
    CollectOfEntries(items, entry);
    var ps := Entries(items, entry).value;
    EntriesOk(items, entry);
    assert forall i :: 0 <= i < |items| ==> Index(items[i], "reviewId") == Ok(ps[i].0);
    OD.FromPairsProps(ps);
    PairsKeys(items, ps);
    PairsLast(items, ps);
  }

  lemma PairsKeys(items: seq<Json>, ps: seq<(Json, Extracted)>)
    requires |ps| == |items| && forall i :: 0 <= i < |items| ==> Index(items[i], "reviewId") == Ok(ps[i].0)
    ensures forall k :: k in OD.Keys(ps) <==> exists i :: 0 <= i < |items| && Index(items[i], "reviewId") == Ok(k)
  {
    forall k ensures k in OD.Keys(ps) <==> exists i :: 0 <= i < |items| && Index(items[i], "reviewId") == Ok(k) {
      if k in OD.Keys(ps) {
        var i :| 0 <= i < |ps| && OD.Keys(ps)[i] == k;
        assert Index(items[i], "reviewId") == Ok(k);
      }
      if exists i :: 0 <= i < |items| && Index(items[i], "reviewId") == Ok(k) {
        var i :| 0 <= i < |items| && Index(items[i], "reviewId") == Ok(k);
        assert OD.Keys(ps)[i] == k;
      }
    }
  }

  lemma PairsLast(items: seq<Json>, ps: seq<(Json, Extracted)>)
    requires |ps| == |items| && forall i :: 0 <= i < |items| ==> Index(items[i], "reviewId") == Ok(ps[i].0)
    ensures forall i :: (0 <= i < |items| && (forall j :: i < j < |items| ==> Index(items[j], "reviewId") != Index(items[i], "reviewId"))) ==>
      OD.Get(ps, ps[i].0) == Some(ps[i].1)
  {
    forall i | 0 <= i < |items| && (forall j :: i < j < |items| ==> Index(items[j], "reviewId") != Index(items[i], "reviewId"))
      ensures OD.Get(ps, ps[i].0) == Some(ps[i].1)
    {
      forall j | i < j < |ps| ensures ps[j].0 != ps[i].0 {
        assert Index(items[j], "reviewId") != Index(items[i], "reviewId");
      }
      OD.GetLast(ps, i);
    }
  }

  /** Without ROOT_QUERY the loop meets an unbound `reviews_data`. */
  lemma NoRootQuery(fields: seq<(string, Json)>, isIso: string -> bool)
    requires "ROOT_QUERY" !in OD.Keys(fields)
    ensures ParseReviewsSpec(JObj(fields), isIso) == Raise(NameError)
  {
  }

  /** A cache that is not a dict cannot be indexed by a string. */
  lemma NotADict(cache: Json, isIso: string -> bool)
    requires !cache.JObj?
    ensures ParseReviewsSpec(cache, isIso) == Raise(TypeError)
  {
  }

  /** A page whose reviews list is empty, or with no qualifying entry, has no
      reviews. */
  lemma NoReviewsEntry(cache: seq<(string, Json)>, rq: seq<(string, Json)>, isIso: string -> bool)
    requires OD.Get(cache, "ROOT_QUERY") == Some(JObj(rq))
    requires forall j :: 0 <= j < |rq| ==> !IsReviewsEntry(rq[j])
    ensures ParseReviewsSpec(JObj(cache), isIso) == Ok([])
  {
    assert FirstIndex(rq, IsReviewsEntry).None?;
    assert ReviewsData(rq) == JArr([]);
    assert Iter(JArr([])) == Ok([]);
    assert Collect([], EntryOf(Catalog(cache), isIso)) == Ok([]);
  }

  /** The reviews come from the first qualifying entry. */
  lemma ReviewsDataFirst(rq: seq<(string, Json)>, i: nat, reviews: Json)
    requires i < |rq| && IsReviewsEntry(rq[i]) && forall j :: 0 <= j < i ==> !IsReviewsEntry(rq[j])
    requires OD.Get(rq[i].1.fields, "reviews") == Some(reviews)
    ensures ReviewsData(rq) == reviews
  {
  }

  /** The catalog answers a cache entry's value for a key starting with `City` or
      `JobTitle`, and nothing for any other key. */
  lemma {:induction false} CatalogGet(items: seq<(string, Json)>, k: string)
    ensures OD.Get(Catalog(items), k) == if IsCatalogKey(k) then OD.Get(items, k) else None
  {
    OD.FromPairsProps(CatalogPairs(items));
    CatalogPairsGet(items, k);
  }

  lemma {:induction false} CatalogPairsGet(items: seq<(string, Json)>, k: string)
    ensures OD.Get(CatalogPairs(items), k) == if IsCatalogKey(k) then OD.Get(items, k) else None
    decreases |items|
  {
    if |items| > 0 {
      var init := items[..|items| - 1];
      var last := items[|items| - 1];
      CatalogPairsGet(init, k);
      if IsCatalogKey(last.0) {
        var c := CatalogPairs(init) + [last];
        assert c[..|c| - 1] == CatalogPairs(init);
      } else {
        assert CatalogPairs(items) == CatalogPairs(init);
      }
    } else {
      assert OD.Keys(CatalogPairs(items)) == [];
    }
  }

  /** Pairs named like the fields, position by position, have the fields' names
      as keys. */
  lemma NamesMatch(d: Extracted, fs: seq<(string, Field)>)
    requires |d| == |fs| && forall i :: 0 <= i < |fs| ==> d[i].0 == fs[i].0
    ensures OD.Keys(d) == Names(fs)
  {
  }

  /** An extracted review has exactly the 25 fields, in display order. */
  lemma EntryKeys(review: Json, catalog: OD.Dict<string, Json>, isIso: string -> bool)
    requires ReviewEntry(review, catalog, isIso).Ok?
    ensures OD.Keys(ReviewEntry(review, catalog, isIso).value.1) == Names(ReviewFields)
  {
    var fields := Fields(review, ReviewFields, isIso).value;
    NamesMatch(fields, ReviewFields);
    FieldNames();
    assert OD.Keys(fields)[16] == "job_title" && OD.Keys(fields)[17] == "location";
    FinishKeys(review, fields, catalog);
  }

  lemma FieldNames()
    ensures |Names(ReviewFields)| == 25
    ensures Names(ReviewFields)[16] == "job_title" && Names(ReviewFields)[17] == "location"
  {
  }

  /** The replacements keep the fields where they are. */
  lemma FinishKeys(review: Json, fields: Extracted, catalog: OD.Dict<string, Json>)
    requires Finish(review, fields, catalog).Ok?
    requires "job_title" in OD.Keys(fields) && "location" in OD.Keys(fields)
    ensures OD.Keys(Finish(review, fields, catalog).value.1) == OD.Keys(fields)
  {
    var title := Resolve(catalog, GetOrNull(fields, "job_title"), "text").value;
    var withTitle := OD.Set(fields, "job_title", title);
    var location := Resolve(catalog, GetOrNull(withTitle, "location"), "name").value;
    assert Finish(review, fields, catalog).value.1 == OD.Set(withTitle, "location", location);
    SetExisting(fields, "job_title", title);
    SetExisting(withTitle, "location", location);
  }

  /** Assigning an existing key keeps the key sequence. */
  lemma SetExisting<V>(d: OD.Dict<string, V>, k: string, v: V)
    requires k in OD.Keys(d)
    ensures OD.Keys(OD.Set(d, k, v)) == OD.Keys(d)
  {
  }

  /** The job title is `jobTitle.text`, else `jobTitle.__ref`, else None. */
  lemma TitleChoice(review: seq<(string, Json)>, jt: seq<(string, Json)>)
    requires OD.Get(review, "jobTitle") == Some(JObj(jt))
    ensures "text" in OD.Keys(jt) ==> TitleValue(JObj(review), "jobTitle") == Ok(OD.Get(jt, "text").value)
    ensures "text" !in OD.Keys(jt) && "__ref" in OD.Keys(jt) ==> TitleValue(JObj(review), "jobTitle") == Ok(OD.Get(jt, "__ref").value)
    ensures "text" !in OD.Keys(jt) && "__ref" !in OD.Keys(jt) ==> TitleValue(JObj(review), "jobTitle") == Ok(JNull)
  {
  }

  /** A value that is a catalog key is replaced by the named attribute of its
      entry; any other hashable value stays. */
  lemma ResolveCases(catalog: OD.Dict<string, Json>, v: Json, attr: string)
    requires Hashable(v)
    ensures v.JStr? && v.s in OD.Keys(catalog) ==> Resolve(catalog, v, attr) == Index(OD.Get(catalog, v.s).value, attr)
    ensures !(v.JStr? && v.s in OD.Keys(catalog)) ==> Resolve(catalog, v, attr) == Ok(v)
  {
  }
}
