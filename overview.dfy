/** `parse_overview` (scraper/glassdoor.py): the company overview read out of a
    decoded Apollo cache.

    The aggregate entry of ROOT_QUERY (`employerReviewsRGid...`) supplies the
    counts and the ratings; the employer id comes from the first `Employer:`
    node of the cache, with `__ref` fallbacks; the CEO name from the first `Ceo:`
    node of ROOT_QUERY, then of the cache, then from the aggregate's `ratedCeo`.
    A KeyError while building the record gives `None`; every other exception
    propagates to the caller.
 */
module Overview {
  import opened Wrappers
  import opened Text
  import opened Json
  import OD = OrderedDict

  const AggregatePrefix: string := "employerReviewsRGid"
  const AggregateType: string := "EmployerReviewsRG"
  const EmployerPrefix: string := "Employer:"
  const CeoPrefix: string := "Ceo:"

  /** The fifteen entries of the returned dict, in order. */
  datatype Overview = Overview(
    employerId: Json,
    numberOfPages: Json,
    allReviewsCount: Json,
    ratedReviewsCount: Json,
    overallRating: Json,
    ceoName: Json,
    ceoRating: Json,
    recommendToFriendRating: Json,
    cultureAndValuesRating: Json,
    diversityAndInclusionRating: Json,
    careerOpportunitiesRating: Json,
    workLifeBalanceRating: Json,
    seniorManagementRating: Json,
    compensationAndBenefitsRating: Json,
    businessOutlookRating: Json)

  const OverviewKeys: seq<string> := [
    "employer_id", "number_of_pages", "all_reviews_count", "rated_reviews_count",
    "overall_rating", "ceo_name", "ceo_rating", "recommend_to_friend_rating",
    "culture_and_values_rating", "diversity_and_inclusion_rating",
    "career_opportunities_rating", "work_life_balance_rating",
    "senior_management_rating", "compensation_and_benefits_rating",
    "business_outlook_rating"]

  /** The record as the Python dict it is. */
  function ToDict(o: Overview): (d: OD.Dict<string, Json>)
    ensures OD.Keys(d) == OverviewKeys
  {
    [("employer_id", o.employerId), ("number_of_pages", o.numberOfPages),
     ("all_reviews_count", o.allReviewsCount), ("rated_reviews_count", o.ratedReviewsCount),
     ("overall_rating", o.overallRating), ("ceo_name", o.ceoName), ("ceo_rating", o.ceoRating),
     ("recommend_to_friend_rating", o.recommendToFriendRating),
     ("culture_and_values_rating", o.cultureAndValuesRating),
     ("diversity_and_inclusion_rating", o.diversityAndInclusionRating),
     ("career_opportunities_rating", o.careerOpportunitiesRating),
     ("work_life_balance_rating", o.workLifeBalanceRating),
     ("senior_management_rating", o.seniorManagementRating),
     ("compensation_and_benefits_rating", o.compensationAndBenefitsRating),
     ("business_outlook_rating", o.businessOutlookRating)]
  }

  /** The dict has fifteen distinct keys, and the employer's name is not one of
      them. */
  lemma OverviewKeysDistinct(o: Overview)
    ensures |ToDict(o)| == 15 && OD.NoDupKeys(ToDict(o))
    ensures "employer_name" !in OD.Keys(ToDict(o))
  {
    var d := ToDict(o);
    forall i, j | 0 <= i < j < |d| ensures d[i].0 != d[j].0 {
      assert OD.Keys(d)[i] == OverviewKeys[i] && OD.Keys(d)[j] == OverviewKeys[j];
      assert OverviewKeys[i][..4] != OverviewKeys[j][..4] || |OverviewKeys[i]| != |OverviewKeys[j]| || OverviewKeys[i] != OverviewKeys[j];
    }
  }

  // ---------------------------------------------------------------------------
  // Locating the inputs
  // ---------------------------------------------------------------------------

  /** `apollo_cache["ROOT_QUERY"]` inside `try ... except KeyError`: `None` stands
      for the name left unbound. */
  function RootQuery(cache: Json): Result<Option<Json>> {
    match Index(cache, "ROOT_QUERY")
    case Ok(v) => Ok(Some(v))
    case Raise(e) => if e == KeyError then Ok(None) else Raise(e)
  }

  predicate IsAggregate(kv: (string, Json)) {
    AggregatePrefix <= kv.0 && kv.1.JObj? && GetOrNull(kv.1.fields, "__typename") == JStr(AggregateType)
  }

  /** `overview_data`: the value of the first aggregate entry, else `{}`. */
  function Aggregate(rq: seq<(string, Json)>): (od: Json)
    ensures od.JObj?
  {
    match FirstIndex(rq, IsAggregate)
    case Some(i) => rq[i].1
    case None => JObj([])
  }

  /** A `key.startswith(prefix) and isinstance(value, dict)` node. */
  predicate IsNode(prefix: string, kv: (string, Json)) {
    prefix <= kv.0 && kv.1.JObj?
  }

  predicate IsEmployerNode(kv: (string, Json)) {
    IsNode(EmployerPrefix, kv)
  }

  predicate IsCeoNode(kv: (string, Json)) {
    IsNode(CeoPrefix, kv)
  }

  /** `employer_id`: the `id` of the first `Employer:` node, else None. */
  function EmployerId(items: seq<(string, Json)>): Json {
    match FirstIndex(items, IsEmployerNode)
    case Some(i) => GetOrNull(items[i].1.fields, "id")
    case None => JNull
  }

  /** The `for ... break` over the cache's items. */
  method FindEmployerId(items: seq<(string, Json)>) returns (id: Json)
    ensures id == EmployerId(items)
  {
    id := JNull;
    var i := 0;
    while i < |items|
      invariant i <= |items|
      invariant forall j :: 0 <= j < i ==> !IsEmployerNode(items[j])
    {
      if IsEmployerNode(items[i]) {
        FirstIndexAt(items, IsEmployerNode, i);
        id := GetOrNull(items[i].1.fields, "id");
        return;
      }
      i := i + 1;
    }
  }

  /** The stripped `name` of the first `Ceo:` node, if any;
      `value.get("name").strip()` raises AttributeError on a missing or
      non-string name. */
  function CeoIn(items: seq<(string, Json)>): Result<Option<string>> {
    match FirstIndex(items, IsCeoNode)
    case None => Ok(None)
    case Some(i) =>
      var name :- StrOf(GetOrNull(items[i].1.fields, "name"));
      Ok(Some(Strip(name)))
  }

  method FindCeo(items: seq<(string, Json)>) returns (r: Result<Option<string>>)
    ensures r == CeoIn(items)
  {
    var i := 0;
    while i < |items|
      invariant i <= |items|
      invariant forall j :: 0 <= j < i ==> !IsCeoNode(items[j])
    {
      if IsCeoNode(items[i]) {
        FirstIndexAt(items, IsCeoNode, i);
        var name := GetOrNull(items[i].1.fields, "name");
        if !name.JStr? {
          return Raise(AttributeError);
        }
        return Ok(Some(Strip(name.s)));
      }
      i := i + 1;
    }
    return Ok(None);
  }

  /** The CEO name before the dict is built: ROOT_QUERY first, then the cache. */
  function CeoName(rq: seq<(string, Json)>, cache: seq<(string, Json)>): Result<Option<string>> {
    var fromRoot :- CeoIn(rq);
    if fromRoot.None? then CeoIn(cache) else Ok(fromRoot)
  }

  // ---------------------------------------------------------------------------
  // Building the record
  // ---------------------------------------------------------------------------

  /** `overview_data["ratings"][key]`. */
  function Rating(od: Json, key: string): Result<Json> {
    var ratings :- Index(od, "ratings");
    Index(ratings, key)
  }

  /** `int(node["__ref"].split(":")[1])`. */
  function RefId(node: Json): Result<Json> {
    var ref :- Index(node, "__ref");
    var s :- StrOf(ref);
    var part :- SplitPart(s, ":", 1);
    var n :- PyIntOfString(part);
    Ok(JInt(n))
  }

  /** The right operand of `int(employer_id) or (...)`. */
  function EmployerFallback(rq: seq<(string, Json)>, od: Json): Result<Json> {
    if "employerid" in OD.Keys(rq) then
      var node :- Index(JObj(rq), "employerid");
      RefId(node)
    else
      var hasEmployer :- In("employer", od);
      if hasEmployer then
        var node :- Index(od, "employer");
        RefId(node)
      else Ok(JNull)
  }

  /** The right operand of `ceo_name or (...)`. */
  function RatedCeoName(od: Json): Result<Json> {
    var rc :- Rating(od, "ratedCeo");
    if rc == JNull then Ok(JNull)
    else
      var hasName :- In("name", rc);
      if hasName then Index(rc, "name") else Ok(JNull)
  }

  /** The `employer_id` entry: `int(employer_id) or (...)`. */
  function EmployerEntry(rq: seq<(string, Json)>, od: Json, employerId: Json): Result<Json> {
    var eid :- IntOf(employerId);
    if eid != 0 then Ok(JInt(eid)) else EmployerFallback(rq, od)
  }

  /** The `ceo_name` entry: `ceo_name or (...)`. */
  function CeoEntry(od: Json, ceo: Option<string>): Result<Json> {
    if ceo.Some? && |ceo.value| > 0 then Ok(JStr(ceo.value)) else RatedCeoName(od)
  }

  /** `j[p[0]][p[1]]...`, subscripting left to right. */
  function Path(j: Json, p: seq<string>): Result<Json>
    decreases |p|
  {
    if |p| == 0 then Ok(j)
    else
      var v :- Index(j, p[0]);
      Path(v, p[1..])
  }

  /** The values at several paths, evaluated in order; the first exception wins. */
  function Lookups(j: Json, ps: seq<seq<string>>): (r: Result<seq<Json>>)
    ensures r.Ok? ==> |r.value| == |ps|
    decreases |ps|
  {
    if |ps| == 0 then Ok([])
    else
      var v :- Path(j, ps[0]);
      var vs :- Lookups(j, ps[1..]);
      Ok([v] + vs)
  }

  /** The counts and the overall rating, in dict order. */
  const CountPaths: seq<seq<string>> := [
    ["numberOfPages"], ["allReviewsCount"], ["ratedReviewsCount"], ["ratings", "overallRating"]]

  /** The nine ratings after `ceo_name`, in dict order. */
  const RatingPaths: seq<seq<string>> := [
    ["ratings", "ceoRating"], ["ratings", "recommendToFriendRating"],
    ["ratings", "cultureAndValuesRating"], ["ratings", "diversityAndInclusionRating"],
    ["ratings", "careerOpportunitiesRating"], ["ratings", "workLifeBalanceRating"],
    ["ratings", "seniorManagementRating"], ["ratings", "compensationAndBenefitsRating"],
    ["ratings", "businessOutlookRating"]]

  /** The dict expression, entries evaluated in order. */
  function BuildOverview(rq: seq<(string, Json)>, od: Json, employerId: Json, ceo: Option<string>): Result<Overview> {
    var employer :- EmployerEntry(rq, od, employerId);
    var c :- Lookups(od, CountPaths);
    var ceoName :- CeoEntry(od, ceo);
    var r :- Lookups(od, RatingPaths);
    Ok(Assemble(employer, c, ceoName, r))
  }

  function Assemble(employer: Json, c: seq<Json>, ceoName: Json, r: seq<Json>): (o: Overview)
    requires |c| == 4 && |r| == 9
    ensures c == [o.numberOfPages, o.allReviewsCount, o.ratedReviewsCount, o.overallRating]
    ensures r == [o.ceoRating, o.recommendToFriendRating, o.cultureAndValuesRating,
      o.diversityAndInclusionRating, o.careerOpportunitiesRating, o.workLifeBalanceRating,
      o.seniorManagementRating, o.compensationAndBenefitsRating, o.businessOutlookRating]
    ensures o.employerId == employer && o.ceoName == ceoName
  {
    Overview(employer, c[0], c[1], c[2], c[3], ceoName, r[0], r[1], r[2], r[3], r[4], r[5], r[6], r[7], r[8])
  }

  /** `try: overview = {...} except KeyError: return None`. */
  function Finish(b: Result<Overview>): Result<Option<Overview>> {
    match b
    case Ok(o) => Ok(Some(o))
    case Raise(e) => if e == KeyError then Ok(None) else Raise(e)
  }

  /** The value `parse_overview(apollo_cache)` returns. */
  function ParseOverviewSpec(cache: Json): Result<Option<Overview>> {
    var root :- RootQuery(cache);
    var rqItems :- if root.Some? then Items(root.value) else Ok([]);
    var od := Aggregate(rqItems);
    var cacheItems :- Items(cache);
    var employerId := EmployerId(cacheItems);
    if root.None? then Raise(NameError)   // the Ceo: loop reads the unbound root_query
    else
      var ceo :- CeoName(rqItems, cacheItems);
      Finish(BuildOverview(rqItems, od, employerId, ceo))
  }

  method ParseOverview(cache: Json) returns (r: Result<Option<Overview>>)
    ensures r == ParseOverviewSpec(cache)
  {
    var root := RootQuery(cache);
    if root.Raise? {
      return Raise(root.exc);
    }
    var rqItems: seq<(string, Json)> := [];
    if root.value.Some? {
      if !root.value.value.JObj? {
        return Raise(AttributeError);
      }
      rqItems := root.value.value.fields;
    }
    var od := Aggregate(rqItems);
    if !cache.JObj? {
      return Raise(AttributeError);
    }
    var employerId := FindEmployerId(cache.fields);
    if root.value.None? {
      return Raise(NameError);
    }
    var ceo := FindCeo(rqItems);
    if ceo.Raise? {
      return Raise(ceo.exc);
    }
    if ceo.value.None? {
      ceo := FindCeo(cache.fields);
      if ceo.Raise? {
        return Raise(ceo.exc);
      }
    }
    r := Finish(BuildOverview(rqItems, od, employerId, ceo.value));
  }

  // ---------------------------------------------------------------------------
  // Properties
  // ---------------------------------------------------------------------------

  /** The aggregate is the first qualifying ROOT_QUERY entry, and `{}` when none
      qualifies. */
  lemma AggregateFirst(rq: seq<(string, Json)>, i: nat)
    requires i < |rq| && IsAggregate(rq[i]) && forall j :: 0 <= j < i ==> !IsAggregate(rq[j])
    ensures Aggregate(rq) == rq[i].1
  {
  }

  lemma AggregateNone(rq: seq<(string, Json)>)
    requires forall j :: 0 <= j < |rq| ==> !IsAggregate(rq[j])
    ensures Aggregate(rq) == JObj([])
  {
    assert FirstIndex(rq, IsAggregate).None?;
  }

  /** A record that was built consists of the four stages' values. */
  lemma BuildParts(rq: seq<(string, Json)>, od: Json, employerId: Json, ceo: Option<string>, o: Overview)
    requires BuildOverview(rq, od, employerId, ceo) == Ok(o)
    ensures EmployerEntry(rq, od, employerId) == Ok(o.employerId)
    ensures Lookups(od, CountPaths) == Ok([o.numberOfPages, o.allReviewsCount, o.ratedReviewsCount, o.overallRating])
    ensures CeoEntry(od, ceo) == Ok(o.ceoName)
    ensures Lookups(od, RatingPaths) == Ok([o.ceoRating, o.recommendToFriendRating, o.cultureAndValuesRating,
      o.diversityAndInclusionRating, o.careerOpportunitiesRating, o.workLifeBalanceRating,
      o.seniorManagementRating, o.compensationAndBenefitsRating, o.businessOutlookRating])
  {
    var e := EmployerEntry(rq, od, employerId);
    var c := Lookups(od, CountPaths);
    var n := CeoEntry(od, ceo);
    var r := Lookups(od, RatingPaths);
    assert e.Ok? && c.Ok? && n.Ok? && r.Ok?;
    assert BuildOverview(rq, od, employerId, ceo) == Ok(Assemble(e.value, c.value, n.value, r.value));
  }

  /** Every value of a successful lookup is the value at its path. */
  lemma {:induction false} LookupsOk(j: Json, ps: seq<seq<string>>)
    requires Lookups(j, ps).Ok?
    ensures forall i :: 0 <= i < |ps| ==> Path(j, ps[i]) == Ok(Lookups(j, ps).value[i])
    decreases |ps|
  {
    if |ps| > 0 {
      LookupsOk(j, ps[1..]);
      forall i | 0 <= i < |ps| ensures Path(j, ps[i]) == Ok(Lookups(j, ps).value[i]) {
        if i > 0 {
          assert ps[i] == ps[1..][i - 1];
        }
      }
    }
  }

  /** The first path that fails decides the exception. */
  lemma {:induction false} LookupsFirstError(j: Json, ps: seq<seq<string>>, i: nat)
    requires i < |ps| && Path(j, ps[i]).Raise?
    requires forall k :: 0 <= k < i ==> Path(j, ps[k]).Ok?
    ensures Lookups(j, ps) == Raise(Path(j, ps[i]).exc)
    decreases |ps|
  {
    if i > 0 {
      forall k | 0 <= k < i - 1 ensures Path(j, ps[1..][k]).Ok? {
        assert ps[1..][k] == ps[k + 1];
      }
      LookupsFirstError(j, ps[1..], i - 1);
    }
  }

  /** The employer id is the first `Employer:` node's id whenever that converts
      to a nonzero int; the `__ref` fallbacks are consulted only when it is 0. */
  lemma EmployerIdChoice(rq: seq<(string, Json)>, od: Json, employerId: Json, ceo: Option<string>, o: Overview)
    requires BuildOverview(rq, od, employerId, ceo) == Ok(o)
    ensures IntOf(employerId).Ok?
    ensures IntOf(employerId).value != 0 ==> o.employerId == JInt(IntOf(employerId).value)
    ensures IntOf(employerId).value == 0 ==> EmployerFallback(rq, od) == Ok(o.employerId)
  {
    BuildParts(rq, od, employerId, ceo, o);
  }

  /** The fallback takes the second `:`-separated part of the `__ref`. */
  lemma RefIdSecondPart(node: seq<(string, Json)>, a: string, b: string)
    requires NoChar(a, ':') && NoChar(b, ':') && |b| > 0 && AllDigits(b)
    requires OD.Get(node, "__ref") == Some(JStr(a + ":" + b))
    ensures RefId(JObj(node)) == Ok(JInt(DigitsValue(b)))
  {
    var s := a + ":" + b;
    assert Index(JObj(node), "__ref") == Ok(JStr(s));
    SplitColon(a, b);
    assert SplitPart(s, ":", 1) == Ok(b);
    StripDigits(b);
  }

  lemma SplitColon(a: string, b: string)
    requires NoChar(a, ':') && NoChar(b, ':')
    ensures Split(a + ":" + b, ":") == [a, b]
  {
    var s := a + ":" + b;
    OccursMid(a, ":", b);
    forall j | 0 <= j < |a| ensures !OccursAt(s, ":", j) {
      assert s[j] == a[j];
    }
    FindFromFirstAt(s, ":", 0, |a|);
    assert s[..|a|] == a;
    assert s[|a| + 1..] == b;
    NoCharNotContains(b, ":", 0, ':');
  }

  lemma StripDigits(b: string)
    requires |b| > 0 && AllDigits(b)
    ensures PyIntOfString(b) == Ok(DigitsValue(b))
  {
    assert !IsSpace(b[0]) && !IsSpace(b[|b| - 1]);
    assert RStrip(b) == b;
    assert LStrip(b) == b;
  }

  /** Without an `Employer:` node the id is None, `int(None)` raises TypeError,
      and the fallbacks are never reached. */
  lemma NoEmployerNode(cache: seq<(string, Json)>, rq: seq<(string, Json)>)
    requires Index(JObj(cache), "ROOT_QUERY") == Ok(JObj(rq))
    requires forall j :: 0 <= j < |cache| ==> !IsEmployerNode(cache[j])
    requires CeoName(rq, cache).Ok?
    ensures ParseOverviewSpec(JObj(cache)) == Raise(TypeError)
  {
    assert FirstIndex(cache, IsEmployerNode).None?;
  }

  /** A cache without ROOT_QUERY raises NameError at the `Ceo:` scan. */
  lemma NoRootQuery(cache: seq<(string, Json)>)
    requires "ROOT_QUERY" !in OD.Keys(cache)
    ensures ParseOverviewSpec(JObj(cache)) == Raise(NameError)
  {
  }

  /** When ROOT_QUERY has no aggregate entry and nothing else goes wrong first,
      the missing `numberOfPages` makes the result None. */
  lemma NoAggregateGivesNone(cache: seq<(string, Json)>, rq: seq<(string, Json)>)
    requires Index(JObj(cache), "ROOT_QUERY") == Ok(JObj(rq))
    requires forall j :: 0 <= j < |rq| ==> !IsAggregate(rq[j])
    requires ParseOverviewSpec(JObj(cache)).Ok?
    ensures ParseOverviewSpec(JObj(cache)) == Ok(None)
  {
    AggregateNone(rq);
    var ceo := CeoName(rq, cache);
    var b := BuildOverview(rq, JObj([]), EmployerId(cache), ceo.value);
    assert ParseOverviewSpec(JObj(cache)) == Finish(b);
    LookupsFirstError(JObj([]), CountPaths, 0);
    assert b.Raise?;
  }

  /** The CEO name is taken from the cache only when ROOT_QUERY has no `Ceo:`
      node. */
  lemma CeoFromCache(rq: seq<(string, Json)>, cache: seq<(string, Json)>)
    requires forall j :: 0 <= j < |rq| ==> !IsCeoNode(rq[j])
    ensures CeoName(rq, cache) == CeoIn(cache)
  {
    assert FirstIndex(rq, IsCeoNode).None?;
  }

  /** ROOT_QUERY's first `Ceo:` node wins when it has a string name. */
  lemma CeoFromRoot(rq: seq<(string, Json)>, cache: seq<(string, Json)>, i: nat)
    requires i < |rq| && IsCeoNode(rq[i]) && forall j :: 0 <= j < i ==> !IsCeoNode(rq[j])
    requires GetOrNull(rq[i].1.fields, "name").JStr?
    ensures CeoName(rq, cache) == Ok(Some(Strip(GetOrNull(rq[i].1.fields, "name").s)))
  {
    FirstIndexAt(rq, IsCeoNode, i);
    var name := GetOrNull(rq[i].1.fields, "name");
    assert StrOf(name) == Ok(name.s);
    assert CeoIn(rq) == Ok(Some(Strip(name.s)));
  }

  /** A non-empty CEO name from the nodes is used as is; otherwise the
      aggregate's `ratedCeo.name` when ratedCeo is a non-null value with a name,
      else None. */
  lemma CeoFallback(rq: seq<(string, Json)>, od: Json, employerId: Json, ceo: Option<string>, o: Overview)
    requires BuildOverview(rq, od, employerId, ceo) == Ok(o)
    ensures ceo.Some? && |ceo.value| > 0 ==> o.ceoName == JStr(ceo.value)
    ensures !(ceo.Some? && |ceo.value| > 0) ==> RatedCeoName(od) == Ok(o.ceoName)
  {
    BuildParts(rq, od, employerId, ceo, o);
  }

  lemma RatedCeoCases(od: Json)
    requires Rating(od, "ratedCeo").Ok? && Rating(od, "ratedCeo").value.JObj?
    ensures "name" in OD.Keys(Rating(od, "ratedCeo").value.fields) ==> RatedCeoName(od) == Index(Rating(od, "ratedCeo").value, "name")
    ensures "name" !in OD.Keys(Rating(od, "ratedCeo").value.fields) ==> RatedCeoName(od) == Ok(JNull)
  {
  }

  /** Every count and rating in a parsed overview is the aggregate's own value:
      the record is a projection of the aggregate entry. */
  lemma ParsedFromAggregate(cache: seq<(string, Json)>, rq: seq<(string, Json)>, o: Overview)
    requires Index(JObj(cache), "ROOT_QUERY") == Ok(JObj(rq))
    requires ParseOverviewSpec(JObj(cache)) == Ok(Some(o))
    ensures Path(Aggregate(rq), ["numberOfPages"]) == Ok(o.numberOfPages)
    ensures Path(Aggregate(rq), ["allReviewsCount"]) == Ok(o.allReviewsCount)
    ensures Path(Aggregate(rq), ["ratedReviewsCount"]) == Ok(o.ratedReviewsCount)
    ensures Path(Aggregate(rq), ["ratings", "overallRating"]) == Ok(o.overallRating)
    ensures Path(Aggregate(rq), ["ratings", "ceoRating"]) == Ok(o.ceoRating)
    ensures Path(Aggregate(rq), ["ratings", "recommendToFriendRating"]) == Ok(o.recommendToFriendRating)
    ensures Path(Aggregate(rq), ["ratings", "cultureAndValuesRating"]) == Ok(o.cultureAndValuesRating)
    ensures Path(Aggregate(rq), ["ratings", "diversityAndInclusionRating"]) == Ok(o.diversityAndInclusionRating)
    ensures Path(Aggregate(rq), ["ratings", "careerOpportunitiesRating"]) == Ok(o.careerOpportunitiesRating)
    ensures Path(Aggregate(rq), ["ratings", "workLifeBalanceRating"]) == Ok(o.workLifeBalanceRating)
    ensures Path(Aggregate(rq), ["ratings", "seniorManagementRating"]) == Ok(o.seniorManagementRating)
    ensures Path(Aggregate(rq), ["ratings", "compensationAndBenefitsRating"]) == Ok(o.compensationAndBenefitsRating)
    ensures Path(Aggregate(rq), ["ratings", "businessOutlookRating"]) == Ok(o.businessOutlookRating)
  {
    var ceo := CeoName(rq, cache);
    var b := BuildOverview(rq, Aggregate(rq), EmployerId(cache), ceo.value);
    assert Finish(b) == Ok(Some(o));
    BuildParts(rq, Aggregate(rq), EmployerId(cache), ceo.value, o);
    LookupsOk(Aggregate(rq), CountPaths);
    LookupsOk(Aggregate(rq), RatingPaths);
  }
}
