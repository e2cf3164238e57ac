/** Company lookup and the company table (scraper/companies.py).

    `find_company` asks the typeahead search for a query with the same retry
    loop as `get_apollo`, decodes the answer and picks the best suggestion.
    `add_company_to_db` folds that answer into the company table, and
    `find_all_companies` runs it for every company not yet marked as not found.

    The outside world is a `Search`: the outcome of each request for a query and
    the JSON parser.  The table is the list of committed rows, in the order a
    query without `ORDER BY` returns them.
 */
module Companies {
  import opened Wrappers
  import opened Json
  import OD = OrderedDict
  import Retry
  import Apollo
  import Models

  type Row = Models.Row

  // ---------------------------------------------------------------------------
  // Choosing the best suggestion
  // ---------------------------------------------------------------------------

  /** `suggestion["category"] in ["company", "multicat"]`. */
  function IsCompany(s: Json): (r: Result<bool>)
    ensures r.Raise? ==> r.exc == KeyError || r.exc == TypeError
  {
    var c :- Index(s, "category");
    Ok(c == JStr("company") || c == JStr("multicat"))
  }

  /** `suggestion["directHit"] == True`. */
  function IsDirectHit(s: Json): (r: Result<bool>)
    ensures r.Raise? ==> r.exc == KeyError || r.exc == TypeError
  {
    var d :- Index(s, "directHit");
    Ok(EqTrue(d))
  }

  /** `[x for x in xs if p(x)]`: the first condition that raises aborts it. */
  function Filter(xs: seq<Json>, p: Json -> Result<bool>): (r: Result<seq<Json>>)
    ensures r.Ok? <==> forall i :: 0 <= i < |xs| ==> p(xs[i]).Ok?
    ensures r.Raise? ==> exists i :: 0 <= i < |xs| && p(xs[i]) == Raise(r.exc)
    ensures r.Ok? ==> (|r.value| == 0 <==> forall i :: 0 <= i < |xs| ==> p(xs[i]) != Ok(true))
    decreases |xs|
  {
    if |xs| == 0 then Ok([])
    else
      var init := xs[..|xs| - 1];
      assert forall i :: 0 <= i < |init| ==> init[i] == xs[i];
      var kept :- Filter(init, p);
      var keep :- p(xs[|xs| - 1]);
      Ok(if keep then kept + [xs[|xs| - 1]] else kept)
  }

  /** The filter keeps exactly the items its condition accepts. */
  lemma {:induction false} FilterMembers(xs: seq<Json>, p: Json -> Result<bool>, x: Json)
    requires Filter(xs, p).Ok?
    ensures x in Filter(xs, p).value <==> x in xs && p(x) == Ok(true)
    decreases |xs|
  {
    if |xs| > 0 {
      var init := xs[..|xs| - 1];
      assert xs == init + [xs[|xs| - 1]];
      FilterMembers(init, p, x);
    }
  }

  /** Python's `a > b` on strings: code points compared left to right, a proper
      prefix being smaller. */
  function StrGt(a: string, b: string): bool
    decreases |a|
  {
    if |a| == 0 then false
    else if |b| == 0 then true
    else if a[0] != b[0] then a[0] > b[0]
    else StrGt(a[1..], b[1..])
  }

  /** Python's `a > b` between two confidence values: numbers by value, strings
      by code points, lists as CPython compares them; anything else raises
      TypeError. */
  function Gt(a: Json, b: Json): (r: Result<bool>)
    ensures r.Raise? ==> r.exc == TypeError
    decreases a, 1, 0
  {
    if Num(a).Some? && Num(b).Some? then Ok(Num(a).value > Num(b).value)
    else if a.JStr? && b.JStr? then Ok(StrGt(a.s, b.s))
    else if a.JArr? && b.JArr? then ArrGt(a, b, 0)
    else Raise(TypeError)
  }

  /** Two lists from position k on: the first pair of items that are not `==`
      decides by `>`; when one list runs out first, the longer one is greater. */
  function ArrGt(a: Json, b: Json, k: nat): (r: Result<bool>)
    requires a.JArr? && b.JArr?
    ensures r.Raise? ==> r.exc == TypeError
    decreases a, 0, |a.items| - k
  {
    if k >= |a.items| || k >= |b.items| then Ok(|a.items| > |b.items|)
    else if PyEq(a.items[k], b.items[k]) then ArrGt(a, b, k + 1)
    else Gt(a.items[k], b.items[k])
  }

  /** Equal items are passed over: a list extended by more items is greater
      than the list itself, and never smaller. */
  lemma ListExtendGt(xs: seq<Json>, ys: seq<Json>)
    ensures Gt(JArr(xs + ys), JArr(xs)) == Ok(|ys| > 0)
    ensures Gt(JArr(xs), JArr(xs + ys)) == Ok(false)
  {
    ExtendFrom(xs, ys, 0);
  }

  lemma {:induction false} ExtendFrom(xs: seq<Json>, ys: seq<Json>, k: nat)
    requires k <= |xs|
    ensures ArrGt(JArr(xs + ys), JArr(xs), k) == Ok(|ys| > 0)
    ensures ArrGt(JArr(xs), JArr(xs + ys), k) == Ok(false)
    decreases |xs| - k
  {
    if k < |xs| {
      assert (xs + ys)[k] == xs[k];
      PyEqRefl(xs[k]);
      ExtendFrom(xs, ys, k + 1);
    }
  }

  /** The first pair of unequal items decides, whatever follows. */
  lemma ListFirstDiff(x: Json, xs: seq<Json>, y: Json, ys: seq<Json>)
    requires !PyEq(x, y)
    ensures Gt(JArr([x] + xs), JArr([y] + ys)) == Gt(x, y)
  {
  }

  /** A list and a number are not comparable, nor are a number and a string
      at the first difference of two lists. */
  lemma ListRaises()
    ensures Gt(JArr([JInt(1)]), JInt(1)) == Raise(TypeError)
    ensures Gt(JArr([JInt(1)]), JArr([JStr("a")])) == Raise(TypeError)
  {
    assert !PyEq(JInt(1), JStr("a"));
  }

  /** Two candidates whose confidences are the lists `[0]` and `[1]`: `max`
      picks the second. */
  lemma MaxScanLists()
    ensures var c0 := JObj([("confidence", JArr([JInt(0)]))]);
      var c1 := JObj([("confidence", JArr([JInt(1)]))]);
      MaxScan([c0, c1]) == Ok((1, JArr([JInt(1)])))
  {
    var c0 := JObj([("confidence", JArr([JInt(0)]))]);
    var c1 := JObj([("confidence", JArr([JInt(1)]))]);
    assert [c0, c1][..1] == [c0];
    assert !PyEq(JInt(1), JInt(0));
    assert Gt(JArr([JInt(1)]), JArr([JInt(0)])) == Ok(true);
  }

  /** `max(xs, key=lambda s: s["confidence"])` as CPython runs it: the key of
      each item is taken in turn and compared with the best so far, which a later
      item replaces only when its key is strictly greater.  The position of the
      maximum and its key. */
  function MaxScan(xs: seq<Json>): (r: Result<(nat, Json)>)
    requires |xs| > 0
    ensures r.Ok? ==> r.value.0 < |xs| && Index(xs[r.value.0], "confidence") == Ok(r.value.1)
    ensures r.Raise? ==> r.exc == KeyError || r.exc == TypeError
    decreases |xs|
  {
    var last := xs[|xs| - 1];
    if |xs| == 1 then
      var v :- Index(last, "confidence");
      Ok((0, v))
    else
      var best :- MaxScan(xs[..|xs| - 1]);
      var v :- Index(last, "confidence");
      var greater :- Gt(v, best.1);
      Ok(if greater then (|xs| - 1, v) else best)
  }

  /** The dict returned for the chosen suggestion, or None for an empty name. */
  function Answer(best: Json): (r: Result<Option<Row>>)
    ensures r.Ok? && r.value.Some? ==>
      OD.Keys(r.value.value) == ["employer_id", "employer_name"] && Truthy(r.value.value[1].1)
  {
    var name :- Index(best, "suggestion");
    if !Truthy(name) then Ok(None)
    else
      var id :- Index(best, "employerId");
      Ok(Some([("employer_id", id), ("employer_name", name)]))
  }

  /** The selection part of `find_company` on the decoded answer. */
  function Select(suggestions: Json): (r: Result<Option<Row>>)
    ensures r.Raise? ==> r.exc == KeyError || r.exc == TypeError
    ensures r.Ok? && r.value.Some? ==>
      OD.Keys(r.value.value) == ["employer_id", "employer_name"] && Truthy(r.value.value[1].1)
  {
    var items :- Iter(suggestions);
    var candidates :- Filter(items, IsCompany);
    if |candidates| == 0 then Ok(None)
    else
      var hits :- Filter(candidates, IsDirectHit);
      var pool := if |hits| > 0 then hits else candidates;
      var best :- MaxScan(pool);
      Answer(pool[best.0])
  }

  // ---------------------------------------------------------------------------
  // find_company
  // ---------------------------------------------------------------------------

  /** The outside world of the lookup: `fetch(query)(k)` is the outcome of the
      k-th request for the typeahead URL of `query`, and `parse` is the JSON
      parser. */
  datatype Search = Search(fetch: string -> nat -> Retry.Outcome, parse: string -> Option<Json>)

  /** `json.loads(response.text)` followed by the selection. */
  function Parse(body: string, parse: string -> Option<Json>): (r: Result<Option<Row>>)
    ensures r.Raise? ==> r.exc in {JsonDecodeError, KeyError, TypeError}
    ensures r.Ok? && r.value.Some? ==>
      OD.Keys(r.value.value) == ["employer_id", "employer_name"] && Truthy(r.value.value[1].1)
  {
    var suggestions :- Apollo.Loads(body, parse);
    Select(suggestions)
  }

  /** `find_company(query)`.  Another request error returns None; otherwise the
      last response is decoded whether or not it was a success, so a loop that
      ended on a network error (no response) fails on `None.text`. */
  function FindCompanySpec(search: Search, query: string): (r: Result<Option<Row>>)
    ensures r.Raise? ==> r.exc in {AttributeError, JsonDecodeError, KeyError, TypeError}
    ensures r.Ok? && r.value.Some? ==>
      OD.Keys(r.value.value) == ["employer_id", "employer_name"] && Truthy(r.value.value[1].1)
  {
    AfterLoop(Retry.RetryRun(search.fetch(query)).exit, search.parse)
  }

  /** What `find_company` does once the retry loop has ended. */
  function AfterLoop(exit: Retry.Exit, parse: string -> Option<Json>): Result<Option<Row>> {
    match exit
    case Aborted => Ok(None)
    case Success(body) => Parse(body, parse)
    case Capped(last) =>
      if last.Some? then Parse(last.value, parse) else Raise(AttributeError)
  }

  method FindCompany(search: Search, query: string) returns (r: Result<Option<Row>>)
    ensures r == FindCompanySpec(search, query)
  {
    var stop := Retry.FetchLoop(search.fetch(query));
    match stop.exit {
      case Aborted =>
        r := Ok(None);
      case Success(body) =>
        r := Parse(body, search.parse);
      case Capped(last) =>
        if last.None? {
          return Raise(AttributeError);
        }
        r := Parse(last.value, search.parse);
    }
  }

  // ---------------------------------------------------------------------------
  // Properties of the selection
  // ---------------------------------------------------------------------------

  /** A suggestion the selection can read without raising: a dict with a
      category and, when it is a candidate, a direct-hit flag and a numeric
      confidence. */
  ghost predicate Readable(s: Json) {
    IsCompany(s).Ok? &&
    (IsCompany(s) == Ok(true) ==>
       IsDirectHit(s).Ok? && Index(s, "confidence").Ok? && Num(Index(s, "confidence").value).Some?)
  }

  /** The numeric confidence of a readable candidate. */
  function Conf(s: Json): real {
    match Index(s, "confidence")
    case Ok(v) => (match Num(v) case Some(x) => x case None => 0.0)
    case Raise(_) => 0.0
  }

  /** Whether a suggestion competes: a candidate, and a direct hit when the
      competition is among direct hits. */
  predicate InPool(s: Json, hitsOnly: bool) {
    IsCompany(s) == Ok(true) && (hitsOnly ==> IsDirectHit(s) == Ok(true))
  }

  /** Position i holds the first competing suggestion of maximal confidence. */
  ghost predicate FirstMax(xs: seq<Json>, i: nat, hitsOnly: bool) {
    i < |xs| && InPool(xs[i], hitsOnly) &&
    forall j :: 0 <= j < |xs| && InPool(xs[j], hitsOnly) ==>
      Conf(xs[j]) <= Conf(xs[i]) && (j < i ==> Conf(xs[j]) < Conf(xs[i]))
  }

  /** Some candidate is a direct hit. */
  ghost predicate AnyHit(xs: seq<Json>) {
    exists j :: 0 <= j < |xs| && InPool(xs[j], true)
  }

  /** A candidate that is also a direct hit. */
  function IsCompanyHit(s: Json): Result<bool> {
    match IsCompany(s)
    case Ok(c) => if c then IsDirectHit(s) else Ok(false)
    case Raise(e) => Raise(e)
  }

  /** Filtering the candidates for direct hits is filtering the suggestions for
      candidates that are direct hits. */
  lemma {:induction false} FilterHits(xs: seq<Json>)
    requires forall i :: 0 <= i < |xs| ==> Readable(xs[i])
    ensures Filter(xs, IsCompany).Ok? && Filter(Filter(xs, IsCompany).value, IsDirectHit) == Filter(xs, IsCompanyHit)
    decreases |xs|
  {
    if |xs| > 0 {
      var init := xs[..|xs| - 1];
      var x := xs[|xs| - 1];
      FilterHits(init);
      var c := Filter(init, IsCompany).value;
      if IsCompany(x) == Ok(true) {
        assert Filter(xs, IsCompany).value == c + [x];
        assert (c + [x])[..|c|] == c;
      }
    }
  }

  /** Position i of xs holds the first item of maximal key among those the pool
      admits. */
  ghost predicate FirstMaxBy(xs: seq<Json>, i: nat, inPool: Json -> bool, key: Json -> real) {
    i < |xs| && inPool(xs[i]) &&
    forall j :: 0 <= j < |xs| && inPool(xs[j]) ==> key(xs[j]) <= key(xs[i]) && (j < i ==> key(xs[j]) < key(xs[i]))
  }

  /** The selection reads the confidence of x as the number key(x). */
  ghost predicate Keyed(x: Json, key: Json -> real) {
    Index(x, "confidence").Ok? && Num(Index(x, "confidence").value) == Some(key(x))
  }

  /** The requirements shared by the `PoolMax` lemmas: the filter decides the
      pool without raising, and every pool item has a numeric confidence. */
  ghost predicate PoolReady(xs: seq<Json>, p: Json -> Result<bool>, inPool: Json -> bool, key: Json -> real) {
    (forall i :: 0 <= i < |xs| ==> p(xs[i]).Ok? && (p(xs[i]) == Ok(true) <==> inPool(xs[i]))) &&
    (forall i :: 0 <= i < |xs| && inPool(xs[i]) ==> Keyed(xs[i], key))
  }

  /** The item `max` picks from a filtered list is the first item of maximal
      confidence among those the filter keeps. */
  lemma {:induction false} PoolMax(xs: seq<Json>, p: Json -> Result<bool>, inPool: Json -> bool, key: Json -> real)
    requires PoolReady(xs, p, inPool, key)
    requires Filter(xs, p).Ok? && |Filter(xs, p).value| > 0
    ensures MaxScan(Filter(xs, p).value).Ok?
    ensures exists i: nat :: FirstMaxBy(xs, i, inPool, key) && Filter(xs, p).value[MaxScan(Filter(xs, p).value).value.0] == xs[i]
    decreases |xs|
  {
    var n := |xs|;
    var init := xs[..n - 1];
    assert forall i :: 0 <= i < |init| ==> init[i] == xs[i];
    assert PoolReady(init, p, inPool, key);
    var kept := Filter(init, p).value;
    if |kept| == 0 {
      PoolMaxFirst(xs, p, inPool, key);
    } else {
      PoolMax(init, p, inPool, key);
      var i: nat :| FirstMaxBy(init, i, inPool, key) && kept[MaxScan(kept).value.0] == init[i];
      PoolMaxStep(xs, p, inPool, key, i);
    }
  }

  /** The first item the filter keeps is the answer when the items before it
      were all dropped. */
  lemma PoolMaxFirst(xs: seq<Json>, p: Json -> Result<bool>, inPool: Json -> bool, key: Json -> real)
    requires PoolReady(xs, p, inPool, key)
    requires Filter(xs, p).Ok? && |Filter(xs, p).value| > 0
    requires Filter(xs[..|xs| - 1], p).Ok? && |Filter(xs[..|xs| - 1], p).value| == 0
    ensures MaxScan(Filter(xs, p).value).Ok?
    ensures exists i: nat :: FirstMaxBy(xs, i, inPool, key) && Filter(xs, p).value[MaxScan(Filter(xs, p).value).value.0] == xs[i]
  {
    var n := |xs|;
    var x := xs[n - 1];
    var init := xs[..n - 1];
    assert forall i :: 0 <= i < |init| ==> init[i] == xs[i];
    assert Filter(xs, p).value == [x];
    assert inPool(x) && Keyed(x, key);
    assert FirstMaxBy(xs, n - 1, inPool, key);
  }

  /** The last item competes with the maximum of the items before it, and wins
      only when strictly greater. */
  lemma PoolMaxStep(xs: seq<Json>, p: Json -> Result<bool>, inPool: Json -> bool, key: Json -> real, i: nat)
    requires |xs| > 0 && PoolReady(xs, p, inPool, key)
    requires Filter(xs, p).Ok? && Filter(xs[..|xs| - 1], p).Ok?
    requires |Filter(xs[..|xs| - 1], p).value| > 0 && MaxScan(Filter(xs[..|xs| - 1], p).value).Ok?
    requires FirstMaxBy(xs[..|xs| - 1], i, inPool, key)
    requires Filter(xs[..|xs| - 1], p).value[MaxScan(Filter(xs[..|xs| - 1], p).value).value.0] == xs[..|xs| - 1][i]
    ensures |Filter(xs, p).value| > 0 && MaxScan(Filter(xs, p).value).Ok?
    ensures exists i: nat :: FirstMaxBy(xs, i, inPool, key) && Filter(xs, p).value[MaxScan(Filter(xs, p).value).value.0] == xs[i]
  {
    var n := |xs|;
    var init := xs[..n - 1];
    var x := xs[n - 1];
    assert forall j :: 0 <= j < |init| ==> init[j] == xs[j];
    var kept := Filter(init, p).value;
    var best := MaxScan(kept).value;
    if p(x) == Ok(false) {
      assert Filter(xs, p).value == kept;
      KeepFirstMax(xs, i, inPool, key);
    } else {
      var f := Filter(xs, p).value;
      assert f == kept + [x];
      assert f[..|f| - 1] == kept;
      assert Num(best.1) == Some(key(xs[i]));
      var v := Index(x, "confidence").value;
      assert Gt(v, best.1) == Ok(key(x) > key(xs[i]));
      if key(x) > key(xs[i]) {
        assert MaxScan(f).value.0 == |f| - 1;
        NewFirstMax(xs, i, inPool, key);
      } else {
        assert MaxScan(f).value == best;
        KeepFirstMax(xs, i, inPool, key);
      }
    }
  }

  /** The maximum so far stays when the last item does not beat it. */
  lemma KeepFirstMax(xs: seq<Json>, i: nat, inPool: Json -> bool, key: Json -> real)
    requires |xs| > 0 && FirstMaxBy(xs[..|xs| - 1], i, inPool, key)
    requires inPool(xs[|xs| - 1]) ==> key(xs[|xs| - 1]) <= key(xs[i])
    ensures FirstMaxBy(xs, i, inPool, key)
  {
    var init := xs[..|xs| - 1];
    forall j | 0 <= j < |xs| - 1 ensures xs[j] == init[j] {}
  }

  /** The last item becomes the maximum when it beats the maximum so far. */
  lemma NewFirstMax(xs: seq<Json>, i: nat, inPool: Json -> bool, key: Json -> real)
    requires |xs| > 0 && FirstMaxBy(xs[..|xs| - 1], i, inPool, key)
    requires inPool(xs[|xs| - 1]) && key(xs[|xs| - 1]) > key(xs[i])
    ensures FirstMaxBy(xs, |xs| - 1, inPool, key)
  {
    var init := xs[..|xs| - 1];
    forall j | 0 <= j < |xs| - 1 ensures xs[j] == init[j] {}
  }

  /** The pool of one kind, as a predicate on suggestions. */
  function PoolOf(hitsOnly: bool): Json -> bool {
    (s: Json) => InPool(s, hitsOnly)
  }

  /** The position `PoolMax` finds is the first maximal competing suggestion. */
  lemma BestInPool(items: seq<Json>, p: Json -> Result<bool>, hitsOnly: bool)
    requires forall i :: 0 <= i < |items| ==> Readable(items[i])
    requires forall i :: 0 <= i < |items| ==> p(items[i]).Ok? && (p(items[i]) == Ok(true) <==> InPool(items[i], hitsOnly))
    requires Filter(items, p).Ok? && |Filter(items, p).value| > 0
    ensures MaxScan(Filter(items, p).value).Ok?
    ensures exists i: nat :: FirstMax(items, i, hitsOnly) && Filter(items, p).value[MaxScan(Filter(items, p).value).value.0] == items[i]
  {
    var inPool := PoolOf(hitsOnly);
    forall i | 0 <= i < |items| && inPool(items[i]) ensures Keyed(items[i], Conf) {
      assert Readable(items[i]);
    }
    assert PoolReady(items, p, inPool, Conf);
    PoolMax(items, p, inPool, Conf);
    var i: nat :| FirstMaxBy(items, i, inPool, Conf) && Filter(items, p).value[MaxScan(Filter(items, p).value).value.0] == items[i];
    assert FirstMax(items, i, hitsOnly);
  }

  /** The selection over a list of readable suggestions: with no candidate the
      answer is None; otherwise the chosen suggestion is the first one of maximal
      confidence among the direct hits when there is one, and among all
      candidates when there is none. */
  lemma SelectBest(items: seq<Json>)
    requires forall i :: 0 <= i < |items| ==> Readable(items[i])
    ensures (forall i :: 0 <= i < |items| ==> !InPool(items[i], false)) ==> Select(JArr(items)) == Ok(None)
    ensures (exists i :: 0 <= i < |items| && InPool(items[i], false)) ==>
      exists i: nat :: FirstMax(items, i, AnyHit(items)) && Select(JArr(items)) == Answer(items[i])
  {
    assert Iter(JArr(items)) == Ok(items);
    var c := Filter(items, IsCompany).value;
    if exists i :: 0 <= i < |items| && InPool(items[i], false) {
      FilterHits(items);
      var hits := Filter(c, IsDirectHit).value;
      if AnyHit(items) {
        var j :| 0 <= j < |items| && InPool(items[j], true);
        assert IsCompanyHit(items[j]) == Ok(true);
        BestInPool(items, IsCompanyHit, true);
        assert Select(JArr(items)) == Answer(hits[MaxScan(hits).value.0]);
      } else {
        BestInPool(items, IsCompany, false);
        assert Select(JArr(items)) == Answer(c[MaxScan(c).value.0]);
      }
    }
  }

  // ---------------------------------------------------------------------------
  // Properties of find_company
  // ---------------------------------------------------------------------------

  /** `find_company` fails on `None.text` (AttributeError) exactly when the loop
      reached a cap on an attempt that got no response; another request error
      gives None; a success or an HTTP-error cap decodes the last response. */
  lemma FindCompanyOutcomes(search: Search, query: string)
    ensures var stop := Retry.RetryRun(search.fetch(query));
      (FindCompanySpec(search, query) == Raise(AttributeError) <==>
         (stop.http == Retry.MaxHttpAttempts || stop.network == Retry.MaxNetworkAttempts) &&
         !(stop.attempts > 0 && search.fetch(query)(stop.attempts - 1).HttpError?)) &&
      (stop.exit.Aborted? ==> FindCompanySpec(search, query) == Ok(None)) &&
      (stop.exit.Success? ==> FindCompanySpec(search, query) == Parse(stop.exit.body, search.parse))
  {
    var attempt := search.fetch(query);
    Retry.RunProps(attempt, 0, 0, 0, None);
    ExitOutcomes(attempt, Retry.RetryRun(attempt), search.parse);
  }

  /** The same, for any stop state that satisfies what the loop guarantees. */
  lemma ExitOutcomes(attempt: nat -> Retry.Outcome, stop: Retry.Stop, parse: string -> Option<Json>)
    requires Retry.Ended(attempt, stop)
    ensures (AfterLoop(stop.exit, parse) == Raise(AttributeError) <==>
         (stop.http == Retry.MaxHttpAttempts || stop.network == Retry.MaxNetworkAttempts) &&
         !(stop.attempts > 0 && attempt(stop.attempts - 1).HttpError?))
    ensures stop.exit.Aborted? ==> AfterLoop(stop.exit, parse) == Ok(None)
    ensures stop.exit.Success? ==> AfterLoop(stop.exit, parse) == Parse(stop.exit.body, parse)
  {
  }

  /** Unlike `get_apollo`, a server that always answers with an error status
      still has its last error page decoded and searched. */
  lemma ErrorPageParsed(search: Search, query: string, page: string)
    requires forall k :: search.fetch(query)(k) == Retry.HttpError(page)
    ensures FindCompanySpec(search, query) == Parse(page, search.parse)
  {
    Retry.AlwaysHttpError(search.fetch(query), page);
  }

  // ---------------------------------------------------------------------------
  // The company table
  // ---------------------------------------------------------------------------

  /** The first row with the given `employer_name` (`filter_by(...).first()`). */
  function RowNamed(rows: seq<Row>, name: string): (r: Option<nat>)
    ensures r.Some? ==> r.value < |rows| && Models.Column(rows[r.value], "employer_name") == JStr(name)
    ensures r.Some? ==> forall j :: 0 <= j < r.value ==> Models.Column(rows[j], "employer_name") != JStr(name)
    ensures r.None? ==> forall i :: 0 <= i < |rows| ==> Models.Column(rows[i], "employer_name") != JStr(name)
  {
    FirstIndex(rows, (row: Row) => Models.Column(row, "employer_name") == JStr(name))
  }

  /** `setattr(row, key, value)` for each returned pair in order; a key that is
      not a column sets a plain attribute, which is not stored. */
  function Assign(row: Row, d: Row): Row
    decreases |d|
  {
    if |d| == 0 then row
    else
      var r := Assign(row, d[..|d| - 1]);
      var kv := d[|d| - 1];
      if Models.IsColumn(kv.0) then OD.Set(r, kv.0, kv.1) else r
  }

  /** `db.commit()`: the session's rows when they satisfy the key constraints,
      otherwise IntegrityError and `db.rollback()` back to the committed rows. */
  function Commit(committed: seq<Row>, session: seq<Row>): seq<Row> {
    if Models.CompanyKeys(session) then session else committed
  }

  /** Every key of a result is a column of the table. */
  predicate AllColumns(d: Row) {
    forall i :: 0 <= i < |d| ==> Models.IsColumn(d[i].0)
  }

  /** The table after `add_company_to_db(name)` given what the lookup gave, and
      whether the call raised. */
  function AddSpec(rows: seq<Row>, name: string, found: Result<Option<Row>>): (seq<Row>, Result<()>) {
    match found
    case Raise(e) => (rows, Raise(e))
    case Ok(None) =>
      (match RowNamed(rows, name)
       case Some(i) => (rows[i := OD.Set(rows[i], "id_not_found", JBool(true))], Ok(()))
       case None => (rows, Ok(())))
    case Ok(Some(d)) =>
      if d == [] then (rows, Ok(()))
      else
        match RowNamed(rows, name)
        case Some(i) => (Commit(rows, rows[i := Assign(rows[i], d)]), Ok(()))
        case None =>
          if AllColumns(d) then (Commit(rows, rows + [OD.FromPairs(d)]), Ok(()))
          else (rows, Raise(TypeError))   // Company(**data) with a keyword that is no column
  }

  /** `find_all_companies` schedules the rows whose `id_not_found != 1`, in
      table order. */
  function Scheduled(rows: seq<Row>): (tasks: seq<nat>)
    ensures forall i: nat :: i in tasks <==> i < |rows| && !EqTrue(Models.Column(rows[i], "id_not_found"))
    ensures forall a :: 0 <= a < |tasks| ==> tasks[a] < |rows|
    ensures forall a, b :: 0 <= a < b < |tasks| ==> tasks[a] < tasks[b]
    decreases |rows|
  {
    if |rows| == 0 then []
    else
      var init := Scheduled(rows[..|rows| - 1]);
      assert forall i :: 0 <= i < |rows| - 1 ==> rows[..|rows| - 1][i] == rows[i];
      if EqTrue(Models.Column(rows[|rows| - 1], "id_not_found")) then init else init + [|rows| - 1]
  }

  /** A task for row t: the row's current name is looked up and added; a row
      without a string name makes the lookup raise, which the task swallows. */
  function RunTask(rows: seq<Row>, lookup: string -> Result<Option<Row>>, t: nat): seq<Row> {
    if t < |rows| && Models.Column(rows[t], "employer_name").JStr? then
      var name := Models.Column(rows[t], "employer_name").s;
      AddSpec(rows, name, lookup(name)).0
    else rows
  }

  /** The tasks run one after another, each holding the lock for its whole run. */
  function RunTasks(rows: seq<Row>, lookup: string -> Result<Option<Row>>, tasks: seq<nat>): seq<Row>
    decreases |tasks|
  {
    if |tasks| == 0 then rows
    else RunTask(RunTasks(rows, lookup, tasks[..|tasks| - 1]), lookup, tasks[|tasks| - 1])
  }

  /** Running one more task extends the run. */
  lemma RunTasksSnoc(rows: seq<Row>, lookup: string -> Result<Option<Row>>, tasks: seq<nat>, k: nat)
    requires k < |tasks|
    ensures RunTasks(rows, lookup, tasks[..k + 1]) == RunTask(RunTasks(rows, lookup, tasks[..k]), lookup, tasks[k])
  {
    assert tasks[..k + 1][..k] == tasks[..k];
  }

  function LookupOf(search: Search): string -> Result<Option<Row>> {
    (name: string) => FindCompanySpec(search, name)
  }

  /** The setattr loop over the pairs of a result. */
  method SetAttrs(row: Row, d: Row) returns (r: Row)
    ensures r == Assign(row, d)
  {
    r := row;
    var k := 0;
    while k < |d|
      invariant 0 <= k <= |d| && r == Assign(row, d[..k])
    {
      assert d[..k + 1][..k] == d[..k];
      if Models.IsColumn(d[k].0) {
        r := OD.Set(r, d[k].0, d[k].1);
      }
      k := k + 1;
    }
    assert d[..|d|] == d;
  }

  /** The task list of `find_all_companies`: one task per row not marked as
      not found. */
  method Schedule(companies: seq<Row>) returns (tasks: seq<nat>)
    ensures tasks == Scheduled(companies)
  {
    tasks := [];
    var i := 0;
    while i < |companies|
      invariant 0 <= i <= |companies| && tasks == Scheduled(companies[..i])
    {
      assert companies[..i + 1][..i] == companies[..i];
      if !EqTrue(Models.Column(companies[i], "id_not_found")) {
        tasks := tasks + [i];
      }
      i := i + 1;
    }
    assert companies[..|companies|] == companies;
  }

  class CompanyTable {
    var rows: seq<Row>

    ghost predicate Valid()
      reads this
    {
      Models.CompanyKeys(rows)
    }

    constructor (rows: seq<Row>)
      requires Models.CompanyKeys(rows)
      ensures this.rows == rows && Valid()
    {
      this.rows := rows;
    }

    /** `add_company_to_db(name)`. */
    method AddCompanyToDb(search: Search, name: string) returns (r: Result<()>)
      requires Valid()
      modifies this
      ensures Valid()
      ensures (rows, r) == AddSpec(old(rows), name, FindCompanySpec(search, name))
    {
      var found := FindCompany(search, name);
      AddKeepsKeys(rows, name, found);
      if found.Raise? {
        return Raise(found.exc);
      }
      var existing := RowNamed(rows, name);
      match found.value {
        case None =>
          if existing.Some? {
            rows := rows[existing.value := OD.Set(rows[existing.value], "id_not_found", JBool(true))];
          }
          r := Ok(());
        case Some(d) =>
          if d == [] {
            return Ok(());
          }
      var session: seq<Row>;
          if existing.Some? {
            var row := SetAttrs(rows[existing.value], d);
            session := rows[existing.value := row];
          } else {
            if !AllColumns(d) {
              return Raise(TypeError);
            }
            session := rows + [OD.FromPairs(d)];
          }
          if Models.CompanyKeys(session) {
            rows := session;
          }
          r := Ok(());
      }
    }

    /** `find_all_companies()`: the rows to visit are chosen from the table as
        it is at the start, then visited in order. */
    method FindAllCompanies(search: Search) returns (tasks: seq<nat>)
      requires Valid()
      modifies this
      ensures Valid()
      ensures tasks == Scheduled(old(rows))
      ensures rows == RunTasks(old(rows), LookupOf(search), tasks)
    {
      var companies := rows;
      tasks := Schedule(companies);
      var k := 0;
      while k < |tasks|
        invariant 0 <= k <= |tasks| && Valid()
        invariant rows == RunTasks(companies, LookupOf(search), tasks[..k])
      {
        RunTasksSnoc(companies, LookupOf(search), tasks, k);
        var t := tasks[k];
        if t < |rows| && Models.Column(rows[t], "employer_name").JStr? {
          var _ := AddCompanyToDb(search, Models.Column(rows[t], "employer_name").s);
        }
        k := k + 1;
      }
      assert tasks[..|tasks|] == tasks;
    }
  }

  // ---------------------------------------------------------------------------
  // Properties of the table update
  // ---------------------------------------------------------------------------

  /** An update keeps the key constraints: the only uncommitted change is to
      `id_not_found`, which is not a key. */
  lemma AddKeepsKeys(rows: seq<Row>, name: string, found: Result<Option<Row>>)
    requires Models.CompanyKeys(rows)
    ensures Models.CompanyKeys(AddSpec(rows, name, found).0)
  {
    if found == Ok(None) && RowNamed(rows, name).Some? {
      Models.SetOtherKeepsKeys(rows, RowNamed(rows, name).value, "id_not_found", JBool(true));
    }
  }

  /** A lookup that found nothing marks the first row of that name, and only
      its `id_not_found` column; with no such row nothing changes. */
  lemma NotFoundMarks(rows: seq<Row>, name: string)
    ensures var after := AddSpec(rows, name, Ok(None));
      after.1 == Ok(()) && |after.0| == |rows| &&
      (RowNamed(rows, name).None? ==> after.0 == rows) &&
      (RowNamed(rows, name).Some? ==>
         var i := RowNamed(rows, name).value;
         (forall j :: 0 <= j < |rows| && j != i ==> after.0[j] == rows[j]) &&
         (forall c :: c != "id_not_found" ==> Models.Column(after.0[i], c) == Models.Column(rows[i], c)))
  {
    if RowNamed(rows, name).Some? {
      var i := RowNamed(rows, name).value;
      forall c | c != "id_not_found"
        ensures Models.Column(AddSpec(rows, name, Ok(None)).0[i], c) == Models.Column(rows[i], c)
      {
        OD.SetOther(rows[i], "id_not_found", JBool(true), c);
      }
    }
  }

  /** The marked row reads `id_not_found` as True, so the next
      `find_all_companies` skips it. */
  lemma MarkedIsSkipped(rows: seq<Row>, name: string)
    requires RowNamed(rows, name).Some? && OD.NoDupKeys(rows[RowNamed(rows, name).value])
    ensures var i := RowNamed(rows, name).value;
      i !in Scheduled(AddSpec(rows, name, Ok(None)).0)
  {
    var i := RowNamed(rows, name).value;
    OD.SetGet(rows[i], "id_not_found", JBool(true), "id_not_found");
  }

  /** An empty dict changes nothing. */
  lemma EmptyResultIgnored(rows: seq<Row>, name: string)
    ensures AddSpec(rows, name, Ok(Some([]))) == (rows, Ok(()))
  {
  }

  /** Assigning the pairs of a result overwrites exactly the columns it names. */
  lemma {:induction false} AssignGet(row: Row, d: Row, c: string)
    requires OD.NoDupKeys(row)
    ensures OD.NoDupKeys(Assign(row, d))
    ensures OD.Get(Assign(row, d), c) ==
      if Models.IsColumn(c) && c in OD.Keys(d) then OD.Get(d, c) else OD.Get(row, c)
    decreases |d|
  {
    if |d| > 0 {
      var init := d[..|d| - 1];
      var kv := d[|d| - 1];
      AssignGet(row, init, c);
      OD.GetSnoc(d, c);
      if Models.IsColumn(kv.0) {
        OD.SetProps(Assign(row, init), kv.0, kv.1);
      }
    }
  }

  /** A result for an existing row overwrites that row's named columns when the
      commit succeeds, and changes nothing when it violates a key. */
  lemma ExistingOverwritten(rows: seq<Row>, name: string, d: Row)
    requires d != [] && RowNamed(rows, name).Some?
    requires OD.NoDupKeys(rows[RowNamed(rows, name).value])
    ensures var i := RowNamed(rows, name).value;
      var session := rows[i := Assign(rows[i], d)];
      var after := AddSpec(rows, name, Ok(Some(d))).0;
      (Models.CompanyKeys(session) ==>
         after == session &&
         forall c :: Models.Column(after[i], c) ==
           if Models.IsColumn(c) && c in OD.Keys(d) then GetOrNull(d, c) else Models.Column(rows[i], c)) &&
      (!Models.CompanyKeys(session) ==> after == rows)
  {
    var i := RowNamed(rows, name).value;
    forall c {
      AssignGet(rows[i], d, c);
    }
  }

  /** A result for a name not in the table appends a row with exactly the
      returned columns, unless its employer id is already taken (or missing),
      in which case the commit is rolled back. */
  lemma NewRowAdded(rows: seq<Row>, name: string, d: Row)
    requires Models.CompanyKeys(rows) && d != [] && RowNamed(rows, name).None? && AllColumns(d)
    ensures var after := AddSpec(rows, name, Ok(Some(d))).0;
      (Models.CompanyKeys(rows + [OD.FromPairs(d)]) ==> after == rows + [OD.FromPairs(d)]) &&
      ((GetOrNull(d, "employer_id") == JNull ||
        (exists j :: 0 <= j < |rows| && Models.Column(rows[j], "employer_id") == GetOrNull(d, "employer_id")))
       ==> after == rows)
  {
    var s := rows + [OD.FromPairs(d)];
    OD.FromPairsProps(d);
    assert Models.Column(s[|rows|], "employer_id") == GetOrNull(d, "employer_id");
    if exists j :: 0 <= j < |rows| && Models.Column(rows[j], "employer_id") == GetOrNull(d, "employer_id") {
      var j :| 0 <= j < |rows| && Models.Column(rows[j], "employer_id") == GetOrNull(d, "employer_id");
      assert s[j] == rows[j];
      assert !Models.CompanyKeys(s);
    } else if GetOrNull(d, "employer_id") == JNull {
      assert !Models.CompanyKeys(s);
    }
  }
}
