/** The worker process (scraper/main.py): how the URLs are split among the
    workers, and how one worker stores what it scraped.

    `main` cuts the list of company URLs into slices, one per `range` step, and
    hands each slice to a worker.  A worker scrapes each URL, overwrites the
    company row with the validated overview, then adds the validated reviews,
    committing every hundred of them and once more at the end.

    The database is the worker's session: the committed company and review
    rows, the reviews added since the last commit, and how many review commits
    it has attempted.  Whether a review commit succeeds is an input
    (`ok(k)` for the k-th one); a company commit succeeds exactly when the
    company rows keep their key constraints.
 */
module Orchestration {
  import opened Wrappers
  import opened Json
  import OD = OrderedDict
  import BaseModels
  import Models
  import Companies
  import Overview
  import Reviews
  import Scrape
  import Apollo

  type Row = Models.Row

  // ---------------------------------------------------------------------------
  // Splitting the URLs among the workers
  // ---------------------------------------------------------------------------

  function Min(a: nat, b: nat): nat {
    if a < b then a else b
  }

  /** k * d, written as repeated addition so that the proofs below stay linear. */
  function Mul(k: nat, d: nat): nat
    decreases k
  {
    if k == 0 then 0 else Mul(k - 1, d) + d
  }

  lemma {:induction false} MulIsTimes(k: nat, d: nat)
    ensures Mul(k, d) == k * d
    decreases k
  {
    if k > 0 {
      MulIsTimes(k - 1, d);
      assert k * d == (k - 1) * d + d;
    }
  }

  /** A larger multiple of a positive step is at least one step larger. */
  lemma {:induction false} MulGrows(a: nat, b: nat, d: nat)
    requires a < b
    ensures Mul(a, d) + d <= Mul(b, d)
    decreases b
  {
    if a < b - 1 {
      MulGrows(a, b - 1, d);
    }
  }

  /** `num_workers`: one per CPU, but not more than there are URLs. */
  function NumWorkers(cpus: nat, n: nat): nat {
    if cpus > n then n else cpus
  }

  /** The bounds of the slices `urls[i:i + upw + (1 if i < rem else 0)]` for
      `i` in `range(start, n, upw)`, the end clipped at n as slicing does. */
  function Bounds(n: nat, upw: nat, rem: nat, start: nat): (bs: seq<(nat, nat)>)
    requires upw > 0
    ensures forall k :: 0 <= k < |bs| ==> bs[k].0 <= bs[k].1 <= n
    decreases n - start
  {
    if start >= n then []
    else [(start, Min(n, start + upw + (if start < rem then 1 else 0)))] + Bounds(n, upw, rem, start + upw)
  }

  lemma DivPositive(n: nat, w: nat)
    requires 0 < w <= n
    ensures n / w >= 1
  {
  }

  /** `urls_for_workers`, or the ZeroDivisionError of `divmod(len(urls), 0)`. */
  function Partition<T>(urls: seq<T>, cpus: nat): Result<seq<seq<T>>> {
    var n := |urls|;
    var w := NumWorkers(cpus, n);
    if w == 0 then Raise(ZeroDivisionError)
    else
      DivPositive(n, w);
      var bs := Bounds(n, n / w, n % w, 0);
      Ok(seq(|bs|, k requires 0 <= k < |bs| => urls[bs[k].0..bs[k].1]))
  }

  /** The k-th slice starts at the k-th multiple of the step and is one longer
      while its start is below the remainder. */
  lemma {:induction false} BoundsAt(n: nat, upw: nat, rem: nat, start: nat, k: nat)
    requires upw > 0 && k < |Bounds(n, upw, rem, start)|
    ensures start + Mul(k, upw) < n
    ensures Bounds(n, upw, rem, start)[k] ==
      (start + Mul(k, upw), Min(n, start + Mul(k, upw) + upw + (if start + Mul(k, upw) < rem then 1 else 0)))
    decreases k
  {
    if k > 0 {
      BoundsAt(n, upw, rem, start + upw, k - 1);
      MulShift(k, upw);
    }
  }

  /** The k-th multiple is the first step plus the (k-1)-th multiple. */
  lemma {:induction false} MulShift(k: nat, d: nat)
    requires k > 0
    ensures Mul(k, d) == d + Mul(k - 1, d)
  {
  }

  /** The slices start at every multiple of the step below n: the last start is
      below n and the next one would not be. */
  lemma {:induction false} BoundsCount(n: nat, upw: nat, rem: nat, start: nat)
    requires upw > 0
    ensures start + Mul(|Bounds(n, upw, rem, start)|, upw) >= n
    ensures start < n <==> |Bounds(n, upw, rem, start)| > 0
    decreases n - start
  {
    if start < n {
      var m := |Bounds(n, upw, rem, start + upw)|;
      BoundsCount(n, upw, rem, start + upw);
      MulShift(m + 1, upw);
    }
  }

  /** The position of a URL lies in the slice of the last multiple of the step
      at or below it. */
  lemma {:induction false} SliceOf(j: nat, d: nat) returns (k: nat)
    requires d > 0
    ensures Mul(k, d) <= j < Mul(k, d) + d
    decreases j
  {
    if j < d {
      k := 0;
    } else {
      var k' := SliceOf(j - d, d);
      k := k' + 1;
    }
  }

  /** Every URL is in the slice that starts at the last multiple of the step at
      or below its position. */
  lemma PartitionCovers<T>(urls: seq<T>, cpus: nat, j: nat)
    requires Partition(urls, cpus).Ok? && j < |urls|
    ensures exists k :: 0 <= k < |Partition(urls, cpus).value| && urls[j] in Partition(urls, cpus).value[k]
  {
    var n := |urls|;
    var w := NumWorkers(cpus, n);
    var upw := n / w;
    var bs := Bounds(n, upw, n % w, 0);
    var k := SliceOf(j, upw);
    BoundsCount(n, upw, n % w, 0);
    if |bs| <= k {
      if |bs| < k {
        MulGrows(|bs|, k, upw);
      }
    }
    assert k < |bs|;
    BoundsAt(n, upw, n % w, 0, k);
    var cs := Partition(urls, cpus).value;
    assert cs[k] == urls[Mul(k, upw)..bs[k].1];
    assert cs[k][j - Mul(k, upw)] == urls[j];
  }

  /** There are `ceil(n / upw)` slices: as many as workers when the URLs divide
      evenly, and more than there are workers when they do not. */
  lemma PartitionCount<T>(urls: seq<T>, cpus: nat)
    requires Partition(urls, cpus).Ok?
    ensures var w := NumWorkers(cpus, |urls|);
      (|urls| % w == 0 ==> |Partition(urls, cpus).value| == w) &&
      (|urls| % w != 0 ==> |Partition(urls, cpus).value| > w)
  {
    var n := |urls|;
    var w := NumWorkers(cpus, n);
    var upw := n / w;
    var rem := n % w;
    var m := |Bounds(n, upw, rem, 0)|;
    BoundsCount(n, upw, rem, 0);
    BoundsAt(n, upw, rem, 0, m - 1);
    DivMod(n, w);
    CountArith(n, w, upw, rem, m);
  }

  /** Euclidean division in terms of `Mul`. */
  lemma DivMod(n: nat, w: nat)
    requires w > 0
    ensures n == Mul(w, n / w) + n % w && n % w < w
  {
    MulIsTimes(w, n / w);
  }

  lemma CountArith(n: nat, w: nat, upw: nat, rem: nat, m: nat)
    requires upw > 0 && m > 0 && n == Mul(w, upw) + rem && rem < w
    requires Mul(m, upw) >= n && Mul(m - 1, upw) < n
    ensures rem == 0 ==> m == w
    ensures rem > 0 ==> m > w
  {
    if m < w {
      MulGrows(m, w, upw);
    } else if m - 1 > w {
      MulGrows(w, m - 1, upw);
    } else if m - 1 == w {
      MulShift(m, upw);
    }
  }

  /** Five URLs on two workers give three overlapping slices: `[0:3]`, `[2:4]`
      and `[4:5]`, so the third URL is scraped twice. */
  lemma PartitionOverlaps()
    ensures Partition([0, 1, 2, 3, 4], 2) == Ok([[0, 1, 2], [2, 3], [4]])
  {
    var urls := [0, 1, 2, 3, 4];
    var bs := Bounds(5, 2, 1, 0);
    assert bs == [(0, 3), (2, 4), (4, 5)];
    var cs := seq(|bs|, k requires 0 <= k < |bs| => urls[bs[k].0..bs[k].1]);
    assert Partition(urls, 2) == Ok(cs);
    assert cs[0] == [0, 1, 2] && cs[1] == [2, 3] && cs[2] == [4];
    assert cs == [[0, 1, 2], [2, 3], [4]];
  }

  /** No URL at all divides by zero, as does a machine reporting no CPU. */
  lemma PartitionEmpty<T>(urls: seq<T>, cpus: nat)
    ensures Partition(urls, cpus).Raise? <==> |urls| == 0 || cpus == 0
    ensures Partition(urls, cpus).Raise? ==> Partition(urls, cpus).exc == ZeroDivisionError
  {
  }

  // ---------------------------------------------------------------------------
  // The evidently intended split
  // ---------------------------------------------------------------------------

  /** `count` consecutive slices of `rest`, the first `rem` of them one longer. */
  function Spread<T>(rest: seq<T>, upw: nat, rem: nat, count: nat): (cs: seq<seq<T>>)
    requires rem <= count && |rest| == Mul(count, upw) + rem
    ensures |cs| == count
    ensures forall k :: 0 <= k < |cs| ==> |cs[k]| == upw + (if k < rem then 1 else 0)
    decreases count
  {
    if count == 0 then []
    else
      var len := upw + (if rem > 0 then 1 else 0);
      var rem' := if rem > 0 then rem - 1 else 0;
      [rest[..len]] + Spread(rest[len..], upw, rem', count - 1)
  }

  /** The concatenation of a list of slices. */
  function Flatten<T>(cs: seq<seq<T>>): seq<T>
    decreases |cs|
  {
    if |cs| == 0 then [] else cs[0] + Flatten(cs[1..])
  }

  /** One slice per worker, the first `rem` of them one longer: the split
      `main` is after. */
  function PartitionFixed<T>(urls: seq<T>, cpus: nat): Result<seq<seq<T>>> {
    var n := |urls|;
    var w := NumWorkers(cpus, n);
    if w == 0 then Raise(ZeroDivisionError)
    else
      DivMod(n, w);
      Ok(Spread(urls, n / w, n % w, w))
  }

  lemma {:induction false} SpreadFlattens<T>(rest: seq<T>, upw: nat, rem: nat, count: nat)
    requires rem <= count && |rest| == Mul(count, upw) + rem
    ensures Flatten(Spread(rest, upw, rem, count)) == rest
    decreases count
  {
    if count > 0 {
      var len := upw + (if rem > 0 then 1 else 0);
      var rem' := if rem > 0 then rem - 1 else 0;
      var tail := rest[len..];
      SpreadFlattens(tail, upw, rem', count - 1);
      var cs := Spread(rest, upw, rem, count);
      assert cs == [rest[..len]] + Spread(tail, upw, rem', count - 1);
      assert cs[1..] == Spread(tail, upw, rem', count - 1);
      assert rest == rest[..len] + tail;
    }
  }

  /** The corrected split gives every worker one slice, the slices differ in
      length by at most one, and together they are the URL list in order, each
      URL once. */
  lemma PartitionFixedSplits<T>(urls: seq<T>, cpus: nat)
    requires |urls| > 0 && cpus > 0
    ensures PartitionFixed(urls, cpus).Ok?
    ensures var cs := PartitionFixed(urls, cpus).value;
      var w := NumWorkers(cpus, |urls|);
      |cs| == w && Flatten(cs) == urls &&
      forall k :: 0 <= k < |cs| ==> |cs[k]| == |urls| / w || |cs[k]| == |urls| / w + 1
  {
    var n := |urls|;
    var w := NumWorkers(cpus, n);
    DivMod(n, w);
    SpreadFlattens(urls, n / w, n % w, w);
  }

  // ---------------------------------------------------------------------------
  // One worker's session
  // ---------------------------------------------------------------------------

  /** The session: committed company and review rows, the reviews added since
      the last commit, and the number of review commits attempted. */
  datatype Db = Db(companies: seq<Row>, reviews: seq<Row>, pending: seq<Row>, commits: nat)

  /** The session and the review loop's `counter`. */
  datatype Batch = Batch(db: Db, counter: nat)

  /** The four text fields, which a review row stores after its other columns. */
  predicate IsTextKey(k: string) {
    k == "pros" || k == "cons" || k == "summary" || k == "advice"
  }

  /** The pairs of a record other than the four text fields, in order. */
  function WithoutTexts(m: Row): (r: Row)
    ensures forall i :: 0 <= i < |r| ==> !IsTextKey(r[i].0)
    decreases |m|
  {
    if |m| == 0 then []
    else
      var init := WithoutTexts(m[..|m| - 1]);
      if IsTextKey(m[|m| - 1].0) then init else init + [m[|m| - 1]]
  }

  /** The row `Review(**valid_review.model_dump())` is stored as once
      `observation.company = company` has set its employer id. */
  function ReviewRowOf(m: Row, cid: Json): Row {
    Models.ReviewRow(OD.Set(WithoutTexts(m), "employer_id", cid),
                     BaseModels.TextField(m, "pros"), BaseModels.TextField(m, "cons"),
                     BaseModels.TextField(m, "summary"), BaseModels.TextField(m, "advice"),
                     BaseModels.ReviewText(m))
  }

  /** `session.commit()` of the added reviews, the k-th attempt succeeding when
      `ok(k)`; a failed one is rolled back, which drops the added reviews. */
  function Committed(db: Db, ok: nat -> bool): Db {
    Db(db.companies, if ok(db.commits) then db.reviews + db.pending else db.reviews, [], db.commits + 1)
  }

  /** `ReviewBase(**review)` and the row it is stored as. */
  function Validated(review: Json, cid: Json): Result<Row> {
    var m :- BaseModels.Construct(BaseModels.ReviewBaseFields, review);
    Ok(ReviewRowOf(m, cid))
  }

  /** The validation of each review of `reviews_data.values()`, in order.
      Validation depends on the review alone, so the loop below may take it
      ahead of time. */
  function ValidatedAll(reviews: seq<Json>, cid: Json): (vs: seq<Result<Row>>)
    ensures |vs| == |reviews| && forall i :: 0 <= i < |reviews| ==> vs[i] == Validated(reviews[i], cid)
  {
    seq(|reviews|, i requires 0 <= i < |reviews| => Validated(reviews[i], cid))
  }

  /** A valid review added and counted; at a count of a hundred the session is
      committed, and the count goes back to zero only when the commit succeeds. */
  function Added(b: Batch, row: Row, ok: nat -> bool): Batch {
    var db := b.db.(pending := b.db.pending + [row]);
    var counter := b.counter + 1;
    if counter < 100 then Batch(db, counter)
    else Batch(Committed(db, ok), if ok(db.commits) then 0 else counter)
  }

  /** One turn of the review loop, given the review's validation.  A review that
      fails validation is skipped; any other error leaves the loop. */
  function ReviewStep(b: Batch, valid: Result<Row>, ok: nat -> bool): (Batch, Result<()>) {
    match valid
    case Raise(e) => (b, if e == ValidationError then Ok(()) else Raise(e))
    case Ok(row) => (Added(b, row, ok), Ok(()))
  }

  /** `for review in reviews_data.values(): ...` */
  function ReviewLoop(b: Batch, valids: seq<Result<Row>>, ok: nat -> bool): (Batch, Result<()>)
    decreases |valids|
  {
    if |valids| == 0 then (b, Ok(()))
    else
      var step := ReviewStep(b, valids[0], ok);
      if step.1.Raise? then step else ReviewLoop(step.0, valids[1..], ok)
  }

  /** `if counter > 0: session.commit()`, outside any `try`: a failure
      propagates. */
  function FinalCommit(b: Batch, ok: nat -> bool): (Db, Result<()>) {
    if b.counter == 0 then (b.db, Ok(()))
    else (Committed(b.db, ok), if ok(b.db.commits) then Ok(()) else Raise(IntegrityError))
  }

  /** The pairs of the validated record whose field was given in the input. */
  function GivenItems(m: Row, data: Row): Row
    decreases |m|
  {
    if |m| == 0 then []
    else
      var init := GivenItems(m[..|m| - 1], data);
      if m[|m| - 1].0 in OD.Keys(data) then init + [m[|m| - 1]] else init
  }

  /** The pairs `setattr` is applied to: as written, every pair of
      `model_dump()`, since every field is in the model's `__dict__`; corrected,
      only the fields the overview gave. */
  function SetItems(m: Row, data: Row, onlyGiven: bool): Row {
    if onlyGiven then GivenItems(m, data) else m
  }

  /** The company part of the loop body: validate the overview, then update the
      company row.  The result is the id to store reviews under, or None when
      the URL is skipped; a ValidationError skips it. */
  function UpdateCompany(db: Db, overview: Json, onlyGiven: bool): (Db, Result<Option<Json>>) {
    match overview
    case JObj(fields) =>
      (match BaseModels.Validate(BaseModels.CompanyBaseFields, fields)
       case Raise(e) => (db, if e == ValidationError then Ok(None) else Raise(e))
       case Ok(m) => UpdateRow(db, m, fields, onlyGiven))
    case _ => (db, Raise(TypeError))
  }

  /** Find the company row by the validated employer id, assign the fields and
      commit.  No such company (`setattr` on None) and a commit that breaks a
      key are both rolled back, which skips the URL. */
  function UpdateRow(db: Db, m: Row, data: Row, onlyGiven: bool): (Db, Result<Option<Json>>) {
    var id := GetOrNull(m, "employer_id");
    match Models.RowWithId(db.companies, id)
    case None => (db.(pending := []), Ok(None))
    case Some(i) =>
      var session := db.companies[i := Companies.Assign(db.companies[i], SetItems(m, data, onlyGiven))];
      if Models.CompanyKeys(session) then (Db(session, db.reviews + db.pending, [], db.commits), Ok(Some(id)))
      else (db.(pending := []), Ok(None))
  }

  /** The overview `scrape_data` returned, as the value `CompanyBase(**...)`
      unpacks: `{}`, None, or the overview's dict. */
  function OverviewJson(s: Scrape.Seen): Json {
    match s
    case Unset => JObj([])
    case Parsed(o) => if o.Some? then JObj(Overview.ToDict(o.value)) else JNull
  }

  /** `reviews_data.values()`. */
  function ReviewValues(m: Reviews.ReviewMap): (vs: seq<Json>)
    ensures |vs| == |m| && forall i :: 0 <= i < |m| ==> vs[i] == JObj(m[i].1)
  {
    seq(|m|, i requires 0 <= i < |m| => JObj(m[i].1))
  }

  /** The loop body of `scrape_and_store` for one URL.  A JSONDecodeError or
      KeyError while scraping skips the URL; every other exception ends the
      worker. */
  function StoreUrl(db: Db, scraped: Result<Scrape.Scraped>, ok: nat -> bool): (Db, Result<()>) {
    match scraped
    case Raise(e) => (db, if e == JsonDecodeError || e == KeyError then Ok(()) else Raise(e))
    case Ok(st) => StoreScraped(db, st, ok)
  }

  /** What one scraped URL stores: the company update as written, then, when
      it committed, the reviews under the company's employer id. */
  function StoreScraped(db: Db, st: Scrape.Scraped, ok: nat -> bool): (Db, Result<()>) {
    StoreData(db, OverviewJson(st.overview), ReviewValues(st.reviews), ok)
  }

  /** The same, given the overview value and the review values. */
  function StoreData(db: Db, overview: Json, reviews: seq<Json>, ok: nat -> bool): (Db, Result<()>) {
    StoreAfter(UpdateCompany(db, overview, false), reviews, ok)
  }

  /** The rest of the loop body, given the session and the outcome of the
      company update: an error ends the worker, a skipped URL stores nothing,
      and otherwise the reviews go in under the employer id. */
  function StoreAfter(company: (Db, Result<Option<Json>>), reviews: seq<Json>, ok: nat -> bool): (Db, Result<()>) {
    if company.1.Raise? then (company.0, Raise(company.1.exc))
    else if company.1.value.None? then (company.0, Ok(()))
    else StoreBatch(company.0, ValidatedAll(reviews, company.1.value.value), ok)
  }

  /** The review loop with a fresh counter, then the final commit. */
  function StoreBatch(db: Db, valids: seq<Result<Row>>, ok: nat -> bool): (Db, Result<()>) {
    var batch := ReviewLoop(Batch(db, 0), valids, ok);
    if batch.1.Raise? then (batch.0.db, batch.1) else FinalCommit(batch.0, ok)
  }

  /** `scrape_data(url, max_pages=50)`. */
  function ScrapeUrl(env: Apollo.Env, url: string): Result<Scrape.Scraped> {
    Scrape.ScrapeSpec(Scrape.StepsOf(env), url, Some(50))
  }

  /** What `scrape_data(url, max_pages=50)` gives for each URL, in order. */
  function ScrapedAll(env: Apollo.Env, urls: seq<string>): (rs: seq<Result<Scrape.Scraped>>)
    ensures |rs| == |urls| && forall i :: 0 <= i < |urls| ==> rs[i] == ScrapeUrl(env, urls[i])
  {
    seq(|urls|, i requires 0 <= i < |urls| => ScrapeUrl(env, urls[i]))
  }

  /** `scrape_and_store(urls)`, given what scraping each URL gives; a URL after
      the one that ends the worker is not scraped. */
  function Worker(db: Db, scraped: seq<Result<Scrape.Scraped>>, ok: nat -> bool): (Db, Result<()>)
    decreases |scraped|
  {
    if |scraped| == 0 then (db, Ok(()))
    else
      var step := StoreUrl(db, scraped[0], ok);
      if step.1.Raise? then step else Worker(step.0, scraped[1..], ok)
  }

  class Session {
    var companies: seq<Row>
    var reviews: seq<Row>
    var pending: seq<Row>
    var commits: nat

    function State(): Db
      reads this
    {
      Db(companies, reviews, pending, commits)
    }

    /** `get_db()`: a session over the committed tables. */
    constructor (companies: seq<Row>, reviews: seq<Row>)
      ensures State() == Db(companies, reviews, [], 0)
    {
      this.companies := companies;
      this.reviews := reviews;
      pending := [];
      commits := 0;
    }

    /** `session.commit()` of the added reviews, rolled back on failure. */
    method Commit(ok: nat -> bool) returns (success: bool)
      modifies this
      ensures success == ok(old(commits))
      ensures State() == Committed(old(State()), ok)
    {
      success := ok(commits);
      if success {
        reviews := reviews + pending;
      }
      pending := [];
      commits := commits + 1;
    }

    /** The company part of the loop body: as written when `onlyGiven` is
        false, corrected when it is true. */
    method SaveCompany(overview: Json, onlyGiven: bool) returns (r: Result<Option<Json>>)
      modifies this
      ensures (State(), r) == UpdateCompany(old(State()), overview, onlyGiven)
    {
      if !overview.JObj? {
        r := Raise(TypeError);
        return;
      }
      var valid := BaseModels.Validate(BaseModels.CompanyBaseFields, overview.fields);
      if valid.Raise? {
        r := if valid.exc == ValidationError then Ok(None) else Raise(valid.exc);
        return;
      }
      r := SaveRow(valid.value, overview.fields, onlyGiven);
    }

    /** Find the company row, assign the fields (every pair of `model_dump()`
        as written, only the given ones corrected) and commit, rolling back
        when there is no such row or a key breaks. */
    method SaveRow(m: Row, data: Row, onlyGiven: bool) returns (r: Result<Option<Json>>)
      modifies this
      ensures (State(), r) == UpdateRow(old(State()), m, data, onlyGiven)
    {
      var id := GetOrNull(m, "employer_id");
      var found := Models.RowWithId(companies, id);
      if found.None? {
        pending := [];
        r := Ok(None);
        return;
      }
      var i := found.value;
      var row;
      if onlyGiven {
        row := AssignGiven(companies[i], m, data);
      } else {
        row := Companies.SetAttrs(companies[i], m);
      }
      var session := companies[i := row];
      if Models.CompanyKeys(session) {
        companies := session;
        reviews := reviews + pending;
        pending := [];
        r := Ok(Some(id));
      } else {
        pending := [];
        r := Ok(None);
      }
    }

    /** One turn of the review loop. */
    method AddReview(review: Json, cid: Json, counter: nat, ok: nat -> bool) returns (counter': nat, r: Result<()>)
      modifies this
      ensures (Batch(State(), counter'), r) == ReviewStep(Batch(old(State()), counter), Validated(review, cid), ok)
    {
      var valid := BaseModels.Construct(BaseModels.ReviewBaseFields, review);
      if valid.Raise? {
        counter' := counter;
        r := if valid.exc == ValidationError then Ok(()) else Raise(valid.exc);
        return;
      }
      var m := valid.value;
      var observation := new Models.Review(OD.Set(WithoutTexts(m), "employer_id", cid),
                                           BaseModels.TextField(m, "pros"), BaseModels.TextField(m, "cons"),
                                           BaseModels.TextField(m, "summary"), BaseModels.TextField(m, "advice"));
      pending := pending + [observation.Snapshot()];
      counter' := counter + 1;
      if counter' >= 100 {
        var success := Commit(ok);
        if success {
          counter' := 0;
        }
      }
      r := Ok(());
    }

    /** The review loop, with a fresh counter. */
    method StoreReviews(items: seq<Json>, cid: Json, ok: nat -> bool) returns (counter: nat, r: Result<()>)
      modifies this
      ensures (Batch(State(), counter), r) == ReviewLoop(Batch(old(State()), 0), ValidatedAll(items, cid), ok)
    {
      counter := 0;
      var k := 0;
      ghost var vs := ValidatedAll(items, cid);
      while k < |items|
        invariant 0 <= k <= |items|
        invariant ReviewLoop(Batch(State(), counter), vs[k..], ok) == ReviewLoop(Batch(old(State()), 0), vs, ok)
      {
        var c, step := AddReview(items[k], cid, counter, ok);
        assert vs[k..][1..] == vs[k + 1..];
        counter := c;
        if step.Raise? {
          r := step;
          return;
        }
        k := k + 1;
      }
      r := Ok(());
    }

    /** The reviews of one URL, then `if counter > 0: session.commit()`. */
    method SaveBatch(items: seq<Json>, cid: Json, ok: nat -> bool) returns (r: Result<()>)
      modifies this
      ensures (State(), r) == StoreBatch(old(State()), ValidatedAll(items, cid), ok)
    {
      var counter, loop := StoreReviews(items, cid, ok);
      if loop.Raise? {
        r := loop;
        return;
      }
      if counter > 0 {
        var success := Commit(ok);
        r := if success then Ok(()) else Raise(IntegrityError);
      } else {
        r := Ok(());
      }
    }

    /** The loop body of `scrape_and_store` for one URL, given what scraping
        it gave. */
    method SaveUrl(scraped: Result<Scrape.Scraped>, ok: nat -> bool) returns (r: Result<()>)
      modifies this
      ensures (State(), r) == StoreUrl(old(State()), scraped, ok)
    {
      if scraped.Raise? {
        r := if scraped.exc == JsonDecodeError || scraped.exc == KeyError then Ok(()) else Raise(scraped.exc);
        return;
      }
      var st := scraped.value;
      var company := SaveCompany(OverviewJson(st.overview), false);
      if company.Raise? {
        r := Raise(company.exc);
        return;
      }
      if company.value.None? {
        r := Ok(());
        return;
      }
      r := SaveBatch(ReviewValues(st.reviews), company.value.value, ok);
    }

    /** `scrape_and_store(urls)`: scrape each URL with `scrape_data(url,
        max_pages=50)` and store what it gave, until an error ends the worker. */
    method ScrapeAndStore(urls: seq<string>, env: Apollo.Env, ok: nat -> bool) returns (r: Result<()>)
      modifies this
      ensures (State(), r) == Worker(old(State()), ScrapedAll(env, urls), ok)
    {
      ghost var scraped := ScrapedAll(env, urls);
      var k := 0;
      while k < |urls|
        invariant 0 <= k <= |urls|
        invariant Worker(State(), scraped[k..], ok) == Worker(old(State()), scraped, ok)
      {
        var result := Scrape.ScrapeData(env, urls[k], Some(50));
        assert scraped[k..][1..] == scraped[k + 1..];
        var step := SaveUrl(result, ok);
        if step.Raise? {
          r := step;
          return;
        }
        k := k + 1;
      }
      r := Ok(());
    }
  }

  /** The corrected `setattr` loop over `model_dump()`: a pair is assigned
      only when the overview gave its field, and only a column takes it. */
  method AssignGiven(row: Row, m: Row, data: Row) returns (r: Row)
    ensures r == Companies.Assign(row, GivenItems(m, data))
  {
    r := row;
    var k := 0;
    while k < |m|
      invariant 0 <= k <= |m|
      invariant r == Companies.Assign(row, GivenItems(m[..k], data))
    {
      GivenAssignStep(row, m, data, k);
      if m[k].0 in OD.Keys(data) && Models.IsColumn(m[k].0) {
        r := OD.Set(r, m[k].0, m[k].1);
      }
      k := k + 1;
    }
    assert m[..|m|] == m;
  }

  /** One more pair of the validated record in the corrected `setattr` loop. */
  lemma GivenAssignStep(row: Row, m: Row, data: Row, k: nat)
    requires k < |m|
    ensures Companies.Assign(row, GivenItems(m[..k + 1], data)) ==
      if m[k].0 in OD.Keys(data) && Models.IsColumn(m[k].0) then OD.Set(Companies.Assign(row, GivenItems(m[..k], data)), m[k].0, m[k].1)
      else Companies.Assign(row, GivenItems(m[..k], data))
  {
    assert m[..k + 1][..k] == m[..k];
    var g := GivenItems(m[..k], data);
    if m[k].0 in OD.Keys(data) {
      assert GivenItems(m[..k + 1], data) == g + [m[k]];
      assert (g + [m[k]])[..|g|] == g;
    }
  }

  // ---------------------------------------------------------------------------
  // Properties of the company update
  // ---------------------------------------------------------------------------

  /** Every stored company row holds one value per column. */
  ghost predicate RowsWellFormed(rows: seq<Row>) {
    forall j :: 0 <= j < |rows| ==> OD.NoDupKeys(rows[j])
  }

  /** The corrected filter keeps exactly the pairs of fields the input gave. */
  lemma {:induction false} GivenItemsGet(m: Row, data: Row, c: string)
    ensures OD.Get(GivenItems(m, data), c) == if c in OD.Keys(data) then OD.Get(m, c) else None
    decreases |m|
  {
    if |m| > 0 {
      var init := m[..|m| - 1];
      GivenItemsGet(init, data, c);
      OD.GetSnoc(m, c);
      if m[|m| - 1].0 in OD.Keys(data) {
        OD.GetSnoc(GivenItems(m, data), c);
        assert GivenItems(m, data)[..|GivenItems(m, data)| - 1] == GivenItems(init, data);
      }
    }
  }

  /** The update raises only when the overview is not a dict, which `**` cannot
      unpack; it then changes nothing. */
  lemma UpdateRaises(db: Db, overview: Json, onlyGiven: bool)
    ensures UpdateCompany(db, overview, onlyGiven).1.Raise? <==> !overview.JObj?
    ensures UpdateCompany(db, overview, onlyGiven).1.Raise? ==>
      UpdateCompany(db, overview, onlyGiven) == (db, Raise(TypeError))
  {
    if overview.JObj? {
      BaseModels.ValidateProps(BaseModels.CompanyBaseFields, overview.fields);
    }
  }

  /** A validated company record holds one value for every column, in order,
      and its employer id is the one given, which is not None. */
  lemma ValidCompany(data: Row, m: Row)
    requires BaseModels.Validate(BaseModels.CompanyBaseFields, data) == Ok(m)
    ensures OD.Keys(m) == Models.CompanyColumns
    ensures GetOrNull(m, "employer_id") == GetOrNull(data, "employer_id") != JNull
  {
    BaseModels.ValidateProps(BaseModels.CompanyBaseFields, data);
    BaseModels.CompanyLeadingNames();
    BaseModels.ReadBack(BaseModels.CompanyBaseFields, data, 0);
    assert BaseModels.FieldValue(BaseModels.CompanyBaseFields[0], data).Ok?;
    Models.ColumnsAreFields();
  }

  /** A skipped URL leaves the committed company and review rows as they were. */
  lemma UpdateSkips(db: Db, overview: Json, onlyGiven: bool)
    requires UpdateCompany(db, overview, onlyGiven).1 == Ok(None)
    ensures var after := UpdateCompany(db, overview, onlyGiven).0;
      after.companies == db.companies && after.reviews == db.reviews && after.commits == db.commits
  {
  }

  /** A row update that commits found the row with the record's employer id;
      that row alone is assigned, the key constraints hold, and the reviews
      added before are committed with it. */
  lemma RowCommits(db: Db, m: Row, data: Row, onlyGiven: bool)
    requires UpdateRow(db, m, data, onlyGiven).1.Ok? && UpdateRow(db, m, data, onlyGiven).1.value.Some?
    ensures var id := GetOrNull(m, "employer_id");
      var found := Models.RowWithId(db.companies, id);
      var after := UpdateRow(db, m, data, onlyGiven).0;
      found.Some? && UpdateRow(db, m, data, onlyGiven).1 == Ok(Some(id)) &&
      |after.companies| == |db.companies| &&
      (forall j :: 0 <= j < |db.companies| && j != found.value ==> after.companies[j] == db.companies[j]) &&
      Models.CompanyKeys(after.companies) &&
      after.reviews == db.reviews + db.pending && after.pending == [] && after.commits == db.commits
  {
  }

  /** The columns of the row a committed update assigned: as written, every
      column takes the record's value; corrected, only the columns the input
      gave do and the others keep their stored values. */
  lemma RowColumns(db: Db, m: Row, data: Row, onlyGiven: bool, c: string)
    requires UpdateRow(db, m, data, onlyGiven).1.Ok? && UpdateRow(db, m, data, onlyGiven).1.value.Some?
    requires RowsWellFormed(db.companies) && OD.Keys(m) == Models.CompanyColumns
    ensures var i := Models.RowWithId(db.companies, GetOrNull(m, "employer_id")).value;
      Models.Column(UpdateRow(db, m, data, onlyGiven).0.companies[i], c) ==
        if Models.IsColumn(c) && (!onlyGiven || c in OD.Keys(data)) then GetOrNull(m, c)
        else Models.Column(db.companies[i], c)
  {
    var i := Models.RowWithId(db.companies, GetOrNull(m, "employer_id")).value;
    Companies.AssignGet(db.companies[i], SetItems(m, data, onlyGiven), c);
    if onlyGiven {
      GivenItemsGet(m, data, c);
    }
  }

  /** An update that commits was given a valid overview whose employer id (not
      None) names a stored row; that row alone is assigned, the key constraints
      hold, and the reviews added before are committed with it. */
  lemma UpdateCommits(db: Db, overview: Json, onlyGiven: bool)
    requires UpdateCompany(db, overview, onlyGiven).1.Ok? && UpdateCompany(db, overview, onlyGiven).1.value.Some?
    ensures overview.JObj? && BaseModels.Validate(BaseModels.CompanyBaseFields, overview.fields).Ok?
    ensures var id := GetOrNull(overview.fields, "employer_id");
      var found := Models.RowWithId(db.companies, id);
      var after := UpdateCompany(db, overview, onlyGiven).0;
      id != JNull && found.Some? &&
      UpdateCompany(db, overview, onlyGiven).1 == Ok(Some(id)) &&
      |after.companies| == |db.companies| &&
      (forall j :: 0 <= j < |db.companies| && j != found.value ==> after.companies[j] == db.companies[j]) &&
      Models.CompanyKeys(after.companies) &&
      after.reviews == db.reviews + db.pending && after.pending == [] && after.commits == db.commits
  {
    var m := BaseModels.Validate(BaseModels.CompanyBaseFields, overview.fields).value;
    ValidCompany(overview.fields, m);
    RowCommits(db, m, overview.fields, onlyGiven);
  }

  /** The company update as written: every column of the found row is
      overwritten with the validated record's value, whether the overview gave
      that field or it took its default. */
  lemma AsWrittenOverwritesAll(db: Db, data: Row, m: Row, i: nat, c: string)
    requires BaseModels.Validate(BaseModels.CompanyBaseFields, data) == Ok(m)
    requires Models.RowWithId(db.companies, GetOrNull(data, "employer_id")) == Some(i)
    requires UpdateCompany(db, JObj(data), false).1.Ok? && UpdateCompany(db, JObj(data), false).1.value.Some?
    requires RowsWellFormed(db.companies)
    ensures var after := UpdateCompany(db, JObj(data), false).0.companies;
      i < |after| &&
      Models.Column(after[i], c) == if Models.IsColumn(c) then GetOrNull(m, c) else Models.Column(db.companies[i], c)
  {
    ValidCompany(data, m);
    RowCommits(db, m, data, false);
    RowColumns(db, m, data, false, c);
  }

  /** The company update corrected: a column the overview gave takes the
      validated value, and every other column keeps its stored value. */
  lemma CorrectedKeepsUnset(db: Db, data: Row, m: Row, i: nat, c: string)
    requires BaseModels.Validate(BaseModels.CompanyBaseFields, data) == Ok(m)
    requires Models.RowWithId(db.companies, GetOrNull(data, "employer_id")) == Some(i)
    requires UpdateCompany(db, JObj(data), true).1.Ok? && UpdateCompany(db, JObj(data), true).1.value.Some?
    requires RowsWellFormed(db.companies)
    ensures var after := UpdateCompany(db, JObj(data), true).0.companies;
      i < |after| &&
      Models.Column(after[i], c) ==
        if Models.IsColumn(c) && c in OD.Keys(data) then GetOrNull(m, c) else Models.Column(db.companies[i], c)
  {
    ValidCompany(data, m);
    RowCommits(db, m, data, true);
    RowColumns(db, m, data, true, c);
  }

  /** The overview `parse_overview` returns has no `employer_name`, so as
      written a committed update stores the name's default "" over the
      company's name. */
  lemma OverwriteWipesName(db: Db, o: Overview.Overview, m: Row, i: nat)
    requires BaseModels.Validate(BaseModels.CompanyBaseFields, Overview.ToDict(o)) == Ok(m)
    requires Models.RowWithId(db.companies, GetOrNull(Overview.ToDict(o), "employer_id")) == Some(i)
    requires RowsWellFormed(db.companies)
    ensures var wrote := UpdateCompany(db, JObj(Overview.ToDict(o)), false);
      wrote.1.Ok? && wrote.1.value.Some? ==>
        i < |wrote.0.companies| && Models.Column(wrote.0.companies[i], "employer_name") == JStr("")
  {
    var d := Overview.ToDict(o);
    if UpdateCompany(db, JObj(d), false).1.Ok? && UpdateCompany(db, JObj(d), false).1.value.Some? {
      Overview.OverviewKeysDistinct(o);
      AsWrittenOverwritesAll(db, d, m, i, "employer_name");
      BaseModels.CompanyNameRead(d, m);
    }
  }

  /** Corrected, the same update keeps the stored company name. */
  lemma CorrectedKeepsName(db: Db, o: Overview.Overview, m: Row, i: nat)
    requires BaseModels.Validate(BaseModels.CompanyBaseFields, Overview.ToDict(o)) == Ok(m)
    requires Models.RowWithId(db.companies, GetOrNull(Overview.ToDict(o), "employer_id")) == Some(i)
    requires RowsWellFormed(db.companies)
    ensures var fixed := UpdateCompany(db, JObj(Overview.ToDict(o)), true);
      fixed.1.Ok? && fixed.1.value.Some? ==>
        i < |fixed.0.companies| &&
        Models.Column(fixed.0.companies[i], "employer_name") == Models.Column(db.companies[i], "employer_name")
  {
    var d := Overview.ToDict(o);
    if UpdateCompany(db, JObj(d), true).1.Ok? && UpdateCompany(db, JObj(d), true).1.value.Some? {
      Overview.OverviewKeysDistinct(o);
      CorrectedKeepsUnset(db, d, m, i, "employer_name");
    }
  }

  // ---------------------------------------------------------------------------
  // Properties of the review batches
  // ---------------------------------------------------------------------------

  /** The rows of the reviews that validate, in order. */
  function ValidRows(valids: seq<Result<Row>>): (rows: seq<Row>)
    ensures |rows| <= |valids|
    decreases |valids|
  {
    if |valids| == 0 then []
    else (if valids[0].Ok? then [valids[0].value] else []) + ValidRows(valids[1..])
  }

  /** `ReviewBase(**review)` raises ValidationError on a dict that does not
      validate, and TypeError exactly when the review is not a dict. */
  lemma ValidatedRaises(review: Json, cid: Json)
    ensures Validated(review, cid).Raise? ==>
      Validated(review, cid).exc == ValidationError || Validated(review, cid).exc == TypeError
    ensures Validated(review, cid) == Raise(TypeError) <==> !review.JObj?
  {
    if review.JObj? {
      BaseModels.ValidateProps(BaseModels.ReviewBaseFields, review.fields);
    }
  }

  /** The review loop raises exactly when some review fails with an error other
      than a ValidationError, and then with that error. */
  lemma {:induction false} LoopRaises(b: Batch, valids: seq<Result<Row>>, ok: nat -> bool)
    ensures ReviewLoop(b, valids, ok).1.Raise? <==>
      exists k :: 0 <= k < |valids| && valids[k].Raise? && valids[k].exc != ValidationError
    ensures ReviewLoop(b, valids, ok).1.Raise? ==>
      ReviewLoop(b, valids, ok).1.exc != ValidationError &&
      exists k :: 0 <= k < |valids| && valids[k] == Raise(ReviewLoop(b, valids, ok).1.exc)
    decreases |valids|
  {
    if |valids| > 0 {
      var rest := valids[1..];
      if !(valids[0].Raise? && valids[0].exc != ValidationError) {
        LoopRaises(ReviewStep(b, valids[0], ok).0, rest, ok);
        if exists k :: 0 <= k < |rest| && rest[k].Raise? && rest[k].exc != ValidationError {
          var k :| 0 <= k < |rest| && rest[k].Raise? && rest[k].exc != ValidationError;
          assert valids[k + 1] == rest[k];
        }
        if exists k :: 0 <= k < |valids| && valids[k].Raise? && valids[k].exc != ValidationError {
          var k :| 0 <= k < |valids| && valids[k].Raise? && valids[k].exc != ValidationError;
          assert rest[k - 1] == valids[k];
        }
        if ReviewLoop(b, valids, ok).1.Raise? {
          var k :| 0 <= k < |rest| && rest[k] == Raise(ReviewLoop(b, valids, ok).1.exc);
          assert valids[k + 1] == rest[k];
        }
      }
    }
  }

  /** One added row when every commit succeeds: it joins the added rows, and a
      hundredth one commits them all. */
  lemma AddedBatches(b: Batch, row: Row, ok: nat -> bool)
    requires forall k: nat :: ok(k)
    requires b.counter == |b.db.pending| < 100
    ensures var e := Added(b, row, ok);
      e.counter == |e.db.pending| < 100 &&
      e.db.reviews + e.db.pending == b.db.reviews + b.db.pending + [row] &&
      (e.db.commits == b.db.commits || e.db.commits == b.db.commits + 1) &&
      (if e.db.commits == b.db.commits then 0 else 100) + e.counter == b.counter + 1 &&
      e.db.companies == b.db.companies
  {
  }

  /** When every commit succeeds, the loop commits the valid reviews a hundred
      at a time: the committed and added rows together grow by exactly the valid
      reviews, fewer than a hundred stay uncommitted, and each commit took a
      hundred. */
  lemma {:induction false} LoopBatches(b: Batch, valids: seq<Result<Row>>, ok: nat -> bool)
    requires forall k: nat :: ok(k)
    requires b.counter == |b.db.pending| < 100
    requires ReviewLoop(b, valids, ok).1.Ok?
    ensures var e := ReviewLoop(b, valids, ok).0;
      e.counter == |e.db.pending| < 100 &&
      e.db.reviews + e.db.pending == b.db.reviews + b.db.pending + ValidRows(valids) &&
      e.db.commits >= b.db.commits &&
      Mul(e.db.commits - b.db.commits, 100) + e.counter == b.counter + |ValidRows(valids)| &&
      e.db.companies == b.db.companies
    decreases |valids|
  {
    if |valids| > 0 {
      var s := ReviewStep(b, valids[0], ok).0;
      if valids[0].Ok? {
        AddedBatches(b, valids[0].value, ok);
      }
      LoopBatches(s, valids[1..], ok);
      var e := ReviewLoop(b, valids, ok).0;
      var first: seq<Row> := if valids[0].Ok? then [valids[0].value] else [];
      var before := b.db.reviews + b.db.pending;
      assert ValidRows(valids) == first + ValidRows(valids[1..]);
      assert s.db.reviews + s.db.pending == before + first;
      assert e.db.reviews + e.db.pending == (before + first) + ValidRows(valids[1..]);
      assert (before + first) + ValidRows(valids[1..]) == before + ValidRows(valids);
      if s.db.commits != b.db.commits {
        assert Mul(e.db.commits - b.db.commits, 100) == Mul(e.db.commits - s.db.commits, 100) + 100;
      }
    }
  }

  /** The quotient and remainder by a hundred are unique. */
  lemma DivUnique(n: nat, q: nat, r: nat)
    requires n == Mul(q, 100) + r && r < 100
    ensures q == n / 100 && r == n % 100
  {
    MulIsTimes(q, 100);
  }

  /** When every commit succeeds, storing one URL's reviews commits every valid
      review, in order, in one commit per hundred and one for the rest. */
  lemma StoredInBatches(db: Db, valids: seq<Result<Row>>, ok: nat -> bool)
    requires forall k: nat :: ok(k)
    requires db.pending == []
    requires ReviewLoop(Batch(db, 0), valids, ok).1.Ok?
    ensures var n := |ValidRows(valids)|;
      var end := StoreBatch(db, valids, ok);
      end.1 == Ok(()) && end.0.reviews == db.reviews + ValidRows(valids) && end.0.pending == [] &&
      end.0.commits == db.commits + n / 100 + (if n % 100 == 0 then 0 else 1) &&
      end.0.companies == db.companies
  {
    LoopBatches(Batch(db, 0), valids, ok);
    var e := ReviewLoop(Batch(db, 0), valids, ok).0;
    assert db.reviews + db.pending == db.reviews;
    assert e.counter == 0 ==> e.db.pending == [];
    DivUnique(|ValidRows(valids)|, e.db.commits - db.commits, e.counter);
  }

  /** The final commit happens exactly when reviews were counted since the last
      successful one; it raises only when it fails. */
  lemma FinalCommitWhen(b: Batch, ok: nat -> bool)
    ensures FinalCommit(b, ok).0.commits == if b.counter > 0 then b.db.commits + 1 else b.db.commits
    ensures FinalCommit(b, ok).1.Raise? <==> b.counter > 0 && !ok(b.db.commits)
    ensures FinalCommit(b, ok).0.reviews ==
      if b.counter > 0 && ok(b.db.commits) then b.db.reviews + b.db.pending else b.db.reviews
  {
  }

  /** A failed batch commit loses its hundred reviews and leaves the counter at a
      hundred, so the next valid review commits again, alone. */
  lemma FailedBatchLost(b: Batch, row1: Row, row2: Row, ok: nat -> bool)
    requires b.counter == 99
    requires !ok(b.db.commits) && ok(b.db.commits + 1)
    ensures var s1 := Added(b, row1, ok);
      var s2 := Added(s1, row2, ok);
      s1.counter == 100 && s1.db.reviews == b.db.reviews && s1.db.pending == [] &&
      s2.counter == 0 && s2.db.reviews == b.db.reviews + [row2] && s2.db.pending == []
  {
  }

  /** A review stored from a validated record has the `review_text` of the four
      text fields as given, defaulting to "". */
  lemma StoredReviewText(data: Row, m: Row, cid: Json)
    requires BaseModels.Validate(BaseModels.ReviewBaseFields, data) == Ok(m)
    ensures Validated(JObj(data), cid) == Ok(ReviewRowOf(m, cid))
    ensures var row := ReviewRowOf(m, cid);
      row[|row| - 1] == ("review_text", JStr(BaseModels.ReviewTextOf(
        BaseModels.GivenText(data, "pros"), BaseModels.GivenText(data, "cons"),
        BaseModels.GivenText(data, "summary"), BaseModels.GivenText(data, "advice"))))
  {
    BaseModels.ReviewTextOfRecord(data, m);
  }

  // ---------------------------------------------------------------------------
  // Properties of a worker
  // ---------------------------------------------------------------------------

  /** The review loop leaves the company rows alone and only adds committed
      review rows. */
  lemma {:induction false} LoopKeeps(b: Batch, valids: seq<Result<Row>>, ok: nat -> bool)
    ensures var e := ReviewLoop(b, valids, ok).0;
      e.db.companies == b.db.companies && b.db.reviews <= e.db.reviews
    decreases |valids|
  {
    if |valids| > 0 {
      LoopKeeps(ReviewStep(b, valids[0], ok).0, valids[1..], ok);
    }
  }

  /** Storing the reviews leaves the company rows alone, only adds committed
      review rows, and raises only a review's own error other than a
      ValidationError, or IntegrityError from the final commit. */
  lemma StoreBatchKeeps(db: Db, valids: seq<Result<Row>>, ok: nat -> bool)
    ensures StoreBatch(db, valids, ok).0.companies == db.companies
    ensures db.reviews <= StoreBatch(db, valids, ok).0.reviews
    ensures var r := StoreBatch(db, valids, ok).1;
      r.Raise? ==> (r.exc == IntegrityError ||
                    (r.exc != ValidationError && exists k :: 0 <= k < |valids| && valids[k] == Raise(r.exc)))
  {
    LoopKeeps(Batch(db, 0), valids, ok);
    LoopRaises(Batch(db, 0), valids, ok);
  }

  /** The company update keeps the key constraints, only adds committed review
      rows, and raises only TypeError. */
  lemma UpdateKeeps(db: Db, overview: Json, onlyGiven: bool)
    requires Models.CompanyKeys(db.companies)
    ensures Models.CompanyKeys(UpdateCompany(db, overview, onlyGiven).0.companies)
    ensures db.reviews <= UpdateCompany(db, overview, onlyGiven).0.reviews
    ensures UpdateCompany(db, overview, onlyGiven).1.Raise? ==> UpdateCompany(db, overview, onlyGiven).1.exc == TypeError
  {
    var company := UpdateCompany(db, overview, onlyGiven);
    UpdateRaises(db, overview, onlyGiven);
    if company.1.Ok? && company.1.value.Some? {
      UpdateCommits(db, overview, onlyGiven);
    } else if company.1.Ok? {
      UpdateSkips(db, overview, onlyGiven);
    }
  }

  /** The rest of the loop body keeps the key constraints, only adds committed
      review rows, and raises only TypeError or IntegrityError when the company
      update raised nothing else. */
  lemma StoreAfterKeeps(company: (Db, Result<Option<Json>>), reviews: seq<Json>, ok: nat -> bool)
    requires Models.CompanyKeys(company.0.companies)
    requires company.1.Raise? ==> company.1.exc == TypeError
    ensures Models.CompanyKeys(StoreAfter(company, reviews, ok).0.companies)
    ensures company.0.reviews <= StoreAfter(company, reviews, ok).0.reviews
    ensures StoreAfter(company, reviews, ok).1.Raise? ==>
      StoreAfter(company, reviews, ok).1.exc == TypeError || StoreAfter(company, reviews, ok).1.exc == IntegrityError
  {
    if company.1.Ok? && company.1.value.Some? {
      var cid := company.1.value.value;
      var vs := ValidatedAll(reviews, cid);
      StoreBatchKeeps(company.0, vs, ok);
      var r := StoreBatch(company.0, vs, ok).1;
      if r.Raise? && r.exc != IntegrityError {
        var k :| 0 <= k < |vs| && vs[k] == Raise(r.exc);
        ValidatedRaises(reviews[k], cid);
      }
    }
  }

  /** One scraped URL keeps the key constraints of the company table, only adds
      committed review rows, and raises only TypeError or IntegrityError. */
  lemma StoreDataKeeps(db: Db, overview: Json, reviews: seq<Json>, ok: nat -> bool)
    requires Models.CompanyKeys(db.companies)
    ensures Models.CompanyKeys(StoreData(db, overview, reviews, ok).0.companies)
    ensures db.reviews <= StoreData(db, overview, reviews, ok).0.reviews
    ensures StoreData(db, overview, reviews, ok).1.Raise? ==>
      StoreData(db, overview, reviews, ok).1.exc == TypeError || StoreData(db, overview, reviews, ok).1.exc == IntegrityError
  {
    UpdateKeeps(db, overview, false);
    StoreAfterKeeps(UpdateCompany(db, overview, false), reviews, ok);
  }

  /** What the worker stores for a scraped overview: when the company update
      commits, the company's name is the default "" whatever the reviews do. */
  lemma StoredNameWiped(db: Db, o: Overview.Overview, m: Row, i: nat, reviews: seq<Json>, ok: nat -> bool)
    requires BaseModels.Validate(BaseModels.CompanyBaseFields, Overview.ToDict(o)) == Ok(m)
    requires Models.RowWithId(db.companies, GetOrNull(Overview.ToDict(o), "employer_id")) == Some(i)
    requires RowsWellFormed(db.companies)
    ensures var wrote := UpdateCompany(db, JObj(Overview.ToDict(o)), false);
      var after := StoreData(db, JObj(Overview.ToDict(o)), reviews, ok).0.companies;
      wrote.1.Ok? && wrote.1.value.Some? ==>
        i < |after| && Models.Column(after[i], "employer_name") == JStr("")
  {
    var wrote := UpdateCompany(db, JObj(Overview.ToDict(o)), false);
    OverwriteWipesName(db, o, m, i);
    if wrote.1.Ok? && wrote.1.value.Some? {
      StoreBatchKeeps(wrote.0, ValidatedAll(reviews, wrote.1.value.value), ok);
    }
  }

  /** One URL keeps the key constraints of the company table, only adds
      committed review rows, and never ends the worker on a JSONDecodeError or
      KeyError. */
  lemma StoreUrlKeeps(db: Db, scraped: Result<Scrape.Scraped>, ok: nat -> bool)
    requires Models.CompanyKeys(db.companies)
    ensures Models.CompanyKeys(StoreUrl(db, scraped, ok).0.companies)
    ensures db.reviews <= StoreUrl(db, scraped, ok).0.reviews
    ensures StoreUrl(db, scraped, ok).1.Raise? ==>
      StoreUrl(db, scraped, ok).1.exc != JsonDecodeError && StoreUrl(db, scraped, ok).1.exc != KeyError
  {
    if scraped.Ok? {
      StoreDataKeeps(db, OverviewJson(scraped.value.overview), ReviewValues(scraped.value.reviews), ok);
    }
  }

  /** A worker keeps the key constraints of the company table, only adds
      committed review rows, and never stops on a JSONDecodeError or KeyError. */
  lemma {:induction false} WorkerKeeps(db: Db, scraped: seq<Result<Scrape.Scraped>>, ok: nat -> bool)
    requires Models.CompanyKeys(db.companies)
    ensures Models.CompanyKeys(Worker(db, scraped, ok).0.companies)
    ensures db.reviews <= Worker(db, scraped, ok).0.reviews
    ensures Worker(db, scraped, ok).1.Raise? ==>
      Worker(db, scraped, ok).1.exc != JsonDecodeError && Worker(db, scraped, ok).1.exc != KeyError
    decreases |scraped|
  {
    if |scraped| > 0 {
      var step := StoreUrl(db, scraped[0], ok);
      StoreUrlKeeps(db, scraped[0], ok);
      if step.1.Ok? {
        WorkerKeeps(step.0, scraped[1..], ok);
      }
    }
  }
}
