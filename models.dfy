/** The database tables (scraper/database/models.py): the company table with
    its key constraints, and the `Review` object whose stored `review_text`
    column is derived from its four text columns.

    A company row is the dict of its column values; a column that was never set
    reads as NULL.
 */
module Models {
  import opened Wrappers
  import opened Json
  import OD = OrderedDict
  import BaseModels

  type Row = OD.Dict<string, Json>

  /** The columns of the company table, in declaration order. */
  const CompanyColumns: seq<string> := [
    "employer_id", "employer_name", "gvkey", "is_gvkey", "id_not_found", "url_old",
    "url_new", "ticker", "query", "number_of_pages", "all_reviews_count",
    "rated_reviews_count", "overall_rating", "ceo_name", "ceo_rating",
    "recommend_to_friend_rating", "culture_and_values_rating",
    "diversity_and_inclusion_rating", "career_opportunities_rating",
    "work_life_balance_rating", "senior_management_rating",
    "compensation_and_benefits_rating", "business_outlook_rating"]

  predicate IsColumn(k: string) {
    k in CompanyColumns
  }

  /** The value of a column; an unset column is NULL. */
  function Column(row: Row, c: string): Json {
    GetOrNull(row, c)
  }

  /** The key constraints a commit checks: `employer_id` is the primary key (not
      NULL, no two rows alike) and `gvkey` is unique among the rows that have
      one. */
  predicate CompanyKeys(rows: seq<Row>) {
    (forall i :: 0 <= i < |rows| ==> Column(rows[i], "employer_id") != JNull) &&
    (forall i, j :: 0 <= i < j < |rows| ==> Column(rows[i], "employer_id") != Column(rows[j], "employer_id")) &&
    (forall i, j :: 0 <= i < j < |rows| && Column(rows[i], "gvkey") != JNull ==>
       Column(rows[i], "gvkey") != Column(rows[j], "gvkey"))
  }

  /** The first row with the given employer id (`query(...).filter(...).first()`). */
  function RowWithId(rows: seq<Row>, id: Json): (r: Option<nat>)
    ensures r.Some? ==> r.value < |rows| && Column(rows[r.value], "employer_id") == id
    ensures r.None? ==> forall i :: 0 <= i < |rows| ==> Column(rows[i], "employer_id") != id
  {
    FirstIndex(rows, (row: Row) => Column(row, "employer_id") == id)
  }

  /** Under the key constraints, a row found by its employer id is the only row
      with that id. */
  lemma IdentifiesRow(rows: seq<Row>, id: Json, i: nat)
    requires CompanyKeys(rows) && i < |rows| && Column(rows[i], "employer_id") == id
    ensures RowWithId(rows, id) == Some(i)
    ensures forall j :: 0 <= j < |rows| && j != i ==> Column(rows[j], "employer_id") != id
  {
    forall j | 0 <= j < |rows| && j != i
      ensures Column(rows[j], "employer_id") != id
    {
      if j < i {
        assert Column(rows[j], "employer_id") != Column(rows[i], "employer_id");
      } else {
        assert Column(rows[i], "employer_id") != Column(rows[j], "employer_id");
      }
    }
    assert RowWithId(rows, id).Some?;
  }

  /** Setting a column other than the two keys keeps the constraints. */
  lemma SetOtherKeepsKeys(rows: seq<Row>, i: nat, c: string, v: Json)
    requires CompanyKeys(rows) && i < |rows| && c != "employer_id" && c != "gvkey"
    ensures CompanyKeys(rows[i := OD.Set(rows[i], c, v)])
  {
    OD.SetOther(rows[i], c, v, "employer_id");
    OD.SetOther(rows[i], c, v, "gvkey");
    var rows' := rows[i := OD.Set(rows[i], c, v)];
    assert forall j :: 0 <= j < |rows| ==>
      Column(rows'[j], "employer_id") == Column(rows[j], "employer_id") &&
      Column(rows'[j], "gvkey") == Column(rows[j], "gvkey");
  }

  /** Every column of the table is a field of `CompanyBase`, in the same order. */
  lemma ColumnsAreFields()
    ensures CompanyColumns == BaseModels.Names(BaseModels.CompanyBaseFields)
  {
  }

  // ---------------------------------------------------------------------------
  // Reviews
  // ---------------------------------------------------------------------------

  /** The four text columns `review_text` is made of. */
  datatype TextColumn = Pros | Cons | Summary | Advice

  /** A review row as stored: its other columns, then the four text columns
      (NULL for None) and `review_text`. */
  function ReviewRow(others: Row, pros: Option<string>, cons: Option<string>, summary: Option<string>,
                     advice: Option<string>, text: string): (row: Row)
    ensures |row| == |others| + 5
    ensures OD.Keys(row)[|others|..] == ["pros", "cons", "summary", "advice", "review_text"]
    ensures row[|row| - 1] == ("review_text", JStr(text))
  {
    others + [("pros", Nullable(pros)), ("cons", Nullable(cons)), ("summary", Nullable(summary)),
              ("advice", Nullable(advice)), ("review_text", JStr(text))]
  }

  function Nullable(v: Option<string>): Json {
    match v
    case Some(s) => JStr(s)
    case None => JNull
  }

  /** A `Review` object.  The constructor stores its arguments and then
      `review_text`; assigning a text column later leaves the stored text as it
      was until the object is flushed, when the before-insert / before-update
      listener recomputes it. */
  class Review {
    var others: Row
    var pros: Option<string>
    var cons: Option<string>
    var summary: Option<string>
    var advice: Option<string>
    var reviewText: string

    /** The stored text agrees with the four text columns. */
    ghost predicate Valid()
      reads this
    {
      reviewText == BaseModels.ReviewTextOf(pros, cons, summary, advice)
    }

    /** `Review(**kwargs)`; an unset text column is None. */
    constructor (others: Row, pros: Option<string>, cons: Option<string>, summary: Option<string>,
                 advice: Option<string>)
      ensures this.others == others && this.pros == pros && this.cons == cons
      ensures this.summary == summary && this.advice == advice
      ensures Valid()
    {
      this.others := others;
      this.pros := pros;
      this.cons := cons;
      this.summary := summary;
      this.advice := advice;
      reviewText := BaseModels.ReviewTextOf(pros, cons, summary, advice);
    }

    /** `setattr(review, column, v)` on one text column. */
    method Set(c: TextColumn, v: Option<string>)
      modifies this
      ensures pros == (if c == Pros then v else old(pros))
      ensures cons == (if c == Cons then v else old(cons))
      ensures summary == (if c == Summary then v else old(summary))
      ensures advice == (if c == Advice then v else old(advice))
      ensures others == old(others) && reviewText == old(reviewText)
    {
      match c
      case Pros => pros := v;
      case Cons => cons := v;
      case Summary => summary := v;
      case Advice => advice := v;
    }

    /** The listener run before an insert or an update: `review_text` is
        recomputed from the current text columns. */
    method Flush()
      modifies this
      ensures Valid()
      ensures others == old(others) && pros == old(pros) && cons == old(cons)
      ensures summary == old(summary) && advice == old(advice)
    {
      reviewText := BaseModels.ReviewTextOf(pros, cons, summary, advice);
    }

    /** The row the object is stored as. */
    function Snapshot(): (row: Row)
      reads this
      ensures |row| == |others| + 5
      ensures Valid() ==> row[|row| - 1] == ("review_text", JStr(BaseModels.ReviewTextOf(pros, cons, summary, advice)))
    {
      ReviewRow(others, pros, cons, summary, advice, reviewText)
    }
  }

  /** A review built with no text column renders as "None None None None". */
  lemma UnsetReviewText()
    ensures BaseModels.ReviewTextOf(None, None, None, None) == "None None None None"
  {
    var n: string := "None";
    assert BaseModels.Render(None) == n;
    assert n + " " == "None ";
    assert "None " + n == "None None";
    assert "None None" + " " == "None None ";
    assert "None None " + n == "None None None";
    assert "None None None" + " " == "None None None ";
    assert "None None None " + n == "None None None None";
  }

  /** The stored text of a review after it has been assigned and flushed reflects
      the new value: flushing after `review.pros = p` stores p followed by the
      other three columns. */
  method ReassignPros(r: Review, p: string)
    modifies r
    ensures r.Valid() && r.pros == Some(p)
    ensures r.reviewText == p + " " + BaseModels.Render(old(r.cons)) + " " + BaseModels.Render(old(r.summary)) +
                            " " + BaseModels.Render(old(r.advice))
  {
    r.Set(Pros, Some(p));
    r.Flush();
  }
}
