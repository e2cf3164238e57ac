/** The pydantic records the scraped data is validated with
    (scraper/database/base_models.py): `CompanyBase` for an overview and
    `ReviewBase` for one review.

    A record is the dict `model_dump()` returns: every declared field, in
    declaration order, holding the value the constructor was given or the
    field's default.  A required field that is missing, a `None` on a field that
    is not `Optional`, or a non-string on a text field makes the constructor raise
    ValidationError; values of the other fields are kept as given (pydantic's
    coercions are not modelled).  Keys the record does not declare are ignored.
 */
module BaseModels {
  import opened Wrappers
  import opened Json
  import OD = OrderedDict

  /** What a field holds when the constructor is not given it. */
  datatype Fill = Required | Default(value: Json)

  /** A declared field: its name, whether it is a `str` field, whether it is
      `Optional`, and its fill. */
  datatype Decl = Decl(name: string, text: bool, optional: bool, fill: Fill)

  type Schema = seq<Decl>

  /** A record as `model_dump()` gives it. */
  type Record = OD.Dict<string, Json>

  function Names(s: Schema): (ns: seq<string>)
    ensures |ns| == |s| && forall i :: 0 <= i < |s| ==> ns[i] == s[i].name
  {
    seq(|s|, i requires 0 <= i < |s| => s[i].name)
  }

  /** `CompanyBase`: only `employer_id` is required. */
  const CompanyBaseFields: Schema := [
    Decl("employer_id", false, false, Required),
    Decl("employer_name", true, true, Default(JStr(""))),
    Decl("gvkey", false, true, Default(JNull)),
    Decl("is_gvkey", false, true, Default(JBool(false))),
    Decl("id_not_found", false, true, Default(JBool(false))),
    Decl("url_old", true, true, Default(JStr(""))),
    Decl("url_new", true, true, Default(JStr(""))),
    Decl("ticker", true, true, Default(JStr(""))),
    Decl("query", true, true, Default(JStr(""))),
    Decl("number_of_pages", false, true, Default(JNull)),
    Decl("all_reviews_count", false, true, Default(JNull)),
    Decl("rated_reviews_count", false, true, Default(JNull)),
    Decl("overall_rating", false, true, Default(JNull)),
    Decl("ceo_name", true, true, Default(JStr(""))),
    Decl("ceo_rating", false, true, Default(JNull)),
    Decl("recommend_to_friend_rating", false, true, Default(JNull)),
    Decl("culture_and_values_rating", false, true, Default(JNull)),
    Decl("diversity_and_inclusion_rating", false, true, Default(JNull)),
    Decl("career_opportunities_rating", false, true, Default(JNull)),
    Decl("work_life_balance_rating", false, true, Default(JNull)),
    Decl("senior_management_rating", false, true, Default(JNull)),
    Decl("compensation_and_benefits_rating", false, true, Default(JNull)),
    Decl("business_outlook_rating", false, true, Default(JNull))]

  /** `ReviewBase`: only `review_id` and `date_time` are required. */
  const ReviewBaseFields: Schema := [
    Decl("id", false, true, Default(JNull)),
    Decl("review_id", false, false, Required),
    Decl("employer_id", false, true, Default(JNull)),
    Decl("date_time", false, false, Required),
    Decl("rating_overall", false, true, Default(JNull)),
    Decl("rating_ceo", true, true, Default(JStr(""))),
    Decl("rating_business_outlook", true, true, Default(JStr(""))),
    Decl("rating_work_life_balance", false, true, Default(JNull)),
    Decl("rating_culture_and_values", false, true, Default(JNull)),
    Decl("rating_diversity_and_inclusion", false, true, Default(JNull)),
    Decl("rating_senior_leadership", false, true, Default(JNull)),
    Decl("rating_recommend_to_friend", true, true, Default(JStr(""))),
    Decl("rating_career_opportunities", false, true, Default(JNull)),
    Decl("rating_compensation_and_benefits", false, true, Default(JNull)),
    Decl("is_current_job", false, true, Default(JNull)),
    Decl("length_of_employment", false, true, Default(JNull)),
    Decl("employment_status", true, true, Default(JStr(""))),
    Decl("job_ending_year", false, true, Default(JNull)),
    Decl("job_title", true, true, Default(JStr(""))),
    Decl("location", true, true, Default(JStr(""))),
    Decl("pros", true, true, Default(JStr(""))),
    Decl("cons", true, true, Default(JStr(""))),
    Decl("summary", true, true, Default(JStr(""))),
    Decl("advice", true, true, Default(JStr(""))),
    Decl("count_helpful", false, true, Default(JNull)),
    Decl("count_not_helpful", false, true, Default(JNull)),
    Decl("is_covid19", false, true, Default(JNull))]

  /** Whether a given value passes the field's check. */
  predicate Accepts(f: Decl, v: Json) {
    (v == JNull ==> f.optional) && (f.text && v != JNull ==> v.JStr?)
  }

  /** The value a field ends up with. */
  function FieldValue(f: Decl, data: Record): Result<Json> {
    match OD.Get(data, f.name)
    case Some(v) => if Accepts(f, v) then Ok(v) else Raise(ValidationError)
    case None => if f.fill.Required? then Raise(ValidationError) else Ok(f.fill.value)
  }

  /** `Model(**data).model_dump()`. */
  function Validate(s: Schema, data: Record): (r: Result<Record>)
    decreases |s|
  {
    if |s| == 0 then Ok([])
    else
      var init :- Validate(s[..|s| - 1], data);
      var v :- FieldValue(s[|s| - 1], data);
      Ok(init + [(s[|s| - 1].name, v)])
  }

  /** `Model(**j)`: anything but a dict cannot be unpacked into keywords. */
  function Construct(s: Schema, j: Json): Result<Record> {
    match j
    case JObj(fields) => Validate(s, fields)
    case _ => Raise(TypeError)
  }

  // ---------------------------------------------------------------------------
  // review_text
  // ---------------------------------------------------------------------------

  /** `f"{v}"` of an optional string: `None` renders as "None". */
  function Render(v: Option<string>): string {
    match v
    case Some(s) => s
    case None => "None"
  }

  /** The four text fields joined by single spaces, in order. */
  function ReviewTextOf(pros: Option<string>, cons: Option<string>, summary: Option<string>,
                        advice: Option<string>): string {
    Render(pros) + " " + Render(cons) + " " + Render(summary) + " " + Render(advice)
  }

  /** A text field of a record: its string, or `None`. */
  function TextField(m: Record, k: string): Option<string> {
    match OD.Get(m, k)
    case Some(v) => if v.JStr? then Some(v.s) else None
    case None => None
  }

  /** The `review_text` property of a review record, computed when it is read. */
  function ReviewText(m: Record): string {
    ReviewTextOf(TextField(m, "pros"), TextField(m, "cons"), TextField(m, "summary"), TextField(m, "advice"))
  }

  // ---------------------------------------------------------------------------
  // Properties of validation
  // ---------------------------------------------------------------------------

  /** Validation succeeds exactly when every declared field gets a value, and the
      record then holds the declared fields in order, each with its value. */
  lemma {:induction false} ValidateProps(s: Schema, data: Record)
    ensures Validate(s, data).Ok? <==> forall i :: 0 <= i < |s| ==> FieldValue(s[i], data).Ok?
    ensures Validate(s, data).Raise? ==> Validate(s, data).exc == ValidationError
    ensures Validate(s, data).Ok? ==>
      |Validate(s, data).value| == |s| &&
      forall i :: 0 <= i < |s| ==> Validate(s, data).value[i] == (s[i].name, FieldValue(s[i], data).value)
    decreases |s|
  {
    if |s| > 0 {
      var s' := s[..|s| - 1];
      ValidateProps(s', data);
      assert forall i :: 0 <= i < |s'| ==> s'[i] == s[i];
    }
  }

  /** A field gets a value exactly when it is given one its check accepts, or is
      not given and is not required. */
  lemma FieldValueCases(f: Decl, data: Record)
    ensures FieldValue(f, data).Ok? <==>
      (if f.name in OD.Keys(data) then Accepts(f, OD.Get(data, f.name).value) else !f.fill.Required?)
    ensures f.name in OD.Keys(data) && FieldValue(f, data).Ok? ==> Some(FieldValue(f, data).value) == OD.Get(data, f.name)
    ensures f.name !in OD.Keys(data) && FieldValue(f, data).Ok? ==> FieldValue(f, data) == Ok(f.fill.value)
  {
  }

  /** Every declared text field, when given, holds a string or an allowed None. */
  ghost predicate TextsAccepted(s: Schema, data: Record) {
    forall i :: 0 <= i < |s| && s[i].name in OD.Keys(data) ==> Accepts(s[i], OD.Get(data, s[i].name).value)
  }

  /** The declared fields that are required are exactly those at the positions
      in `req`. */
  ghost predicate RequiredExactly(s: Schema, req: seq<nat>) {
    (forall i :: 0 <= i < |s| ==> (s[i].fill.Required? <==> i in req)) && forall p :: p in req ==> p < |s|
  }

  /** With the required fields known, validation succeeds exactly when all of
      them are given and every given value passes its check. */
  lemma ValidateRequired(s: Schema, req: seq<nat>, data: Record)
    requires RequiredExactly(s, req)
    ensures Validate(s, data).Ok? <==>
      TextsAccepted(s, data) && forall p :: p in req ==> s[p].name in OD.Keys(data)
  {
    ValidateProps(s, data);
    forall i | 0 <= i < |s| {
      FieldValueCases(s[i], data);
    }
  }

  lemma CompanyRequires()
    ensures RequiredExactly(CompanyBaseFields, [0]) && CompanyBaseFields[0].name == "employer_id"
  {
  }

  lemma ReviewRequires()
    ensures RequiredExactly(ReviewBaseFields, [1, 3])
    ensures ReviewBaseFields[1].name == "review_id" && ReviewBaseFields[3].name == "date_time"
  {
    var s := ReviewBaseFields;
    forall i | 0 <= i < |s| ensures s[i].fill.Required? <==> i in [1, 3] {
      assert i in [1, 3] <==> i == 1 || i == 3;
    }
  }

  /** `CompanyBase(**data)` succeeds exactly when `employer_id` is given and the
      given values pass their checks. */
  lemma CompanyBaseRequired(data: Record)
    ensures Validate(CompanyBaseFields, data).Ok? <==>
      TextsAccepted(CompanyBaseFields, data) && "employer_id" in OD.Keys(data)
  {
    CompanyRequires();
    ValidateRequired(CompanyBaseFields, [0], data);
  }

  /** `ReviewBase(**data)` succeeds exactly when `review_id` and `date_time` are
      given and the given values pass their checks. */
  lemma ReviewBaseRequired(data: Record)
    ensures Validate(ReviewBaseFields, data).Ok? <==>
      TextsAccepted(ReviewBaseFields, data) && "review_id" in OD.Keys(data) && "date_time" in OD.Keys(data)
  {
    ReviewRequires();
    ValidateRequired(ReviewBaseFields, [1, 3], data);
  }

  /** No field of `CompanyBase` after the first two is named like either of
      them. */
  lemma CompanyLeadingNames()
    ensures CompanyBaseFields[0].name == "employer_id" && CompanyBaseFields[1].name == "employer_name"
    ensures forall j :: 0 < j < |CompanyBaseFields| ==> CompanyBaseFields[j].name != "employer_id"
    ensures forall j :: 1 < j < |CompanyBaseFields| ==> CompanyBaseFields[j].name != "employer_name"
  {
    forall j | 0 < j < |CompanyBaseFields|
      ensures |CompanyBaseFields[j].name| != 11 && (j > 1 ==> |CompanyBaseFields[j].name| != 13)
    {
    }
  }

  /** The field at position i reads back as the value given for it, or its
      default when none was given, provided no later field has the same name. */
  lemma ReadBack(s: Schema, data: Record, i: nat)
    requires i < |s| && Validate(s, data).Ok?
    requires forall j :: i < j < |s| ==> s[j].name != s[i].name
    ensures s[i].name in OD.Keys(data) ==> OD.Get(Validate(s, data).value, s[i].name) == OD.Get(data, s[i].name)
    ensures s[i].name !in OD.Keys(data) ==> s[i].fill.Default? && OD.Get(Validate(s, data).value, s[i].name) == Some(s[i].fill.value)
  {
    ValidateProps(s, data);
    var m := Validate(s, data).value;
    assert FieldValue(s[i], data).Ok?;
    FieldValueCases(s[i], data);
    GetLast(m, s[i].name, i);
  }

  /** The last pair for a key answers its lookup. */
  lemma GetLast<V>(m: OD.Dict<string, V>, k: string, i: nat)
    requires i < |m| && m[i].0 == k && forall j :: i < j < |m| ==> m[j].0 != k
    ensures OD.Get(m, k) == Some(m[i].1)
    decreases |m|
  {
    if i < |m| - 1 {
      GetLast(m[..|m| - 1], k, i);
    }
  }

  /** The positions of the four text fields of a review: each defaults to ""
      and no later field shares its name. */
  lemma ReviewTextPositions()
    ensures forall i :: 20 <= i <= 23 ==> ReviewBaseFields[i].text && ReviewBaseFields[i].fill == Default(JStr(""))
    ensures ReviewBaseFields[20].name == "pros" && ReviewBaseFields[21].name == "cons"
    ensures ReviewBaseFields[22].name == "summary" && ReviewBaseFields[23].name == "advice"
    ensures forall i, j :: 20 <= i <= 23 && i < j < |ReviewBaseFields| ==> ReviewBaseFields[j].name != ReviewBaseFields[i].name
  {
  }

  /** A text field as the record holds it: the string given for it, its default
      "" when it was not given, or None when None was given. */
  function GivenText(data: Record, k: string): Option<string> {
    match OD.Get(data, k)
    case None => Some("")
    case Some(v) => if v.JStr? then Some(v.s) else None
  }

  /** A text field defaulting to "" reads back as the text given for it. */
  lemma TextRead(s: Schema, data: Record, m: Record, i: nat)
    requires i < |s| && Validate(s, data) == Ok(m)
    requires s[i].text && s[i].fill == Default(JStr(""))
    requires forall j :: i < j < |s| ==> s[j].name != s[i].name
    ensures TextField(m, s[i].name) == GivenText(data, s[i].name)
  {
    ReadBack(s, data, i);
    ValidateProps(s, data);
    assert FieldValue(s[i], data).Ok?;
  }

  /** A validated company record holds `employer_name` as given, defaulting
      to "". */
  lemma CompanyNameRead(data: Record, m: Record)
    requires Validate(CompanyBaseFields, data) == Ok(m)
    ensures TextField(m, "employer_name") == GivenText(data, "employer_name")
  {
    CompanyLeadingNames();
    TextRead(CompanyBaseFields, data, m, 1);
  }

  /** A validated review holds the four text fields as given, defaulting to "". */
  lemma ReviewTexts(data: Record, m: Record)
    requires Validate(ReviewBaseFields, data) == Ok(m)
    ensures TextField(m, "pros") == GivenText(data, "pros")
    ensures TextField(m, "cons") == GivenText(data, "cons")
    ensures TextField(m, "summary") == GivenText(data, "summary")
    ensures TextField(m, "advice") == GivenText(data, "advice")
  {
    ReviewTextPositions();
    TextRead(ReviewBaseFields, data, m, 20);
    TextRead(ReviewBaseFields, data, m, 21);
    TextRead(ReviewBaseFields, data, m, 22);
    TextRead(ReviewBaseFields, data, m, 23);
  }

  /** A validated review's `review_text` is the four text fields as given
      (defaulting to ""), joined by single spaces in the order pros, cons,
      summary, advice. */
  lemma ReviewTextOfRecord(data: Record, m: Record)
    requires Validate(ReviewBaseFields, data) == Ok(m)
    ensures ReviewText(m) ==
      ReviewTextOf(GivenText(data, "pros"), GivenText(data, "cons"), GivenText(data, "summary"), GivenText(data, "advice"))
  {
    ReviewTexts(data, m);
  }

  /** A review given none of the four text fields has `review_text` "   ". */
  lemma DefaultReviewText(data: Record, m: Record)
    requires Validate(ReviewBaseFields, data) == Ok(m)
    requires "pros" !in OD.Keys(data) && "cons" !in OD.Keys(data)
    requires "summary" !in OD.Keys(data) && "advice" !in OD.Keys(data)
    ensures ReviewText(m) == "   "
  {
    ReviewTexts(data, m);
    assert GivenText(data, "pros") == Some("") && GivenText(data, "cons") == Some("");
    assert GivenText(data, "summary") == Some("") && GivenText(data, "advice") == Some("");
    EmptyTexts();
  }

  lemma EmptyTexts()
    ensures ReviewTextOf(Some(""), Some(""), Some(""), Some("")) == "   "
  {
    var e: string := "";
    assert Render(Some(e)) == e;
    assert e + " " == " ";
    assert " " + e == " ";
    assert " " + " " == "  ";
    assert "  " + e == "  ";
    assert "  " + " " == "   ";
    assert "   " + e == "   ";
  }

  /** The property reads the current fields: replacing one text field of a
      record changes `review_text` in that one place. */
  lemma ReviewTextTracks(m: Record, p: string)
    requires OD.NoDupKeys(m)
    ensures ReviewText(OD.Set(m, "pros", JStr(p))) ==
      p + " " + Render(TextField(m, "cons")) + " " + Render(TextField(m, "summary")) + " " + Render(TextField(m, "advice"))
  {
    OD.SetGet(m, "pros", JStr(p), "pros");
    OD.SetGet(m, "pros", JStr(p), "cons");
    OD.SetGet(m, "pros", JStr(p), "summary");
    OD.SetGet(m, "pros", JStr(p), "advice");
  }
}
