/** `clean_text` (scraper/utils.py): contraction expansion followed by
    whitespace and punctuation normalisation and lowercasing.

    The contraction pattern is the alternation of the table's keys, in table
    order, matched without regard to case and without word boundaries; each
    match is replaced by the table's value for the lowercased match, and by
    nothing when that lookup misses.  Text is taken to be ASCII.
 */
module CleanText {
  import opened Wrappers
  import opened Text
  import opened Json
  import OD = OrderedDict

  /** `contractions_expansions`, in its source order. */
  const Contractions0: seq<(string, string)> := [
    ("ain't", "am not"),
    ("aren't", "are not"),
    ("can't", "cannot"),
    ("can't've", "cannot have"),
    ("'cause", "because"),
    ("could've", "could have"),
    ("couldn't", "could not"),
    ("couldn't've", "could not have"),
    ("didn't", "did not"),
    ("doesn't", "does not")]

  const Contractions1: seq<(string, string)> := [
    ("don't", "do not"),
    ("hadn't", "had not"),
    ("hadn't've", "had not have"),
    ("hasn't", "has not"),
    ("haven't", "have not"),
    ("he'd", "he would"),
    ("he'd've", "he would have"),
    ("he'll", "he will"),
    ("he'll've", "he will have"),
    ("he's", "he is")]

  const Contractions2: seq<(string, string)> := [
    ("how'd", "how did"),
    ("how'd'y", "how do you"),
    ("how'll", "how will"),
    ("how's", "how is"),
    ("I'd", "I would"),
    ("I'd've", "I would have"),
    ("I'll", "I will"),
    ("I'll've", "I will have"),
    ("I'm", "I am"),
    ("I've", "I have")]

  const Contractions3: seq<(string, string)> := [
    ("isn't", "is not"),
    ("it'd", "it had"),
    ("it'd've", "it would have"),
    ("it'll", "it will"),
    ("it'll've", "it will have"),
    ("it's", "it is"),
    ("let's", "let us"),
    ("ma'am", "madam"),
    ("mayn't", "may not"),
    ("might've", "might have")]

  const Contractions4: seq<(string, string)> := [
    ("mightn't", "might not"),
    ("mightn't've", "might not have"),
    ("must've", "must have"),
    ("mustn't", "must not"),
    ("mustn't've", "must not have"),
    ("needn't", "need not"),
    ("needn't've", "need not have"),
    ("o'clock", "of the clock"),
    ("oughtn't", "ought not"),
    ("oughtn't've", "ought not have")]

  const Contractions5: seq<(string, string)> := [
    ("shan't", "shall not"),
    ("sha'n't", "shall not"),
    ("shan't've", "shall not have"),
    ("she'd", "she would"),
    ("she'd've", "she would have"),
    ("she'll", "she will"),
    ("she'll've", "she will have"),
    ("she's", "she is"),
    ("should've", "should have"),
    ("shouldn't", "should not")]

  const Contractions6: seq<(string, string)> := [
    ("shouldn't've", "should not have"),
    ("so've", "so have"),
    ("so's", "so is"),
    ("that'd", "that would"),
    ("that'd've", "that would have"),
    ("that's", "that is"),
    ("there'd", "there had"),
    ("there'd've", "there would have"),
    ("there's", "there is"),
    ("they'd", "they would")]

  const Contractions7: seq<(string, string)> := [
    ("they'd've", "they would have"),
    ("they'll", "they will"),
    ("they'll've", "they will have"),
    ("they're", "they are"),
    ("they've", "they have"),
    ("to've", "to have"),
    ("wasn't", "was not"),
    ("we'd", "we had"),
    ("we'd've", "we would have"),
    ("we'll", "we will")]

  const Contractions8: seq<(string, string)> := [
    ("we'll've", "we will have"),
    ("we're", "we are"),
    ("we've", "we have"),
    ("weren't", "were not"),
    ("what'll", "what will"),
    ("what'll've", "what will have"),
    ("what're", "what are"),
    ("what's", "what is"),
    ("what've", "what have"),
    ("when's", "when is")]

  const Contractions9: seq<(string, string)> := [
    ("when've", "when have"),
    ("where'd", "where did"),
    ("where's", "where is"),
    ("where've", "where have"),
    ("who'll", "who will"),
    ("who'll've", "who will have"),
    ("who's", "who is"),
    ("who've", "who have"),
    ("why's", "why is"),
    ("why've", "why have")]

  const Contractions10: seq<(string, string)> := [
    ("will've", "will have"),
    ("won't", "will not"),
    ("won't've", "will not have"),
    ("would've", "would have"),
    ("wouldn't", "would not"),
    ("wouldn't've", "would not have"),
    ("y'all", "you all"),
    ("y'alls", "you alls"),
    ("y'all'd", "you all would"),
    ("y'all'd've", "you all would have")]

  const Contractions11: seq<(string, string)> := [
    ("y'all're", "you all are"),
    ("y'all've", "you all have"),
    ("you'd", "you had"),
    ("you'd've", "you would have"),
    ("you'll", "you you will"),
    ("you'll've", "you you will have"),
    ("you're", "you are"),
    ("you've", "you have")]

  const Contractions: seq<(string, string)> :=
    Contractions0 + Contractions1 + Contractions2 + Contractions3 + Contractions4 + Contractions5 + Contractions6 + Contractions7 + Contractions8 + Contractions9 + Contractions10 + Contractions11


  // ---------------------------------------------------------------------------
  // The four substitutions
  // ---------------------------------------------------------------------------

  /** A table of contractions: (key, expansion) pairs in pattern order. */
  type Table = seq<(string, string)>

  /** Key `key` (a literal alternative under IGNORECASE) matches at the start of s. */
  predicate KeyMatches(s: string, key: string) {
    0 < |key| <= |s| && LowerStr(s[..|key|]) == LowerStr(key)
  }

  /** The alternative the regular expression engine takes at the start of s: the
      first key in table order that matches there. */
  function FirstKey(t: Table, s: string): (r: Option<nat>)
    ensures r.Some? ==> r.value < |t| && KeyMatches(s, t[r.value].0)
    ensures r.Some? ==> forall j :: 0 <= j < r.value ==> !KeyMatches(s, t[j].0)
    ensures r.None? ==> forall j :: 0 <= j < |t| ==> !KeyMatches(s, t[j].0)
  {
    FirstIndex(t, (kv: (string, string)) => KeyMatches(s, kv.0))
  }

  /** `expand_match`: the value for the lowercased match; a miss yields None,
      which `re.sub` inserts as nothing. */
  function Expansion(t: Table, m: string): string {
    match OD.Get(t, LowerStr(m))
    case Some(v) => v
    case None => ""
  }

  /** `contractions_pattern.sub(expand_match, s)`, scanning left to right. */
  function Expand(t: Table, s: string): string
    decreases |s|
  {
    if |s| == 0 then ""
    else
      match FirstKey(t, s)
      case Some(k) =>
        var n := |t[k].0|;
        Expansion(t, s[..n]) + Expand(t, s[n..])
      case None => [s[0]] + Expand(t, s[1..])
  }

  /** `re.sub(r'\s', ' ', s)`. */
  function SpacesToBlank(s: string): string {
    seq(|s|, i requires 0 <= i < |s| => if IsSpace(s[i]) then ' ' else s[i])
  }

  /** `re.sub(r'[^\w\s]', ' ', s)`. */
  function SpecialsToBlank(s: string): string {
    seq(|s|, i requires 0 <= i < |s| => if !IsWordChar(s[i]) && !IsSpace(s[i]) then ' ' else s[i])
  }

  /** `re.sub(r'\s+', ' ', s)`: every run of whitespace becomes one blank. */
  function Squeeze(s: string): string
    decreases |s|
  {
    if |s| == 0 then ""
    else if IsSpace(s[0]) then " " + Squeeze(LStrip(s[1..]))
    else [s[0]] + Squeeze(s[1..])
  }

  /** The last three substitutions and the lowercasing. */
  function Tidy(x: string): string {
    LowerStr(Squeeze(SpecialsToBlank(SpacesToBlank(x))))
  }

  /** `clean_text` on a string. */
  function CleanStr(s: string): string {
    Tidy(Expand(Contractions, s))
  }

  /** `clean_text` on a decoded JSON value: None stays None, and anything but a
      string makes `re.sub` raise TypeError. */
  function CleanJson(j: Json): (r: Result<Option<string>>)
    ensures j == JNull <==> r == Ok(None)
    ensures j.JStr? <==> r.Ok? && r.value.Some?
  {
    match j
    case JNull => Ok(None)
    case JStr(s) => Ok(Some(CleanStr(s)))
    case _ => Raise(TypeError)
  }

  // ---------------------------------------------------------------------------
  // The table
  // ---------------------------------------------------------------------------

  /** What the proofs use about a table entry: its key holds an apostrophe and
      has at least three characters, and the only three-character keys are the
      capitalised `I'd` and `I'm`. */
  predicate KeyFact(kv: (string, string)) {
    '\'' in kv.0 && |kv.0| >= 3 && (|kv.0| == 3 ==> kv.0 == "I'd" || kv.0 == "I'm")
  }

  predicate GoodTable(t: Table) {
    forall i | 0 <= i < |t| :: KeyFact(t[i])
  }

  lemma Chunk0Facts()
    ensures GoodTable(Contractions0)
  {
  }

  lemma Chunk1Facts()
    ensures GoodTable(Contractions1)
  {
  }

  lemma Chunk2Facts()
    ensures GoodTable(Contractions2)
  {
  }

  lemma Chunk3Facts()
    ensures GoodTable(Contractions3)
  {
  }

  lemma Chunk4Facts()
    ensures GoodTable(Contractions4)
  {
  }

  lemma Chunk5Facts()
    ensures GoodTable(Contractions5)
  {
  }

  lemma Chunk6Facts()
    ensures GoodTable(Contractions6)
  {
  }

  lemma Chunk7Facts()
    ensures GoodTable(Contractions7)
  {
  }

  lemma Chunk8Facts()
    ensures GoodTable(Contractions8)
  {
  }

  lemma Chunk9Facts()
    ensures GoodTable(Contractions9)
  {
  }

  lemma Chunk10Facts()
    ensures GoodTable(Contractions10)
  {
  }

  lemma Chunk11Facts()
    ensures GoodTable(Contractions11)
  {
  }

  lemma KeyFacts()
    ensures GoodTable(Contractions)
  {
    Chunk0Facts();
    Chunk1Facts();
    Chunk2Facts();
    Chunk3Facts();
    Chunk4Facts();
    Chunk5Facts();
    Chunk6Facts();
    Chunk7Facts();
    Chunk8Facts();
    Chunk9Facts();
    Chunk10Facts();
    Chunk11Facts();
  }

  /** The entries the examples below look up carry one value each. */
  predicate LookupFact(kv: (string, string)) {
    (kv.0 == "can't" ==> kv.1 == "cannot") && (kv.0 == "don't" ==> kv.1 == "do not")
  }

  lemma Chunk0Lookups()
    ensures forall i | 0 <= i < |Contractions0| :: LookupFact(Contractions0[i])
  {
  }

  lemma Chunk1Lookups()
    ensures forall i | 0 <= i < |Contractions1| :: LookupFact(Contractions1[i])
  {
  }

  lemma Chunk2Lookups()
    ensures forall i | 0 <= i < |Contractions2| :: LookupFact(Contractions2[i])
  {
  }

  lemma Chunk3Lookups()
    ensures forall i | 0 <= i < |Contractions3| :: LookupFact(Contractions3[i])
  {
  }

  lemma Chunk4Lookups()
    ensures forall i | 0 <= i < |Contractions4| :: LookupFact(Contractions4[i])
  {
  }

  lemma Chunk5Lookups()
    ensures forall i | 0 <= i < |Contractions5| :: LookupFact(Contractions5[i])
  {
  }

  lemma Chunk6Lookups()
    ensures forall i | 0 <= i < |Contractions6| :: LookupFact(Contractions6[i])
  {
  }

  lemma Chunk7Lookups()
    ensures forall i | 0 <= i < |Contractions7| :: LookupFact(Contractions7[i])
  {
  }

  lemma Chunk8Lookups()
    ensures forall i | 0 <= i < |Contractions8| :: LookupFact(Contractions8[i])
  {
  }

  lemma Chunk9Lookups()
    ensures forall i | 0 <= i < |Contractions9| :: LookupFact(Contractions9[i])
  {
  }

  lemma Chunk10Lookups()
    ensures forall i | 0 <= i < |Contractions10| :: LookupFact(Contractions10[i])
  {
  }

  lemma Chunk11Lookups()
    ensures forall i | 0 <= i < |Contractions11| :: LookupFact(Contractions11[i])
  {
  }

  lemma LookupFacts()
    ensures forall i | 0 <= i < |Contractions| :: LookupFact(Contractions[i])
  {
    Chunk0Lookups();
    Chunk1Lookups();
    Chunk2Lookups();
    Chunk3Lookups();
    Chunk4Lookups();
    Chunk5Lookups();
    Chunk6Lookups();
    Chunk7Lookups();
    Chunk8Lookups();
    Chunk9Lookups();
    Chunk10Lookups();
    Chunk11Lookups();
  }

  /** The key of any table entry holds an apostrophe. */
  lemma KeyApostrophe(t: Table, k: nat)
    requires GoodTable(t) && k < |t|
    ensures exists j :: 0 <= j < |t[k].0| && t[k].0[j] == '\''
  {
    assert KeyFact(t[k]);
  }

  // ---------------------------------------------------------------------------
  // The shape of the output
  // ---------------------------------------------------------------------------

  predicate IsCleanChar(c: char) {
    IsLower(c) || IsDigit(c) || c == '_' || c == ' '
  }

  predicate NoDoubleBlank(r: string) {
    forall i :: 0 <= i < |r| - 1 ==> !(IsSpace(r[i]) && IsSpace(r[i + 1]))
  }

  /** Lowercase letters, digits, underscores and single blanks only. */
  predicate IsClean(r: string) {
    (forall i :: 0 <= i < |r| ==> IsCleanChar(r[i])) && NoDoubleBlank(r)
  }

  predicate WordOrBlank(t: string) {
    forall i :: 0 <= i < |t| ==> IsWordChar(t[i]) || t[i] == ' '
  }

  /** The two character substitutions together keep word characters and turn
      every other character (whitespace or special) into a blank. */
  lemma BlankMap(x: string)
    ensures |SpecialsToBlank(SpacesToBlank(x))| == |x|
    ensures forall i :: 0 <= i < |x| ==>
      SpecialsToBlank(SpacesToBlank(x))[i] == if IsWordChar(x[i]) then x[i] else ' '
  {
  }

  /** After squeezing, a text of word characters and blanks is still one, and
      has no two blanks in a row. */
  lemma {:induction false} SqueezeShape(t: string)
    requires WordOrBlank(t)
    ensures WordOrBlank(Squeeze(t)) && NoDoubleBlank(Squeeze(t))
    decreases |t|
  {
    if |t| > 0 {
      if IsSpace(t[0]) {
        var u := LStrip(t[1..]);
        assert forall i :: 0 <= i < |u| ==> u[i] == t[1..][|t[1..]| - |u| + i];
        SqueezeShape(u);
        SqueezeHead(u);
      } else {
        SqueezeShape(t[1..]);
      }
    }
  }

  /** Squeezing keeps a leading non-space character in front. */
  lemma SqueezeHead(u: string)
    ensures |u| == 0 ==> Squeeze(u) == ""
    ensures |u| > 0 && !IsSpace(u[0]) ==> |Squeeze(u)| > 0 && Squeeze(u)[0] == u[0]
  {
  }

  /** Lowercasing turns word characters and blanks into clean characters and
      moves no blank. */
  lemma LowerShape(t: string)
    requires WordOrBlank(t) && NoDoubleBlank(t)
    ensures IsClean(LowerStr(t))
  {
    var r := LowerStr(t);
    forall i | 0 <= i < |r| - 1 ensures !(IsSpace(r[i]) && IsSpace(r[i + 1])) {
      assert IsSpace(r[i]) ==> r[i] == t[i];
    }
  }

  /** Every output of `clean_text` is clean: lowercase letters, digits,
      underscores and blanks, never two blanks in a row, and so no apostrophe. */
  lemma CleanShape(s: string)
    ensures IsClean(CleanStr(s))
    ensures NoChar(CleanStr(s), '\'')
  {
    var x := Expand(Contractions, s);
    var t := SpecialsToBlank(SpacesToBlank(x));
    BlankMap(x);
    SqueezeShape(t);
    LowerShape(Squeeze(t));
  }

  // ---------------------------------------------------------------------------
  // Idempotence
  // ---------------------------------------------------------------------------

  /** Text without an apostrophe has no contraction to expand. */
  lemma {:induction false} ExpandNoApostrophe(t: Table, s: string)
    requires GoodTable(t)
    requires NoChar(s, '\'')
    ensures Expand(t, s) == s
    decreases |s|
  {
    if |s| > 0 {
      match FirstKey(t, s)
      case Some(k) =>
        KeyApostrophe(t, k);
        assert false;
      case None =>
        ExpandNoApostrophe(t, s[1..]);
    }
  }

  /** Squeezing changes nothing in a text with single blanks only. */
  lemma {:induction false} SqueezeFixed(t: string)
    requires forall i :: 0 <= i < |t| ==> IsSpace(t[i]) ==> t[i] == ' '
    requires NoDoubleBlank(t)
    ensures Squeeze(t) == t
    decreases |t|
  {
    if |t| > 0 {
      SqueezeFixed(t[1..]);
      if IsSpace(t[0]) {
        assert LStrip(t[1..]) == t[1..];
      }
    }
  }

  /** A clean text is its own cleaning. */
  lemma CleanFixed(r: string)
    requires IsClean(r)
    ensures CleanStr(r) == r
  {
    KeyFacts();
    ExpandNoApostrophe(Contractions, r);
    assert SpacesToBlank(r) == r;
    assert SpecialsToBlank(r) == r;
    SqueezeFixed(r);
    assert LowerStr(r) == r;
  }

  /** `clean_text` is idempotent. */
  lemma CleanIdempotent(s: string)
    ensures CleanStr(CleanStr(s)) == CleanStr(s)
  {
    CleanShape(s);
    CleanFixed(CleanStr(s));
  }

  // ---------------------------------------------------------------------------
  // How the pattern and the lookup behave
  // ---------------------------------------------------------------------------

  /** No key matches a text of at most three characters unless it is a
      three-character text starting with `i` or `I`. */
  lemma NoKeyShort(t: Table, s: string)
    requires GoodTable(t)
    requires |s| <= 3 && (|s| == 3 ==> Lower(s[0]) != 'i')
    ensures FirstKey(t, s) == None
  {
    forall j | 0 <= j < |t| ensures !KeyMatches(s, t[j].0) {
      assert KeyFact(t[j]);
      var key := t[j].0;
      if |key| == 3 && |s| == 3 {
        assert LowerStr(key)[0] == 'i';
        assert LowerStr(s[..3])[0] == Lower(s[0]);
      }
    }
  }

  /** A key does not match where one of its characters differs, ignoring case. */
  lemma KeyMismatch(s: string, key: string, j: nat)
    requires j < |key| <= |s| && Lower(s[j]) != Lower(key[j])
    ensures !KeyMatches(s, key)
  {
    assert LowerStr(s[..|key|])[j] != LowerStr(key)[j];
  }

  /** Two words joined by one character that is not a word character come out
      joined by one blank, lowercased. */
  lemma TidyTwoWords(a: string, b: char, c: string)
    requires forall i :: 0 <= i < |a| ==> IsWordChar(a[i])
    requires forall i :: 0 <= i < |c| ==> IsWordChar(c[i])
    requires !IsWordChar(b)
    ensures Tidy(a + [b] + c) == LowerStr(a + " " + c)
  {
    var x := a + [b] + c;
    BlankMap(x);
    assert SpecialsToBlank(SpacesToBlank(x)) == a + " " + c;
    SqueezeFixed(a + " " + c);
  }

  // ---------------------------------------------------------------------------
  // Examples
  // ---------------------------------------------------------------------------

  /** A key that cannot match the five characters of `Don't`: it is longer, or
      starts with a letter other than `d`. */
  predicate NotStartingWithD(kv: (string, string)) {
    |kv.0| > 5 || (|kv.0| > 0 && Lower(kv.0[0]) != 'd')
  }

  lemma Chunk0NoD()
    ensures forall i | 0 <= i < |Contractions0| :: NotStartingWithD(Contractions0[i])
  {
  }

  /** The entries the examples rely on. */
  lemma TableEntries()
    ensures |Contractions| == 118
    ensures Contractions[0].0 == "ain't" && Contractions[1].0 == "aren't"
    ensures Contractions[2] == ("can't", "cannot") && Contractions[3].0 == "can't've"
    ensures Contractions[10] == ("don't", "do not") && Contractions[28] == ("I'm", "I am")
    ensures forall j | 0 <= j < 10 :: NotStartingWithD(Contractions[j])
  {
    Chunk0NoD();
    assert forall j | 0 <= j < 10 :: Contractions[j] == Contractions0[j];
  }

  // Each step below is a lemma of its own over a text parameter: stated on the
  // literal table and a literal text at once, the definitions unfold too far.

  /** One step of the scan at a match. */
  lemma ExpandAt(t: Table, s: string, k: nat)
    requires |s| > 0 && FirstKey(t, s) == Some(k)
    ensures Expand(t, s) == Expansion(t, s[..|t[k].0|]) + Expand(t, s[|t[k].0|..])
  {
  }

  /** One step of the scan where nothing matches. */
  lemma ExpandSkip(t: Table, s: string)
    requires |s| > 0 && FirstKey(t, s) == None
    ensures Expand(t, s) == [s[0]] + Expand(t, s[1..])
  {
  }

  /** Two lowercase words joined by one character that is not a word character
      come out joined by one blank. */
  lemma TidyTwoLower(a: string, b: char, c: string)
    requires forall i :: 0 <= i < |a| ==> IsWordChar(a[i]) && !IsUpper(a[i])
    requires forall i :: 0 <= i < |c| ==> IsWordChar(c[i]) && !IsUpper(c[i])
    requires !IsWordChar(b)
    ensures Tidy(a + [b] + c) == a + " " + c
  {
    TidyTwoWords(a, b, c);
    assert LowerStr(a + " " + c) == a + " " + c;
  }

  /** In any table whose first keys are `ain't`, `aren't`, `can't`, `can't've`,
      both `can't` and `can't've` match at the start of `can't've`, and the
      earlier alternative `can't` wins. */
  lemma CantVeFirst(t: Table, s: string)
    requires s == "can't've"
    requires |t| > 3 && t[0].0 == "ain't" && t[1].0 == "aren't" && t[2].0 == "can't" && t[3].0 == "can't've"
    ensures KeyMatches(s, t[3].0)
    ensures FirstKey(t, s) == Some(2)
  {
    assert s[..5] == "can't" && s[..8] == s;
    assert KeyMatches(s, t[2].0);
    KeyMismatch(s, t[0].0, 0);
    KeyMismatch(s, t[1].0, 0);
  }

  lemma ExpansionCant(t: Table, m: string)
    requires m == "can't" && OD.Get(t, "can't") == Some("cannot")
    ensures Expansion(t, m) == "cannot"
  {
    assert LowerStr(m) == m;
  }

  /** The `'ve` left behind holds no contraction. */
  lemma ExpandVe(t: Table, r: string)
    requires GoodTable(t) && r == "'ve"
    ensures Expand(t, r) == r
  {
    NoKeyShort(t, r);
    NoKeyShort(t, r[1..]);
    NoKeyShort(t, r[2..]);
    ExpandSkip(t, r);
    ExpandSkip(t, r[1..]);
    ExpandSkip(t, r[2..]);
    assert r[2..][1..] == [];
    assert r[1..][1..] == r[2..];
  }

  lemma CantVeWith(t: Table, s: string)
    requires s == "can't've"
    requires GoodTable(t) && |t| > 3
    requires t[0].0 == "ain't" && t[1].0 == "aren't" && t[2].0 == "can't" && t[3].0 == "can't've"
    requires OD.Get(t, "can't") == Some("cannot")
    ensures Expand(t, s) == "cannot've"
  {
    CantVeFirst(t, s);
    ExpandAt(t, s, 2);
    var m, r := s[..5], s[5..];
    SplitCantVe(s);
    ExpansionCant(t, m);
    ExpandVe(t, r);
    JoinCannotVe();
  }

  lemma SplitCantVe(s: string)
    requires s == "can't've"
    ensures s[..5] == "can't" && s[5..] == "'ve"
  {
  }

  lemma JoinCannotVe()
    ensures "cannot" + "'ve" == "cannot've"
  {
  }

  lemma TidyCannotVe(x: string)
    requires x == "cannot've"
    ensures Tidy(x) == "cannot ve"
  {
    TidyTwoLower("cannot", '\'', "ve");
    assert "cannot" + ['\''] + "ve" == x;
  }

  /** So `can't've` cleans to `cannot ve`, not to `cannot have`. */
  lemma CleanCantVe()
    ensures CleanStr("can't've") == "cannot ve"
  {
    KeyFacts();
    LookupFacts();
    TableEntries();
    OD.GetAt(Contractions, "can't", "cannot", 2);
    CantVeWith(Contractions, "can't've");
    TidyCannotVe(Expand(Contractions, "can't've"));
  }

  /** Matching ignores case: `Don't` matches the key `don't` ... */
  lemma DontFirst(t: Table, s: string)
    requires s == "Don't"
    requires |t| > 10 && t[10].0 == "don't"
    requires forall j | 0 <= j < 10 :: NotStartingWithD(t[j])
    ensures FirstKey(t, s) == Some(10)
  {
    assert s[..5] == s;
    assert LowerStr(s) == "don't";
    assert KeyMatches(s, t[10].0);
    forall j | 0 <= j < 10 ensures !KeyMatches(s, t[j].0) {
      assert NotStartingWithD(t[j]);
      if |t[j].0| <= 5 {
        KeyMismatch(s, t[j].0, 0);
      }
    }
  }

  /** ... and is looked up as `don't`. */
  lemma ExpansionDont(t: Table, m: string)
    requires m == "Don't"
    requires OD.Get(t, "don't") == Some("do not")
    ensures Expansion(t, m) == "do not"
  {
    assert LowerStr(m) == "don't";
  }

  lemma DontWith(t: Table, s: string)
    requires s == "Don't"
    requires |t| > 10 && t[10].0 == "don't"
    requires forall j | 0 <= j < 10 :: NotStartingWithD(t[j])
    requires OD.Get(t, "don't") == Some("do not")
    ensures Expand(t, s) == "do not"
  {
    DontFirst(t, s);
    ExpandAt(t, s, 10);
    assert s[..5] == s && s[5..] == "";
    ExpansionDont(t, s);
  }

  lemma TidyDoNot(x: string)
    requires x == "do not"
    ensures Tidy(x) == x
  {
    TidyTwoLower("do", ' ', "not");
    assert "do" + [' '] + "not" == x;
  }

  lemma CleanDont()
    ensures CleanStr("Don't") == "do not"
  {
    LookupFacts();
    TableEntries();
    OD.GetAt(Contractions, "don't", "do not", 10);
    DontWith(Contractions, "Don't");
    TidyDoNot(Expand(Contractions, "Don't"));
  }

  /** `I'm`, in any capitalisation, matches a capitalised key `I'm`, but the
      lookup is by `i'm`, which is no key of the table: the match is dropped. */
  lemma CapitalKeyWith(t: Table, s: string, k: nat)
    requires GoodTable(t) && k < |t| && t[k].0 == "I'm"
    requires LowerStr(s) == "i'm"
    ensures "i'm" !in OD.Keys(t)
    ensures Expand(t, s) == ""
  {
    assert s[..3] == s && s[3..] == "";
    assert LowerStr("I'm") == "i'm";
    assert KeyMatches(s, t[k].0);
    var f := FirstKey(t, s).value;
    assert KeyFact(t[f]);
    ExpandAt(t, s, f);
  }

  lemma CapitalKeyDropped(s: string)
    requires LowerStr(s) == "i'm"
    ensures Contractions[28] == ("I'm", "I am")
    ensures "i'm" !in OD.Keys(Contractions)
    ensures CleanStr(s) == ""
  {
    KeyFacts();
    TableEntries();
    CapitalKeyWith(Contractions, s, 28);
  }

  /** Whitespace and specials become blanks, runs of blanks collapse to one,
      letters are lowercased, and a trailing blank is kept. */
  lemma TidyTabBang(x: string)
    requires x == "A\t!"
    ensures Tidy(x) == "a "
  {
    assert SpacesToBlank(x) == "A !";
    assert SpecialsToBlank("A !") == "A  ";
    assert Squeeze("A  ") == "A " by {
      assert LStrip(" ") == "";
    }
    assert LowerStr("A ") == "a ";
  }

  lemma CleanTabBang()
    ensures CleanStr("A\t!") == "a "
  {
    KeyFacts();
    ExpandNoApostrophe(Contractions, "A\t!");
    TidyTabBang(Expand(Contractions, "A\t!"));
  }
}
