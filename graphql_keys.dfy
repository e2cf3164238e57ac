/** Rewriting GraphQL call keys in the raw state text into plain keys
    (scraper/glassdoor.py, `get_apollo`, after the state text is located).

    The cache text of an older page has keys such as
    `"employerReviewsRG({\"employer\":{\"id\":7633}})"`.  Every substring matching
    the regular expression `"[^"]*\({[^)]*}\)"` is collected (`re.findall`); its
    operation name (the text before the first `(`) is rendered through
    `query { <name> { id } }`, parsed and printed by the GraphQL library, and
    stripped of `query`, braces and whitespace, which leaves the name with every
    `query` removed followed by `id`; finally each distinct match, in order of first
    appearance, is replaced everywhere in the text by that key in quotes.
 */
module GraphQLKeys {
  import opened Wrappers
  import opened Text
  import OD = OrderedDict

  // ---------------------------------------------------------------------------
  // re.findall(r'"[^"]*\({[^)]*}\)"', text)
  // ---------------------------------------------------------------------------

  /** The first position at or after k holding c, or |s|. */
  function NextChar(s: string, c: char, k: nat): (r: nat)
    requires k <= |s|
    ensures k <= r <= |s| && (r < |s| ==> s[r] == c)
    ensures forall j :: k <= j < r ==> s[j] != c
    decreases |s| - k
  {
    if k == |s| || s[k] == c then k else NextChar(s, c, k + 1)
  }

  /** `\({` at position p. */
  predicate OpenAt(s: string, p: nat) {
    p + 2 <= |s| && s[p] == '(' && s[p + 1] == '{'
  }

  /** With `\({` at p: `[^)]*` runs to the first `)` after the brace, which must
      be preceded by `}` (the group may be empty) and followed by the closing
      quote.  The answer is the end of the match. */
  function CloseFrom(s: string, p: nat): Option<nat>
    requires OpenAt(s, p)
  {
    var c := NextChar(s, ')', p + 2);
    if c < |s| && p + 3 <= c && s[c - 1] == '}' && c + 1 < |s| && s[c + 1] == '"' then Some(c + 2) else None
  }

  /** The greedy `[^"]*` backtracks: the candidate `\(` positions are tried from
      the rightmost (p) down to lo. */
  function TryOpen(s: string, lo: nat, p: nat): Option<nat>
    decreases p
  {
    if p < lo then None
    else if OpenAt(s, p) && CloseFrom(s, p).Some? then CloseFrom(s, p)
    else if p == 0 then None
    else TryOpen(s, lo, p - 1)
  }

  /** A match starting at i: a quote, then the quote-free run that `[^"]*` may
      span; the answer is the end of the match. */
  function MatchAt(s: string, i: nat): Option<nat>
    requires i < |s|
  {
    if s[i] != '"' then None
    else TryOpen(s, i + 1, NextChar(s, '"', i + 1))
  }

  /** All non-overlapping matches from position `from`, leftmost first; the scan
      resumes where a match ends. */
  function FindAll(s: string, from: nat): seq<string>
    decreases |s| - from
  {
    if from >= |s| then []
    else
      match MatchAt(s, from)
      case None => FindAll(s, from + 1)
      case Some(e) =>
        if e <= from || e > |s| then [] // never: a match has length at least 6
        else [s[from..e]] + FindAll(s, e)
  }

  /** q as a whole matches `"[^"]*\({[^)]*}\)"`. */
  ghost predicate IsQuery(q: string) {
    |q| >= 6 && q[0] == '"' && q[|q| - 1] == '"' && q[|q| - 2] == ')' && q[|q| - 3] == '}' &&
    exists p: nat :: 1 <= p && p + 5 <= |q| && OpenAt(q, p) &&
      (forall j :: 1 <= j < p ==> q[j] != '"') &&
      (forall j :: p + 2 <= j < |q| - 2 ==> q[j] != ')')
  }

  lemma {:induction false} TryOpenSound(s: string, i: nat, p: nat)
    requires i < |s| && s[i] == '"' && p <= |s|
    requires forall j :: i + 1 <= j < p ==> s[j] != '"'
    ensures TryOpen(s, i + 1, p).Some? ==>
      i < TryOpen(s, i + 1, p).value <= |s| && IsQuery(s[i..TryOpen(s, i + 1, p).value])
    decreases p
  {
    if i + 1 <= p {
      if OpenAt(s, p) && CloseFrom(s, p).Some? {
        var e := CloseFrom(s, p).value;
        var q := s[i..e];
        var c := e - 2;
        assert OpenAt(q, p - i);
        assert q[|q| - 1] == s[c + 1] && q[|q| - 2] == s[c] && q[|q| - 3] == s[c - 1];
        assert forall j :: 1 <= j < p - i ==> q[j] != '"' by {
          forall j | 1 <= j < p - i ensures q[j] != '"' {
            assert q[j] == s[i + j];
          }
        }
        assert forall j :: p - i + 2 <= j < |q| - 2 ==> q[j] != ')' by {
          forall j | p - i + 2 <= j < |q| - 2 ensures q[j] != ')' {
            assert q[j] == s[i + j];
          }
        }
        assert IsQuery(q);
      } else if p > 0 {
        TryOpenSound(s, i, p - 1);
      }
    }
  }

  /** Every string `re.findall` returns matches the pattern as a whole and is a
      substring of the text. */
  lemma {:induction false} FindAllSound(s: string, from: nat)
    ensures forall q :: q in FindAll(s, from) ==> IsQuery(q) && Contains(s, q)
    decreases |s| - from
  {
    if from < |s| {
      match MatchAt(s, from)
      case None =>
        FindAllSound(s, from + 1);
      case Some(e) =>
        if from < e <= |s| {
          FindAllSound(s, e);
          if s[from] == '"' {
            TryOpenSound(s, from, NextChar(s, '"', from + 1));
          }
          assert OccursAt(s, s[from..e], from);
          ContainsAt(s, s[from..e], from);
        }
    }
  }

  /** No match leaves the text alone (see `RewriteNoQuery`). */
  lemma {:induction false} FindAllNone(s: string, from: nat)
    requires forall i :: from <= i < |s| ==> s[i] != '"'
    ensures FindAll(s, from) == []
    decreases |s| - from
  {
    if from < |s| {
      FindAllNone(s, from + 1);
    }
  }

  // ---------------------------------------------------------------------------
  // The stable key of one match
  // ---------------------------------------------------------------------------

  /** `re.search(r'(?<=")[^"]*(?=")', query).group()`: the text between the first
      two quotes (an AttributeError on `None.group()` when there is no second
      quote). */
  function Actual(q: string): Result<string> {
    if |q| == 0 then Raise(AttributeError)
    else
      var e := NextChar(q, '"', 0);
      if e == |q| then Raise(AttributeError)
      else
        var f := NextChar(q, '"', e + 1);
        if f == |q| then Raise(AttributeError) else Ok(q[e + 1..f])
  }

  /** `actual_query.split("(")[0].strip()`. */
  function OperationName(q: string): Result<string> {
    var actual :- Actual(q);
    Ok(Strip(Split(actual, "(")[0]))
  }

  /** A GraphQL name: `[_A-Za-z][_0-9A-Za-z]*`. */
  predicate IsName(n: string) {
    |n| > 0 && !IsDigit(n[0]) && forall i :: 0 <= i < |n| ==> IsWordChar(n[i])
  }

  /** The stable key. The GraphQL library is not modelled: for a GraphQL name it
      is taken to print `query { name { id } }` back as the same tokens, so that
      removing `query`, braces and whitespace leaves the name with `query`
      removed, then `id`; any other operation name is taken to raise its syntax
      error. */
  function NameKey(name: string): Result<string> {
    if IsName(name) then Ok(ReplaceStr(name, "query", "") + "id") else Raise(GraphQLSyntaxError)
  }

  function KeyOf(q: string): Result<string> {
    var name :- OperationName(q);
    NameKey(name)
  }

  function Quote(k: string): string {
    "\"" + k + "\""
  }

  // ---------------------------------------------------------------------------
  // The rewrite
  // ---------------------------------------------------------------------------

  /** `query_to_string`: each match mapped to its key, in order of first
      appearance; `key` is the key of one match (`KeyOf` in the scraper). */
  function BuildTable(qs: seq<string>, key: string -> Result<string>): Result<OD.Dict<string, string>>
    decreases |qs|
  {
    if |qs| == 0 then Ok([])
    else
      var t :- BuildTable(qs[..|qs| - 1], key);
      var k :- key(qs[|qs| - 1]);
      Ok(OD.Set(t, qs[|qs| - 1], k))
  }

  /** The replace loop over the table, in table order. */
  function ApplyTable(s: string, t: OD.Dict<string, string>): string
    decreases |t|
  {
    if |t| == 0 then s
    else
      var last := t[|t| - 1];
      ReplaceStr(ApplyTable(s, t[..|t| - 1]), last.0, Quote(last.1))
  }

  function Rewrite(s: string): Result<string> {
    var t :- BuildTable(FindAll(s, 0), KeyOf);
    Ok(ApplyTable(s, t))
  }

  /** The two loops of the source: fill the table, then replace. */
  method RewriteKeys(text: string) returns (r: Result<string>)
    ensures r == Rewrite(text)
  {
    var queries := FindAll(text, 0);
    var table: OD.Dict<string, string> := [];
    var i := 0;
    while i < |queries|
      invariant i <= |queries|
      invariant BuildTable(queries[..i], KeyOf) == Ok(table)
    {
      assert queries[..i + 1][..i] == queries[..i];
      var key := KeyOf(queries[i]);
      if key.Raise? {
        assert BuildTable(queries[..i + 1], KeyOf).Raise?;
        BuildTableRaise(queries, i + 1, KeyOf);
        return Raise(key.exc);
      }
      table := OD.Set(table, queries[i], key.value);
      i := i + 1;
    }
    assert queries[..i] == queries;
    var s := text;
    var j := 0;
    while j < |table|
      invariant j <= |table|
      invariant s == ApplyTable(text, table[..j])
    {
      assert table[..j + 1][..j] == table[..j];
      s := ReplaceStr(s, table[j].0, Quote(table[j].1));
      j := j + 1;
    }
    assert table[..j] == table;
    r := Ok(s);
  }

  /** Once a prefix of the matches fails to produce a key, so does the whole
      list, with the same exception. */
  lemma {:induction false} BuildTableRaise(qs: seq<string>, n: nat, key: string -> Result<string>)
    requires n <= |qs| && BuildTable(qs[..n], key).Raise?
    ensures BuildTable(qs, key) == Raise(BuildTable(qs[..n], key).exc)
    decreases |qs| - n
  {
    if n < |qs| {
      assert qs[..n + 1][..n] == qs[..n];
      BuildTableRaise(qs, n + 1, key);
    } else {
      assert qs[..n] == qs;
    }
  }

  // ---------------------------------------------------------------------------
  // Properties
  // ---------------------------------------------------------------------------

  /** Each match paired with its key, when every match has one. */
  function KeyPairs(qs: seq<string>, key: string -> Result<string>): (ps: OD.Dict<string, string>)
    requires forall q :: q in qs ==> key(q).Ok?
    ensures |ps| == |qs| && forall i :: 0 <= i < |qs| ==> ps[i] == (qs[i], key(qs[i]).value)
  {
    seq(|qs|, i requires 0 <= i < |qs| => (qs[i], key(qs[i]).value))
  }

  /** A successful table is `dict` of the (match, key) pairs: every match has a
      key.  A failing one carries the first failing match's exception. */
  lemma {:induction false} BuildTableDict(qs: seq<string>, key: string -> Result<string>)
    requires BuildTable(qs, key).Ok?
    ensures forall q :: q in qs ==> key(q).Ok?
    ensures BuildTable(qs, key).value == OD.FromPairs(KeyPairs(qs, key))
    decreases |qs|
  {
    if |qs| > 0 {
      var q0 := qs[..|qs| - 1];
      BuildTableDict(q0, key);
      assert forall q :: q in qs ==> q in q0 || q == qs[|qs| - 1];
      assert KeyPairs(qs, key)[..|qs| - 1] == KeyPairs(q0, key);
    }
  }

  /** The table holds each distinct match once, in order of first appearance,
      mapped to that match's own key, and nothing else. */
  lemma TableProps(qs: seq<string>, key: string -> Result<string>)
    requires BuildTable(qs, key).Ok?
    ensures OD.NoDupKeys(BuildTable(qs, key).value)
    ensures forall q :: q in OD.Keys(BuildTable(qs, key).value) <==> q in qs
    ensures forall q :: q in qs ==> key(q).Ok? && OD.Get(BuildTable(qs, key).value, q) == Some(key(q).value)
  {
    BuildTableDict(qs, key);
    var ps := KeyPairs(qs, key);
    OD.FromPairsProps(ps);
    forall q ensures q in OD.Keys(ps) <==> q in qs {
      if q in qs {
        var i :| 0 <= i < |qs| && qs[i] == q;
        assert OD.Keys(ps)[i] == q;
      }
    }
    forall q | q in qs ensures OD.Get(ps, q) == Some(key(q).value) {
      var i :| 0 <= i < |ps| && ps[i] == (q, OD.Get(ps, q).value);
    }
  }

  /** The table of a text whose matches are all one string q holds q alone. */
  lemma {:induction false} SingleTable(qs: seq<string>, q: string, key: string -> Result<string>)
    requires |qs| > 0 && (forall x :: x in qs ==> x == q) && key(q).Ok?
    ensures BuildTable(qs, key) == Ok([(q, key(q).value)])
    decreases |qs|
  {
    var q0 := qs[..|qs| - 1];
    assert qs[|qs| - 1] in qs;
    var k := key(q).value;
    if |q0| == 0 {
      assert BuildTable(q0, key) == Ok([]);
      assert OD.Set([], q, k) == [(q, k)];
    } else {
      assert forall x :: x in q0 ==> x in qs;
      SingleTable(q0, q, key);
      assert OD.IndexOf([(q, k)], q) == Some(0);
      assert OD.Set([(q, k)], q, k) == [(q, k)];
    }
  }

  /** A text with no call key is left as it is. */
  lemma RewriteNoQuery(s: string)
    requires FindAll(s, 0) == []
    ensures Rewrite(s) == Ok(s)
  {
  }

  /** A text without quotes has no call key at all. */
  lemma RewriteNoQuote(s: string)
    requires forall i :: 0 <= i < |s| ==> s[i] != '"'
    ensures Rewrite(s) == Ok(s)
  {
    FindAllNone(s, 0);
  }

  /** The key of a plain name is the name followed by `id`; in particular the
      reviews aggregate is keyed `employerReviewsRGid`, the prefix the overview
      lookup expects. */
  lemma NameKeyPlain(name: string)
    requires IsName(name) && !Contains(name, "query")
    ensures NameKey(name) == Ok(name + "id")
  {
    ReplaceAbsent(name, "query", "");
  }

  /** A text without the first character of t does not contain t. */
  lemma NoLeadChar(s: string, t: string)
    requires |t| > 0 && forall i :: 0 <= i < |s| ==> s[i] != t[0]
    ensures !Contains(s, t)
  {
    forall j: nat | j + |t| <= |s| ensures !OccursAt(s, t, j) {
      assert s[j..j + |t|][0] == s[j];
    }
  }

  const ReviewsAggregate: string := "employerReviewsRG"

  lemma ReviewsName()
    ensures IsName(ReviewsAggregate) && !Contains(ReviewsAggregate, "query")
  {
    ReviewsIsName();
    NoLeadChar(ReviewsAggregate, "query");
  }

  lemma ReviewsIsName()
    ensures IsName(ReviewsAggregate)
  {
  }

  lemma NameKeyReviews()
    ensures NameKey(ReviewsAggregate) == Ok(ReviewsAggregate + "id")
  {
    ReviewsName();
    NameKeyPlain(ReviewsAggregate);
  }

  /** A single distinct match: the text before its first occurrence is kept, the
      occurrence becomes the quoted key, and the rest of the text is rewritten
      the same way. */
  lemma RewriteSingle(s: string, q: string, i: nat)
    requires forall x :: x in FindAll(s, 0) ==> x == q
    requires q in FindAll(s, 0) && KeyOf(q).Ok?
    requires OccursAt(s, q, i) && forall j :: 0 <= j < i ==> !OccursAt(s, q, j)
    ensures Rewrite(s) == Ok(s[..i] + Quote(KeyOf(q).value) + ReplaceStr(s[i + |q|..], q, Quote(KeyOf(q).value)))
  {
    var qs := FindAll(s, 0);
    SingleTable(qs, q, KeyOf);
    FindAllSound(s, 0);
    var t := [(q, KeyOf(q).value)];
    assert ApplyTable(s, t) == ReplaceStr(s, q, Quote(KeyOf(q).value)) by {
      assert t[..0] == [];
    }
    ReplaceFirst(s, q, Quote(KeyOf(q).value), i);
  }

  // ---------------------------------------------------------------------------
  // A text holding one call key
  // ---------------------------------------------------------------------------

  /** The call key `"name({args})"`. */
  function CallKey(name: string, args: string): string {
    "\"" + name + "({" + args + "})\""
  }

  /** One call key whose arguments hold no parenthesis, no quote before it and
      no `(` after it: the shape of a cache entry key in a small state text. */
  predicate OneKeyShape(pre: string, name: string, args: string, post: string) {
    NoChar(pre, '"') && IsName(name) && NoChar(args, '(') && NoChar(args, ')') && NoChar(post, '(')
  }

  /** Positions without a quote cannot start a match. */
  lemma {:induction false} FindAllSkip(s: string, from: nat, to: nat)
    requires from <= to <= |s| && forall j :: from <= j < to ==> s[j] != '"'
    ensures FindAll(s, from) == FindAll(s, to)
    decreases |s| - from
  {
    if from < to {
      FindAllSkip(s, from + 1, to);
    }
  }

  /** Without a `(` among the candidate positions, nothing matches. */
  lemma {:induction false} TryOpenNone(s: string, lo: nat, p: nat)
    requires forall x :: lo <= x <= p && x < |s| ==> s[x] != '('
    ensures TryOpen(s, lo, p) == None
    decreases p
  {
    if lo <= p && p > 0 {
      TryOpenNone(s, lo, p - 1);
    }
  }

  /** A text without `(` from position `from` on has no match there. */
  lemma {:induction false} FindAllNoOpen(s: string, from: nat)
    requires forall x :: from <= x < |s| ==> s[x] != '('
    ensures FindAll(s, from) == []
    decreases |s| - from
  {
    if from < |s| {
      if s[from] == '"' {
        TryOpenNone(s, from + 1, NextChar(s, '"', from + 1));
      }
      FindAllNoOpen(s, from + 1);
    }
  }

  /** Candidate positions above the last `(` are passed over. */
  lemma {:induction false} TryOpenDown(s: string, lo: nat, p: nat, p0: nat)
    requires lo <= p0 <= p
    requires forall x :: p0 < x <= p && x < |s| ==> s[x] != '('
    ensures TryOpen(s, lo, p) == TryOpen(s, lo, p0)
    decreases p
  {
    if p > p0 {
      TryOpenDown(s, lo, p - 1, p0);
    }
  }

  /** A call key `"name({args})"` at i: its `(` at p0 and its `)` at c, no
      quote or `(` in the name, no parenthesis in the arguments. */
  predicate CallAt(s: string, i: nat, p0: nat, c: nat) {
    i < p0 && p0 + 3 <= c && c + 1 < |s| && s[i] == '"' &&
    (forall x :: i < x < p0 ==> s[x] != '"' && s[x] != '(') &&
    s[p0] == '(' && s[p0 + 1] == '{' &&
    (forall x :: p0 + 2 <= x < c - 1 ==> s[x] != '(' && s[x] != ')') &&
    s[c - 1] == '}' && s[c] == ')' && s[c + 1] == '"'
  }

  /** The regular expression matches exactly the call key. */
  lemma MatchCall(s: string, i: nat, p0: nat, c: nat)
    requires CallAt(s, i, p0, c)
    ensures MatchAt(s, i) == Some(c + 2)
  {
    var r := NextChar(s, '"', i + 1);
    assert p0 + 2 <= r <= c + 1;
    TryOpenDown(s, i + 1, r, p0);
    assert NextChar(s, ')', p0 + 2) == c;
  }

  /** The key of a call key is the key of its name. */
  lemma KeyOfCall(q: string, p0: nat)
    requires |q| >= 2 && CallAt(q, 0, p0, |q| - 2) && IsName(q[1..p0])
    ensures KeyOf(q) == NameKey(q[1..p0])
  {
    var a := ActualOfCall(q, p0);
    SplitAtFirst(a, p0 - 1);
    StripWord(q[1..p0]);
    assert OperationName(q) == Ok(q[1..p0]);
  }

  /** The quoted part of a call key starts with its name and the `(`. */
  lemma ActualOfCall(q: string, p0: nat) returns (a: string)
    requires |q| >= 2 && CallAt(q, 0, p0, |q| - 2)
    ensures Actual(q) == Ok(a) && p0 <= |a|
    ensures a[..p0 - 1] == q[1..p0] && a[p0 - 1] == '('
    ensures forall j :: 0 <= j < p0 - 1 ==> a[j] != '('
  {
    var f := NextChar(q, '"', 1);
    assert p0 + 2 <= f < |q|;
    a := q[1..f];
    assert Actual(q) == Ok(a);
    forall j | 0 <= j < p0 - 1 ensures a[j] != '(' {
      assert a[j] == q[j + 1];
    }
  }

  /** The first part of `a.split("(")` when the first `(` is at n. */
  lemma SplitAtFirst(a: string, n: nat)
    requires n < |a| && a[n] == '(' && forall j :: 0 <= j < n ==> a[j] != '('
    ensures Split(a, "(")[0] == a[..n]
  {
    assert OccursAt(a, "(", n) by {
      assert a[n..n + 1] == [a[n]];
    }
    forall j | 0 <= j < n ensures !OccursAt(a, "(", j) {
      assert a[j..j + 1][0] == a[j];
    }
    FindFromFirstAt(a, "(", 0, n);
  }

  /** A name has no surrounding whitespace to strip. */
  lemma StripWord(name: string)
    requires IsName(name)
    ensures Strip(name) == name
  {
    assert RStrip(name) == name;
    assert LStrip(name) == name;
  }

  /** `pre + "name({args})" + post` in the terms of `CallAt`. */
  lemma ShapeCall(pre: string, name: string, args: string, post: string)
    requires OneKeyShape(pre, name, args, post)
    ensures var s := pre + CallKey(name, args) + post;
      var i := |pre|; var p0 := i + 1 + |name|; var c := p0 + 3 + |args|;
      |s| == c + 2 + |post| && CallAt(s, i, p0, c) &&
      (forall x :: 0 <= x < i ==> s[x] != '"') &&
      (forall x :: c + 2 <= x < |s| ==> s[x] != '(') &&
      s[..i] == pre && s[i..c + 2] == CallKey(name, args) && s[c + 2..] == post &&
      CallAt(CallKey(name, args), 0, |name| + 1, |CallKey(name, args)| - 2) &&
      CallKey(name, args)[1..|name| + 1] == name
  {
    var q := CallKey(name, args);
    var s := pre + q + post;
    var i := |pre|;
    var p0 := i + 1 + |name|;
    var c := p0 + 3 + |args|;
    assert q[1..|name| + 1] == name;
    assert s[i..c + 2] == q;
    forall x | i < x < p0 ensures s[x] != '"' && s[x] != '(' {
      assert s[x] == name[x - i - 1];
    }
    forall x | p0 + 2 <= x < c - 1 ensures s[x] != '(' && s[x] != ')' {
      assert s[x] == args[x - p0 - 2];
    }
    forall x | c + 2 <= x < |s| ensures s[x] != '(' {
      assert s[x] == post[x - c - 2];
    }
    forall x | 0 < x < |name| + 1 ensures q[x] != '"' && q[x] != '(' {
      assert q[x] == name[x - 1];
    }
    forall x | |name| + 3 <= x < |q| - 3 ensures q[x] != '(' && q[x] != ')' {
      assert q[x] == args[x - |name| - 3];
    }
  }

  /** Rewriting a one-key text replaces the call key by its quoted key and keeps
      the text around it unchanged. */
  lemma RewriteOneKey(pre: string, name: string, args: string, post: string)
    requires OneKeyShape(pre, name, args, post)
    ensures Rewrite(pre + CallKey(name, args) + post) == Ok(pre + Quote(ReplaceStr(name, "query", "") + "id") + post)
  {
    var s := pre + CallKey(name, args) + post;
    var q := CallKey(name, args);
    var i := |pre|;
    FirstCallAt(pre, name, args, post);
    FindAllOneKey(pre, name, args, post);
    KeyOfCall(q, |name| + 1);
    NoCharNotContains(post, q, |name| + 1, '(');
    RewriteAt(s, q, i, pre, post, ReplaceStr(name, "query", "") + "id");
  }

  /** A text whose only match is q, first occurring at i with no further
      occurrence after it, has that one key quoted. */
  lemma RewriteAt(s: string, q: string, i: nat, pre: string, post: string, key: string)
    requires FindAll(s, 0) == [q] && KeyOf(q) == Ok(key)
    requires OccursAt(s, q, i) && forall j :: 0 <= j < i ==> !OccursAt(s, q, j)
    requires s[..i] == pre && s[i + |q|..] == post && !Contains(post, q)
    ensures Rewrite(s) == Ok(pre + Quote(key) + post)
  {
    RewriteSingle(s, q, i);
    ReplaceAbsent(post, q, Quote(key));
  }

  /** In a one-key text the call key first occurs right after `pre`. */
  lemma FirstCallAt(pre: string, name: string, args: string, post: string)
    requires OneKeyShape(pre, name, args, post)
    ensures var s := pre + CallKey(name, args) + post; var q := CallKey(name, args);
      OccursAt(s, q, |pre|) && (forall j :: 0 <= j < |pre| ==> !OccursAt(s, q, j)) &&
      s[..|pre|] == pre && s[|pre| + |q|..] == post &&
      CallAt(q, 0, |name| + 1, |q| - 2) && q[1..|name| + 1] == name && IsName(name)
  {
    var s := pre + CallKey(name, args) + post;
    var q := CallKey(name, args);
    var i := |pre|;
    ShapeCall(pre, name, args, post);
    assert OccursAt(s, q, i);
    forall j | 0 <= j < i ensures !OccursAt(s, q, j) {
      assert s[j..j + |q|][0] == s[j];
    }
  }

  /** The matches of a one-key text: that key alone. */
  lemma FindAllOneKey(pre: string, name: string, args: string, post: string)
    requires OneKeyShape(pre, name, args, post)
    ensures FindAll(pre + CallKey(name, args) + post, 0) == [CallKey(name, args)]
  {
    var s := pre + CallKey(name, args) + post;
    var i := |pre|;
    var c := i + 4 + |name| + |args|;
    ShapeCall(pre, name, args, post);
    FindAllSkip(s, 0, i);
    MatchCall(s, i, i + 1 + |name|, c);
    FindAllNoOpen(s, c + 2);
  }

  // ---------------------------------------------------------------------------
  // A text holding several call keys
  // ---------------------------------------------------------------------------

  /** A state text cut into plain pieces and call keys `"name({args})"`. */
  datatype Segment = Plain(text: string) | Call(name: string, args: string)

  function SegmentText(g: Segment): string {
    match g
    case Plain(t) => t
    case Call(n, a) => CallKey(n, a)
  }

  function Render(gs: seq<Segment>): string
    decreases |gs|
  {
    if |gs| == 0 then "" else SegmentText(gs[0]) + Render(gs[1..])
  }

  /** A plain piece holds no `(` (it may hold quotes); a call key has a GraphQL
      name and arguments without parentheses. */
  predicate SegmentOk(g: Segment) {
    match g
    case Plain(t) => NoChar(t, '(')
    case Call(n, a) => IsName(n) && NoChar(a, '(') && NoChar(a, ')')
  }

  predicate WellFormed(gs: seq<Segment>) {
    forall i :: 0 <= i < |gs| ==> SegmentOk(gs[i])
  }

  /** The call keys of the text, in order, repeats included. */
  function CallsOf(gs: seq<Segment>): (qs: seq<string>)
    ensures forall q :: q in qs ==> exists j :: 0 <= j < |gs| && gs[j].Call? && SegmentText(gs[j]) == q
    ensures forall j :: 0 <= j < |gs| && gs[j].Call? ==> SegmentText(gs[j]) in qs
    decreases |gs|
  {
    if |gs| == 0 then []
    else
      var rest := CallsOf(gs[1..]);
      assert forall j :: 1 <= j < |gs| ==> gs[j] == gs[1..][j - 1];
      (if gs[0].Call? then [SegmentText(gs[0])] else []) + rest
  }

  /** The key a call key is rewritten to. */
  function CallName(n: string): string {
    ReplaceStr(n, "query", "") + "id"
  }

  /** The text after the rewrite: every call key becomes its quoted key. */
  function Rewritten(gs: seq<Segment>): (r: seq<Segment>)
    ensures |r| == |gs|
  {
    seq(|gs|, i requires 0 <= i < |gs| => if gs[i].Call? then Plain(Quote(CallName(gs[i].name))) else gs[i])
  }

  /** One `text.replace(q, r)` on the segments: the call keys equal to q become r. */
  function Subst(gs: seq<Segment>, q: string, r: string): (out: seq<Segment>)
    ensures |out| == |gs|
  {
    seq(|gs|, i requires 0 <= i < |gs| => SubstSegment(gs[i], q, r))
  }

  function SubstSegment(g: Segment, q: string, r: string): Segment {
    if g.Call? && SegmentText(g) == q then Plain(r) else g
  }

  /** The replace loop over a table, on the segments. */
  function SubstAll(gs: seq<Segment>, t: OD.Dict<string, string>): (out: seq<Segment>)
    ensures |out| == |gs|
    decreases |t|
  {
    if |t| == 0 then gs
    else Subst(SubstAll(gs, t[..|t| - 1]), t[|t| - 1].0, Quote(t[|t| - 1].1))
  }

  // The characters of a call key.

  lemma CallChars(n: string, a: string)
    requires IsName(n) && NoChar(a, '(') && NoChar(a, ')')
    ensures var x := CallKey(n, a); var p := |n| + 1;
      |x| == |n| + |a| + 6 && KeyChars(x, p) && CallAt(x, 0, p, |x| - 2) && x[1..p] == n
  {
    var x := CallKey(n, a);
    var p := |n| + 1;
    assert x[1..p] == n;
    forall k | 1 <= k < p ensures x[k] == n[k - 1] {}
    forall k | p + 2 <= k < p + 2 + |a| ensures x[k] == a[k - p - 2] {}
  }

  /** In a well-formed text, a `(` is never reached before a quote. */
  lemma {:induction false} QuoteBeforeParen(gs: seq<Segment>, d: nat)
    requires WellFormed(gs)
    ensures d < |Render(gs)| && (forall e :: 0 <= e < d ==> Render(gs)[e] != '"') ==> Render(gs)[d] != '('
    decreases |gs|
  {
    if |gs| > 0 {
      var h := SegmentText(gs[0]);
      var rest := Render(gs[1..]);
      assert Render(gs) == h + rest;
      assert WellFormed(gs[1..]) by {
        forall i | 0 <= i < |gs[1..]| ensures SegmentOk(gs[1..][i]) { assert gs[1..][i] == gs[i + 1]; }
      }
      match gs[0]
      case Plain(t) =>
        if d >= |h| {
          QuoteBeforeParen(gs[1..], d - |h|);
          assert forall e :: 0 <= e < |rest| ==> Render(gs)[|h| + e] == rest[e];
        }
      case Call(n, a) =>
        CallChars(n, a);
        assert Render(gs)[0] == '"';
    }
  }

  /** The plain piece is no longer a prefix of the rest. */
  lemma WellFormedTail(gs: seq<Segment>)
    requires |gs| > 0 && WellFormed(gs)
    ensures SegmentOk(gs[0]) && WellFormed(gs[1..]) && Render(gs) == SegmentText(gs[0]) + Render(gs[1..])
  {
    forall i | 0 <= i < |gs[1..]| ensures SegmentOk(gs[1..][i]) { assert gs[1..][i] == gs[i + 1]; }
  }

  /** An occurrence of a call key q that starts inside a plain piece is
      impossible: q's `(` would need a quote-free run into the rest. */
  lemma PlainOccurrence(t: string, rest: seq<Segment>, n2: string, a2: string, j: nat)
    requires NoChar(t, '(') && WellFormed(rest)
    requires IsName(n2) && NoChar(a2, '(') && NoChar(a2, ')')
    ensures j < |t| ==> !OccursAt(t + Render(rest), CallKey(n2, a2), j)
  {
    var q := CallKey(n2, a2);
    var m := |n2| + 1;
    var r := Render(rest);
    var s := t + r;
    CallChars(n2, a2);
    QuoteBeforeParen(rest, if j + m >= |t| then j + m - |t| else 0);
    assert forall e :: 0 <= e < |r| ==> s[|t| + e] == r[e];
    assert forall e :: 0 <= e < |t| ==> s[e] == t[e];
    assert OccursAt(s, q, j) ==> forall p :: j <= p < j + |q| ==> s[p] == q[p - j];
  }

  /** The characters a call key is made of, with its `(` at p: a quote at each
      end, `)` just before the closing quote, no other quote before the `(`,
      no other `(`, and no `)` between the `(` and the last one. */
  predicate KeyChars(x: string, p: nat) {
    p + 5 <= |x| && x[0] == '"' && x[p] == '(' && x[|x| - 2] == ')' && x[|x| - 1] == '"' &&
    (forall k :: 1 <= k < p ==> x[k] != '"') &&
    (forall k :: 0 <= k < |x| && k != p ==> x[k] != '(') &&
    (forall k :: p < k < |x| - 2 ==> x[k] != ')')
  }

  /** An occurrence of a key q inside a text `x + r` that starts inside the key
      x is x itself, once r cannot reach a `(` past q's opening quote. */
  lemma KeyOverlap(x: string, p: nat, q: string, m: nat, r: string, j: nat)
    requires KeyChars(x, p) && KeyChars(q, m)
    requires var d := j + m - |x|;
      0 <= d < |r| && (forall e :: 0 <= e < d ==> r[e] != '"') ==> r[d] != '('
    ensures j < |x| && OccursAt(x + r, q, j) ==> j == 0 && q == x
  {
    var s := x + r;
    if j < |x| && OccursAt(s, q, j) {
      assert forall e :: 0 <= e < |r| ==> s[|x| + e] == r[e];
      assert forall e :: 0 <= e < |x| ==> s[e] == x[e];
      assert forall e :: j <= e < j + |q| ==> s[e] == q[e - j];
      assert j + m < |x|;
      assert j + m == p;
      assert j == 0;
      assert |q| == |x|;
      assert q == s[..|q|] == x;
    }
  }

  /** An occurrence of a call key q that starts inside a call key x is x
      itself. */
  lemma CallOccurrence(n: string, a: string, rest: seq<Segment>, n2: string, a2: string, j: nat)
    requires IsName(n) && NoChar(a, '(') && NoChar(a, ')') && WellFormed(rest)
    requires IsName(n2) && NoChar(a2, '(') && NoChar(a2, ')')
    ensures j < |CallKey(n, a)| && OccursAt(CallKey(n, a) + Render(rest), CallKey(n2, a2), j) ==>
      j == 0 && CallKey(n2, a2) == CallKey(n, a)
  {
    CallChars(n, a);
    CallChars(n2, a2);
    var x := CallKey(n, a);
    var m := |n2| + 1;
    QuoteBeforeParen(rest, if j + m >= |x| then j + m - |x| else 0);
    KeyOverlap(x, |n| + 1, CallKey(n2, a2), m, Render(rest), j);
  }

  /** The replace on a concatenation is the replace of each part when no
      occurrence crosses the boundary. */
  /** No occurrence of pat in `a + b` starts in a and ends in b. */
  predicate NoStraddle(a: string, b: string, pat: string) {
    forall j :: 0 <= j < |a| && |a| < j + |pat| ==> !OccursAt(a + b, pat, j)
  }

  lemma {:induction false} ReplaceConcat(a: string, b: string, pat: string, rep: string)
    requires |pat| > 0 && NoStraddle(a, b, pat)
    ensures ReplaceStr(a + b, pat, rep) == ReplaceStr(a, pat, rep) + ReplaceStr(b, pat, rep)
    decreases |a|
  {
    var s := a + b;
    if |a| == 0 {
      assert s == b;
    } else {
      var k := if OccursAt(s, pat, 0) then |pat| else 1;
      assert k <= |a|;
      assert OccursAt(s, pat, 0) <==> OccursAt(a, pat, 0) by {
        if |pat| <= |a| {
          assert s[0..|pat|] == a[0..|pat|];
        }
      }
      NoStraddleTail(a, b, pat, k);
      assert s[k..] == a[k..] + b;
      ReplaceConcat(a[k..], b, pat, rep);
      if OccursAt(s, pat, 0) {
        ReplaceMatch(s, pat, rep);
        ReplaceMatch(a, pat, rep);
      } else {
        ReplaceNoMatch(s, pat, rep);
        ReplaceNoMatch(a, pat, rep);
        assert s[0] == a[0];
      }
    }
  }

  /** Dropping a prefix of `a` keeps the boundary free of occurrences. */
  lemma NoStraddleTail(a: string, b: string, pat: string, k: nat)
    requires 0 < k <= |a| && NoStraddle(a, b, pat)
    ensures NoStraddle(a[k..], b, pat)
  {
    forall j | 0 <= j < |a| - k && |a| - k < j + |pat| ensures !OccursAt(a[k..] + b, pat, j) {
      if j + |pat| <= |a| - k + |b| {
        assert (a[k..] + b)[j..j + |pat|] == (a + b)[j + k..j + k + |pat|];
      }
      assert !OccursAt(a + b, pat, j + k);
    }
  }

  /** One replace of a call key q on a well-formed text turns exactly the call
      keys equal to q into r and keeps everything else. */
  lemma {:induction false} ReplaceRender(gs: seq<Segment>, n2: string, a2: string, r: string)
    requires WellFormed(gs) && IsName(n2) && NoChar(a2, '(') && NoChar(a2, ')')
    ensures ReplaceStr(Render(gs), CallKey(n2, a2), r) == Render(Subst(gs, CallKey(n2, a2), r))
    decreases |gs|
  {
    var q := CallKey(n2, a2);
    if |gs| > 0 {
      WellFormedTail(gs);
      var h := SegmentText(gs[0]);
      var rest := gs[1..];
      SegmentNoStraddle(gs[0], rest, n2, a2);
      ReplaceConcat(h, Render(rest), q, r);
      ReplaceSegment(gs[0], n2, a2, r);
      ReplaceRender(rest, n2, a2, r);
      SubstHead(gs, q, r);
    }
  }

  lemma SubstHead(gs: seq<Segment>, q: string, r: string)
    requires |gs| > 0
    ensures Render(Subst(gs, q, r)) == SegmentText(SubstSegment(gs[0], q, r)) + Render(Subst(gs[1..], q, r))
  {
    assert Subst(gs, q, r)[1..] == Subst(gs[1..], q, r);
  }

  /** No occurrence of a call key crosses the end of a segment. */
  lemma SegmentNoStraddle(g: Segment, rest: seq<Segment>, n2: string, a2: string)
    requires SegmentOk(g) && WellFormed(rest) && IsName(n2) && NoChar(a2, '(') && NoChar(a2, ')')
    ensures NoStraddle(SegmentText(g), Render(rest), CallKey(n2, a2))
  {
    var h := SegmentText(g);
    forall j | 0 <= j < |h| && |h| < j + |CallKey(n2, a2)| ensures !OccursAt(h + Render(rest), CallKey(n2, a2), j) {
      SegmentOccurrence(g, rest, n2, a2, j);
    }
  }

  lemma SegmentOccurrence(g: Segment, rest: seq<Segment>, n2: string, a2: string, j: nat)
    requires SegmentOk(g) && WellFormed(rest) && IsName(n2) && NoChar(a2, '(') && NoChar(a2, ')')
    ensures j < |SegmentText(g)| && OccursAt(SegmentText(g) + Render(rest), CallKey(n2, a2), j) ==>
      g.Call? && j == 0 && SegmentText(g) == CallKey(n2, a2)
  {
    match g
    case Plain(t) => PlainOccurrence(t, rest, n2, a2, j);
    case Call(n, a) => CallOccurrence(n, a, rest, n2, a2, j);
  }

  /** The replace on one segment. */
  lemma ReplaceSegment(g: Segment, n2: string, a2: string, r: string)
    requires SegmentOk(g) && IsName(n2) && NoChar(a2, '(') && NoChar(a2, ')')
    ensures ReplaceStr(SegmentText(g), CallKey(n2, a2), r) == SegmentText(SubstSegment(g, CallKey(n2, a2), r))
  {
    var q := CallKey(n2, a2);
    var h := SegmentText(g);
    assert Render([]) == "" && h + Render([]) == h;
    if g.Call? && h == q {
      ReplaceMatch(h, q, r);
      assert h[|q|..] == [];
    } else {
      var f := FindFrom(h, q, 0);
      SegmentOccurrence(g, [], n2, a2, if f.Some? then f.value else 0);
      ReplaceAbsent(h, q, r);
    }
  }

  /** The replace loop over a table whose keys are call keys of the text and
      whose values hold no `(`. */
  lemma {:induction false} ApplyRender(gs: seq<Segment>, t: OD.Dict<string, string>, orig: seq<Segment>)
    requires WellFormed(gs) && WellFormed(orig)
    requires forall k :: 0 <= k < |t| ==> t[k].0 in CallsOf(orig) && NoChar(t[k].1, '(')
    ensures ApplyTable(Render(gs), t) == Render(SubstAll(gs, t))
    ensures WellFormed(SubstAll(gs, t))
    decreases |t|
  {
    if |t| > 0 {
      var t' := t[..|t| - 1];
      var last := t[|t| - 1];
      ApplyRender(gs, t', orig);
      var mid := SubstAll(gs, t');
      var j :| 0 <= j < |orig| && orig[j].Call? && SegmentText(orig[j]) == last.0;
      assert SegmentOk(orig[j]);
      ReplaceRender(mid, orig[j].name, orig[j].args, Quote(last.1));
      assert NoChar(Quote(last.1), '(') by {
        NoCharConcat("\"", last.1, '(');
        NoCharConcat("\"" + last.1, "\"", '(');
      }
    }
  }

  /** After the loop, a call key is the quoted value of its table entry, and
      anything else is as it was. */
  lemma {:induction false} SubstAllAt(gs: seq<Segment>, t: OD.Dict<string, string>, i: nat)
    requires OD.NoDupKeys(t) && i < |gs|
    ensures SubstAll(gs, t)[i] ==
      if gs[i].Call? && SegmentText(gs[i]) in OD.Keys(t) then Plain(Quote(OD.Get(t, SegmentText(gs[i])).value))
      else gs[i]
    decreases |t|
  {
    if |t| > 0 {
      var t' := t[..|t| - 1];
      SubstAllAt(gs, t', i);
      OD.GetSnoc(t, SegmentText(gs[i]));
      if gs[i].Call? && SegmentText(gs[i]) in OD.Keys(t') {
        var k :| 0 <= k < |t'| && OD.Keys(t')[k] == SegmentText(gs[i]);
        assert t[k].0 != t[|t| - 1].0;
      }
    }
  }

  // The matches of a well-formed text.

  function ShiftBy(d: nat, o: Option<nat>): Option<nat> {
    match o
    case None => None
    case Some(e) => Some(d + e)
  }

  lemma {:induction false} NextCharShift(a: string, b: string, c: char, k: nat)
    requires k <= |b|
    ensures NextChar(a + b, c, |a| + k) == |a| + NextChar(b, c, k)
    decreases |b| - k
  {
    if k < |b| {
      assert (a + b)[|a| + k] == b[k];
      if b[k] != c {
        NextCharShift(a, b, c, k + 1);
      }
    }
  }

  lemma {:induction false} TryOpenShift(a: string, b: string, lo: nat, p: nat)
    requires 1 <= lo
    ensures TryOpen(a + b, |a| + lo, |a| + p) == ShiftBy(|a|, TryOpen(b, lo, p))
    decreases p
  {
    var s := a + b;
    if lo <= p {
      assert OpenAt(s, |a| + p) <==> OpenAt(b, p) by {
        if p + 2 <= |b| {
          assert s[|a| + p] == b[p] && s[|a| + p + 1] == b[p + 1];
        }
      }
      if OpenAt(b, p) {
        NextCharShift(a, b, ')', p + 2);
        var c := NextChar(b, ')', p + 2);
        if c < |b| && p + 3 <= c {
          assert s[|a| + c - 1] == b[c - 1];
          if c + 1 < |b| {
            assert s[|a| + c + 1] == b[c + 1];
          }
        }
      }
      TryOpenShift(a, b, lo, p - 1);
    }
  }

  lemma MatchShift(a: string, b: string, i: nat)
    requires i < |b|
    ensures MatchAt(a + b, |a| + i) == ShiftBy(|a|, MatchAt(b, i))
  {
    assert (a + b)[|a| + i] == b[i];
    if b[i] == '"' {
      NextCharShift(a, b, '"', i + 1);
      TryOpenShift(a, b, i + 1, NextChar(b, '"', i + 1));
    }
  }

  /** The matches from a position depend on the text from there on. */
  lemma {:induction false} FindAllShift(a: string, b: string, k: nat)
    ensures FindAll(a + b, |a| + k) == FindAll(b, k)
    decreases |b| - k
  {
    if k < |b| {
      MatchShift(a, b, k);
      var m := MatchAt(b, k);
      if m.Some? && k < m.value <= |b| {
        FindAllShift(a, b, m.value);
        FindAllShiftMatch(a, b, k, m.value);
      } else if m.None? {
        FindAllShift(a, b, k + 1);
      }
    }
  }

  lemma FindAllShiftMatch(a: string, b: string, k: nat, e: nat)
    requires k < e <= |b| && MatchAt(b, k) == Some(e) && MatchAt(a + b, |a| + k) == Some(|a| + e)
    requires FindAll(a + b, |a| + e) == FindAll(b, e)
    ensures FindAll(a + b, |a| + k) == FindAll(b, k)
  {
    assert (a + b)[|a| + k..|a| + e] == b[k..e];
  }

  /** No match starts inside a plain piece. */
  lemma PlainNoMatch(t: string, rest: seq<Segment>, x: nat)
    requires NoChar(t, '(') && WellFormed(rest) && x < |t|
    ensures MatchAt(t + Render(rest), x) == None
  {
    var s := t + Render(rest);
    if s[x] == '"' {
      var r := NextChar(s, '"', x + 1);
      forall y | x + 1 <= y <= r && y < |s| ensures s[y] != '(' {
        if y < r {
          PlainNoParen(t, rest, x, y);
        }
      }
      TryOpenNone(s, x + 1, r);
    }
  }

  /** Past a quote inside a plain piece, no `(` comes before the next quote. */
  lemma PlainNoParen(t: string, rest: seq<Segment>, x: nat, y: nat)
    requires NoChar(t, '(') && WellFormed(rest) && x < |t| && x < y < |t + Render(rest)|
    requires forall e :: x < e < y ==> (t + Render(rest))[e] != '"'
    ensures (t + Render(rest))[y] != '('
  {
    var r := Render(rest);
    var s := t + r;
    if y >= |t| {
      forall e | 0 <= e < y - |t| ensures r[e] != '"' {
        assert s[|t| + e] == r[e];
      }
      QuoteBeforeParen(rest, y - |t|);
      assert s[y] == r[y - |t|];
    } else {
      assert s[y] == t[y];
    }
  }

  lemma {:induction false} FindAllPlain(t: string, rest: seq<Segment>, x: nat)
    requires NoChar(t, '(') && WellFormed(rest) && x <= |t|
    ensures FindAll(t + Render(rest), x) == FindAll(t + Render(rest), |t|)
    decreases |t| - x
  {
    if x < |t| {
      PlainNoMatch(t, rest, x);
      FindAllPlain(t, rest, x + 1);
    }
  }

  /** A call key at the head of the text is its first match. */
  lemma FindAllCall(n: string, a: string, r: string)
    requires IsName(n) && NoChar(a, '(') && NoChar(a, ')')
    ensures FindAll(CallKey(n, a) + r, 0) == [CallKey(n, a)] + FindAll(r, 0)
  {
    FindAllCallHead(n, a, r);
    FindAllShift(CallKey(n, a), r, 0);
  }

  lemma FindAllCallHead(n: string, a: string, r: string)
    requires IsName(n) && NoChar(a, '(') && NoChar(a, ')')
    ensures FindAll(CallKey(n, a) + r, 0) == [CallKey(n, a)] + FindAll(CallKey(n, a) + r, |CallKey(n, a)|)
  {
    var x := CallKey(n, a);
    var s := x + r;
    var p := |n| + 1;
    var c := |n| + 4 + |a|;
    CallChars(n, a);
    assert forall e :: 0 <= e < |x| ==> s[e] == x[e];
    assert CallAt(s, 0, p, c);
    MatchCall(s, 0, p, c);
    assert s[0..c + 2] == x;
  }

  /** `re.findall` on a well-formed text gives its call keys in order. */
  lemma {:induction false} FindAllRender(gs: seq<Segment>)
    requires WellFormed(gs)
    ensures FindAll(Render(gs), 0) == CallsOf(gs)
    decreases |gs|
  {
    if |gs| > 0 {
      WellFormedTail(gs);
      FindAllRender(gs[1..]);
      FindAllHead(gs[0], gs[1..]);
    }
  }

  /** The matches of a text are those of its first segment, then the rest's. */
  lemma FindAllHead(g: Segment, rest: seq<Segment>)
    requires SegmentOk(g) && WellFormed(rest)
    ensures FindAll(SegmentText(g) + Render(rest), 0) ==
      (if g.Call? then [SegmentText(g)] else []) + FindAll(Render(rest), 0)
  {
    match g
    case Plain(t) =>
      FindAllPlain(t, rest, 0);
      FindAllShift(t, Render(rest), 0);
    case Call(n, a) =>
      FindAllCall(n, a, Render(rest));
  }

  // The keys.

  lemma {:induction false} NoCharReplace(s: string, pat: string, rep: string, c: char)
    requires |pat| > 0 && NoChar(s, c) && NoChar(rep, c)
    ensures NoChar(ReplaceStr(s, pat, rep), c)
    decreases |s|
  {
    if |s| > 0 {
      if pat <= s {
        NoCharReplace(s[|pat|..], pat, rep, c);
        NoCharConcat(rep, ReplaceStr(s[|pat|..], pat, rep), c);
      } else {
        NoCharReplace(s[1..], pat, rep, c);
        NoCharConcat([s[0]], ReplaceStr(s[1..], pat, rep), c);
      }
    }
  }

  /** The key of a call key of a well-formed text, which holds no `(`. */
  lemma KeyOfSegment(n: string, a: string)
    requires IsName(n) && NoChar(a, '(') && NoChar(a, ')')
    ensures KeyOf(CallKey(n, a)) == Ok(CallName(n))
    ensures NoChar(CallName(n), '(')
  {
    CallChars(n, a);
    KeyOfCall(CallKey(n, a), |n| + 1);
    CallNameNoParen(n);
  }

  lemma CallNameNoParen(n: string)
    requires IsName(n)
    ensures NoChar(CallName(n), '(')
  {
    NoCharReplace(n, "query", "", '(');
    NoCharConcat(ReplaceStr(n, "query", ""), "id", '(');
  }

  /** Every key of a list succeeds, so the table does. */
  lemma {:induction false} BuildTableOk(qs: seq<string>, key: string -> Result<string>)
    requires forall q :: q in qs ==> key(q).Ok?
    ensures BuildTable(qs, key).Ok?
    decreases |qs|
  {
    if |qs| > 0 {
      assert forall q :: q in qs[..|qs| - 1] ==> q in qs;
      BuildTableOk(qs[..|qs| - 1], key);
      assert qs[|qs| - 1] in qs;
    }
  }

  /** `get_apollo`'s rewrite on a state text of plain pieces and call keys,
      distinct or repeated: `re.findall` finds exactly the call keys in order,
      and the text comes back with every call key replaced by its quoted key
      and every plain piece as it was. */
  lemma RewriteSegments(gs: seq<Segment>)
    requires WellFormed(gs)
    ensures FindAll(Render(gs), 0) == CallsOf(gs)
    ensures Rewrite(Render(gs)) == Ok(Render(Rewritten(gs)))
  {
    FindAllRender(gs);
    CallKeysOk(gs);
    BuildTableOk(CallsOf(gs), KeyOf);
    var t := BuildTable(CallsOf(gs), KeyOf).value;
    TableEntries(gs, t);
    ApplyRender(gs, t, gs);
  }

  /** Two call keys, distinct or not, between plain pieces: each is replaced by
      its own quoted key and the pieces around them are kept. */
  lemma RewriteTwoKeys(pre: string, n1: string, a1: string, sep: string, n2: string, a2: string, post: string)
    requires NoChar(pre, '(') && NoChar(sep, '(') && NoChar(post, '(')
    requires IsName(n1) && NoChar(a1, '(') && NoChar(a1, ')')
    requires IsName(n2) && NoChar(a2, '(') && NoChar(a2, ')')
    ensures Rewrite(pre + CallKey(n1, a1) + sep + CallKey(n2, a2) + post) ==
      Ok(pre + Quote(CallName(n1)) + sep + Quote(CallName(n2)) + post)
  {
    var gs := [Plain(pre), Call(n1, a1), Plain(sep), Call(n2, a2), Plain(post)];
    var k1 := Plain(Quote(CallName(n1)));
    var k2 := Plain(Quote(CallName(n2)));
    assert WellFormed(gs) by {
      forall i | 0 <= i < 5 ensures SegmentOk(gs[i]) {}
    }
    RewriteSegments(gs);
    assert Rewritten(gs) == [Plain(pre), k1, Plain(sep), k2, Plain(post)];
    RenderFive(Plain(pre), Call(n1, a1), Plain(sep), Call(n2, a2), Plain(post));
    RenderFive(Plain(pre), k1, Plain(sep), k2, Plain(post));
  }

  lemma RenderFive(g0: Segment, g1: Segment, g2: Segment, g3: Segment, g4: Segment)
    ensures Render([g0, g1, g2, g3, g4]) ==
      SegmentText(g0) + SegmentText(g1) + SegmentText(g2) + SegmentText(g3) + SegmentText(g4)
  {
    FiveCons(g0, g1, g2, g3, g4);
    RenderCons(g4, []);
    RenderCons(g3, [g4] + []);
    RenderCons(g2, [g3] + ([g4] + []));
    RenderCons(g1, [g2] + ([g3] + ([g4] + [])));
    RenderCons(g0, [g1] + ([g2] + ([g3] + ([g4] + []))));
  }

  lemma FiveCons(g0: Segment, g1: Segment, g2: Segment, g3: Segment, g4: Segment)
    ensures [g0, g1, g2, g3, g4] == [g0] + ([g1] + ([g2] + ([g3] + ([g4] + []))))
  {
  }

  lemma RenderCons(g: Segment, rest: seq<Segment>)
    ensures Render([g] + rest) == SegmentText(g) + Render(rest)
  {
    assert ([g] + rest)[1..] == rest;
  }

  /** Every call key of a well-formed text has a key, which holds no `(`. */
  lemma CallKeysOk(gs: seq<Segment>)
    requires WellFormed(gs)
    ensures forall q :: q in CallsOf(gs) ==> KeyOf(q).Ok? && NoChar(KeyOf(q).value, '(')
  {
    forall q | q in CallsOf(gs) ensures KeyOf(q).Ok? && NoChar(KeyOf(q).value, '(') {
      var j :| 0 <= j < |gs| && gs[j].Call? && SegmentText(gs[j]) == q;
      assert SegmentOk(gs[j]);
      KeyOfSegment(gs[j].name, gs[j].args);
    }
  }

  /** The table built from a well-formed text maps its call keys, and only
      them, to keys without `(`; its replace loop gives the rewritten
      segments. */
  lemma TableEntries(gs: seq<Segment>, t: OD.Dict<string, string>)
    requires WellFormed(gs) && BuildTable(CallsOf(gs), KeyOf) == Ok(t)
    ensures forall k :: 0 <= k < |t| ==> t[k].0 in CallsOf(gs) && NoChar(t[k].1, '(')
    ensures SubstAll(gs, t) == Rewritten(gs)
  {
    var qs := CallsOf(gs);
    CallKeysOk(gs);
    TableProps(qs, KeyOf);
    forall k | 0 <= k < |t| ensures t[k].0 in qs && NoChar(t[k].1, '(') {
      assert OD.Keys(t)[k] == t[k].0;
      OD.GetLast(t, k);
    }
    forall i | 0 <= i < |gs| ensures SubstAll(gs, t)[i] == Rewritten(gs)[i] {
      SubstAllAt(gs, t, i);
      if gs[i].Call? {
        assert SegmentOk(gs[i]);
        KeyOfSegment(gs[i].name, gs[i].args);
      }
    }
  }

  /** A document with one call key: `{"field({"a":1})": {"id": 7}}` becomes
      `{"fieldid": {"id": 7}}`; the value is untouched. */
  lemma RewriteExample()
    ensures Rewrite(ExampleDoc) == Ok(ExampleOut)
  {
    ExampleParts();
    ExampleShape();
    ExampleName();
    RewriteOneKey(ExamplePre, ExampleField, ExampleArgs, ExamplePost);
  }

  const ExampleDoc: string := "{\"field({\"a\":1})\": {\"id\": 7}}"
  const ExampleOut: string := "{\"fieldid\": {\"id\": 7}}"
  const ExamplePre: string := "{"
  const ExampleField: string := "field"
  const ExampleArgs: string := "\"a\":1"
  const ExamplePost: string := ": {\"id\": 7}}"

  lemma ExampleParts()
    ensures ExampleDoc == ExamplePre + CallKey(ExampleField, ExampleArgs) + ExamplePost
    ensures ExampleOut == ExamplePre + Quote(ExampleField + "id") + ExamplePost
  {
  }

  lemma ExampleShape()
    ensures OneKeyShape(ExamplePre, ExampleField, ExampleArgs, ExamplePost)
  {
  }

  lemma ExampleName()
    ensures ReplaceStr(ExampleField, "query", "") == ExampleField
  {
    NoLeadChar(ExampleField, "query");
    ReplaceAbsent(ExampleField, "query", "");
  }
}
