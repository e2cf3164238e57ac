/** Finding the embedded page state in a fetched Glassdoor page
    (scraper/glassdoor.py, `get_apollo`, the script-tag search).

    The parsed HTML is reduced to its `<script>` elements in document order.  A
    page of the newer kind carries the state verbatim in a script with id
    `__NEXT_DATA__`; an older page assigns it inside a script, as
    `..."apolloState":{...}};</script>`, and the scraper cuts the object out with
    the non-greedy regular expression `apolloState":({.*?})};</script>` applied to
    the rendered tag.
 */
module Locator {
  import opened Wrappers
  import opened Text

  /** A script element: its `id` attribute, the rendered opening tag (with the
      attributes as the HTML parser prints them) and its text. */
  datatype Script = Script(id: Option<string>, openTag: string, text: string)

  const NextDataId: string := "__NEXT_DATA__"
  const StateMarker: string := "apolloState"
  /** The literal prefix of the regular expression, up to and including the `{`
      that opens the captured group. */
  const StateOpen: string := "apolloState\":{"
  /** The `}` that closes the group followed by the literal `};</script>`. */
  const StateClose: string := "}};</script>"

  /** `tag.string`: a script with no text has no string child. */
  function StringOf(sc: Script): Option<string> {
    if |sc.text| == 0 then None else Some(sc.text)
  }

  /** `str(tag)`. */
  function Rendered(sc: Script): string {
    sc.openTag + sc.text + "</script>"
  }

  predicate IsNextData(sc: Script) {
    sc.id == Some(NextDataId)
  }

  /** `soup.find("script", string=re.compile("apolloState"))`. */
  predicate HasState(sc: Script) {
    StringOf(sc).Some? && Contains(StringOf(sc).value, StateMarker)
  }

  /** `re.search('apolloState":({.*?})};</script>', s, re.DOTALL).group(1)`.
      The search starts at the first `apolloState":{`; the lazy group then ends at
      the first `}` that is directly followed by `};</script>`.  A later start
      cannot succeed where the first failed, since it only has fewer candidate
      ends. */
  function Capture(s: string): Option<string> {
    match FindFrom(s, StateOpen, 0)
    case None => None
    case Some(m) =>
      match FindFrom(s, StateClose, m + 14)
      case None => None
      case Some(q) => Some(s[m + 13..q + 1])
  }

  /** The capture succeeds exactly when some `apolloState":{` is followed, past
      its brace, by `}};</script>`; it then runs from the brace after the first
      marker to the first `}` that is followed by `};</script>`: non-greedy, and
      blind to nesting. */
  lemma CaptureSpec(s: string)
    ensures Capture(s).Some? <==> exists m: nat, q: nat :: OccursAt(s, StateOpen, m) && m + 14 <= q && OccursAt(s, StateClose, q)
    ensures Capture(s).Some? ==> exists m: nat, q: nat ::
      OccursAt(s, StateOpen, m) && (forall j :: 0 <= j < m ==> !OccursAt(s, StateOpen, j)) &&
      m + 14 <= q && OccursAt(s, StateClose, q) &&
      (forall e :: m + 14 <= e < q ==> !OccursAt(s, StateClose, e)) &&
      Capture(s).value == s[m + 13..q + 1]
  {
    match FindFrom(s, StateOpen, 0)
    case None =>
    case Some(m) =>
      match FindFrom(s, StateClose, m + 14)
      case None =>
        forall m': nat, q: nat | OccursAt(s, StateOpen, m') && m' + 14 <= q
          ensures !OccursAt(s, StateClose, q)
        {
          assert m <= m';
        }
      case Some(q) =>
  }

  /** The state text of a page, or `None` for the Python `None` that
      `script_tag.string` yields for an empty `__NEXT_DATA__` script.  When no
      script qualifies, or the regular expression finds nothing, the ValueError
      raised inside the `try` is caught and the text stays `""`. */
  function Locate(scripts: seq<Script>): Option<string> {
    match FirstIndex(scripts, IsNextData)
    case Some(i) => StringOf(scripts[i])
    case None =>
      match FirstIndex(scripts, HasState)
      case None => Some("")
      case Some(i) =>
        match Capture(Rendered(scripts[i]))
        case Some(c) => Some(c)
        case None => Some("")
  }

  /** The first `__NEXT_DATA__` script wins, and its text is taken verbatim. */
  lemma LocateNextData(scripts: seq<Script>, i: nat)
    requires i < |scripts| && IsNextData(scripts[i])
    requires forall j :: 0 <= j < i ==> !IsNextData(scripts[j])
    ensures Locate(scripts) == StringOf(scripts[i])
    ensures |scripts[i].text| > 0 ==> Locate(scripts) == Some(scripts[i].text)
  {
  }

  /** Without a `__NEXT_DATA__` script, the first script whose text mentions
      `apolloState` is cut with the regular expression, and a failed match leaves
      the empty text. */
  lemma LocateState(scripts: seq<Script>, i: nat)
    requires forall j :: 0 <= j < |scripts| ==> !IsNextData(scripts[j])
    requires i < |scripts| && HasState(scripts[i])
    requires forall j :: 0 <= j < i ==> !HasState(scripts[j])
    ensures Capture(Rendered(scripts[i])).Some? ==> Locate(scripts) == Capture(Rendered(scripts[i]))
    ensures Capture(Rendered(scripts[i])).None? ==> Locate(scripts) == Some("")
  {
  }

  /** A page with neither kind of script yields the empty state text. */
  lemma LocateNone(scripts: seq<Script>)
    requires forall j :: 0 <= j < |scripts| ==> !IsNextData(scripts[j]) && !HasState(scripts[j])
    ensures Locate(scripts) == Some("")
  {
    assert FirstIndex(scripts, IsNextData).None?;
    assert FirstIndex(scripts, HasState).None?;
  }

  // ---------------------------------------------------------------------------
  // The capture is not brace-balanced
  // ---------------------------------------------------------------------------

  /** A state object `{"k":{}}` assigned without an enclosing object: the first
      `}}` before `;</script>` is taken as the end, so the capture stops one brace
      short of the object and is not valid JSON. */
  lemma CaptureUnbalanced()
    ensures Capture(UnbalancedPage) == Some("{\"k\":{}")
    ensures Capture(UnbalancedPage).value + "}" == "{\"k\":{}}"
  {
    var s := UnbalancedPage;
    UnbalancedOpen();
    UnbalancedClose();
    FindFromFirstAt(s, StateOpen, 0, 4);
    FindFromFirstAt(s, StateClose, 18, 23);
    assert Capture(s) == Some(s[17..24]);
    assert s[17..24] == "{\"k\":{}";
  }

  const UnbalancedPage: string := "x={\"" + StateOpen + "\"k\":{" + StateClose

  lemma UnbalancedOpen()
    ensures OccursAt(UnbalancedPage, StateOpen, 4)
    ensures forall j :: 0 <= j < 4 ==> !OccursAt(UnbalancedPage, StateOpen, j)
  {
    var s := UnbalancedPage;
    OccursMid("x={\"", StateOpen, "\"k\":{" + StateClose);
    assert "x={\"" + StateOpen + ("\"k\":{" + StateClose) == s;
    forall j | 0 <= j < 4 ensures !OccursAt(s, StateOpen, j) {
      assert s[j + 1] != StateOpen[1];
    }
  }

  lemma UnbalancedClose()
    ensures OccursAt(UnbalancedPage, StateClose, 23)
    ensures forall e :: 18 <= e < 23 ==> !OccursAt(UnbalancedPage, StateClose, e)
  {
    var s := UnbalancedPage;
    OccursMid("x={\"" + StateOpen + "\"k\":{", StateClose, "");
    forall e | 18 <= e < 23 ensures !OccursAt(s, StateClose, e) {
      assert s[e + 2] != StateClose[2];
    }
  }

  /** The embedded-state case of a typical older page: the state object is the
      value of `apolloState` inside an outer object, and the capture is exactly
      that object, braces balanced. */
  lemma CaptureTypical()
    ensures Capture(TypicalPage) == Some("{\"a\":{}}")
  {
    var s := TypicalPage;
    TypicalOpen();
    TypicalClose();
    FindFromFirstAt(s, StateOpen, 0, 2);
    FindFromFirstAt(s, StateClose, 16, 22);
    assert Capture(s) == Some(s[15..23]);
    assert s[15..23] == "{\"a\":{}}";
  }

  const TypicalPage: string := "{\"" + StateOpen + "\"a\":{}" + StateClose

  lemma TypicalOpen()
    ensures OccursAt(TypicalPage, StateOpen, 2)
    ensures forall j :: 0 <= j < 2 ==> !OccursAt(TypicalPage, StateOpen, j)
  {
    var s := TypicalPage;
    OccursMid("{\"", StateOpen, "\"a\":{}" + StateClose);
    assert "{\"" + StateOpen + ("\"a\":{}" + StateClose) == s;
    forall j | 0 <= j < 2 ensures !OccursAt(s, StateOpen, j) {
      assert s[j + 1] != StateOpen[1];
    }
  }

  lemma TypicalClose()
    ensures OccursAt(TypicalPage, StateClose, 22)
    ensures forall e :: 16 <= e < 22 ==> !OccursAt(TypicalPage, StateClose, e)
  {
    var s := TypicalPage;
    OccursMid("{\"" + StateOpen + "\"a\":{}", StateClose, "");
    forall e | 16 <= e < 22 ensures !OccursAt(s, StateClose, e) {
      assert s[e + 2] != StateClose[2];
    }
  }
}
