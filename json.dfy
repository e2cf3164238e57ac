/** JSON values as the scraper sees them after `json.loads`, and the handful of
    Python operations the scraper applies to them.

    Objects keep the order of their pairs, because the scraper takes the first
    matching entry of a cache (`next(...)`, `for ... break`).  A parsed object may
    carry a key twice; Python's decoder keeps the position of the first occurrence
    and the value of the last (`Normalize`).
 */
module Json {
  import opened Wrappers
  import opened Text
  import OD = OrderedDict

  datatype Json =
    | JNull
    | JBool(b: bool)
    | JInt(i: int)
    | JFloat(f: real)          // a float, carried exactly (rounding is not modelled)
    | JStr(s: string)
    | JArr(items: seq<Json>)
    | JObj(fields: seq<(string, Json)>)

  // ---------------------------------------------------------------------------
  // Decoding: duplicate keys resolved last-write-wins
  // ---------------------------------------------------------------------------

  /** The object `json.loads` builds from a parsed tree: every object becomes
      `dict(pairs)`, i.e. one entry per key, at the first position, last value. */
  function Normalize(j: Json): Json {
    match j
    case JArr(items) => JArr(seq(|items|, i requires 0 <= i < |items| => Normalize(items[i])))
    case JObj(fields) =>
      JObj(OD.FromPairs(seq(|fields|, i requires 0 <= i < |fields| => (fields[i].0, Normalize(fields[i].1)))))
    case _ => j
  }

  /** The pairs of a parsed object with each value decoded, before duplicates are
      resolved. */
  function NormalizeFields(fs: seq<(string, Json)>): (r: seq<(string, Json)>)
    ensures |r| == |fs| && Normalize(JObj(fs)) == JObj(OD.FromPairs(r))
    ensures forall i :: 0 <= i < |fs| ==> r[i] == (fs[i].0, Normalize(fs[i].1))
  {
    seq(|fs|, i requires 0 <= i < |fs| => (fs[i].0, Normalize(fs[i].1)))
  }

  /** A value as `json.loads` returns it: every object has unique keys. */
  ghost predicate IsNormal(j: Json)
    decreases j
  {
    match j
    case JArr(items) => forall i :: 0 <= i < |items| ==> IsNormal(items[i])
    case JObj(fields) =>
      OD.NoDupKeys(fields) && forall i :: 0 <= i < |fields| ==> IsNormal(fields[i].1)
    case _ => true
  }

  /** Every object of a decoded value has unique keys. */
  lemma {:induction false} NormalizeIsNormal(j: Json)
    ensures IsNormal(Normalize(j))
    decreases j
  {
    match j
    case JArr(items) =>
      forall i | 0 <= i < |items|
        ensures IsNormal(Normalize(j).items[i])
      {
        NormalizeIsNormal(items[i]);
      }
    case JObj(fields) =>
      var nf := NormalizeFields(fields);
      var d := OD.FromPairs(nf);
      OD.FromPairsProps(nf);
      OD.UpdatePairs([], nf);
      forall i | 0 <= i < |d|
        ensures IsNormal(d[i].1)
      {
        assert d[i] in nf;
        var k :| 0 <= k < |nf| && nf[k] == d[i];
        NormalizeIsNormal(fields[k].1);
      }
    case _ =>
  }

  /** Decoding a value that has no duplicate keys gives it back unchanged. */
  lemma {:induction false} NormalizeOfNormal(j: Json)
    requires IsNormal(j)
    ensures Normalize(j) == j
    decreases j
  {
    match j
    case JArr(items) =>
      forall i | 0 <= i < |items|
        ensures Normalize(j).items[i] == items[i]
      {
        NormalizeOfNormal(items[i]);
      }
    case JObj(fields) =>
      forall i | 0 <= i < |fields|
        ensures NormalizeFields(fields)[i] == fields[i]
      {
        NormalizeOfNormal(fields[i].1);
      }
      assert NormalizeFields(fields) == fields;
      OD.FromPairsOfDict(fields);
    case _ =>
  }

  /** Decoding is idempotent: dumping a decoded value and decoding it again gives
      the same value. */
  lemma NormalizeIdempotent(j: Json)
    ensures Normalize(Normalize(j)) == Normalize(j)
  {
    NormalizeIsNormal(j);
    NormalizeOfNormal(Normalize(j));
  }

  /** A key of a decoded object answers the (decoded) value of its last occurrence
      in the parsed text; the decoded object holds exactly the parsed keys. */
  lemma NormalizeLookup(fields: seq<(string, Json)>, k: string)
    ensures var d := Normalize(JObj(fields)).fields;
      (k in OD.Keys(d) <==> k in OD.Keys(fields)) &&
      (OD.Get(fields, k).Some? ==> OD.Get(d, k) == Some(Normalize(OD.Get(fields, k).value)))
  {
    var nf := NormalizeFields(fields);
    OD.FromPairsProps(nf);
    FieldsGet(fields, k);
  }

  lemma {:induction false} FieldsGet(fs: seq<(string, Json)>, k: string)
    ensures OD.Get(fs, k).Some? ==> OD.Get(NormalizeFields(fs), k) == Some(Normalize(OD.Get(fs, k).value))
    decreases |fs|
  {
    if |fs| > 0 {
      FieldsGet(fs[..|fs| - 1], k);
      assert NormalizeFields(fs)[..|fs| - 1] == NormalizeFields(fs[..|fs| - 1]);
    }
  }

  // ---------------------------------------------------------------------------
  // Python operations on decoded values
  // ---------------------------------------------------------------------------

  /** `j[key]` with a string key. */
  function Index(j: Json, key: string): Result<Json> {
    match j
    case JObj(fields) =>
      (match OD.Get(fields, key)
       case Some(v) => Ok(v)
       case None => Raise(KeyError))
    case _ => Raise(TypeError)    // str, list, int, None: not subscriptable by a string
  }

  /** `j.get(key)` on a dict: Python's None when the key is absent. */
  function GetOrNull(fields: seq<(string, Json)>, key: string): Json {
    match OD.Get(fields, key)
    case Some(v) => v
    case None => JNull
  }

  /** `key in j` for a string key. */
  function In(key: string, j: Json): Result<bool> {
    match j
    case JObj(fields) => Ok(key in OD.Keys(fields))
    case JStr(s) => Ok(Contains(s, key))
    case JArr(items) => Ok(JStr(key) in items)
    case _ => Raise(TypeError)
  }

  /** `bool(j)`. */
  predicate Truthy(j: Json) {
    match j
    case JNull => false
    case JBool(b) => b
    case JInt(i) => i != 0
    case JFloat(f) => f != 0.0
    case JStr(s) => |s| > 0
    case JArr(items) => |items| > 0
    case JObj(fields) => |fields| > 0
  }

  /** `j == True` (True equals 1 and 1.0 in Python). */
  predicate EqTrue(j: Json) {
    j == JBool(true) || j == JInt(1) || j == JFloat(1.0)
  }

  /** Python's int() of a float truncates toward zero. */
  function Trunc(f: real): int {
    if f >= 0.0 then f.Floor else 0 - (0.0 - f).Floor
  }

  /** `int(j)`. */
  function IntOf(j: Json): Result<int> {
    match j
    case JNull => Raise(TypeError)
    case JBool(b) => Ok(if b then 1 else 0)
    case JInt(i) => Ok(i)
    case JFloat(f) => Ok(Trunc(f))
    case JStr(s) => PyIntOfString(s)
    case _ => Raise(TypeError)
  }

  /** The receiver of a string method (`.strip()`, `.split()`, `.replace()`):
      anything but a string has no such attribute. */
  function StrOf(j: Json): Result<string> {
    match j
    case JStr(s) => Ok(s)
    case _ => Raise(AttributeError)
  }

  /** `j.items()`. */
  function Items(j: Json): Result<seq<(string, Json)>> {
    match j
    case JObj(fields) => Ok(fields)
    case _ => Raise(AttributeError)
  }

  /** The elements a `for` loop visits: a list's items, a dict's keys, a string's
      characters. */
  function Iter(j: Json): Result<seq<Json>> {
    match j
    case JArr(items) => Ok(items)
    case JObj(fields) => Ok(seq(|fields|, i requires 0 <= i < |fields| => JStr(fields[i].0)))
    case JStr(s) => Ok(seq(|s|, i requires 0 <= i < |s| => JStr([s[i]])))
    case _ => Raise(TypeError)
  }

  /** The numeric value of an int, float or bool. */
  function Num(j: Json): Option<real> {
    match j
    case JBool(b) => Some(if b then 1.0 else 0.0)
    case JInt(i) => Some(i as real)
    case JFloat(f) => Some(f)
    case _ => None
  }

  /** The position of the last pair with the key of `fs[i]`, which is where a
      dict's value for that key comes from. */
  predicate LastAt(fs: seq<(string, Json)>, i: nat) {
    i < |fs| && forall k :: i < k < |fs| ==> fs[k].0 != fs[i].0
  }

  /** Python's `a == b`, which never raises on decoded JSON: numbers (bools
      included) compare by value, strings by their characters, lists item by
      item, dicts by their keys and the value each key holds; values of
      different kinds are unequal. */
  predicate PyEq(a: Json, b: Json)
    decreases a
  {
    if Num(a).Some? && Num(b).Some? then Num(a).value == Num(b).value
    else
      match a
      case JNull => b.JNull?
      case JStr(x) => b.JStr? && b.s == x
      case JArr(xs) =>
        b.JArr? && |xs| == |b.items| && forall i :: 0 <= i < |xs| ==> PyEq(xs[i], b.items[i])
      case JObj(fs) =>
        b.JObj? && (set i | 0 <= i < |fs| :: fs[i].0) == (set j | 0 <= j < |b.fields| :: b.fields[j].0) &&
        forall i, j ::
          (0 <= i < |fs| && 0 <= j < |b.fields| && LastAt(fs, i) && LastAt(b.fields, j) && fs[i].0 == b.fields[j].0)
          ==> PyEq(fs[i].1, b.fields[j].1)
      case _ => false
  }

  /** Every value equals itself. */
  lemma {:induction false} PyEqRefl(a: Json)
    ensures PyEq(a, a)
    decreases a
  {
    match a
    case JArr(xs) =>
      forall i | 0 <= i < |xs| ensures PyEq(xs[i], xs[i]) { PyEqRefl(xs[i]); }
    case JObj(fs) =>
      forall i, j | 0 <= i < |fs| && 0 <= j < |fs| && LastAt(fs, i) && LastAt(fs, j) && fs[i].0 == fs[j].0
        ensures PyEq(fs[i].1, fs[j].1)
      {
        assert i == j;
        PyEqRefl(fs[i].1);
      }
    case _ =>
  }

  /** Usable as a dict key (lists and dicts are unhashable). */
  predicate Hashable(j: Json) {
    !j.JArr? && !j.JObj?
  }
}
