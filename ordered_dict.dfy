/** Python's `dict` as an insertion-ordered sequence of (key, value) pairs.

    Assigning `d[k] = v` keeps the position of an existing key and appends a new
    one; `d.update(e)` assigns e's pairs in order; `dict(pairs)` (and so the JSON
    decoder's object hook) is `update` into an empty dict.  Lookups answer with the
    value of the last pair for a key, so on a list with duplicate keys they see the
    last write.
 */
module OrderedDict {
  import opened Wrappers

  type Dict<K, V> = seq<(K, V)>

  function Keys<K, V>(d: Dict<K, V>): (ks: seq<K>)
    ensures |ks| == |d|
    ensures forall i :: 0 <= i < |d| ==> ks[i] == d[i].0
  {
    seq(|d|, i requires 0 <= i < |d| => d[i].0)
  }

  ghost predicate NoDupKeys<K, V>(d: Dict<K, V>) {
    forall i, j :: 0 <= i < j < |d| ==> d[i].0 != d[j].0
  }

  /** The value of the last pair whose key is `k` (Python `d.get(k)` once the pairs
      are a dict). */
  function Get<K(==), V>(d: Dict<K, V>, k: K): (r: Option<V>)
    ensures r.None? <==> k !in Keys(d)
    ensures r.Some? ==> exists i :: 0 <= i < |d| && d[i] == (k, r.value) && forall j :: i < j < |d| ==> d[j].0 != k
    decreases |d|
  {
    if |d| == 0 then None
    else if d[|d| - 1].0 == k then Some(d[|d| - 1].1)
    else
      var r := Get(d[..|d| - 1], k);
      assert Keys(d) == Keys(d[..|d| - 1]) + [d[|d| - 1].0];
      r
  }

  /** The position of key `k`, if present. */
  function IndexOf<K(==), V>(d: Dict<K, V>, k: K): (r: Option<nat>)
    ensures r.None? <==> k !in Keys(d)
    ensures r.Some? ==> r.value < |d| && d[r.value].0 == k
    ensures r.Some? ==> forall j :: 0 <= j < r.value ==> d[j].0 != k
    decreases |d|
  {
    if |d| == 0 then None
    else if d[0].0 == k then Some(0)
    else
      assert Keys(d) == [d[0].0] + Keys(d[1..]);
      match IndexOf(d[1..], k)
      case None => None
      case Some(i) => Some(i + 1)
  }

  /** `d[k] = v`. */
  function Set<K(==), V>(d: Dict<K, V>, k: K, v: V): Dict<K, V> {
    match IndexOf(d, k)
    case None => d + [(k, v)]
    case Some(i) => d[i := (k, v)]
  }

  /** `d.update(e)`: e's pairs assigned in order. */
  function Update<K(==), V>(d: Dict<K, V>, e: Dict<K, V>): Dict<K, V>
    decreases |e|
  {
    if |e| == 0 then d
    else
      var last := e[|e| - 1];
      Set(Update(d, e[..|e| - 1]), last.0, last.1)
  }

  /** `dict(pairs)`. */
  function FromPairs<K(==), V>(ps: Dict<K, V>): Dict<K, V> {
    Update([], ps)
  }

  // ---------------------------------------------------------------------------
  // Properties
  // ---------------------------------------------------------------------------

  /** After `d[k] = v` the key set grows by k, keys stay unique, the lookup of k
      answers v and every other lookup is unchanged; an existing key keeps its
      position and a new one goes last. */
  lemma SetProps<K, V>(d: Dict<K, V>, k: K, v: V)
    requires NoDupKeys(d)
    ensures NoDupKeys(Set(d, k, v))
    ensures Get(Set(d, k, v), k) == Some(v)
    ensures forall k' :: k' != k ==> Get(Set(d, k, v), k') == Get(d, k')
    ensures k in Keys(d) ==> Keys(Set(d, k, v)) == Keys(d)
    ensures k !in Keys(d) ==> Keys(Set(d, k, v)) == Keys(d) + [k]
  {
    var d' := Set(d, k, v);
    match IndexOf(d, k)
    case None =>
      assert Keys(d') == Keys(d) + [k];
      forall k' | k' != k
        ensures Get(d', k') == Get(d, k')
      {
        assert d'[..|d'| - 1] == d;
      }
    case Some(i) =>
      assert Keys(d') == Keys(d);
      forall k'
        ensures Get(d', k') == if k' == k then Some(v) else Get(d, k')
      {
        if k' == k {
          GetUnique(d', k', i);
        } else {
          GetNotAt(d, d', k', i);
        }
      }
  }

  /** The lookup of one key after `d[k] = v`. */
  lemma SetGet<K, V>(d: Dict<K, V>, k: K, v: V, k': K)
    requires NoDupKeys(d)
    ensures Get(Set(d, k, v), k') == if k' == k then Some(v) else Get(d, k')
  {
    SetProps(d, k, v);
  }

  /** With unique keys, the pair at position i answers the lookup of its key. */
  lemma GetUnique<K, V>(d: Dict<K, V>, k: K, i: nat)
    requires NoDupKeys(d) && i < |d| && d[i].0 == k
    ensures Get(d, k) == Some(d[i].1)
  {
    var r := Get(d, k);
    var j :| 0 <= j < |d| && d[j] == (k, r.value);
    assert j == i;
  }

  /** A key all of whose pairs carry the same value answers that value. */
  lemma GetAssoc<K, V>(d: Dict<K, V>, k: K, v: V)
    requires (k, v) in d
    requires forall kv | kv in d :: kv.0 == k ==> kv.1 == v
    ensures Get(d, k) == Some(v)
  {
    var i :| 0 <= i < |d| && d[i] == (k, v);
    assert Keys(d)[i] == k;
    var r := Get(d, k);
    var j :| 0 <= j < |d| && d[j] == (k, r.value);
    assert d[j] in d;
  }

  /** A pair whose key does not come again is what the lookup of that key gives. */
  lemma {:induction false} GetLast<K, V>(d: Dict<K, V>, i: nat)
    requires i < |d| && forall j :: i < j < |d| ==> d[j].0 != d[i].0
    ensures Get(d, d[i].0) == Some(d[i].1)
    decreases |d|
  {
    if i < |d| - 1 {
      var d' := d[..|d| - 1];
      assert d'[i] == d[i];
      forall j | i < j < |d'| ensures d'[j].0 != d'[i].0 {
        assert d'[j] == d[j];
      }
      GetLast(d', i);
    }
  }

  /** The same, with the pairs for the key given by position. */
  lemma GetAt<K, V>(d: Dict<K, V>, k: K, v: V, i: nat)
    requires i < |d| && d[i] == (k, v)
    requires forall j | 0 <= j < |d| && d[j].0 == k :: d[j].1 == v
    ensures Get(d, k) == Some(v)
  {
    assert Keys(d)[i] == k;
  }

  /** `d[k] = v` leaves the lookup of every other key unchanged. */
  lemma SetOther<K, V>(d: Dict<K, V>, k: K, v: V, k': K)
    requires k' != k
    ensures Get(Set(d, k, v), k') == Get(d, k')
  {
    match IndexOf(d, k)
    case None =>
      assert Set(d, k, v)[..|d|] == d;
    case Some(i) =>
      GetNotAt(d, Set(d, k, v), k', i);
  }

  /** Changing the pair at position i does not change lookups of other keys. */
  lemma GetNotAt<K, V>(d: Dict<K, V>, d': Dict<K, V>, k: K, i: nat)
    requires |d'| == |d| && i < |d|
    requires forall j :: 0 <= j < |d| && j != i ==> d'[j] == d[j]
    requires d[i].0 != k && d'[i].0 != k
    ensures Get(d', k) == Get(d, k)
    decreases |d|
  {
    if |d| > 0 && d[|d| - 1].0 != k {
      if i < |d| - 1 {
        GetNotAt(d[..|d| - 1], d'[..|d'| - 1], k, i);
      } else {
        assert d[..|d| - 1] == d'[..|d'| - 1];
      }
    }
  }

  /** `d.update(e)` keeps keys unique, holds exactly the keys of both, and answers
      e's value for e's keys (last write wins) and d's value for the others. */
  lemma UpdateProps<K, V>(d: Dict<K, V>, e: Dict<K, V>)
    requires NoDupKeys(d)
    ensures NoDupKeys(Update(d, e))
    ensures forall k :: k in Keys(Update(d, e)) <==> k in Keys(d) || k in Keys(e)
    ensures forall k :: Get(Update(d, e), k) == if k in Keys(e) then Get(e, k) else Get(d, k)
  {
    UpdateKeys(d, e);
    forall k ensures Get(Update(d, e), k) == if k in Keys(e) then Get(e, k) else Get(d, k) {
      UpdateGet(d, e, k);
    }
  }

  lemma {:induction false} UpdateKeys<K, V>(d: Dict<K, V>, e: Dict<K, V>)
    requires NoDupKeys(d)
    ensures NoDupKeys(Update(d, e))
    ensures forall k :: k in Keys(Update(d, e)) <==> k in Keys(d) || k in Keys(e)
    decreases |e|
  {
    if |e| > 0 {
      var e0 := e[..|e| - 1];
      var last := e[|e| - 1];
      UpdateKeys(d, e0);
      var u0 := Update(d, e0);
      SetProps(u0, last.0, last.1);
      assert Keys(e) == Keys(e0) + [last.0];
      forall k
        ensures k in Keys(Update(d, e)) <==> k in Keys(d) || k in Keys(e)
      {
        if k in Keys(u0) {
          assert k in Keys(Set(u0, last.0, last.1));
        }
      }
    }
  }

  lemma {:induction false} UpdateGet<K, V>(d: Dict<K, V>, e: Dict<K, V>, k: K)
    requires NoDupKeys(d)
    ensures Get(Update(d, e), k) == if k in Keys(e) then Get(e, k) else Get(d, k)
    decreases |e|
  {
    if |e| > 0 {
      var e0 := e[..|e| - 1];
      var last := e[|e| - 1];
      UpdateKeys(d, e0);
      UpdateGet(d, e0, k);
      SetGet(Update(d, e0), last.0, last.1, k);
      GetSnoc(e, k);
    }
  }

  /** The keys and lookups of a list of pairs in terms of its last pair. */
  lemma GetSnoc<K, V>(e: Dict<K, V>, k: K)
    requires |e| > 0
    ensures k in Keys(e) <==> k in Keys(e[..|e| - 1]) || k == e[|e| - 1].0
    ensures Get(e, k) == if k == e[|e| - 1].0 then Some(e[|e| - 1].1) else Get(e[..|e| - 1], k)
  {
    var e0 := e[..|e| - 1];
    if k in Keys(e) {
      var i :| 0 <= i < |e| && Keys(e)[i] == k;
      if i < |e| - 1 {
        assert Keys(e0)[i] == k;
      }
    }
    if k in Keys(e0) {
      var i :| 0 <= i < |e0| && Keys(e0)[i] == k;
      assert Keys(e)[i] == k;
    }
    if k == e[|e| - 1].0 {
      assert Keys(e)[|e| - 1] == k;
    }
  }

  /** The keys of `d.update(e)` keep d's order and then add e's new keys in the
      order of their first appearance in e. */
  lemma {:induction false} UpdatePrefix<K, V>(d: Dict<K, V>, e: Dict<K, V>)
    ensures |Update(d, e)| >= |d|
    ensures Keys(Update(d, e))[..|d|] == Keys(d)
    decreases |e|
  {
    if |e| > 0 {
      var u0 := Update(d, e[..|e| - 1]);
      var last := e[|e| - 1];
      UpdatePrefix(d, e[..|e| - 1]);
      match IndexOf(u0, last.0)
      case None =>
        assert Keys(Set(u0, last.0, last.1))[..|u0|] == Keys(u0);
      case Some(i) =>
        assert Keys(Set(u0, last.0, last.1)) == Keys(u0);
    }
  }

  /** Every pair of `d.update(e)` is a pair of d or of e. */
  lemma {:induction false} UpdatePairs<K, V>(d: Dict<K, V>, e: Dict<K, V>)
    ensures forall p :: p in Update(d, e) ==> p in d || p in e
    decreases |e|
  {
    if |e| > 0 {
      var e0 := e[..|e| - 1];
      var last := e[|e| - 1];
      UpdatePairs(d, e0);
      var u0 := Update(d, e0);
      forall p | p in Set(u0, last.0, last.1)
        ensures p in d || p in e
      {
        assert p in u0 || p == last;
        if p in e0 {
          var k :| 0 <= k < |e0| && e0[k] == p;
          assert e[k] == p;
        }
      }
    }
  }

  /** A list of pairs with unique keys is already a dict: `dict(d) == d`.  This is
      why re-serialising a decoded JSON object and decoding it again gives the
      same object. */
  lemma {:induction false} FromPairsOfDict<K, V>(d: Dict<K, V>)
    requires NoDupKeys(d)
    ensures FromPairs(d) == d
    decreases |d|
  {
    if |d| > 0 {
      var d0 := d[..|d| - 1];
      var last := d[|d| - 1];
      assert NoDupKeys(d0);
      FromPairsOfDict(d0);
      assert last.0 !in Keys(d0);
      assert Set(d0, last.0, last.1) == d0 + [last];
    }
  }

  /** The keys of `dict(ps)` are the keys of ps, each once. */
  lemma FromPairsProps<K, V>(ps: Dict<K, V>)
    ensures NoDupKeys(FromPairs(ps))
    ensures forall k :: k in Keys(FromPairs(ps)) <==> k in Keys(ps)
    ensures forall k :: Get(FromPairs(ps), k) == Get(ps, k)
  {
    UpdateProps([], ps);
  }
}
