/** Optional values and Python-style outcomes.

    `Result<T>` is either a value or the kind of the exception the modelled Python
    code raises at that point.  It is failure-compatible, so `:-` propagates a raised
    exception exactly as Python unwinds the stack.
 */
module Wrappers {

  datatype Option<+T> = None | Some(value: T)

  /** The exception kinds the modelled code can raise (or that escape from the
      foreign libraries it calls). */
  datatype Exc =
    | KeyError             // dict[key] with a missing key
    | TypeError            // subscript / iteration / int() on the wrong kind of value
    | ValueError           // int("abc"), datetime.fromisoformat on a malformed string
    | AttributeError       // a method called on None or on a non-string
    | IndexError           // str.split(...)[1] with too few parts
    | NameError            // a local variable read before it was ever assigned
    | JsonDecodeError      // json.loads on text that is not JSON
    | GraphQLSyntaxError   // graphql.parse on a query that does not parse
    | AssertionError       // a failed `assert`
    | ZeroDivisionError    // divmod(_, 0)
    | ValidationError      // a pydantic model given a missing or ill-typed field
    | IntegrityError       // a database commit that violates a key constraint

  datatype Result<+T> = Ok(value: T) | Raise(exc: Exc) {

    predicate IsFailure() {
      Raise?
    }

    function PropagateFailure<U>(): Result<U>
      requires Raise?
    {
      Raise(exc)
    }

    function Extract(): T
      requires Ok?
    {
      value
    }
  }

  /** The position of the first element satisfying p (Python's `next(...)` over a
      filtered generator, or a `for` loop that breaks at the first hit). */
  function FirstIndex<T>(s: seq<T>, p: T -> bool): (r: Option<nat>)
    ensures r.Some? ==> r.value < |s| && p(s[r.value]) && forall j :: 0 <= j < r.value ==> !p(s[j])
    ensures r.None? ==> forall j :: 0 <= j < |s| ==> !p(s[j])
  {
    if |s| == 0 then None
    else if p(s[0]) then Some(0)
    else
      match FirstIndex(s[1..], p)
      case None => None
      case Some(i) => Some(i + 1)
  }

  /** The first hit is the position every earlier element misses. */
  lemma {:induction false} FirstIndexAt<T>(s: seq<T>, p: T -> bool, i: nat)
    requires i < |s| && p(s[i]) && forall j :: 0 <= j < i ==> !p(s[j])
    ensures FirstIndex(s, p) == Some(i)
    decreases i
  {
    if i > 0 {
      assert !p(s[0]);
      assert forall j :: 0 <= j < i - 1 ==> s[1..][j] == s[j + 1];
      FirstIndexAt(s[1..], p, i - 1);
    }
  }
}
