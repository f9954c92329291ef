/** What every module shares: a value that may be missing, a value or the reason
    there is none, the bounds of Go's int64, and numbers not in use yet. */
module Wrappers {

  datatype Option<+T> = None | Some(value: T)

  datatype Result<+T, +E> = Ok(value: T) | Err(error: E)

  const MIN_INT64: int := -0x8000_0000_0000_0000
  const MAX_INT64: int := 0x7FFF_FFFF_FFFF_FFFF

  /** A number that a set does not hold, past all that it does. */
  lemma {:induction false} Above(ids: set<nat>) returns (n: nat)
    ensures n !in ids && forall x :: x in ids ==> x < n
    decreases ids
  {
    if ids == {} {
      return 0;
    }
    var x :| x in ids;
    n := Above(ids - {x});
    assert forall y :: y in ids ==> y == x || y in ids - {x};
    n := if n <= x then x + 1 else n;
  }
}
