/** What all components share. */
module Wrappers {
  datatype Option<+T> = None | Some(value: T)

  /** A set without members is empty. */
  lemma EmptySet(s: set<int>)
    requires forall n :: n !in s
    ensures s == {}
  {
    var none: set<int> := {};
    assert forall n: int :: n in s <==> n in none;
    assert s == none;
  }
}
