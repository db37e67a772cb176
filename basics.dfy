/** Definitions shared by the grid, economy, wave and card modules: the
    optional value, repeat-free sequences and one fact about finite sets. */
module Basics {
  datatype Option<T> = None | Some(value: T)

  /** No element of the sequence occurs twice. */
  predicate Distinct<T(==)>(s: seq<T>) {
    forall a, b | 0 <= a < b < |s| :: s[a] != s[b]
  }

  /** A subset is no larger than its superset. */
  lemma SubsetSize<T>(A: set<T>, B: set<T>)
    requires A <= B
    ensures |A| <= |B|
  {
    assert B == A + (B - A);
  }
}
