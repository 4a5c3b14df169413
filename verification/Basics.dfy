/** Small things several modules share. */
module Basics {

  datatype Option<T> = None | Some(value: T)

  /** The marks of a depth-first search: unseen, being explored, finished. */
  datatype Color = White | Gray | Black

  lemma CardinalityMonotone<T>(a: set<T>, b: set<T>)
    requires a <= b
    ensures |a| <= |b|
  {
    assert b == a + (b - a);
  }
}
