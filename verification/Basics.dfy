/** What several modules need. */
module Basics {

  datatype Option<+T> = None | Some(value: T)

  /** Some element of a set, where the order in the source comes from hashing or sorting. */
  method AnyOf<T>(s: set<T>) returns (x: T)
    requires s != {}
    ensures x in s
  {
    x :| x in s;
  }

  /** The alignments there are. */
  predicate PowerUpTo16(a: nat) {
    a == 1 || a == 2 || a == 4 || a == 8 || a == 16
  }

  lemma MulMonotone(a: int, b: int, c: nat)
    requires a <= b
    ensures a * c <= b * c
  {
  }

  lemma OneMore(n: nat, w: nat)
    ensures (n + 1) * w == n * w + w && w * n == n * w
  {
  }
}
