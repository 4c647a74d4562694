/**
 Sequences without repetitions, and searching a sequence.
 */
module Sequences {
  ghost predicate Distinct<T>(s: seq<T>) {
    forall i, j | 0 <= i < j < |s| :: s[i] != s[j]
  }

  /** The numbers below n in some order. */
  ghost predicate Permutation(perm: seq<nat>, n: nat) {
    |perm| == n && (forall i | 0 <= i < n :: perm[i] < n) && Distinct(perm)
  }

  /** The first place of an element. */
  function IndexOf<T(==)>(s: seq<T>, x: T): (i: nat)
    requires x in s
    ensures i < |s| && s[i] == x
  {
    if s[0] == x then 0 else 1 + IndexOf(s[1..], x)
  }
}
