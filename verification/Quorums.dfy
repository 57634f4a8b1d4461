/** Majorities of a finite set of nodes. */
module Quorums {

  lemma SubsetSize<T>(a: set<T>, b: set<T>)
    requires a <= b
    ensures |a| <= |b|
  {
    assert b == a + (b - a);
  }

  /** Two majorities share a member. */
  lemma MajoritiesMeet<T>(a: set<T>, b: set<T>, all: set<T>) returns (p: T)
    requires a <= all && b <= all
    requires 2 * |a| > |all| && 2 * |b| > |all|
    ensures p in a && p in b
  {
    if a * b == {} {
      assert |a + b| == |a| + |b|;
      SubsetSize(a + b, all);
    }
    p :| p in a && p in b;
  }
}
