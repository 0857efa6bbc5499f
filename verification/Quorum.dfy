/** Majorities of a cluster with servers 0..n-1. */
module Quorum {

  ghost predicate Majority(n: nat, q: set<nat>) {
    (forall s :: s in q ==> s < n) && 2 * |q| > n
  }

  lemma {:induction false} BoundedSize(n: nat, q: set<nat>)
    requires forall s :: s in q ==> s < n
    ensures |q| <= n
  {
    if n == 0 {
      assert q == {};
    } else {
      var rest := q - {n - 1};
      BoundedSize(n - 1, rest);
      assert q <= rest + {n - 1};
      SubsetSize(q, rest + {n - 1});
    }
  }

  lemma {:induction false} SubsetSize<T>(a: set<T>, b: set<T>)
    requires a <= b
    ensures |a| <= |b|
  {
    if a != {} {
      var x :| x in a;
      SubsetSize(a - {x}, b - {x});
    }
  }

  /** Half of the servers of a cluster and a majority of it share a server. */
  lemma HalfMeetsMajority(n: nat, a: set<nat>, b: set<nat>) returns (s: nat)
    requires (forall s :: s in a ==> s < n) && 2 * |a| >= n && Majority(n, b)
    ensures s in a && s in b && s < n
  {
    BoundedSize(n, a + b);
    assert |a + b| + |a * b| == |a| + |b|;
    s :| s in a * b;
  }
}
