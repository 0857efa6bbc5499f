/**
 The index arithmetic of `advanceCommitIndex`: which clusters may commit at the middle
 element of the sorted match indexes.
 */
module Median {
  import opened RaftState
  import opened Quorum

  predicate Ascending(s: seq<int>) {
    forall i, j :: 0 <= i < j < |s| ==> s[i] <= s[j]
  }

  lemma {:induction false} InsertAscending(x: int, s: seq<int>)
    requires Ascending(s)
    ensures Ascending(InsertInt(x, s))
  {
    if s != [] && x > s[0] {
      var t := InsertInt(x, s[1..]);
      InsertAscending(x, s[1..]);
      forall i | 0 <= i < |t| ensures s[0] <= t[i] {
        InsertMembers(x, s[1..], t[i]);
      }
    }
  }

  lemma {:induction false} SortAscending(s: seq<int>)
    ensures Ascending(SortInts(s))
  {
    if s != [] {
      SortAscending(s[1..]);
      InsertAscending(s[0], SortInts(s[1..]));
    }
  }

  /** How many elements are at least v. */
  function AtLeast(s: seq<int>, v: int): nat {
    if s == [] then 0 else (if s[0] >= v then 1 else 0) + AtLeast(s[1..], v)
  }

  lemma {:induction false} InsertAtLeast(x: int, s: seq<int>, v: int)
    ensures AtLeast(InsertInt(x, s), v) == AtLeast(s, v) + if x >= v then 1 else 0
  {
    if s == [] || x <= s[0] {
      assert ([x] + s)[1..] == s;
    } else {
      InsertAtLeast(x, s[1..], v);
      assert ([s[0]] + InsertInt(x, s[1..]))[1..] == InsertInt(x, s[1..]);
    }
  }

  lemma {:induction false} SortAtLeast(s: seq<int>, v: int)
    ensures AtLeast(SortInts(s), v) == AtLeast(s, v)
  {
    if s != [] {
      SortAtLeast(s[1..], v);
      InsertAtLeast(s[0], SortInts(s[1..]), v);
    }
  }

  lemma {:induction false} UpperHalf(t: seq<int>, k: nat, v: int)
    requires k <= |t| && forall i :: k <= i < |t| ==> t[i] >= v
    ensures AtLeast(t, v) >= |t| - k
  {
    if t != [] {
      UpperHalf(t[1..], if k == 0 then 0 else k - 1, v);
    }
  }

  /** The servers whose match index is at least v. */
  ghost function Holders(m: seq<int>, v: int): set<nat> {
    set s: nat | s < |m| && m[s] >= v
  }

  lemma {:induction false} CountHolders(m: seq<int>, v: int)
    ensures |Holders(m, v)| == AtLeast(m, v)
  {
    if m != [] {
      CountHolders(m[1..], v);
      ShiftSize(Holders(m[1..], v));
      HoldersShift(m, v);
    }
  }

  lemma HoldersShift(m: seq<int>, v: int)
    requires m != []
    ensures Holders(m, v) == Shift(Holders(m[1..], v)) + (if m[0] >= v then {0} else {}) && 0 !in Shift(Holders(m[1..], v))
  {
    var up := Shift(Holders(m[1..], v));
    forall s: nat | s in Holders(m, v) && s > 0 ensures s in up {
      assert s - 1 in Holders(m[1..], v);
    }
  }

  ghost function Shift(a: set<nat>): set<nat> {
    set s | s in a :: s + 1
  }

  lemma {:induction false} ShiftSize(a: set<nat>)
    ensures |Shift(a)| == |a|
  {
    if a == {} {
      assert Shift(a) == {};
    } else {
      var x :| x in a;
      ShiftSize(a - {x});
      forall y | y in Shift(a) ensures y in Shift(a - {x}) + {x + 1} {
        var s :| s in a && y == s + 1;
        assert s == x || s in a - {x};
      }
      assert Shift(a) == Shift(a - {x}) + {x + 1};
    }
  }

  /** Whatever the match indexes are, at least half of the servers match the middle element. */
  lemma MiddleIsHalf(m: seq<int>)
    requires |m| >= 1
    ensures 2 * |Holders(m, MajorityIndex(m))| >= |m|
    ensures |m| % 2 == 1 ==> Majority(|m|, Holders(m, MajorityIndex(m)))
  {
    var t := SortInts(m);
    var v := MajorityIndex(m);
    SortAscending(m);
    assert t[|m| / 2] == v;
    UpperHalf(t, |m| / 2, v);
    SortAtLeast(m, v);
    CountHolders(m, v);
  }

  /** The middle element is the largest index that at least half of the servers match. */
  lemma MiddleIsLast(m: seq<int>, j: int)
    requires |m| >= 1
    ensures 2 * |Holders(m, j)| >= |m| <==> j <= MajorityIndex(m)
  {
    var t, v := SortInts(m), MajorityIndex(m);
    if j <= v {
      MiddleIsHalf(m);
      assert Holders(m, v) <= Holders(m, j);
      SubsetSize(Holders(m, v), Holders(m, j));
    } else {
      SortAscending(m);
      LowerHalf(t, |m| / 2 + 1, j) by {
        forall i | 0 <= i < |m| / 2 + 1 ensures t[i] < j {
          assert t[i] <= t[|m| / 2];
        }
      }
      SortAtLeast(m, j);
      CountHolders(m, j);
    }
  }

  /** That is enough for safety in clusters of every size: elections take a strict majority, so
      a later leader always has a voter among those servers. */
  lemma CommitMeetsElection(m: seq<int>, q: set<nat>) returns (s: nat)
    requires |m| >= 1 && Majority(|m|, q)
    ensures s in q && s < |m| && m[s] >= MajorityIndex(m)
  {
    MiddleIsHalf(m);
    s := HalfMeetsMajority(|m|, Holders(m, MajorityIndex(m)), q);
  }

  /** n/2 servers match index 1 and the others index 0. */
  function HalfMatched(n: nat): seq<int> {
    seq(n, i => if 0 <= i < n / 2 then 1 else 0)
  }

  /** In a cluster of even size exactly half of the servers can move the commit index. */
  lemma EvenClusterCommitsWithHalf(n: nat)
    requires n >= 2 && n % 2 == 0
    ensures MajorityIndex(HalfMatched(n)) == 1 && 2 * |Holders(HalfMatched(n), 1)| == n
  {
    var m := HalfMatched(n);
    var t := SortInts(m);
    SortAscending(m);
    HalfCount(m, n / 2);
    SortAtLeast(m, 1);
    CountHolders(m, 1);
    SortMembers(m, t[n / 2]);
    if t[n / 2] == 0 {
      LowerHalf(t, n / 2 + 1, 1) by {
        forall i | 0 <= i < n / 2 + 1 ensures t[i] < 1 {
          assert t[i] <= t[n / 2];
        }
      }
    }
  }

  lemma {:induction false} LowerHalf(t: seq<int>, k: nat, v: int)
    requires k <= |t| && forall i :: 0 <= i < k ==> t[i] < v
    ensures AtLeast(t, v) <= |t| - k
  {
    if t != [] {
      LowerHalf(t[1..], if k == 0 then 0 else k - 1, v);
    }
  }

  lemma {:induction false} HalfCount(m: seq<int>, k: nat)
    requires k <= |m| && (forall i :: 0 <= i < k ==> m[i] == 1) && (forall i :: k <= i < |m| ==> m[i] == 0)
    ensures AtLeast(m, 1) == k
  {
    if m != [] {
      HalfCount(m[1..], if k == 0 then 0 else k - 1);
    }
  }

  /** So the middle element is a majority's for all match indexes exactly if the size is odd. */
  lemma MiddleIsMajorityIffOdd(n: nat)
    requires n >= 1
    ensures (forall m: seq<int> :: |m| == n ==> Majority(n, Holders(m, MajorityIndex(m)))) <==> n % 2 == 1
  {
    if n % 2 == 1 {
      forall m: seq<int> | |m| == n ensures Majority(n, Holders(m, MajorityIndex(m))) {
        MiddleIsHalf(m);
      }
    } else {
      EvenClusterCommitsWithHalf(n);
      assert !Majority(n, Holders(HalfMatched(n), MajorityIndex(HalfMatched(n))));
    }
  }
}
