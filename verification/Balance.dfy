/**
 What `Rebalance` computes, on values: shards[s] is the group of shard s, and groups the set of
 member groups. Ties go to the smallest group id, so the result is a function of these two.
 */
module Balance {

  function Count(sh: seq<nat>, g: nat): (c: nat)
    ensures c <= |sh|
  {
    if sh == [] then 0 else Count(sh[..|sh| - 1], g) + if sh[|sh| - 1] == g then 1 else 0
  }

  /** Pairs of shards on the same group: half of what the sum of the squared loads exceeds |sh|. */
  function Pairs(sh: seq<nat>): nat {
    if sh == [] then 0 else Pairs(sh[..|sh| - 1]) + Count(sh[..|sh| - 1], sh[|sh| - 1])
  }

  lemma {:induction false} CountMove(sh: seq<nat>, p: nat, b: nat, g: nat)
    requires p < |sh|
    ensures Count(sh[p := b], g) == Count(sh, g) - (if sh[p] == g then 1 else 0) + if b == g then 1 else 0
  {
    var n := |sh| - 1;
    assert sh[p := b][..n] == if p < n then sh[..n][p := b] else sh[..n];
    if p < n {
      CountMove(sh[..n], p, b, g);
    }
  }

  /** Moving a shard from a group to one with at least two fewer brings the loads closer. */
  lemma {:induction false} PairsMove(sh: seq<nat>, p: nat, b: nat)
    requires p < |sh| && sh[p] != b
    ensures Pairs(sh[p := b]) == Pairs(sh) - (Count(sh, sh[p]) - 1) + Count(sh, b)
  {
    var n := |sh| - 1;
    var t := sh[p := b];
    if p < n {
      assert t[..n] == sh[..n][p := b];
      PairsMove(sh[..n], p, b);
      CountMove(sh[..n], p, b, sh[n]);
    } else {
      assert t[..n] == sh[..n];
    }
  }

  lemma {:induction false} CountZero(sh: seq<nat>, g: nat)
    ensures Count(sh, g) == 0 <==> g !in sh
  {
    if sh != [] {
      CountZero(sh[..|sh| - 1], g);
      assert sh == sh[..|sh| - 1] + [sh[|sh| - 1]];
    }
  }

  // ---------- The busiest and the idlest group ----------

  /** The group with the most shards; of several, the one with the smallest id. */
  ghost predicate IsMost(sh: seq<nat>, groups: set<nat>, g: nat) {
    g in groups && forall h :: h in groups ==> Count(sh, h) < Count(sh, g) || (Count(sh, h) == Count(sh, g) && g <= h)
  }

  ghost predicate IsLeast(sh: seq<nat>, groups: set<nat>, g: nat) {
    g in groups && forall h :: h in groups ==> Count(sh, h) > Count(sh, g) || (Count(sh, h) == Count(sh, g) && g <= h)
  }

  lemma {:induction false} MostExists(sh: seq<nat>, groups: set<nat>)
    requires groups != {}
    ensures exists g :: IsMost(sh, groups, g)
  {
    var x :| x in groups;
    if groups == {x} {
      assert IsMost(sh, groups, x);
    } else {
      MostExists(sh, groups - {x});
      var y :| IsMost(sh, groups - {x}, y);
      assert forall h :: h in groups ==> h == x || h in groups - {x};
      assert IsMost(sh, groups, if Count(sh, x) > Count(sh, y) || (Count(sh, x) == Count(sh, y) && x <= y) then x else y);
    }
  }

  lemma {:induction false} LeastExists(sh: seq<nat>, groups: set<nat>)
    requires groups != {}
    ensures exists g :: IsLeast(sh, groups, g)
  {
    var x :| x in groups;
    if groups == {x} {
      assert IsLeast(sh, groups, x);
    } else {
      LeastExists(sh, groups - {x});
      var y :| IsLeast(sh, groups - {x}, y);
      assert forall h :: h in groups ==> h == x || h in groups - {x};
      assert IsLeast(sh, groups, if Count(sh, x) < Count(sh, y) || (Count(sh, x) == Count(sh, y) && x <= y) then x else y);
    }
  }

  ghost function Most(sh: seq<nat>, groups: set<nat>): (g: nat)
    requires groups != {}
    ensures IsMost(sh, groups, g)
  {
    MostExists(sh, groups);
    var g :| IsMost(sh, groups, g);
    g
  }

  ghost function Least(sh: seq<nat>, groups: set<nat>): (g: nat)
    requires groups != {}
    ensures IsLeast(sh, groups, g)
  {
    LeastExists(sh, groups);
    var g :| IsLeast(sh, groups, g);
    g
  }

  /** There is only one busiest and one idlest group, whatever order they are looked at in. */
  lemma OneMostOneLeast(sh: seq<nat>, groups: set<nat>, g: nat, h: nat)
    ensures IsMost(sh, groups, g) && IsMost(sh, groups, h) ==> g == h
    ensures IsLeast(sh, groups, g) && IsLeast(sh, groups, h) ==> g == h
  {
  }

  // ---------- The two phases ----------

  function First(sh: seq<nat>, g: nat): (p: nat)
    requires g in sh
    ensures p < |sh| && sh[p] == g && forall i :: 0 <= i < p ==> sh[i] != g
  {
    if sh[0] == g then 0 else First(sh[1..], g) + 1
  }

  /** From shard s on, shards without a member group go to the idlest one, one by one. */
  ghost function Filled(sh: seq<nat>, groups: set<nat>, s: nat): (t: seq<nat>)
    requires s <= |sh| && groups != {}
    ensures |t| == |sh|
    decreases |sh| - s
  {
    if s == |sh| then sh
    else Filled(if sh[s] in groups then sh else sh[s := Least(sh, groups)], groups, s + 1)
  }

  ghost predicate Uneven(sh: seq<nat>, groups: set<nat>)
    requires groups != {}
  {
    Count(sh, Most(sh, groups)) >= Count(sh, Least(sh, groups)) + 2
  }

  /** One shard of the busiest group goes to the idlest one. */
  ghost function Moved(sh: seq<nat>, groups: set<nat>): (t: seq<nat>)
    requires groups != {} && Uneven(sh, groups)
    ensures |t| == |sh| && Pairs(t) < Pairs(sh)
  {
    var mg, lg := Most(sh, groups), Least(sh, groups);
    CountZero(sh, mg);
    PairsMove(sh, First(sh, mg), lg);
    sh[First(sh, mg) := lg]
  }

  ghost function Leveled(sh: seq<nat>, groups: set<nat>): (t: seq<nat>)
    requires groups != {}
    ensures |t| == |sh|
    decreases Pairs(sh)
  {
    if Uneven(sh, groups) then Leveled(Moved(sh, groups), groups) else sh
  }

  ghost function Rebalanced(sh: seq<nat>, groups: set<nat>): (t: seq<nat>)
    ensures |t| == |sh|
  {
    if groups == {} then seq(|sh|, i => 0) else Leveled(Filled(sh, groups, 0), groups)
  }

  // ---------- What rebalancing achieves ----------

  ghost predicate Members(sh: seq<nat>, groups: set<nat>) {
    forall s :: 0 <= s < |sh| ==> sh[s] in groups
  }

  ghost predicate Balanced(sh: seq<nat>, groups: set<nat>) {
    forall g, h :: g in groups && h in groups ==> Count(sh, g) <= Count(sh, h) + 1
  }

  lemma {:induction false} FilledMembers(sh: seq<nat>, groups: set<nat>, s: nat)
    requires s <= |sh| && groups != {} && Members(sh[..s], groups)
    ensures Members(Filled(sh, groups, s), groups)
    decreases |sh| - s
  {
    if s == |sh| {
      assert sh[..s] == sh;
    } else {
      var t := if sh[s] in groups then sh else sh[s := Least(sh, groups)];
      forall i | 0 <= i < s + 1 ensures t[i] in groups {
        if i < s { assert t[i] == sh[..s][i]; }
      }
      FilledMembers(t, groups, s + 1);
    }
  }

  lemma {:induction false} LeveledOk(sh: seq<nat>, groups: set<nat>)
    requires groups != {} && Members(sh, groups)
    ensures Members(Leveled(sh, groups), groups) && Balanced(Leveled(sh, groups), groups)
    decreases Pairs(sh)
  {
    if Uneven(sh, groups) {
      LeveledOk(Moved(sh, groups), groups);
    }
  }

  /** From any configuration, with any nonempty set of groups: every shard ends on a member, and
      no two members' loads differ by more than one. */
  lemma RebalanceBalances(sh: seq<nat>, groups: set<nat>)
    requires groups != {}
    ensures Members(Rebalanced(sh, groups), groups) && Balanced(Rebalanced(sh, groups), groups)
  {
    FilledMembers(sh, groups, 0);
    LeveledOk(Filled(sh, groups, 0), groups);
  }

  // ---------- Little moves ----------

  lemma {:induction false} FilledSame(sh: seq<nat>, groups: set<nat>, s: nat)
    requires s <= |sh| && groups != {} && Members(sh, groups)
    ensures Filled(sh, groups, s) == sh
    decreases |sh| - s
  {
    if s < |sh| {
      FilledSame(sh, groups, s + 1);
    }
  }

  /** A balanced configuration stays as it is. */
  lemma BalancedStays(sh: seq<nat>, groups: set<nat>)
    requires groups != {} && Members(sh, groups) && Balanced(sh, groups)
    ensures Rebalanced(sh, groups) == sh
  {
    FilledSame(sh, groups, 0);
  }

  /** No group has two more than any of the old groups. */
  ghost predicate OldKeepUp(sh: seq<nat>, groups: set<nat>, before: set<nat>) {
    forall g, h :: g in before && h in groups ==> Count(sh, h) <= Count(sh, g) + 1
  }

  /** Then the idlest group is a new one, and that remains so. */
  lemma MoveToJoined(sh: seq<nat>, groups: set<nat>, before: set<nat>)
    requires groups != {} && before <= groups && Uneven(sh, groups) && OldKeepUp(sh, groups, before)
    ensures Least(sh, groups) !in before && OldKeepUp(Moved(sh, groups), groups, before)
  {
    var mg, lg := Most(sh, groups), Least(sh, groups);
    CountZero(sh, mg);
    var p := First(sh, mg);
    forall g, h | g in before && h in groups ensures Count(sh[p := lg], h) <= Count(sh[p := lg], g) + 1 {
      CountMove(sh, p, lg, g);
      CountMove(sh, p, lg, h);
    }
  }

  lemma {:induction false} LeveledOntoJoined(sh: seq<nat>, groups: set<nat>, before: set<nat>)
    requires groups != {} && before <= groups && OldKeepUp(sh, groups, before)
    ensures forall s :: 0 <= s < |sh| ==> Leveled(sh, groups)[s] == sh[s] || Leveled(sh, groups)[s] in groups - before
    decreases Pairs(sh)
  {
    if Uneven(sh, groups) {
      MoveToJoined(sh, groups, before);
      LeveledOntoJoined(Moved(sh, groups), groups, before);
    }
  }

  lemma NewcomersEmpty(sh: seq<nat>, before: set<nat>, g: nat)
    requires Members(sh, before) && g !in before
    ensures Count(sh, g) == 0
  {
    CountZero(sh, g);
  }

  /** After a Join, a shard stays where it was or goes to a group that joined. */
  lemma JoinMovesOnlyOntoJoined(sh: seq<nat>, before: set<nat>, joined: set<nat>)
    requires before != {} && Members(sh, before) && Balanced(sh, before)
    ensures forall s :: 0 <= s < |sh| ==>
              var t := Rebalanced(sh, before + joined)[s];
              t == sh[s] || (t in joined && t !in before)
  {
    var groups := before + joined;
    FilledSame(sh, groups, 0);
    forall g, h | g in before && h in groups ensures Count(sh, h) <= Count(sh, g) + 1 {
      if h !in before {
        NewcomersEmpty(sh, before, h);
      }
    }
    LeveledOntoJoined(sh, groups, before);
  }

  lemma FillKeepsBalance(sh: seq<nat>, groups: set<nat>, s: nat)
    requires s < |sh| && groups != {} && Balanced(sh, groups) && sh[s] !in groups
    ensures Balanced(sh[s := Least(sh, groups)], groups)
  {
    var lg := Least(sh, groups);
    var t := sh[s := lg];
    forall g, h | g in groups && h in groups ensures Count(t, g) <= Count(t, h) + 1 {
      CountMove(sh, s, lg, g);
      CountMove(sh, s, lg, h);
    }
  }

  lemma {:induction false} FilledBalanced(sh: seq<nat>, groups: set<nat>, s: nat)
    requires s <= |sh| && groups != {} && Balanced(sh, groups)
    ensures Balanced(Filled(sh, groups, s), groups)
    ensures forall i :: 0 <= i < |sh| && sh[i] in groups ==> Filled(sh, groups, s)[i] == sh[i]
    decreases |sh| - s
  {
    if s < |sh| {
      if sh[s] !in groups {
        FillKeepsBalance(sh, groups, s);
      }
      FilledBalanced(if sh[s] in groups then sh else sh[s := Least(sh, groups)], groups, s + 1);
    }
  }

  /** After a Leave, every shard of a group that stays stays on it. */
  lemma LeaveMovesOnlyDeparted(sh: seq<nat>, before: set<nat>, departed: set<nat>)
    requires before - departed != {} && Balanced(sh, before)
    ensures forall s :: 0 <= s < |sh| && sh[s] in before - departed ==> Rebalanced(sh, before - departed)[s] == sh[s]
  {
    FilledBalanced(sh, before - departed, 0);
  }
}
