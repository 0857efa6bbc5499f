/** A configuration of the sharded store and the in-place operations on it. */
module ShardCfg {
  import opened Balance

  /** More shards than this and the running minimum of `analyze` would start too low. */
  const MAX_SHARDS := 256

  function CountIn(counts: map<nat, nat>, g: nat): nat {
    if g in counts then counts[g] else 0
  }

  function Insert(x: nat, s: seq<nat>): (t: seq<nat>)
    ensures |t| == |s| + 1
  {
    if s == [] || x <= s[0] then [x] + s else [s[0]] + Insert(x, s[1..])
  }

  ghost predicate Ascending(s: seq<nat>) {
    forall i, j :: 0 <= i < j < |s| ==> s[i] < s[j]
  }

  lemma {:induction false} InsertMembers(x: nat, s: seq<nat>, y: nat)
    ensures y in Insert(x, s) <==> y == x || y in s
  {
    if s != [] && x > s[0] {
      InsertMembers(x, s[1..], y);
    }
  }

  lemma {:induction false} InsertAscending(x: nat, s: seq<nat>)
    requires Ascending(s) && x !in s
    ensures Ascending(Insert(x, s))
  {
    if s != [] && x > s[0] {
      InsertAscending(x, s[1..]);
      var t := Insert(x, s[1..]);
      forall j | 0 <= j < |t| ensures s[0] < t[j] {
        InsertMembers(x, s[1..], t[j]);
      }
    } else if s != [] {
      assert s[0] in s;
    }
  }

  lemma InsertOk(x: nat, s: seq<nat>)
    requires Ascending(s) && x !in s
    ensures Ascending(Insert(x, s)) && forall y :: y in Insert(x, s) <==> y == x || y in s
  {
    InsertAscending(x, s);
    forall y ensures y in Insert(x, s) <==> y == x || y in s {
      InsertMembers(x, s, y);
    }
  }

  lemma FillStep(sh: seq<nat>, groups: set<nat>, s: nat)
    requires s < |sh| && groups != {}
    ensures Filled(sh, groups, s) == Filled(if sh[s] in groups then sh else sh[s := Least(sh, groups)], groups, s + 1)
  {
  }

  lemma LevelStep(sh: seq<nat>, groups: set<nat>)
    requires groups != {}
    ensures Leveled(sh, groups) == if Uneven(sh, groups) then Leveled(Moved(sh, groups), groups) else sh
    ensures Uneven(sh, groups) <==> Count(sh, Most(sh, groups)) >= Count(sh, Least(sh, groups)) + 2
  {
  }

  /** The first group in ascending order with the largest load, and the first with the smallest. */
  method Extremes(counts: map<nat, nat>, gs: seq<nat>) returns (mg: int, mn: int, lg: int, ln: int)
    requires Ascending(gs) && forall g :: CountIn(counts, g) <= MAX_SHARDS
    ensures gs == [] ==> mg == mn == lg == -1 && ln == 257
    ensures gs != [] ==> mg >= 0 && mg in gs && mn == CountIn(counts, mg) && lg >= 0 && lg in gs && ln == CountIn(counts, lg)
    ensures forall g :: g in gs ==>
              && (CountIn(counts, g) < mn || (CountIn(counts, g) == mn && mg <= g))
              && (CountIn(counts, g) > ln || (CountIn(counts, g) == ln && lg <= g))
  {
    mn, mg, ln, lg := -1, -1, 257, -1;
    for i := 0 to |gs|
      invariant i == 0 ==> mg == mn == lg == -1 && ln == 257
      invariant i > 0 ==> mg >= 0 && mg in gs[..i] && mn == CountIn(counts, mg)
      invariant i > 0 ==> lg >= 0 && lg in gs[..i] && ln == CountIn(counts, lg)
      invariant forall j :: 0 <= j < i ==>
                  && (CountIn(counts, gs[j]) < mn || (CountIn(counts, gs[j]) == mn && mg <= gs[j]))
                  && (CountIn(counts, gs[j]) > ln || (CountIn(counts, gs[j]) == ln && lg <= gs[j]))
    {
      var g := gs[i];
      assert gs[..i + 1] == gs[..i] + [g];
      if CountIn(counts, g) < ln {
        ln := CountIn(counts, g);
        lg := g;
      }
      if CountIn(counts, g) > mn {
        mn := CountIn(counts, g);
        mg := g;
      }
    }
    assert gs[..|gs|] == gs;
  }

  class ShardConfig {
    var num: nat
    const shards: array<nat>
    var groups: map<nat, seq<string>>

    constructor (n: nat)
      ensures num == 0 && shards.Length == n && (forall s :: 0 <= s < n ==> shards[s] == 0) && groups == map[]
      ensures fresh(shards)
    {
      num, groups := 0, map[];
      shards := new nat[n](i => 0);
    }

    method Counts() returns (counts: map<nat, nat>)
      ensures forall g :: CountIn(counts, g) == Count(shards[..], g)
    {
      counts := map[];
      for s := 0 to shards.Length
        invariant forall g :: CountIn(counts, g) == Count(shards[..s], g)
      {
        assert shards[..s + 1][..s] == shards[..s];
        counts := counts[shards[s] := CountIn(counts, shards[s]) + 1];
      }
      assert shards[..] == shards[..shards.Length];
    }

    /** The member ids, which come in any order, sorted. */
    method SortedGroups() returns (gs: seq<nat>)
      ensures Ascending(gs) && (forall g :: g in gs <==> g in groups) && |gs| == |groups|
    {
      gs := [];
      var rest := groups.Keys;
      while rest != {}
        invariant Ascending(gs) && forall g :: g in groups <==> (g in gs || g in rest)
        invariant forall g :: g in gs ==> g !in rest
        invariant |gs| + |rest| == |groups.Keys|
        decreases |rest|
      {
        var g :| g in rest;
        InsertOk(g, gs);
        gs := Insert(g, gs);
        rest := rest - {g};
      }
    }

    /** `analyze`: the busiest and the idlest group with their loads. */
    method Analyze() returns (mg: int, mn: int, lg: int, ln: int)
      requires shards.Length <= MAX_SHARDS
      ensures groups == map[] ==> mg == mn == lg == -1 && ln == 257
      ensures groups != map[] ==>
                && mg >= 0 && IsMost(shards[..], groups.Keys, mg) && mn == Count(shards[..], mg)
                && lg >= 0 && IsLeast(shards[..], groups.Keys, lg) && ln == Count(shards[..], lg)
    {
      var counts := Counts();
      var gs := SortedGroups();
      mg, mn, lg, ln := Extremes(counts, gs);
      if groups != map[] {
        var g :| g in groups;
        assert g in gs;
      }
    }

    /** Balances the shards over the groups: a function of the shards and the set of groups. */
    method Rebalance()
      requires shards.Length <= MAX_SHARDS
      modifies shards
      ensures shards[..] == Rebalanced(old(shards[..]), groups.Keys)
    {
      if |groups| < 1 {
        for s := 0 to shards.Length
          invariant forall t :: 0 <= t < s ==> shards[t] == 0
        {
          shards[s] := 0;
        }
        assert groups.Keys == {};
        return;
      }
      assert groups.Keys != {};
      Fill();
      Level();
    }

    /** Shards without a member group go to the idlest group. */
    method Fill()
      requires shards.Length <= MAX_SHARDS && groups.Keys != {}
      modifies shards
      ensures shards[..] == Filled(old(shards[..]), groups.Keys, 0)
    {
      for s := 0 to shards.Length
        invariant Filled(shards[..], groups.Keys, s) == Filled(old(shards[..]), groups.Keys, 0)
      {
        ghost var was := shards[..];
        if shards[s] !in groups {
          var mg, mn, lg, ln := Analyze();
          OneMostOneLeast(was, groups.Keys, lg, Least(was, groups.Keys));
          shards[s] := lg;
          assert shards[..] == was[s := lg as nat];
        }
        FillStep(was, groups.Keys, s);
      }
    }

    /** Shards go from the busiest group to the idlest until no two loads differ by two. */
    method Level()
      requires shards.Length <= MAX_SHARDS && groups.Keys != {}
      modifies shards
      ensures shards[..] == Leveled(old(shards[..]), groups.Keys)
    {
      while true
        invariant Leveled(shards[..], groups.Keys) == Leveled(old(shards[..]), groups.Keys)
        decreases Pairs(shards[..])
      {
        ghost var was := shards[..];
        var mg, mn, lg, ln := Analyze();
        OneMostOneLeast(was, groups.Keys, mg, Most(was, groups.Keys));
        OneMostOneLeast(was, groups.Keys, lg, Least(was, groups.Keys));
        LevelStep(was, groups.Keys);
        if mn < ln + 2 {
          break;
        }
        MoveOne(mg, lg);
      }
    }

    /** The first shard of the one group goes to the other. */
    method MoveOne(mg: nat, lg: nat)
      requires Count(shards[..], mg) > 0
      modifies shards
      ensures mg in old(shards[..]) && shards[..] == old(shards[..])[First(old(shards[..]), mg) := lg]
    {
      ghost var was := shards[..];
      CountZero(was, mg);
      var s := 0;
      while shards[s] != mg
        decreases shards.Length - s
        invariant 0 <= s <= First(was, mg) && shards[..] == was
      {
        assert was[s] == shards[s];
        s := s + 1;
      }
      assert was[s] == mg;
      shards[s] := lg;
    }

    /** Adds groups. If one of them is a member already, it stops there, and the ones before it in
        the order of iteration have been added; the number only grows on success. Servers that
        are in two groups, or no groups to add, stop the program. */
    method Join(servers: map<nat, seq<string>>) returns (ok: bool)
      requires servers != map[]
      modifies this`num, this`groups
      ensures ok <==> servers.Keys !! old(groups).Keys
      ensures ok ==> groups == old(groups) + servers && num == old(num) + 1
      ensures !ok ==> num == old(num) && old(groups).Keys <= groups.Keys <= old(groups).Keys + servers.Keys
      ensures !ok ==> forall g :: g in groups ==> groups[g] == if g in old(groups) then old(groups)[g] else servers[g]
    {
      var rest := servers.Keys;
      while rest != {}
        invariant rest <= servers.Keys
        invariant (servers.Keys - rest) !! old(groups).Keys
        invariant groups.Keys == old(groups).Keys + (servers.Keys - rest) && num == old(num)
        invariant forall g :: g in groups ==> groups[g] == if g in old(groups) then old(groups)[g] else servers[g]
        decreases |rest|
      {
        var gid :| gid in rest;
        if gid in groups {
          return false;
        }
        groups := groups[gid := servers[gid]];
        rest := rest - {gid};
      }
      num := num + 1;
      assert groups == old(groups) + servers;
      ok := true;
    }

    /** gids[k] is the first that is not, or no longer, a member. */
    static ghost predicate FirstBad(gids: seq<nat>, members: set<nat>, k: nat) {
      && k < |gids| && (gids[k] !in members || gids[k] in gids[..k])
      && forall j :: 0 <= j < k ==> gids[j] in members && gids[j] !in gids[..j]
    }

    /** Removes groups, up to the first that is not a member. */
    method Leave(gids: seq<nat>) returns (ok: bool)
      requires gids != []
      modifies this`num, this`groups
      ensures ok <==> (forall i :: 0 <= i < |gids| ==> gids[i] in old(groups) && gids[i] !in gids[..i])
      ensures ok ==> groups == old(groups) - (set g | g in gids) && num == old(num) + 1
      ensures !ok ==> num == old(num) && exists k: nat :: FirstBad(gids, old(groups).Keys, k) && groups == old(groups) - (set g | g in gids[..k])
    {
      for i := 0 to |gids|
        invariant groups == old(groups) - (set g | g in gids[..i]) && num == old(num)
        invariant forall j :: 0 <= j < i ==> gids[j] in old(groups) && gids[j] !in gids[..j]
      {
        if gids[i] !in groups {
          assert gids[i] !in old(groups) || gids[i] in gids[..i];
          assert FirstBad(gids, old(groups).Keys, i);
          return false;
        }
        assert gids[..i + 1] == gids[..i] + [gids[i]];
        groups := groups - {gids[i]};
      }
      assert gids[..|gids|] == gids;
      num := num + 1;
      ok := true;
    }

    /** From a balanced configuration, shards only go to the groups that join. */
    method JoinBalance(servers: map<nat, seq<string>>) returns (ok: bool)
      requires servers != map[] && shards.Length <= MAX_SHARDS
      modifies this, shards
      ensures ok <==> servers.Keys !! old(groups).Keys
      ensures !ok ==> shards[..] == old(shards[..]) && num == old(num)
      ensures ok ==> groups == old(groups) + servers && num == old(num) + 1
                     && shards[..] == Rebalanced(old(shards[..]), groups.Keys)
                     && Members(shards[..], groups.Keys) && Balanced(shards[..], groups.Keys)
      ensures ok && old(groups) != map[] && Members(old(shards[..]), old(groups).Keys) && Balanced(old(shards[..]), old(groups).Keys) ==>
                forall s :: 0 <= s < shards.Length ==> shards[s] == old(shards[..])[s] || shards[s] in servers
    {
      ok := Join(servers);
      if !ok {
        return;
      }
      ghost var was := shards[..];
      Rebalance();
      var gid :| gid in servers;
      assert gid in groups.Keys;
      RebalanceBalances(was, groups.Keys);
      assert groups.Keys == old(groups).Keys + servers.Keys;
      if old(groups) != map[] && Members(was, old(groups).Keys) && Balanced(was, old(groups).Keys) {
        var g :| g in old(groups);
        assert g in old(groups).Keys;
        JoinMovesOnlyOntoJoined(was, old(groups).Keys, servers.Keys);
        forall s | 0 <= s < shards.Length ensures shards[s] == was[s] || shards[s] in servers {
          assert shards[s] == shards[..][s];
        }
      }
    }

    /** From a balanced configuration, only shards of the groups that leave move. */
    method LeaveBalance(gids: seq<nat>) returns (ok: bool)
      requires gids != [] && shards.Length <= MAX_SHARDS
      modifies this, shards
      ensures !ok ==> shards[..] == old(shards[..]) && num == old(num)
      ensures ok ==> groups == old(groups) - (set g | g in gids) && num == old(num) + 1
                     && shards[..] == Rebalanced(old(shards[..]), groups.Keys)
      ensures ok && groups != map[] ==> Members(shards[..], groups.Keys) && Balanced(shards[..], groups.Keys)
      ensures ok && groups != map[] && Balanced(old(shards[..]), old(groups).Keys) ==>
                forall s :: 0 <= s < shards.Length && old(shards[..])[s] in groups ==> shards[s] == old(shards[..])[s]
    {
      ok := Leave(gids);
      if !ok {
        return;
      }
      ghost var was := shards[..];
      Rebalance();
      if groups != map[] {
        var g :| g in groups;
        assert g in groups.Keys;
        RebalanceBalances(was, groups.Keys);
        var departed := set g | g in gids;
        assert groups.Keys == old(groups).Keys - departed;
        if Balanced(was, old(groups).Keys) {
          LeaveMovesOnlyDeparted(was, old(groups).Keys, departed);
          forall s | 0 <= s < shards.Length && was[s] in groups ensures shards[s] == was[s] {
            assert shards[s] == shards[..][s];
          }
        }
      }
    }
  }
}
