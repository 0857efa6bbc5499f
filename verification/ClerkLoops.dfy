/**
 The retry loops of the four clerks. What the network does is given as the results of successive
 calls; each loop stops at the first definite answer and turns `ErrVersion` into `ErrMaybe` if an
 earlier attempt may have been executed, as `Clerks.ClerkAnswer` says.
 */
module ClerkLoops {
  import opened KvStore
  import opened Clerks

  /** One `Call`: no reply, or a reply. */
  datatype Result = Lost | Got(err: Err)

  /** An answer that ends a Put. */
  predicate Final(r: Result) {
    r.Got? && (r.err == OK || r.err == ErrNoKey || r.err == ErrVersion)
  }

  /** Call number k is the first that ends the Put, and `err` is what the client must be told:
      earlier attempts, and only they, make a version mismatch ambiguous. */
  predicate Decides(results: seq<Result>, k: nat, err: Err) {
    && k < |results| && Final(results[k])
    && (forall j :: 0 <= j < k ==> !Final(results[j]))
    && PutReply(err) == ClerkAnswer(PutReply(results[k].err), k > 0)
  }

  // ---------- The clerk of the single server ----------

  /** The server always answers definitely, so only lost calls are repeated. */
  method PutOne(results: seq<Result>) returns (err: Err, k: nat)
    requires exists i :: 0 <= i < |results| && Final(results[i])
    requires forall i :: 0 <= i < |results| && results[i].Got? ==> Final(results[i])
    ensures Decides(results, k, err)
  {
    var resent := false;
    k := 0;
    while true
      invariant k < |results| && (resent <==> k > 0)
      invariant forall j :: 0 <= j < k ==> !Final(results[j])
      decreases |results| - k
    {
      if results[k].Got? {
        if results[k].err == ErrVersion && resent {
          return ErrMaybe, k;
        }
        return results[k].err, k;
      }
      resent := true;
      k := k + 1;
    }
  }

  /** A Get returns the first answer there is. */
  method GetOne(results: seq<Result>) returns (err: Err, k: nat)
    requires exists i :: 0 <= i < |results| && results[i].Got?
    ensures k < |results| && results[k] == Got(err) && forall j :: 0 <= j < k ==> results[j] == Lost
  {
    k := 0;
    while !results[k].Got?
      invariant k < |results| && forall j :: 0 <= j < k ==> results[j] == Lost
      decreases |results| - k
    {
      k := k + 1;
    }
    err := results[k].err;
  }

  // ---------- The clerk of a replicated server ----------

  /** `kvraft`: rounds over the servers, starting with the last known leader. Call number k goes
      to server (leader + k) mod n. */
  class RaftClerk {
    const servers: nat
    var leader: nat

    ghost predicate Valid()
      reads this
    {
      leader < servers
    }

    constructor (servers: nat)
      requires servers >= 1
      ensures Valid() && leader == 0 && this.servers == servers
    {
      this.servers, leader := servers, 0;
    }

    method Put(results: seq<Result>) returns (err: Err, k: nat)
      requires Valid() && exists i :: 0 <= i < |results| && Final(results[i])
      modifies this
      ensures Valid() && Decides(results, k, err)
      ensures leader == (old(leader) + k % servers) % servers
    {
      var resent := false;
      k := 0;
      while true
        invariant Valid() && leader == old(leader) && k < |results| && k % servers == 0 && (resent <==> k > 0)
        invariant forall j :: 0 <= j < k ==> !Final(results[j])
        decreases |results| - k
      {
        ghost var base := k;
        var i := 0;
        while i < servers
          invariant 0 <= i <= servers && k == base + i && k < |results|
          invariant Valid() && leader == old(leader) && (resent <==> k > 0)
          invariant forall j :: 0 <= j < k ==> !Final(results[j])
        {
          var s := (leader + i) % servers;
          Position(base, i, servers);
          if results[k] == Got(ErrVersion) {
            leader := s;
            if resent {
              return ErrMaybe, k;
            }
            return ErrVersion, k;
          }
          if results[k] == Got(OK) || results[k] == Got(ErrNoKey) {
            leader := s;
            return results[k].err, k;
          }
          resent := true;
          k := k + 1;
          i := i + 1;
        }
        NextRound(base, servers);
      }
    }

    /** The same for a Get, which has no ambiguous answers. */
    method Get(results: seq<Result>) returns (err: Err, k: nat)
      requires Valid() && exists i :: 0 <= i < |results| && (results[i] == Got(OK) || results[i] == Got(ErrNoKey))
      modifies this
      ensures Valid() && k < |results| && results[k] == Got(err) && (err == OK || err == ErrNoKey)
      ensures forall j :: 0 <= j < k ==> results[j] != Got(OK) && results[j] != Got(ErrNoKey)
      ensures leader == (old(leader) + k % servers) % servers
    {
      k := 0;
      while true
        invariant Valid() && leader == old(leader) && k < |results| && k % servers == 0
        invariant forall j :: 0 <= j < k ==> results[j] != Got(OK) && results[j] != Got(ErrNoKey)
        decreases |results| - k
      {
        ghost var base := k;
        var i := 0;
        while i < servers
          invariant 0 <= i <= servers && k == base + i && k < |results|
          invariant Valid() && leader == old(leader)
          invariant forall j :: 0 <= j < k ==> results[j] != Got(OK) && results[j] != Got(ErrNoKey)
        {
          Position(base, i, servers);
          if results[k] == Got(OK) || results[k] == Got(ErrNoKey) {
            leader := (leader + i) % servers;
            return results[k].err, k;
          }
          k := k + 1;
          i := i + 1;
        }
        NextRound(base, servers);
      }
    }
  }

  lemma Position(base: nat, i: nat, n: nat)
    requires i < n && base % n == 0
    ensures (base + i) % n == i
  {
    ModUnique(base + i, base / n, n, i);
  }

  lemma NextRound(base: nat, n: nat)
    requires n >= 1 && base % n == 0
    ensures (base + n) % n == 0
  {
    ModUnique(base + n, base / n + 1, n, 0);
  }

  lemma ModUnique(x: nat, q: nat, n: nat, i: nat)
    requires i < n && x == q * n + i
    ensures x % n == i
  {
    var p := x / n;
    if p > q {
      TimesMonotone(q + 1, p, n);
    } else if p < q {
      TimesMonotone(p + 1, q, n);
    }
  }

  lemma {:induction false} TimesMonotone(a: nat, b: nat, n: nat)
    requires a <= b
    ensures a * n <= b * n
  {
  }

  // ---------- The clerks of the sharded store ----------

  /** Some server answered in the round that begins with call b. */
  predicate Replied(results: seq<Result>, n: nat, b: nat) {
    exists j {:trigger results[j]} :: b <= j < b + n && j < |results| && results[j].Got?
  }

  /** No round that ended before call k went without any reply. */
  ghost predicate AllReplied(results: seq<Result>, n: nat, k: nat) {
    n >= 1 && forall b: nat {:trigger Replied(results, n, b)} :: b % n == 0 && b + n <= k ==> Replied(results, n, b)
  }

  lemma OneMoreRound(results: seq<Result>, n: nat, base: nat)
    requires n >= 1 && base % n == 0 && AllReplied(results, n, base) && Replied(results, n, base)
    ensures AllReplied(results, n, base + n)
  {
    forall b: nat | b % n == 0 && b + n <= base + n ensures Replied(results, n, b) {
      if b < base {
        RoundsApart(b, base, n);
      }
    }
  }

  lemma WithinRound(results: seq<Result>, n: nat, base: nat, k: nat)
    requires n >= 1 && base % n == 0 && AllReplied(results, n, base) && base <= k < base + n
    ensures AllReplied(results, n, k)
  {
    forall b: nat | b % n == 0 && b + n <= k ensures Replied(results, n, b) {
      assert b < base;
      RoundsApart(b, base, n);
    }
  }

  /** Rounds do not overlap. */
  lemma RoundsApart(b: nat, c: nat, n: nat)
    requires n >= 1 && b % n == 0 && c % n == 0 && b < c
    ensures b + n <= c
  {
    var p, q := b / n, c / n;
    assert b == p * n && c == q * n;
    if q <= p {
      TimesMonotone(q, p, n);
    }
    TimesMonotone(p + 1, q, n);
  }

  /** How a call of a shard group's clerk ends: with an answer, or with ErrWrongGroup because a
      server said so or because a whole round had no reply. */
  ghost predicate GroupEnds(results: seq<Result>, n: nat, used: nat, err: Err) {
    && 1 <= used <= |results|
    && (forall j :: 0 <= j < used - 1 ==> !Final(results[j]) && results[j] != Got(ErrWrongGroup))
    && AllReplied(results, n, used - 1)
    && if err == ErrWrongGroup then
         || results[used - 1] == Got(ErrWrongGroup)
         || (results[used - 1] == Lost && used >= n && used % n == 0 && forall j :: used - n <= j < used ==> results[j] == Lost)
       else Decides(results[..used], used - 1, err)
  }

  class GroupClerk {
    const servers: nat
    var leader: nat

    ghost predicate Valid()
      reads this
    {
      leader < servers
    }

    constructor (servers: nat)
      requires servers >= 1
      ensures Valid() && leader == 0 && this.servers == servers
    {
      this.servers, leader := servers, 0;
    }

    /** `shardgrp.Clerk.Put`. */
    method Put(results: seq<Result>) returns (err: Err, used: nat)
      requires Valid() && exists i :: 0 <= i < |results| && (Final(results[i]) || results[i] == Got(ErrWrongGroup))
      modifies this
      ensures Valid() && GroupEnds(results, servers, used, err)
      ensures leader == if results[used - 1] == Lost then old(leader) else (old(leader) + (used - 1) % servers) % servers
    {
      var resent := false;
      var k := 0;
      while true
        invariant Valid() && leader == old(leader) && k % servers == 0 && k < |results| && (resent <==> k > 0)
        invariant forall j :: 0 <= j < k ==> !Final(results[j]) && results[j] != Got(ErrWrongGroup)
        invariant AllReplied(results, servers, k)
        decreases |results| - k
      {
        var reached := false;
        ghost var base := k;
        var i := 0;
        while i < servers
          invariant 0 <= i <= servers && k == base + i && k < |results|
          invariant Valid() && leader == old(leader) && (resent <==> k > 0)
          invariant !reached ==> forall j :: base <= j < k ==> results[j] == Lost
          invariant reached ==> Replied(results, servers, base)
          invariant forall j :: 0 <= j < k ==> !Final(results[j]) && results[j] != Got(ErrWrongGroup)
        {
          var s := (leader + i) % servers;
          Position(base, i, servers);
          WithinRound(results, servers, base, k);
          if results[k] == Lost {
            resent := true;
          } else {
            reached := true;
            assert Replied(results, servers, base);
            assert results[..k + 1][k] == results[k];
            if results[k].err == ErrWrongGroup {
              leader := s;
              return ErrWrongGroup, k + 1;
            }
            if results[k].err == ErrVersion {
              leader := s;
              if resent {
                return ErrMaybe, k + 1;
              }
              return ErrVersion, k + 1;
            }
            if results[k].err == OK || results[k].err == ErrNoKey {
              leader := s;
              return results[k].err, k + 1;
            }
            resent := true;
          }
          k := k + 1;
          i := i + 1;
        }
        NextRound(base, servers);
        if !reached {
          WithinRound(results, servers, base, k - 1);
          return ErrWrongGroup, k;
        }
        OneMoreRound(results, servers, base);
      }
    }

    /** `Get`, `FreezeShard`, `InstallShard` and `DeleteShard`: repeated without harm until a server
        answers definitely, or none in a whole round. `definite` are the errors that end the call
        and `nobody` is what it returns if no server answers. */
    method Ask(results: seq<Result>, definite: set<Err>, nobody: Err) returns (err: Err, used: nat)
      requires Valid() && exists i :: 0 <= i < |results| && results[i].Got? && results[i].err in definite
      modifies this
      ensures Valid() && 1 <= used <= |results|
      ensures forall j :: 0 <= j < used - 1 ==> !(results[j].Got? && results[j].err in definite)
      ensures AllReplied(results, servers, used - 1)
      ensures if results[used - 1].Got? && results[used - 1].err in definite then err == results[used - 1].err
              else err == nobody && used >= servers && used % servers == 0 && forall j :: used - servers <= j < used ==> results[j] == Lost
      ensures leader == if results[used - 1] == Lost then old(leader) else (old(leader) + (used - 1) % servers) % servers
    {
      var k := 0;
      while true
        invariant Valid() && leader == old(leader) && k % servers == 0 && k < |results|
        invariant forall j :: 0 <= j < k ==> !(results[j].Got? && results[j].err in definite)
        invariant AllReplied(results, servers, k)
        decreases |results| - k
      {
        var reached := false;
        ghost var base := k;
        var i := 0;
        while i < servers
          invariant 0 <= i <= servers && k == base + i && k < |results|
          invariant Valid() && leader == old(leader) && (!reached ==> forall j :: base <= j < k ==> results[j] == Lost)
          invariant reached ==> Replied(results, servers, base)
          invariant forall j :: 0 <= j < k ==> !(results[j].Got? && results[j].err in definite)
        {
          Position(base, i, servers);
          WithinRound(results, servers, base, k);
          if results[k].Got? {
            reached := true;
            assert Replied(results, servers, base);
            if results[k].err in definite {
              leader := (leader + i) % servers;
              return results[k].err, k + 1;
            }
          }
          k := k + 1;
          i := i + 1;
        }
        NextRound(base, servers);
        if !reached {
          WithinRound(results, servers, base, k - 1);
          return nobody, k;
        }
        OneMoreRound(results, servers, base);
      }
    }
  }

  /** The calls made in the first k rounds, one after the other. */
  function Flatten(rounds: seq<seq<Result>>): seq<Result> {
    if rounds == [] then [] else Flatten(rounds[..|rounds| - 1]) + rounds[|rounds| - 1]
  }

  /** A group that answers definitely at the end of its round; in the rounds before, no call did. */
  predicate RoundOk(r: seq<Result>, err: Err) {
    && |r| >= 1 && (forall j :: 0 <= j < |r| - 1 ==> !Final(r[j]))
    && if err == ErrWrongGroup then !Final(r[|r| - 1]) else Decides(r, |r| - 1, err)
  }

  lemma GroupRound(results: seq<Result>, n: nat, used: nat, err: Err)
    requires GroupEnds(results, n, used, err)
    ensures RoundOk(results[..used], err)
  {
  }

  /** `shardkv.Clerk.Put`: ask the group that the configuration names, and another one after
      `ErrWrongGroup`. `rounds[r]` are the calls that round r makes and `errs[r]` what the group's
      clerk returned for it. Over all groups together the answer is as for one server: from the
      first definite answer, and ambiguous if any attempt, at any group, came before it. */
  method PutSharded(rounds: seq<seq<Result>>, errs: seq<Err>) returns (err: Err, r: nat)
    requires |errs| == |rounds| && forall i :: 0 <= i < |rounds| ==> RoundOk(rounds[i], errs[i])
    requires exists i :: 0 <= i < |errs| && errs[i] != ErrWrongGroup
    ensures r < |rounds| && errs[r] != ErrWrongGroup && forall i :: 0 <= i < r ==> errs[i] == ErrWrongGroup
    ensures var all := Flatten(rounds[..r + 1]); |all| >= 1 && Decides(all, |all| - 1, err)
  {
    var resent := false;
    r := 0;
    while true
      invariant r < |rounds| && (resent <==> r > 0)
      invariant forall i :: 0 <= i < r ==> errs[i] == ErrWrongGroup
      decreases |rounds| - r
    {
      err := errs[r];
      assert RoundOk(rounds[r], errs[r]);
      if err == ErrWrongGroup {
        resent := true;
        r := r + 1;
      } else {
        Rounds(rounds, errs, r);
        assert rounds[..r + 1][..r] == rounds[..r];
        if err == ErrVersion && resent {
          return ErrMaybe, r;
        }
        return err, r;
      }
    }
  }

  /** `shardkv.Clerk.Get`: the first answer that is not ErrWrongGroup. */
  method GetSharded(errs: seq<Err>) returns (err: Err, r: nat)
    requires exists i :: 0 <= i < |errs| && errs[i] != ErrWrongGroup
    ensures r < |errs| && err == errs[r] != ErrWrongGroup && forall i :: 0 <= i < r ==> errs[i] == ErrWrongGroup
  {
    r := 0;
    while errs[r] == ErrWrongGroup
      invariant r < |errs| && forall i :: 0 <= i < r ==> errs[i] == ErrWrongGroup
      decreases |errs| - r
    {
      r := r + 1;
    }
    err := errs[r];
  }

  /** Rounds that ended with ErrWrongGroup made attempts, none of them definite. */
  lemma {:induction false} Rounds(rounds: seq<seq<Result>>, errs: seq<Err>, r: nat)
    requires r <= |rounds| == |errs| && forall i :: 0 <= i < r ==> errs[i] == ErrWrongGroup && RoundOk(rounds[i], errs[i])
    ensures forall j :: 0 <= j < |Flatten(rounds[..r])| ==> !Final(Flatten(rounds[..r])[j])
    ensures r > 0 <==> |Flatten(rounds[..r])| > 0
  {
    if r > 0 {
      Rounds(rounds, errs, r - 1);
      assert rounds[..r][..r - 1] == rounds[..r - 1];
      assert RoundOk(rounds[r - 1], errs[r - 1]);
    }
  }
}
