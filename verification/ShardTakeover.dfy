/**
 `InitController` reads config and config_next one after the other, and other controllers may go on
 in between. Exactly when that is harmless.
 */
module ShardTakeover {
  import opened KvStore
  import opened ShardGroup
  import opened ShardMove
  import opened ShardInv
  import opened ShardSteps
  import opened ShardServe
  import opened ShardSafety
  import opened ShardAlone

  /** Process id has read config and is about to read config_next, which is ahead. */
  ghost predicate TakesOver(sys: Sys, id: nat) {
    && id < |sys.procs| && sys.procs[id].InheritNext?
    && sys.next.Some? && sys.next.value.num > sys.procs[id].cur.num
  }

  /** What clients rely on: no shard has two servers, every shard has one when no change is going on,
      and the store is what the executed requests have made of it. */
  ghost predicate Kept(sys: Sys, run: seq<Sys>, steps: seq<Step>)
    requires |run| == |steps| + 1 && sys.cur.num <= |sys.configs|
  {
    var last := run[|steps|];
    && last.cur.num <= |last.configs|
    && (forall s: ShardId, g, h :: At(last, g, s).served && At(last, h, s).served ==> g == h)
    && (last.cur.num == |last.configs| ==> Settled(last))
    && Whole(last) == Fold(Whole(sys), Executed(run, steps, |steps|))
  }

  /** All is kept however the run goes on after process id has taken over now; later takeovers by
      others are in step. */
  ghost predicate TakeoverKeeps(sys: Sys, id: nat)
    requires sys.cur.num <= |sys.configs|
  {
    forall run, steps ::
      Path(sys, run, steps) && |steps| >= 1 && steps[0] == Go(id) && AllInStep(run, steps, 1) ==> Kept(sys, run, steps)
  }

  // ---------- In step ----------

  lemma InvKeeps(sys: Sys, run: seq<Sys>, steps: seq<Step>)
    requires Inv(sys) && Path(sys, run, steps) && AllInStep(run, steps, 0)
    ensures sys.cur.num <= |sys.configs| && Kept(sys, run, steps)
  {
    hide Inv, Whole, ShardOk, Fold;
    FoldFrom(sys, run, steps, |steps|);
    var last := run[|steps|];
    ConfigsOf(last);
    forall s: ShardId, g, h | At(last, g, s).served && At(last, h, s).served ensures g == h {
      ShardFact(last, s);
      OneServer(last, s, g, h);
    }
    if last.cur.num == |last.configs| {
      forall s: ShardId ensures At(last, last.cur.shards[s], s).served {
        ShardFact(last, s);
        NothingOngoing(last, s);
      }
    }
  }

  lemma OneServer(sys: Sys, s: ShardId, g: nat, h: nat)
    requires sys.cur.num <= |sys.configs| && ShardOk(sys, s) && At(sys, g, s).served && At(sys, h, s).served
    ensures g == h
  {
  }

  lemma MayMoveKeeps(sys: Sys, id: nat)
    requires Inv(sys) && TakesOver(sys, id) && MayMove(sys, sys.procs[id].cur, sys.next.value)
    ensures sys.cur.num <= |sys.configs| && TakeoverKeeps(sys, id)
  {
    hide Inv, Kept, MayMove;
    ConfigsOf(sys);
    forall run, steps | Path(sys, run, steps) && |steps| >= 1 && steps[0] == Go(id) && AllInStep(run, steps, 1)
      ensures Kept(sys, run, steps)
    {
      assert InStep(run[0], steps[0]);
      InvKeeps(sys, run, steps);
    }
  }

  // ---------- Out of step ----------

  lemma {:induction false} ExecutedMore(r1: seq<Sys>, s1: seq<Step>, run: seq<Sys>, steps: seq<Step>, n: nat)
    requires |r1| == |s1| + 1 && |run| == |steps| + 1 && r1 <= run && s1 <= steps && n <= |steps|
    requires forall k :: |s1| <= k < n ==> !steps[k].Client?
    ensures Executed(run, steps, n) == Executed(r1, s1, if n <= |s1| then n else |s1|)
  {
    if n > 0 {
      ExecutedMore(r1, s1, run, steps, n - 1);
      if n <= |s1| {
        assert run[n - 1] == r1[n - 1] && steps[n - 1] == s1[n - 1];
      }
    }
  }

  /** Controllers go on. */
  lemma Extend(sys: Sys, r1: seq<Sys>, s1: seq<Step>, last: Sys) returns (run: seq<Sys>, steps: seq<Step>)
    requires Path(sys, r1, s1) && |s1| >= 1 && AllInStep(r1, s1, 1) && Leads(r1[|s1|], last)
    ensures Path(sys, run, steps) && |run| == |steps| + 1 && |steps| >= |s1| && steps[0] == s1[0]
    ensures AllInStep(run, steps, 1) && run[|steps|] == last
    ensures Executed(run, steps, |steps|) == Executed(r1, s1, |s1|)
  {
    hide Enabled, Apply, Executed;
    var r2, s2 :| Path(r1[|s1|], r2, s2) && Quiet(r2, s2) && r2[|s2|] == last;
    Joined(sys, r1, s1, r2, s2);
    run, steps := r1 + r2[1..], s1 + s2;
    ExecutedMore(r1, s1, run, steps, |steps|);
  }

  /** The first step of the takeover. */
  lemma Reads(sys: Sys, id: nat) returns (s1: Sys)
    requires TakesOver(sys, id)
    ensures Path(sys, [sys, s1], [Go(id)]) && AllInStep([sys, s1], [Go(id)], 1)
    ensures SameKeys(sys, s1) && s1.slots == sys.slots && Ready(s1, id)
    ensures s1.procs == sys.procs[id := NextShard(sys.procs[id].cur, sys.next.value, 0)]
    ensures Executed([sys, s1], [Go(id)], 1) == []
  {
    s1 := Apply(sys, Go(id));
  }

  /** What is known of a process that takes over. */
  lemma Facts(sys: Sys, id: nat)
    requires Inv(sys) && TakesOver(sys, id)
    ensures ConfigsOk(sys) && sys.cur.num <= |sys.configs| == sys.next.value.num && 2 <= sys.next.value.num
    ensures sys.next.value == sys.configs[|sys.configs| - 1]
    ensures Complete(sys.procs[id].cur) && Complete(sys.next.value) && NumsUpTo(sys, sys.next.value.num)
  {
    hide ShardOk, MsgOk;
    ConfigsOf(sys);
    ProcFact(sys, id);
    forall g, s: ShardId ensures At(sys, g, s).num <= |sys.configs| {
      ShardFact(sys, s);
      NumBounded(sys, g, s);
    }
  }

  lemma NumBounded(sys: Sys, g: nat, s: ShardId)
    requires sys.cur.num <= |sys.configs| && ShardOk(sys, s)
    ensures At(sys, g, s).num <= |sys.configs|
  {
  }

  /** A shard that the change moves, that has not arrived yet, and that the controller takes from
      elsewhere or not at all: two groups serve it, or it is left out of the change. */
  lemma MisplacesShard(sys: Sys, id: nat, s: ShardId) returns (run: seq<Sys>, steps: seq<Step>)
    requires Inv(sys) && TakesOver(sys, id) && sys.cur.num <= |sys.configs|
    requires var n := sys.next.value.num;
             && Moves(sys, n, s) && !Arrived(sys, n, s) && sys.procs[id].cur.shards[s] != Src(sys, n, s)
             && (InTransit(sys, s) ==> sys.procs[id].cur.shards[s] == Dst(sys, n, s))
    ensures Path(sys, run, steps) && |run| == |steps| + 1 && |steps| >= 1 && steps[0] == Go(id) && AllInStep(run, steps, 1)
    ensures !Kept(sys, run, steps)
  {
    hide Inv, Path, AllInStep, Whole, Fold, Executed, Leads, Enabled, Apply;
    var c, n := sys.procs[id].cur, sys.next.value;
    Facts(sys, id);
    ShardFact(sys, s);
    var p, d := Src(sys, n.num, s), Dst(sys, n.num, s);
    StillAtSource(sys, s, n.num);
    var s1 := Reads(sys, id);
    assert NumsUpTo(s1, n.num) by { SameNums(sys, s1, n.num); }
    var s2 := MoveAll(s1, id, c, n, 0);
    SameSlot(sys, s1, p, s);
    SameSlot(sys, s1, d, s);
    if c.shards[s] != d {
      run, steps := Extend(sys, [sys, s1], [Go(id)], s2);
      assert At(s2, p, s).served && At(s2, d, s).served;
      assert run[|steps|] == s2;
    } else {
      var s3 := PublishAlone(s2, id, n);
      LeadsTwice(s1, s2, s3);
      run, steps := Extend(sys, [sys, s1], [Go(id)], s3);
      SameSlot(s2, s3, d, s);
      assert run[|steps|] == s3 && !At(s3, s3.cur.shards[s], s).served;
    }
  }

  lemma SameSlot(a: Sys, b: Sys, g: nat, s: ShardId)
    requires a.slots == b.slots
    ensures At(a, g, s) == At(b, g, s)
  {
  }

  lemma SameNums(a: Sys, b: Sys, n: nat)
    requires a.slots == b.slots && NumsUpTo(a, n)
    ensures NumsUpTo(b, n)
  {
    forall g, s ensures At(b, g, s) == At(a, g, s) {}
  }

  lemma StillAtSource(sys: Sys, s: ShardId, n: nat)
    requires ConfigsOk(sys) && sys.cur.num <= |sys.configs| == n && ShardOk(sys, s)
    requires Moves(sys, n, s) && !Arrived(sys, n, s)
    ensures sys.cur.num == n - 1 && !At(sys, Dst(sys, n, s), s).served && Holder(sys, s) == Src(sys, n, s)
    ensures !InTransit(sys, s) ==> At(sys, Src(sys, n, s), s).served
    ensures At(sys, Dst(sys, n, s), s).num < n
  {
    if n <= sys.cur.num {
      PastFact(sys, n, s);
    }
  }

  lemma Differ(a: Store, b: Store) returns (k: string)
    requires a != b
    ensures (k in a || k in b) && !Same(a, b, k)
  {
    if k' :| k' in a && !Same(a, b, k') {
      k := k';
    } else if k' :| k' in b && k' !in a {
      k := k';
    } else {
      assert false;
    }
  }

  /** Two maps say the same about a key. */
  ghost predicate Same(a: Store, b: Store, k: string) {
    (k in a <==> k in b) && (k in a ==> a[k] == b[k])
  }

  /** A Put that the shard's server accepts and that makes its copy differ from another. */
  function Fresh(m: Store, k: string): Request {
    Put(k, "", if k in m then m[k].version else 0)
  }

  lemma FreshWrites(m: Store, k: string)
    ensures DoOp(m, Fresh(m, k)).0 != m
  {
    var m' := DoOp(m, Fresh(m, k)).0;
    assert k in m' && (k in m ==> m'[k] != m[k]);
  }

  lemma WholeAt(sys: Sys, s: ShardId, k: string)
    requires sys.cur.num <= |sys.configs| && (forall t: ShardId :: PlacedOk(sys, t)) && sys.shardOf(k) == s
    ensures Same(Whole(sys), Contents(sys, s), k)
  {
    hide PlacedOk, Contents;
    MergeAt(sys, NSHARDS, k);
  }

  lemma PutSame(a: Store, b: Store, req: Request, k: string)
    requires Same(a, b, k) && Same(a, b, req.key)
    ensures Same(DoOp(a, req).0, DoOp(b, req).0, k)
  {
  }

  /** After `steps`, x is the controller's state at its first shard, g's copy of shard s is not what b
      has of it, and the store is still what the executed requests make of it. */
  ghost predicate Ahead(sys: Sys, id: nat, s: ShardId, steps: seq<Step>, run: seq<Sys>, x: Sys) {
    && Path(sys, run, steps) && |run| == |steps| + 1 && |steps| >= 1 && steps[0] == Go(id) && AllInStep(run, steps, 1)
    && run[|steps|] == x && SameKeys(sys, x) && Ready(x, id) && id < |sys.procs| && sys.procs[id].InheritNext? && sys.next.Some?
    && x.procs == sys.procs[id := NextShard(sys.procs[id].cur, sys.next.value, 0)]
    && sys.cur.num <= |sys.configs| && (forall t: ShardId :: PlacedOk(x, t))
    && OnlyWritten(sys, x, s)
    && At(x, sys.cur.shards[s], s).data != At(sys, sys.procs[id].cur.shards[s], s).data
    && (forall k :: sys.shardOf(k) == s ==>
          Same(Fold(Whole(sys), Executed(run, steps, |steps|)), At(x, sys.cur.shards[s], s).data, k))
  }

  /** Only the data of shard s at its server may have changed. */
  ghost predicate OnlyWritten(a: Sys, b: Sys, s: ShardId) {
    && (forall g, t: ShardId {:trigger At(b, g, t)} :: g != a.cur.shards[s] || t != s ==> At(b, g, t) == At(a, g, t))
    && At(b, a.cur.shards[s], s).num == At(a, a.cur.shards[s], s).num
  }

  /** The controller reads, and nobody writes. */
  lemma JustReads(sys: Sys, id: nat, s: ShardId) returns (steps: seq<Step>, run: seq<Sys>, x: Sys)
    requires Inv(sys) && TakesOver(sys, id) && sys.cur.num <= |sys.configs|
    requires At(sys, sys.cur.shards[s], s).served
    requires At(sys, sys.cur.shards[s], s).data != At(sys, sys.procs[id].cur.shards[s], s).data
    ensures Ahead(sys, id, s, steps, run, x)
  {
    hide Inv, Path, AllInStep, Whole, Fold, NextShard, Pending;
    ShardFact(sys, s);
    AllPlaced(sys);
    HolderServes(sys, s, sys.cur.shards[s]);
    x := Reads(sys, id);
    run, steps := [sys, x], [Go(id)];
    forall g, t: ShardId ensures At(x, g, t) == At(sys, g, t) { SameSlot(sys, x, g, t); }
    forall t: ShardId ensures PlacedOk(x, t) { assert PlacedOk(sys, t); }
    FoldNothing(Whole(sys));
    forall k | sys.shardOf(k) == s ensures Same(Whole(sys), At(x, sys.cur.shards[s], s).data, k) { WholeAt(sys, s, k); }
  }

  /** The controller reads, and then a client writes to the shard. */
  lemma ReadsAndWrites(sys: Sys, id: nat, s: ShardId, key: string) returns (steps: seq<Step>, run: seq<Sys>, x: Sys)
    requires Inv(sys) && TakesOver(sys, id) && sys.cur.num <= |sys.configs| && sys.shardOf(key) == s
    requires At(sys, sys.cur.shards[s], s).served
    requires At(sys, sys.cur.shards[s], s).data == At(sys, sys.procs[id].cur.shards[s], s).data
    ensures Ahead(sys, id, s, steps, run, x)
  {
    hide Inv, Path, AllInStep, Whole, Fold, NextShard, Pending, DoOp, PlacedOk;
    var p := sys.cur.shards[s];
    var m := At(sys, p, s).data;
    ShardFact(sys, s);
    AllPlaced(sys);
    HolderServes(sys, s, p);
    var s1 := Reads(sys, id);
    var req := Fresh(m, key);
    FreshWrites(m, key);
    x := Apply(s1, Client(p, req));
    run, steps := [sys, s1] + [s1, x][1..], [Go(id)] + [Client(p, req)];
    assert Path(s1, [s1, x], [Client(p, req)]) && AllInStep([s1, x], [Client(p, req)], 0) by { OneStep(s1, Client(p, req)); }
    Joined(sys, [sys, s1], [Go(id)], [s1, x], [Client(p, req)]);
    Written(sys, s1, x, p, s, req);
    OneExecuted(run, steps);
    OneFold(Whole(sys), req);
    forall k | sys.shardOf(k) == s ensures Same(DoOp(Whole(sys), req).0, DoOp(m, req).0, k) {
      WholeAt(sys, s, k);
      WholeAt(sys, s, key);
      PutSame(Whole(sys), m, req, k);
    }
  }

  lemma OneStep(sys: Sys, step: Step)
    requires Enabled(sys, step) && step.Client?
    ensures Path(sys, [sys, Apply(sys, step)], [step]) && AllInStep([sys, Apply(sys, step)], [step], 0)
  {
  }

  lemma Written(sys: Sys, s1: Sys, x: Sys, p: nat, s: ShardId, req: Request)
    requires s1.slots == sys.slots && s1.shardOf == sys.shardOf && s1.cur == sys.cur && sys.cur.shards[s] == p
    requires sys.shardOf(req.key) == s && x == Apply(s1, Client(p, req)) && At(sys, p, s).served
    requires forall t: ShardId :: PlacedOk(sys, t)
    ensures OnlyWritten(sys, x, s) && At(x, p, s).data == DoOp(At(sys, p, s).data, req).0
    ensures Accepted(s1, Client(p, req)) && forall t: ShardId :: PlacedOk(x, t)
  {
    forall g, t: ShardId ensures At(s1, g, t) == At(sys, g, t) { SameSlot(sys, s1, g, t); }
    forall g, t: ShardId | g != p || t != s ensures At(x, g, t) == At(sys, g, t) {}
    WritePlaced(sys, x, p, s, req);
  }

  lemma HolderServes(sys: Sys, s: ShardId, g: nat)
    requires sys.cur.num <= |sys.configs| && ShardOk(sys, s) && At(sys, g, s).served
    ensures Contents(sys, s) == At(sys, g, s).data
  {
  }

  lemma OneExecuted(run: seq<Sys>, steps: seq<Step>)
    requires |steps| == 2 && |run| == 3 && steps[0].Go? && Accepted(run[1], steps[1])
    ensures Executed(run, steps, 2) == [steps[1].req]
  {
    assert Executed(run, steps, 1) == Executed(run, steps, 0) == [];
  }

  lemma OneFold(m: Store, req: Request)
    ensures Fold(m, [req]) == DoOp(m, req).0
  {
    hide DoOp;
    FoldNothing(m);
    FoldMore(m, [], req);
    assert [] + [req] == [req];
  }

  lemma WritePlaced(a: Sys, b: Sys, p: nat, s: ShardId, req: Request)
    requires b.shardOf == a.shardOf && a.shardOf(req.key) == s && forall t: ShardId :: PlacedOk(a, t)
    requires At(b, p, s) == Exec(At(a, p, s), Kv(req)).0
    requires forall g, t: ShardId :: g != p || t != s ==> At(b, g, t) == At(a, g, t)
    ensures forall t: ShardId :: PlacedOk(b, t)
  {
    forall t: ShardId ensures PlacedOk(b, t) {
      assert PlacedOk(a, t);
    }
  }

  lemma MovedPlaced(a: Sys, b: Sys, from: Config, to: Config)
    requires b.shardOf == a.shardOf && forall t: ShardId :: PlacedOk(a, t)
    requires forall g, t: ShardId :: At(b, g, t) == if from.shards[t] != to.shards[t] then Moved(a, from, to, t, g) else At(a, g, t)
    ensures forall t: ShardId :: PlacedOk(b, t)
  {
    forall t: ShardId ensures PlacedOk(b, t) {
      assert PlacedOk(a, t);
      assert At(a, from.shards[t], t).data == At(a, from.shards[t], t).data;
    }
  }

  /** The takeover goes on to the end of its moves. */
  lemma Replaces(sys: Sys, id: nat, s: ShardId, steps1: seq<Step>, run1: seq<Sys>, x: Sys)
    returns (run: seq<Sys>, steps: seq<Step>, y: Sys)
    requires Inv(sys) && TakesOver(sys, id) && Ahead(sys, id, s, steps1, run1, x)
    requires sys.cur.num <= |sys.configs| && !Moves(sys, sys.next.value.num, s) && 2 <= sys.next.value.num <= |sys.configs|
    requires sys.procs[id].cur.shards[s] != sys.cur.shards[s]
    ensures Path(sys, run, steps) && |run| == |steps| + 1 && |steps| >= 1 && steps[0] == Go(id) && AllInStep(run, steps, 1)
    ensures run[|steps|] == y && SameKeys(sys, y) && Executed(run, steps, |steps|) == Executed(run1, steps1, |steps1|)
    ensures At(y, sys.cur.shards[s], s).data == At(sys, sys.procs[id].cur.shards[s], s).data && forall t: ShardId :: PlacedOk(y, t)
  {
    hide Inv, Path, AllInStep, Whole, Fold, Executed, Leads, Enabled, Apply, DoOp, NextShard, Pending, PlacedOk, Same;
    var c, n := sys.procs[id].cur, sys.next.value;
    Facts(sys, id);
    ShardFact(sys, s);
    NotMoving(sys, s);
    assert NumsUpTo(x, n.num) by {
      forall g, t: ShardId ensures At(x, g, t).num <= n.num {
        assert At(sys, g, t).num <= n.num;
      }
    }
    y := MoveAll(x, id, c, n, 0);
    run, steps := Extend(sys, run1, steps1, y);
    assert At(y, sys.cur.shards[s], s) == Moved(x, c, n, s, sys.cur.shards[s]);
    MovedPlaced(x, y, c, n);
  }

  /** A shard that the change does not move, and that the controller takes from elsewhere: its contents
      are replaced by what is left there. */
  lemma LosesContents(sys: Sys, id: nat, s: ShardId, key: string) returns (run: seq<Sys>, steps: seq<Step>)
    requires Inv(sys) && TakesOver(sys, id) && sys.cur.num <= |sys.configs| && sys.shardOf(key) == s
    requires var n := sys.next.value.num;
             2 <= n <= |sys.configs| && !Moves(sys, n, s) && sys.procs[id].cur.shards[s] != Src(sys, n, s)
    ensures Path(sys, run, steps) && |run| == |steps| + 1 && |steps| >= 1 && steps[0] == Go(id) && AllInStep(run, steps, 1)
    ensures !Kept(sys, run, steps)
    ensures run[|steps|].cur.num <= |run[|steps|].configs| && Whole(run[|steps|]) != Fold(Whole(sys), Executed(run, steps, |steps|))
  {
    hide Inv, Path, AllInStep, Whole, Fold, Executed, NextShard, Pending;
    var b, p := sys.procs[id].cur.shards[s], sys.cur.shards[s];
    Facts(sys, id);
    ShardFact(sys, s);
    NotMoving(sys, s);
    var steps1, run1, x;
    if At(sys, p, s).data != At(sys, b, s).data {
      steps1, run1, x := JustReads(sys, id, s);
    } else {
      steps1, run1, x := ReadsAndWrites(sys, id, s, key);
    }
    var y;
    run, steps, y := Replaces(sys, id, s, steps1, run1, x);
    var k := Differ(At(x, p, s).data, At(y, p, s).data);
    StaysHolder(sys, y, s);
    assert PlacedOk(x, s) && PlacedOk(y, s);
    WholeAt(y, s, k);
    assert Same(Fold(Whole(sys), Executed(run1, steps1, |steps1|)), At(x, p, s).data, k);
  }

  lemma NotMoving(sys: Sys, s: ShardId)
    requires ConfigsOk(sys) && sys.cur.num <= |sys.configs| && ShardOk(sys, s)
    requires 2 <= |sys.configs| && !Moves(sys, |sys.configs|, s)
    ensures var p := sys.cur.shards[s];
            && p == Src(sys, |sys.configs|, s) == Dst(sys, |sys.configs|, s)
            && At(sys, p, s).served && At(sys, p, s).num < |sys.configs|
  {
    assert At(sys, sys.cur.shards[s], s).num <= |sys.configs|;
  }

  lemma StaysHolder(sys: Sys, y: Sys, s: ShardId)
    requires SameKeys(sys, y) && 2 <= |sys.configs| && !Moves(sys, |sys.configs|, s) && sys.cur.num <= |sys.configs|
    ensures Contents(y, s) == At(y, sys.cur.shards[s], s).data
  {
  }

  /** A shard in transit that the controller takes from elsewhere: what is left there arrives instead. */
  lemma LosesTransit(sys: Sys, id: nat, s: ShardId) returns (run: seq<Sys>, steps: seq<Step>)
    requires Inv(sys) && TakesOver(sys, id) && sys.cur.num <= |sys.configs|
    requires var (c, n) := (sys.procs[id].cur, sys.next.value.num);
             && Moves(sys, n, s) && !Arrived(sys, n, s) && c.shards[s] != Src(sys, n, s) && c.shards[s] != Dst(sys, n, s)
             && At(sys, c.shards[s], s).data != At(sys, Src(sys, n, s), s).data
    ensures Path(sys, run, steps) && |run| == |steps| + 1 && |steps| >= 1 && steps[0] == Go(id) && AllInStep(run, steps, 1)
    ensures !Kept(sys, run, steps)
  {
    hide Inv, Path, AllInStep, Whole, Fold, Executed, Leads, Enabled, Apply, NextShard, Pending, PlacedOk;
    var c, n := sys.procs[id].cur, sys.next.value;
    Facts(sys, id);
    ShardFact(sys, s);
    AllPlaced(sys);
    var p, d := Src(sys, n.num, s), Dst(sys, n.num, s);
    StillAtSource(sys, s, n.num);
    var s1 := Reads(sys, id);
    assert NumsUpTo(s1, n.num) by { SameNums(sys, s1, n.num); }
    forall t: ShardId ensures PlacedOk(s1, t) { SamePlaced(sys, s1, t); }
    SameSlot(sys, s1, d, s);
    SameSlot(sys, s1, c.shards[s], s);
    var y := MoveAll(s1, id, c, n, 0);
    run, steps := Extend(sys, [sys, s1], [Go(id)], y);
    assert At(y, d, s) == Moved(s1, c, n, s, d) == ShardState(At(sys, c.shards[s], s).data, true, n.num);
    MovedPlaced(s1, y, c, n);
    FoldNothing(Whole(sys));
    var k := Differ(At(sys, p, s).data, At(y, d, s).data);
    assert sys.shardOf(k) == s by { KeyOf(sys, p, s, k); KeyOf(y, d, s, k); }
    WholeAt(y, s, k);
    WholeAt(sys, s, k);
    ArrivedContents(sys, y, s);
  }

  lemma SamePlaced(a: Sys, b: Sys, t: ShardId)
    requires a.slots == b.slots && a.shardOf == b.shardOf && PlacedOk(a, t)
    ensures PlacedOk(b, t)
  {
    forall g ensures At(b, g, t) == At(a, g, t) {}
  }

  lemma KeyOf(sys: Sys, g: nat, s: ShardId, k: string)
    requires PlacedOk(sys, s)
    ensures k in At(sys, g, s).data ==> sys.shardOf(k) == s
  {
  }

  lemma ArrivedContents(sys: Sys, y: Sys, s: ShardId)
    requires SameKeys(sys, y) && sys.cur.num == |sys.configs| - 1 && Moves(sys, |sys.configs|, s)
    requires At(y, Dst(sys, |sys.configs|, s), s).num == |sys.configs| && Holder(sys, s) == Src(sys, |sys.configs|, s)
    ensures Contents(y, s) == At(y, Dst(sys, |sys.configs|, s), s).data
    ensures Contents(sys, s) == At(sys, Src(sys, |sys.configs|, s), s).data
  {
  }

  // ---------- Exactly when ----------

  /** A request that is still on its way changes what the group has left of the shard. */
  ghost predicate Changes(sys: Sys, g: nat, s: ShardId, op: ShardOp) {
    Ask(g, s, op) in sys.net && Exec(At(sys, g, s), op).0.data != At(sys, g, s).data
  }

  /** What a group has left of a shard in transit is told apart from the shard's contents, or may come
      to be by a late request. */
  ghost predicate Telling(sys: Sys, id: nat)
    requires TakesOver(sys, id) && sys.cur.num <= |sys.configs|
  {
    var (c, n) := (sys.procs[id].cur, |sys.configs|);
    forall s: ShardId :: InTransit(sys, s) && c.shards[s] != Src(sys, n, s) && c.shards[s] != Dst(sys, n, s) ==>
      At(sys, c.shards[s], s).data != At(sys, Src(sys, n, s), s).data || exists op :: Changes(sys, c.shards[s], s, op)
  }

  lemma {:induction false} ExecutedLater(run: seq<Sys>, steps: seq<Step>, r1: seq<Sys>, s1: seq<Step>, n: nat)
    requires |run| == |steps| + 1 == |r1| + 1 == |s1| + 2 && 1 <= n <= |s1|
    requires !steps[0].Client? && !steps[1].Client? && !s1[0].Client?
    requires (forall k :: 1 <= k < |s1| ==> steps[k + 1] == s1[k]) && forall k :: 1 <= k < |r1| ==> run[k + 1] == r1[k]
    ensures Executed(run, steps, n + 1) == Executed(r1, s1, n)
  {
    if n == 1 {
      assert Executed(run, steps, 1) == Executed(run, steps, 0) + [];
      assert Executed(r1, s1, 1) == Executed(r1, s1, 0) + [];
    } else {
      ExecutedLater(run, steps, r1, s1, n - 1);
    }
  }

  /** Reading the configurations and executing an old request at a group do not depend on each other. */
  lemma ReadThenServe(sys: Sys, id: nat, m: Msg)
    requires id < |sys.procs| && m in sys.net && m.Ask?
    ensures Enabled(sys, Go(id)) && Enabled(Apply(sys, Go(id)), Serve(m)) && Enabled(sys, Serve(m)) && Enabled(Apply(sys, Serve(m)), Go(id))
    ensures Apply(Apply(sys, Go(id)), Serve(m)) == Apply(Apply(sys, Serve(m)), Go(id))
  {
    hide NextShard, Exec, SawCurrent, SawNext;
    var a, b := Apply(Apply(sys, Go(id)), Serve(m)), Apply(Apply(sys, Serve(m)), Go(id));
    SameSlot(sys, Apply(sys, Go(id)), m.g, m.s);
    assert a.net == b.net;
  }

  /** The takeover reads, then a late request changes what the group has left, and that arrives. */
  lemma LosesLater(sys: Sys, id: nat, s: ShardId, op: ShardOp) returns (run: seq<Sys>, steps: seq<Step>)
    requires Inv(sys) && TakesOver(sys, id) && sys.cur.num <= |sys.configs|
    requires var (c, n) := (sys.procs[id].cur, sys.next.value.num);
             && Moves(sys, n, s) && !Arrived(sys, n, s) && c.shards[s] != Src(sys, n, s) && c.shards[s] != Dst(sys, n, s)
             && At(sys, c.shards[s], s).data == At(sys, Src(sys, n, s), s).data && Changes(sys, c.shards[s], s, op)
    ensures Path(sys, run, steps) && |run| == |steps| + 1 && |steps| >= 1 && steps[0] == Go(id) && AllInStep(run, steps, 1)
    ensures !Kept(sys, run, steps)
  {
    hide Inv, Whole, Fold, Executed, Exec, NextShard, Pending, InStep;
    var m := Ask(sys.procs[id].cur.shards[s], s, op);
    var sys1 := Apply(sys, Serve(m));
    Facts(sys, id);
    NotGo(sys, m);
    InvKept(sys, Serve(m));
    StepRefines(sys, Serve(m));
    LeftChanged(sys, sys1, id, s, op);
    var r1, s1 := LosesTransit(sys1, id, s);
    ReadThenServe(sys, id, m);
    run, steps := [sys, Apply(sys, Go(id))] + r1[1..], [Go(id), Serve(m)] + s1[1..];
    LaterPath(sys, id, m, r1, s1);
    ExecutedLater(run, steps, r1, s1, |s1|);
    assert run[|steps|] == r1[|s1|];
  }

  lemma NotGo(sys: Sys, m: Msg)
    ensures InStep(sys, Serve(m))
  {
  }

  lemma LeftChanged(sys: Sys, sys1: Sys, id: nat, s: ShardId, op: ShardOp)
    requires TakesOver(sys, id) && sys.cur.num <= |sys.configs| == sys.next.value.num
    requires var (c, n) := (sys.procs[id].cur, sys.next.value.num);
             && Moves(sys, n, s) && !Arrived(sys, n, s) && c.shards[s] != Src(sys, n, s) && c.shards[s] != Dst(sys, n, s)
             && At(sys, c.shards[s], s).data == At(sys, Src(sys, n, s), s).data && Changes(sys, c.shards[s], s, op)
             && sys1 == Apply(sys, Serve(Ask(c.shards[s], s, op)))
    ensures TakesOver(sys1, id) && sys1.procs == sys.procs && sys1.next == sys.next && sys1.configs == sys.configs && sys1.cur == sys.cur
    ensures var (c, n) := (sys.procs[id].cur, sys.next.value.num);
            && Moves(sys1, n, s) && !Arrived(sys1, n, s) && Src(sys1, n, s) == Src(sys, n, s) && Dst(sys1, n, s) == Dst(sys, n, s)
            && At(sys1, c.shards[s], s).data != At(sys1, Src(sys, n, s), s).data
  {
    hide Exec;
  }

  lemma LaterPath(sys: Sys, id: nat, m: Msg, r1: seq<Sys>, s1: seq<Step>)
    requires id < |sys.procs| && m in sys.net && m.Ask? && Enabled(sys, Go(id)) && Enabled(sys, Serve(m))
    requires Enabled(Apply(sys, Go(id)), Serve(m)) && Enabled(Apply(sys, Serve(m)), Go(id))
    requires Apply(Apply(sys, Go(id)), Serve(m)) == Apply(Apply(sys, Serve(m)), Go(id))
    requires |s1| >= 1 && |r1| == |s1| + 1 && Path(Apply(sys, Serve(m)), r1, s1) && s1[0] == Go(id) && AllInStep(r1, s1, 1)
    ensures Path(sys, [sys, Apply(sys, Go(id))] + r1[1..], [Go(id), Serve(m)] + s1[1..])
    ensures AllInStep([sys, Apply(sys, Go(id))] + r1[1..], [Go(id), Serve(m)] + s1[1..], 1)
  {
    hide Enabled, Apply;
    var run, steps := [sys, Apply(sys, Go(id))] + r1[1..], [Go(id), Serve(m)] + s1[1..];
    assert r1[1] == Apply(r1[0], s1[0]);
    forall k | 0 <= k < |steps| ensures Enabled(run[k], steps[k]) && run[k + 1] == Apply(run[k], steps[k]) && (k >= 1 ==> InStep(run[k], steps[k])) {
      if k >= 2 {
        assert run[k] == r1[k - 1] && steps[k] == s1[k - 1] && run[k + 1] == r1[k - 1 + 1];
      }
    }
  }

  /** Some key belongs to the shard. */
  ghost predicate HasKey(sys: Sys, s: ShardId) {
    exists k :: sys.shardOf(k) == s
  }

  lemma OutOfStep(sys: Sys, id: nat) returns (run: seq<Sys>, steps: seq<Step>)
    requires Inv(sys) && TakesOver(sys, id) && sys.cur.num <= |sys.configs| && Telling(sys, id)
    requires forall s: ShardId :: HasKey(sys, s)
    requires !MayMove(sys, sys.procs[id].cur, sys.next.value)
    ensures Path(sys, run, steps) && |run| == |steps| + 1 && |steps| >= 1 && steps[0] == Go(id) && AllInStep(run, steps, 1)
    ensures !Kept(sys, run, steps)
  {
    hide Inv, Path, AllInStep, Kept, Whole, Fold, Executed;
    Facts(sys, id);
    var c, n := sys.procs[id].cur, sys.next.value.num;
    var s: ShardId :| c.shards[s] != Src(sys, n, s) && !(Moves(sys, n, s) && Arrived(sys, n, s));
    if !Moves(sys, n, s) {
      assert HasKey(sys, s);
      var key :| sys.shardOf(key) == s;
      run, steps := LosesContents(sys, id, s, key);
    } else if InTransit(sys, s) && c.shards[s] != Dst(sys, n, s) {
      if At(sys, c.shards[s], s).data != At(sys, Src(sys, n, s), s).data {
        run, steps := LosesTransit(sys, id, s);
      } else {
        var op :| Changes(sys, c.shards[s], s, op);
        run, steps := LosesLater(sys, id, s, op);
      }
    } else {
      run, steps := MisplacesShard(sys, id, s);
    }
  }

  /** A takeover keeps the contents and the placement of all shards, whatever happens afterwards, if and
      only if it takes each shard from where the predecessor of the new configuration places it, or
      finds it already where the new configuration wants it. */
  lemma TakeoverKeepsIff(shardOf: string -> ShardId, sys: Sys, id: nat)
    requires Reachable(shardOf, sys) && TakesOver(sys, id)
    requires forall s: ShardId :: HasKey(sys, s)
    ensures sys.cur.num <= |sys.configs|
    ensures Telling(sys, id) ==> (TakeoverKeeps(sys, id) <==> MayMove(sys, sys.procs[id].cur, sys.next.value))
    ensures MayMove(sys, sys.procs[id].cur, sys.next.value) ==> TakeoverKeeps(sys, id)
  {
    hide Inv, Kept, MayMove, Telling, Path, AllInStep;
    ReachableOk(shardOf, sys);
    ConfigsOf(sys);
    if MayMove(sys, sys.procs[id].cur, sys.next.value) {
      MayMoveKeeps(sys, id);
    } else if Telling(sys, id) {
      var run, steps := OutOfStep(sys, id);
    }
  }

  /** Before any group has seen the change, that is: if and only if the two configurations place all
      shards alike. */
  lemma UnbegunKeepsIff(shardOf: string -> ShardId, sys: Sys, id: nat)
    requires Reachable(shardOf, sys) && TakesOver(sys, id)
    requires forall s: ShardId :: HasKey(sys, s)
    requires forall g, s: ShardId {:trigger At(sys, g, s)} :: At(sys, g, s).num < sys.next.value.num
    ensures sys.cur.num <= |sys.configs| == sys.next.value.num && 2 <= |sys.configs|
    ensures TakeoverKeeps(sys, id) <==> sys.procs[id].cur.shards == sys.configs[sys.next.value.num - 2].shards
  {
    hide Inv, TakeoverKeeps;
    ReachableOk(shardOf, sys);
    Facts(sys, id);
    TakeoverKeepsIff(shardOf, sys, id);
    assert Telling(sys, id);
    var a, b := sys.procs[id].cur.shards, sys.configs[sys.next.value.num - 2].shards;
    if MayMove(sys, sys.procs[id].cur, sys.next.value) {
      forall s | 0 <= s < NSHARDS ensures a[s] == b[s] {
        var t: ShardId := s;
        assert At(sys, sys.next.value.shards[t], t).num < sys.next.value.num;
      }
    }
  }

  /** What a caller can check: the number read second follows the number read first. */
  lemma NextNumberKeeps(shardOf: string -> ShardId, sys: Sys, id: nat)
    requires Reachable(shardOf, sys) && TakesOver(sys, id) && sys.next.value.num == sys.procs[id].cur.num + 1
    ensures sys.cur.num <= |sys.configs| && TakeoverKeeps(sys, id)
  {
    hide Inv, TakeoverKeeps;
    ReachableOk(shardOf, sys);
    Facts(sys, id);
    Predecessor(sys, id);
    MayMoveKeeps(sys, id);
  }

  lemma Predecessor(sys: Sys, id: nat)
    requires Inv(sys) && TakesOver(sys, id) && sys.next.value.num == sys.procs[id].cur.num + 1
    ensures MayMove(sys, sys.procs[id].cur, sys.next.value)
  {
    hide ShardOk, MsgOk;
    ConfigsOf(sys);
    ProcFact(sys, id);
  }

  // ---------- A run ----------

  /** Configurations 2 and 3: shard 0 goes to group 2, and then shard 1. */
  function Second(): Config {
    Config(2, seq(NSHARDS, i => if i == 0 then 2 else GID1), {GID1, 2})
  }

  function Third(): Config {
    Config(3, seq(NSHARDS, i => if i == 0 || i == 1 then 2 else GID1), {GID1, 2})
  }

  /** A controller reads configuration 1, another one changes to 2 and claims 3, and then the first reads
      3. */
  lemma SkewedReads(shardOf: string -> ShardId) returns (sys: Sys)
    ensures Leads(Initial(shardOf), sys) && sys.shardOf == shardOf && TakesOver(sys, 0)
    ensures sys.procs[0].cur == Initial(shardOf).cur && sys.next == Some(Third())
    ensures sys.configs == [Initial(shardOf).cur, Second(), Third()] && NumsUpTo(sys, 2)
  {
    hide Leads, NextShard;
    var s0 := Initial(shardOf);
    LeadsStep(s0, TakeOver);
    var s1 := Apply(s0, TakeOver);
    var s2 := ReadCall(s1, 0);
    assert s2.procs == [InheritNext(s0.cur)];
    assert NumsUpTo(s2, 2) by {
      forall g, s ensures At(s2, g, s) == Start(g) {}
    }
    assert s2.configs[0].num == 1 && Enabled(s2, Change(Second()));
    var s3 := ChangeAlone(s2, Second());
    assert s3.configs[1].num == 2 && Enabled(s3, Change(Third()));
    sys := ClaimAlone(s3, Third());
    SameNums(s3, sys, 2);
    LeadsTwice(s0, s1, s2);
    LeadsTwice(s0, s2, s3);
    LeadsTwice(s0, s3, sys);
  }

  lemma SkewedMove(shardOf: string -> ShardId, sys: Sys)
    requires sys.configs == [Initial(shardOf).cur, Second(), Third()]
    ensures !Moves(sys, 3, 0) && Src(sys, 3, 0) == 2 && Initial(shardOf).cur.shards[0] == GID1
  {
  }

  lemma {:induction false} NothingExecuted(run: seq<Sys>, steps: seq<Step>, n: nat)
    requires |run| == |steps| + 1 && n <= |steps| && forall k :: 0 <= k < |steps| ==> !steps[k].Client?
    ensures Executed(run, steps, n) == []
  {
    if n > 0 {
      NothingExecuted(run, steps, n - 1);
    }
  }

  lemma {:induction false} ExecutedBehind(r0: seq<Sys>, s0: seq<Step>, r1: seq<Sys>, s1: seq<Step>, n: nat)
    requires |r0| == |s0| + 1 && |r1| == |s1| + 1 && r1[0] == r0[|s0|] && n <= |s1|
    requires forall k :: 0 <= k < |s0| ==> !s0[k].Client?
    ensures Executed(r0 + r1[1..], s0 + s1, |s0| + n) == Executed(r1, s1, n)
  {
    var run, steps := r0 + r1[1..], s0 + s1;
    if n == 0 {
      ExecutedMore(r0, s0, run, steps, |s0|);
      NothingExecuted(r0, s0, |s0|);
    } else {
      ExecutedBehind(r0, s0, r1, s1, n - 1);
      assert run[|s0| + n - 1] == r1[n - 1] && steps[|s0| + n - 1] == s1[n - 1];
    }
  }

  /** From the start, and with a single Put: the store is not what the executed requests make of it. */
  lemma SkewedTakeoverLosesData(shardOf: string -> ShardId, key: string) returns (run: seq<Sys>, steps: seq<Step>)
    requires shardOf(key) == 0
    ensures Path(Initial(shardOf), run, steps) && |run| == |steps| + 1
    ensures run[|steps|].cur.num <= |run[|steps|].configs|
    ensures Whole(run[|steps|]) != Fold(map[], Executed(run, steps, |steps|))
  {
    hide Inv, AllInStep, Whole, Fold, Executed, Enabled, Apply, Initial, InStep;
    var sys := SkewedReads(shardOf);
    var r0, s0 :| Path(Initial(shardOf), r0, s0) && Quiet(r0, s0) && r0[|s0|] == sys;
    StoreIsFold(shardOf, r0, s0, |s0|);
    NothingExecuted(r0, s0, |s0|);
    FoldNothing(map[]);
    Facts(sys, 0);
    assert !Moves(sys, 3, 0) && Src(sys, 3, 0) == 2 && sys.procs[0].cur.shards[0] == GID1 by { SkewedMove(shardOf, sys); }
    var r1, s1 := LosesContents(sys, 0, 0, key);
    Joined(Initial(shardOf), r0, s0, r1, s1);
    run, steps := r0 + r1[1..], s0 + s1;
    ExecutedBehind(r0, s0, r1, s1, |s1|);
  }
}
