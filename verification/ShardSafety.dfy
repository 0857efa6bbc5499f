/**
 The theorems about reconfiguration. They hold of every run: any number of controllers, crashed,
 paused or racing each other, and every request and answer lost, delayed or repeated.
 */
module ShardSafety {
  import opened KvStore
  import opened ShardGroup
  import opened ShardMove
  import opened ShardInv
  import opened ShardSteps
  import opened ShardServe

  lemma {:induction false} RunOk(shardOf: string -> ShardId, run: seq<Sys>)
    requires IsRun(shardOf, run)
    ensures forall k :: 0 <= k < |run| ==> Inv(run[k])
  {
    hide Inv, Initial;
    if |run| == 1 {
      InitialInv(shardOf);
    } else {
      var before := run[..|run| - 1];
      assert IsRun(shardOf, before) by {
        forall k | 0 <= k < |before| - 1 ensures Follows(before[k], before[k + 1]) {
          assert Follows(run[k], run[k + 1]);
        }
      }
      RunOk(shardOf, before);
      var last := |run| - 2;
      assert Follows(run[last], run[last + 1]);
      var step :| Enabled(run[last], step) && InStep(run[last], step) && run[last + 1] == Apply(run[last], step);
      assert Inv(before[last]);
      InvKept(run[last], step);
    }
  }

  ghost predicate Reachable(shardOf: string -> ShardId, sys: Sys) {
    exists run :: IsRun(shardOf, run) && run[|run| - 1] == sys
  }

  lemma ReachableOk(shardOf: string -> ShardId, sys: Sys)
    requires Reachable(shardOf, sys)
    ensures Inv(sys)
  {
    hide Inv;
    var run :| IsRun(shardOf, run) && run[|run| - 1] == sys;
    RunOk(shardOf, run);
  }

  // ---------- Single owner ----------

  /** In every reachable state at most one group serves a shard. */
  lemma SingleOwner(shardOf: string -> ShardId, run: seq<Sys>, k: nat, s: ShardId, g: nat, h: nat)
    requires IsRun(shardOf, run) && k < |run|
    requires At(run[k], g, s).served && At(run[k], h, s).served
    ensures g == h
  {
    hide Inv, IsRun;
    RunOk(shardOf, run);
    ConfigsOf(run[k]);
    ShardFact(run[k], s);
  }

  /** A group's number for a shard never decreases. */
  lemma NumNeverDecreases(sys: Sys, step: Step, g: nat, s: ShardId)
    requires Enabled(sys, step)
    ensures At(sys, g, s).num <= At(Apply(sys, step), g, s).num
  {
  }

  // ---------- The contents of the store ----------

  /** What counts as the contents of a shard: the copy of its holder. */
  ghost function Contents(sys: Sys, s: ShardId): Store
    requires sys.cur.num <= |sys.configs|
  {
    At(sys, Holder(sys, s), s).data
  }

  ghost function Merge(sys: Sys, n: nat): Store
    requires sys.cur.num <= |sys.configs| && n <= NSHARDS
  {
    if n == 0 then map[] else Merge(sys, n - 1) + Contents(sys, n - 1)
  }

  /** The one map from key to value and version that all groups together stand for. */
  ghost function Whole(sys: Sys): Store
    requires sys.cur.num <= |sys.configs|
  {
    Merge(sys, NSHARDS)
  }

  lemma KeysPlaced(sys: Sys, s: ShardId)
    requires sys.cur.num <= |sys.configs| && PlacedOk(sys, s)
    ensures forall k :: k in Contents(sys, s) ==> sys.shardOf(k) == s
  {
    assert At(sys, Holder(sys, s), s).data == Contents(sys, s);
  }

  lemma AllPlaced(sys: Sys)
    requires Inv(sys) && sys.cur.num <= |sys.configs|
    ensures forall s: ShardId :: PlacedOk(sys, s)
  {
    hide Inv;
    forall s: ShardId ensures PlacedOk(sys, s) {
      ShardFact(sys, s);
    }
  }

  lemma {:induction false} MergeAt(sys: Sys, n: nat, k: string)
    requires (forall s: ShardId :: PlacedOk(sys, s)) && sys.cur.num <= |sys.configs| && n <= NSHARDS
    ensures k in Merge(sys, n) <==> sys.shardOf(k) < n && k in Contents(sys, sys.shardOf(k))
    ensures k in Merge(sys, n) ==> Merge(sys, n)[k] == Contents(sys, sys.shardOf(k))[k]
  {
    hide PlacedOk, Contents;
    if n > 0 {
      MergeAt(sys, n - 1, k);
      KeysPlaced(sys, n - 1);
    }
  }

  // What executing one message does to the contents.

  lemma HolderElsewhere(sys: Sys, g: nat, s: ShardId, x: ShardState, t: ShardId)
    requires sys.cur.num <= |sys.configs| && t != s
    ensures Contents(SetSlot(sys, g, s, x), t) == Contents(sys, t)
  {
    var sys' := SetSlot(sys, g, s, x);
    SlotAt(sys, g, s, x);
    assert Holder(sys', t) == Holder(sys, t);
  }

  /** A group that is not the destination of change j gets at most its number: the holder stays. */
  lemma HolderStays(sys: Sys, g: nat, s: ShardId, j: nat, x: ShardState)
    requires ConfigsOk(sys) && sys.cur.num <= |sys.configs| && Moves(sys, j, s) && g != Dst(sys, j, s)
    requires At(sys, g, s).num <= x.num && (x.num == At(sys, g, s).num || x.num == j)
    ensures Holder(SetSlot(sys, g, s, x), s) == Holder(sys, s)
  {
    SlotAt(sys, g, s, x);
  }

  lemma AskContents(sys: Sys, g: nat, s: ShardId, op: ShardOp)
    requires ConfigsOk(sys) && sys.cur.num <= |sys.configs| && ShardOk(sys, s) && AskOk(sys, g, s, op)
    ensures Contents(SetSlot(sys, g, s, Exec(At(sys, g, s), op).0), s) == Contents(sys, s)
  {
    hide Complete, PlacedOk, NumbersOk, ConfigsOk, ShardOk, Holder;
    var x := Exec(At(sys, g, s), op).0;
    SlotAt(sys, g, s, x);
    match op {
      case Freeze(j) => HolderStays(sys, g, s, j, x);
      case Delete(j) =>
        HolderStays(sys, g, s, j, x);
        if At(sys, g, s).num <= j { NotHolder(sys, g, s, j); }
      case Install(state, j) => InstallContents(sys, g, s, j, state);
    }
  }

  lemma InstallContents(sys: Sys, g: nat, s: ShardId, j: nat, state: Store)
    requires ConfigsOk(sys) && sys.cur.num <= |sys.configs| && ShardOk(sys, s) && AskOk(sys, g, s, Install(state, j))
    ensures Contents(SetSlot(sys, g, s, Exec(At(sys, g, s), Install(state, j)).0), s) == Contents(sys, s)
  {
    hide Complete, PlacedOk, NumbersOk;
    var x := Exec(At(sys, g, s), Install(state, j)).0;
    var sys' := SetSlot(sys, g, s, x);
    SlotAt(sys, g, s, x);
    if j <= sys.cur.num {
      PastFact(sys, j, s);
    } else {
      OngoingChange(sys, j, s);
    }
    if Arrived(sys, j, s) {
      assert x == At(sys, g, s);
    } else {
      assert Holder(sys, s) == Src(sys, j, s) && Holder(sys', s) == g;
    }
  }

  lemma PutContents(sys: Sys, key: Key, to: Config, version: nat, s: ShardId)
    requires ConfigsOk(sys) && sys.cur.num <= |sys.configs| && ShardOk(sys, s) && PutOk(sys, key, to, version)
    ensures var sys' := PutConfig(sys, key, to, version).0;
            sys'.cur.num <= |sys'.configs| && Contents(sys', s) == Contents(sys, s)
  {
    var (sys', err) := PutConfig(sys, key, to, version);
    forall g ensures At(sys', g, s) == At(sys, g, s) {}
    if err == OK && key == Next {
      ClaimStep(sys, to);
      if Moves(sys', to.num, s) {
        assert At(sys, Dst(sys', to.num, s), s).num <= |sys.configs|;
      }
    } else if err == OK {
      PublishStep(sys, to);
      if Moves(sys, to.num, s) {
        assert Arrived(sys, to.num, s);
      }
    }
    assert Holder(sys', s) == Holder(sys, s);
  }

  /** Everything but a client's request leaves the contents alone: freezing, installing and
      deleting, early or late, first or repeated, claiming and publishing. In particular a late
      Install with an empty or old state never replaces newer data. */
  lemma ContentsKept(sys: Sys, step: Step)
    requires Inv(sys) && Enabled(sys, step) && InStep(sys, step) && !step.Client?
    ensures sys.cur.num <= |sys.configs| && Apply(sys, step).cur.num <= |Apply(sys, step).configs|
    ensures forall s: ShardId :: Contents(Apply(sys, step), s) == Contents(sys, s)
  {
    hide Inv, ConfigsOk, ShardOk, Contents, Read, Unreachable, Heard, Exec, PutConfig;
    var sys' := Apply(sys, step);
    InvKept(sys, step);
    ConfigsOf(sys);
    ConfigsOf(sys');
    forall s: ShardId ensures Contents(sys', s) == Contents(sys, s) {
      ShardFact(sys, s);
      if step.Serve? {
        MsgFact(sys, step.m);
        ServeContents(sys, step.m, s);
      } else {
        SameContents(sys, sys', s);
      }
    }
  }

  lemma SameContents(sys: Sys, sys': Sys, s: ShardId)
    requires SameStore(sys, sys') && sys.cur.num <= |sys.configs|
    ensures Contents(sys', s) == Contents(sys, s)
  {
    assert Holder(sys', s) == Holder(sys, s);
  }

  lemma ServeContents(sys: Sys, m: Msg, s: ShardId)
    requires Inv(sys) && sys.cur.num <= |sys.configs| && (m.Ask? || m.PutAsk?) && MsgOk(sys, m)
    ensures Execute(sys, m).cur.num <= |Execute(sys, m).configs|
    ensures Contents(Execute(sys, m), s) == Contents(sys, s)
  {
    hide Inv, ConfigsOk, ShardOk, Contents, Exec, PutConfig;
    ConfigsOf(sys);
    ShardFact(sys, s);
    if m.Ask? {
      var x := Exec(At(sys, m.g, m.s), m.op).0;
      var sys1 := SetSlot(sys, m.g, m.s, x);
      if s == m.s { AskContents(sys, m.g, m.s, m.op); } else { HolderElsewhere(sys, m.g, m.s, x, s); }
      SameContents(sys1, Execute(sys, m), s);
    } else {
      PutContents(sys, m.key, m.cfg, m.version, s);
      SameContents(PutConfig(sys, m.key, m.cfg, m.version).0, Execute(sys, m), s);
    }
  }

  /** A client's request, at whatever group. */
  lemma ClientContents(sys: Sys, g: nat, req: Request)
    requires Inv(sys) && sys.cur.num <= |sys.configs|
    ensures var s := sys.shardOf(req.key);
            var (sys', reply) := (Apply(sys, Client(g, req)), Exec(At(sys, g, s), Kv(req)).1.reply);
            && sys'.cur.num <= |sys'.configs|
            && (forall t: ShardId :: t != s ==> Contents(sys', t) == Contents(sys, t))
            && (if At(sys, g, s).served then (Contents(sys', s), reply) == DoOp(Contents(sys, s), req)
                else reply.err == ErrWrongGroup && Contents(sys', s) == Contents(sys, s))
  {
    hide Inv;
    var s := sys.shardOf(req.key);
    var x := Exec(At(sys, g, s), Kv(req)).0;
    ConfigsOf(sys);
    ShardFact(sys, s);
    SlotAt(sys, g, s, x);
    assert Apply(sys, Client(g, req)) == SetSlot(sys, g, s, x);
    assert Holder(SetSlot(sys, g, s, x), s) == Holder(sys, s);
    forall t: ShardId | t != s ensures Contents(SetSlot(sys, g, s, x), t) == Contents(sys, t) {
      HolderElsewhere(sys, g, s, x, t);
    }
  }

  /** Operations on one map, in order. */
  ghost function Fold(m: Store, reqs: seq<Request>): Store {
    if reqs == [] then m else DoOp(Fold(m, reqs[..|reqs| - 1]), reqs[|reqs| - 1]).0
  }

  lemma DoOpAt(m: Store, c: Store, req: Request)
    requires req.key in m <==> req.key in c
    requires req.key in m ==> m[req.key] == c[req.key]
    ensures DoOp(m, req).1 == DoOp(c, req).1
    ensures forall k :: k != req.key ==> (k in DoOp(m, req).0 <==> k in m) && (k in m ==> DoOp(m, req).0[k] == m[k])
    ensures req.key in DoOp(m, req).0 <==> req.key in DoOp(c, req).0
    ensures req.key in DoOp(m, req).0 ==> DoOp(m, req).0[req.key] == DoOp(c, req).0[req.key]
    ensures forall k :: k != req.key ==> (k in DoOp(c, req).0 <==> k in c) && (k in c ==> DoOp(c, req).0[k] == c[k])
  {
  }

  /** The sharded store refines one map: a client's request at any group is either refused with
      `ErrWrongGroup`, without effect, or answered and executed as on the one map; no other step
      changes the map. */
  lemma StepRefines(sys: Sys, step: Step)
    requires Inv(sys) && Enabled(sys, step) && InStep(sys, step)
    ensures sys.cur.num <= |sys.configs| && Apply(sys, step).cur.num <= |Apply(sys, step).configs|
    ensures !step.Client? ==> Whole(Apply(sys, step)) == Whole(sys)
    ensures step.Client? ==>
              var reply := Exec(At(sys, step.g, sys.shardOf(step.req.key)), Kv(step.req)).1.reply;
              if Accepted(sys, step) then (Whole(Apply(sys, step)), reply) == DoOp(Whole(sys), step.req)
              else reply.err == ErrWrongGroup && Whole(Apply(sys, step)) == Whole(sys)
  {
    hide Inv, ConfigsOk, ShardOk, Contents, Whole, Exec, DoOp;
    ConfigsOf(sys);
    InvKept(sys, step);
    ConfigsOf(Apply(sys, step));
    if step.Client? {
      ClientContents(sys, step.g, step.req);
      ClientWhole(sys, Apply(sys, step), step.req, Accepted(sys, step));
    } else {
      ContentsKept(sys, step);
      SameWhole(sys, Apply(sys, step));
    }
  }

  ghost predicate Accepted(sys: Sys, step: Step) {
    step.Client? && At(sys, step.g, sys.shardOf(step.req.key)).served
  }

  lemma SameWhole(sys: Sys, sys': Sys)
    requires sys.cur.num <= |sys.configs| && sys'.cur.num <= |sys'.configs|
    requires forall s: ShardId :: Contents(sys', s) == Contents(sys, s)
    ensures Whole(sys') == Whole(sys)
  {
    SameMerge(sys, sys', NSHARDS);
  }

  lemma {:induction false} SameMerge(sys: Sys, sys': Sys, n: nat)
    requires sys.cur.num <= |sys.configs| && sys'.cur.num <= |sys'.configs| && n <= NSHARDS
    requires forall s: ShardId :: Contents(sys', s) == Contents(sys, s)
    ensures Merge(sys', n) == Merge(sys, n)
  {
    if n > 0 {
      SameMerge(sys, sys', n - 1);
    }
  }

  lemma ClientWhole(sys: Sys, sys': Sys, req: Request, accepted: bool)
    requires Inv(sys) && Inv(sys') && sys.cur.num <= |sys.configs| && sys'.cur.num <= |sys'.configs|
    requires sys'.shardOf == sys.shardOf
    requires forall t: ShardId :: t != sys.shardOf(req.key) ==> Contents(sys', t) == Contents(sys, t)
    requires var s := sys.shardOf(req.key);
             Contents(sys', s) == (if accepted then DoOp(Contents(sys, s), req).0 else Contents(sys, s))
    ensures accepted ==> Whole(sys') == DoOp(Whole(sys), req).0
    ensures accepted ==> DoOp(Contents(sys, sys.shardOf(req.key)), req).1 == DoOp(Whole(sys), req).1
    ensures !accepted ==> Whole(sys') == Whole(sys)
  {
    hide Inv, Contents, DoOp, PlacedOk;
    AllPlaced(sys);
    AllPlaced(sys');
    if accepted {
      var c := Contents(sys, sys.shardOf(req.key));
      MergeAt(sys, NSHARDS, req.key);
      DoOpAt(Whole(sys), c, req);
      forall k ensures k in Whole(sys') <==> k in DoOp(Whole(sys), req).0
               ensures k in Whole(sys') ==> Whole(sys')[k] == DoOp(Whole(sys), req).0[k]
      {
        MergeAt(sys, NSHARDS, k);
        MergeAt(sys', NSHARDS, k);
      }
      assert Whole(sys') == DoOp(Whole(sys), req).0;
    } else {
      SameWhole(sys, sys');
    }
  }

  /** The requests among the first n steps that were not refused, in the order of execution. */
  ghost function Executed(run: seq<Sys>, steps: seq<Step>, n: nat): seq<Request>
    requires n <= |steps| < |run|
  {
    if n == 0 then []
    else Executed(run, steps, n - 1) + if Accepted(run[n - 1], steps[n - 1]) then [steps[n - 1].req] else []
  }

  lemma {:induction false} FoldFrom(sys: Sys, run: seq<Sys>, steps: seq<Step>, n: nat)
    requires Inv(sys) && Path(sys, run, steps) && AllInStep(run, steps, 0) && n <= |steps|
    ensures Inv(run[n]) && sys.cur.num <= |sys.configs| && run[n].cur.num <= |run[n].configs|
    ensures Whole(run[n]) == Fold(Whole(sys), Executed(run, steps, n))
  {
    hide Inv, Whole, Fold, DoOp, Exec;
    ConfigsOf(sys);
    if n == 0 {
      FoldNothing(Whole(sys));
    } else {
      FoldFrom(sys, run, steps, n - 1);
      InvKept(run[n - 1], steps[n - 1]);
      assert run[n] == Apply(run[n - 1], steps[n - 1]);
      ConfigsOf(run[n]);
      StepRefines(run[n - 1], steps[n - 1]);
      var before := Executed(run, steps, n - 1);
      if Accepted(run[n - 1], steps[n - 1]) {
        assert Executed(run, steps, n) == before + [steps[n - 1].req];
        FoldMore(Whole(sys), before, steps[n - 1].req);
      } else {
        assert Executed(run, steps, n) == before;
      }
    }
  }

  /** Over a whole run, through any number of reconfigurations, the store is the result of the
      executed requests, each exactly once and in order, on one initially empty map. */
  lemma StoreIsFold(shardOf: string -> ShardId, run: seq<Sys>, steps: seq<Step>, n: nat)
    requires Path(Initial(shardOf), run, steps) && AllInStep(run, steps, 0) && n <= |steps|
    ensures Inv(run[n]) && run[n].cur.num <= |run[n].configs|
    ensures Whole(run[n]) == Fold(map[], Executed(run, steps, n))
  {
    hide Inv, Whole, Initial, Fold;
    InitialInv(shardOf);
    InitialWhole(shardOf);
    FoldFrom(Initial(shardOf), run, steps, n);
  }

  lemma FoldNothing(m: Store)
    ensures Fold(m, []) == m
  {
  }

  lemma FoldMore(m: Store, reqs: seq<Request>, req: Request)
    ensures Fold(m, reqs + [req]) == DoOp(Fold(m, reqs), req).0
  {
    hide DoOp;
    assert (reqs + [req])[..|reqs|] == reqs;
  }

  lemma InitialWhole(shardOf: string -> ShardId)
    ensures Initial(shardOf).cur.num <= |Initial(shardOf).configs| && Whole(Initial(shardOf)) == map[]
  {
    EmptyMerge(Initial(shardOf), NSHARDS);
  }

  lemma {:induction false} EmptyMerge(sys: Sys, n: nat)
    requires sys.cur.num <= |sys.configs| && n <= NSHARDS && sys.slots == map[]
    ensures Merge(sys, n) == map[]
  {
    if n > 0 {
      EmptyMerge(sys, n - 1);
    }
  }

  // ---------- Configurations ----------

  lemma {:induction false} ConfigsGrow(shardOf: string -> ShardId, run: seq<Sys>, j: nat, k: nat)
    requires IsRun(shardOf, run) && j <= k < |run|
    ensures |run[j].configs| <= |run[k].configs| && run[k].configs[..|run[j].configs|] == run[j].configs
    ensures run[j].cur.num <= run[k].cur.num
    decreases k
  {
    hide Inv, Initial;
    if j < k {
      ConfigsGrow(shardOf, run, j, k - 1);
      assert Follows(run[k - 1], run[k - 1 + 1]);
      var step :| Enabled(run[k - 1], step) && InStep(run[k - 1], step) && run[k] == Apply(run[k - 1], step);
      RunOk(shardOf, run);
      ConfigsStep(run[k - 1], step);
    }
  }

  /** config_next only goes on to the number after the one in force; config only to the
      configuration in config_next, when every shard it moves has been installed. */
  lemma ConfigsStep(sys: Sys, step: Step)
    requires Inv(sys) && Enabled(sys, step) && InStep(sys, step)
    ensures var sys' := Apply(sys, step);
            && |sys.configs| <= |sys'.configs| && sys'.configs[..|sys.configs|] == sys.configs
            && (sys'.next != sys.next ==> sys'.next.Some? && sys'.next.value.num == sys.cur.num + 1 && sys'.cur == sys.cur)
            && (sys'.cur != sys.cur ==> sys.next == Some(sys'.cur) && sys'.cur.num == sys.cur.num + 1 && Settled(sys'))
            && sys.cur.num <= sys'.cur.num
  {
    hide Inv, ShardOk, ArrivedBelow, Read, Unreachable, Heard, Exec;
    ConfigsOf(sys);
    if step.Serve? && step.m.PutAsk? {
      MsgFact(sys, step.m);
      if step.m.key == Current && step.m.version == sys.curVersion {
        PublishStep(sys, step.m.cfg);
        PublishSettles(sys, step);
      }
    }
  }

  /** Every shard is served by the group that the configuration in force names. */
  ghost predicate Settled(sys: Sys) {
    forall s: ShardId :: At(sys, sys.cur.shards[s], s).served
  }

  lemma PublishSettles(sys: Sys, step: Step)
    requires Inv(sys) && Enabled(sys, step) && InStep(sys, step) && ConfigsOk(sys)
    requires step.Serve? && step.m.PutAsk? && step.m.key == Current && step.m.version == sys.curVersion
    ensures Settled(Apply(sys, step))
  {
    hide Inv, ShardOk;
    var sys' := Apply(sys, step);
    InvKept(sys, step);
    ConfigsOf(sys');
    MsgFact(sys, step.m);
    forall s: ShardId ensures At(sys', sys'.cur.shards[s], s).served {
      ShardFact(sys', s);
      NothingOngoing(sys', s);
    }
  }

  lemma NothingOngoing(sys: Sys, s: ShardId)
    requires ConfigsOk(sys) && sys.cur.num == |sys.configs| && ShardOk(sys, s)
    ensures At(sys, sys.cur.shards[s], s).served
  {
  }

  /** Each number that config_next ever had belongs to one content, over the whole run, and what
      is in force under that number is that content. */
  lemma OneConfigPerNum(shardOf: string -> ShardId, run: seq<Sys>, j: nat, k: nat)
    requires IsRun(shardOf, run) && j <= k < |run|
    ensures run[j].next.Some? && run[k].next.Some? && run[j].next.value.num == run[k].next.value.num ==>
              run[j].next == run[k].next
    ensures run[j].next.Some? && run[j].next.value.num == run[k].cur.num ==> run[j].next == Some(run[k].cur)
    ensures run[j].cur.num == run[k].cur.num ==> run[j].cur == run[k].cur
  {
    hide Inv, IsRun;
    RunOk(shardOf, run);
    ConfigsOf(run[j]);
    ConfigsOf(run[k]);
    ConfigsGrow(shardOf, run, j, k);
  }

  /** A controller that is told `ErrStale` finds its change in force already, so the publication
      it goes on to does nothing. */
  lemma StaleStops(sys: Sys, g: nat, s: ShardId, op: ShardOp, reply: ShardReply, to: Config)
    requires Inv(sys) && Answer(g, s, op, reply) in sys.net && !op.Kv? && op.num == to.num
    requires reply.FreezeReply? || reply.InstallReply? || reply.DeleteReply?
    requires reply.err == ErrStale
    ensures Read(sys, Publish(to)) == Stop
  {
    MsgFact(sys, Answer(g, s, op, reply));
  }

  // ---------- The same for reachable states ----------

  /** Nothing but a client's request changes a shard's contents. */
  lemma OnlyClientsWrite(shardOf: string -> ShardId, sys: Sys, step: Step)
    requires Reachable(shardOf, sys) && Enabled(sys, step) && InStep(sys, step) && !step.Client?
    ensures sys.cur.num <= |sys.configs| && Apply(sys, step).cur.num <= |Apply(sys, step).configs|
    ensures forall s: ShardId :: Contents(Apply(sys, step), s) == Contents(sys, s)
  {
    hide Inv;
    ReachableOk(shardOf, sys);
    ContentsKept(sys, step);
  }

  /** The sharded store refines one map. */
  lemma StoreRefinesMap(shardOf: string -> ShardId, sys: Sys, step: Step)
    requires Reachable(shardOf, sys) && Enabled(sys, step) && InStep(sys, step)
    ensures sys.cur.num <= |sys.configs| && Apply(sys, step).cur.num <= |Apply(sys, step).configs|
    ensures !step.Client? ==> Whole(Apply(sys, step)) == Whole(sys)
    ensures step.Client? ==>
              var reply := Exec(At(sys, step.g, sys.shardOf(step.req.key)), Kv(step.req)).1.reply;
              if Accepted(sys, step) then (Whole(Apply(sys, step)), reply) == DoOp(Whole(sys), step.req)
              else reply.err == ErrWrongGroup && Whole(Apply(sys, step)) == Whole(sys)
  {
    hide Inv, Whole;
    ReachableOk(shardOf, sys);
    StepRefines(sys, step);
  }

  /** Claims go on by one, and a publication finds every moved shard in place. */
  lemma StepConfigs(shardOf: string -> ShardId, sys: Sys, step: Step)
    requires Reachable(shardOf, sys) && Enabled(sys, step) && InStep(sys, step)
    ensures var sys' := Apply(sys, step);
            && |sys.configs| <= |sys'.configs| && sys'.configs[..|sys.configs|] == sys.configs
            && (sys'.next != sys.next ==> sys'.next.Some? && sys'.next.value.num == sys.cur.num + 1 && sys'.cur == sys.cur)
            && (sys'.cur != sys.cur ==> sys.next == Some(sys'.cur) && sys'.cur.num == sys.cur.num + 1 && Settled(sys'))
            && sys.cur.num <= sys'.cur.num
  {
    hide Inv;
    ReachableOk(shardOf, sys);
    ConfigsStep(sys, step);
  }

  /** A controller that is told `ErrStale` publishes nothing. */
  lemma StaleNeverPublishes(shardOf: string -> ShardId, sys: Sys, g: nat, s: ShardId, op: ShardOp, reply: ShardReply, to: Config)
    requires Reachable(shardOf, sys)
    requires Answer(g, s, op, reply) in sys.net && !op.Kv? && op.num == to.num
    requires reply.FreezeReply? || reply.InstallReply? || reply.DeleteReply?
    requires reply.err == ErrStale
    ensures Read(sys, Publish(to)) == Stop
  {
    hide Inv;
    ReachableOk(shardOf, sys);
    StaleStops(sys, g, s, op, reply, to);
  }
}
