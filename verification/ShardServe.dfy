/** What the groups and the kvsrv do, as steps that keep `ShardInv.Inv`. */
module ShardServe {
  import opened KvStore
  import opened ShardGroup
  import opened ShardMove
  import opened ShardInv
  import opened ShardSteps

  function SetSlot(sys: Sys, g: nat, s: ShardId, x: ShardState): Sys {
    sys.(slots := sys.slots[Slot(g, s) := x])
  }

  lemma SlotAt(sys: Sys, g: nat, s: ShardId, x: ShardState)
    ensures At(SetSlot(sys, g, s, x), g, s) == x
    ensures forall h, t :: h != g || t != s ==> At(SetSlot(sys, g, s, x), h, t) == At(sys, h, t)
  {
  }

  /** The other shards do not notice. */
  lemma OtherShard(sys: Sys, g: nat, s: ShardId, x: ShardState, t: ShardId)
    requires sys.cur.num <= |sys.configs| && ShardOk(sys, t) && t != s
    ensures ShardOk(SetSlot(sys, g, s, x), t)
  {
    var sys' := SetSlot(sys, g, s, x);
    forall h ensures At(sys', h, t) == At(sys, h, t) {}
    forall j: nat | j <= sys'.cur.num && Moves(sys', j, t) ensures Past(sys', j, t) {
      assert Moves(sys, j, t);
    }
    assert Holder(sys', t) == Holder(sys, t) && InTransit(sys', t) == InTransit(sys, t);
  }

  /** A step of one group on one shard. */
  lemma SlotLater(sys: Sys, g: nat, s: ShardId, x: ShardState)
    requires ConfigsOk(sys) && At(sys, g, s).num <= x.num
    requires forall j: nat :: Moves(sys, j, s) ==> KeepsCopy(sys, SetSlot(sys, g, s, x), j, s)
    ensures Later(sys, SetSlot(sys, g, s, x))
  {
    var sys' := SetSlot(sys, g, s, x);
    SlotAt(sys, g, s, x);
    forall j: nat, t | Moves(sys, j, t) ensures KeepsCopy(sys, sys', j, t) {
      if t != s {
        assert At(sys', Src(sys, j, t), t) == At(sys, Src(sys, j, t), t);
      }
    }
  }

  /** The change that is going on, if the shard takes part in it. */
  lemma OngoingChange(sys: Sys, j: nat, s: ShardId)
    requires ConfigsOk(sys) && Moves(sys, j, s) && j > sys.cur.num
    ensures j == |sys.configs| == sys.cur.num + 1 && Src(sys, j, s) == sys.cur.shards[s]
  {
  }

  /** What a request of a finished change meets: it has no effect on anything that counts. */
  lemma PastFact(sys: Sys, j: nat, s: ShardId)
    requires sys.cur.num <= |sys.configs| && ShardOk(sys, s) && Moves(sys, j, s) && j <= sys.cur.num
    ensures Past(sys, j, s)
  {
    assert Moves(sys, j, s);
  }

  // ---------- Freeze ----------

  /** If the destination of a finished change is not where the shard is now, a later change has
      brought it there. */
  lemma {:induction false} BroughtLater(sys: Sys, s: ShardId, j: nat, k: nat) returns (i: nat)
    requires 2 <= j <= k <= |sys.configs| && sys.configs[k - 1].shards[s] != Dst(sys, j, s)
    ensures j < i <= k && Moves(sys, i, s) && Dst(sys, i, s) == sys.configs[k - 1].shards[s]
    decreases k
  {
    if Src(sys, k, s) != Dst(sys, k, s) {
      i := k;
    } else {
      i := BroughtLater(sys, s, j, k - 1);
    }
  }

  /** A group that is not the destination of an arrived change and has seen none after it does not
      hold the shard. */
  lemma NotHolder(sys: Sys, g: nat, s: ShardId, j: nat)
    requires ConfigsOk(sys) && ShardOk(sys, s) && Moves(sys, j, s) && Arrived(sys, j, s)
    requires g != Dst(sys, j, s) && At(sys, g, s).num <= j
    ensures g != Holder(sys, s) && !At(sys, g, s).served
  {
    if g == Holder(sys, s) && j <= sys.cur.num && g == sys.cur.shards[s] {
      var i := BroughtLater(sys, s, j, sys.cur.num);
      PastFact(sys, i, s);
    }
  }

  /** Such a group may be frozen and cleared under the number of the change. */
  lemma Retire(sys: Sys, g: nat, s: ShardId, j: nat, x: ShardState)
    requires ConfigsOk(sys) && ShardOk(sys, s) && Moves(sys, j, s) && Arrived(sys, j, s)
    requires g != Dst(sys, j, s) && At(sys, g, s).num <= j && g != Holder(sys, s)
    requires x == ShardState(At(sys, g, s).data, false, j) || x == ShardState(map[], false, j)
    ensures ShardOk(SetSlot(sys, g, s, x), s)
    ensures forall i: nat :: Moves(sys, i, s) ==> KeepsCopy(sys, SetSlot(sys, g, s, x), i, s)
  {
    hide NumbersOk, PlacedOk, Complete;
    var sys' := SetSlot(sys, g, s, x);
    SlotAt(sys, g, s, x);
    RetirePast(sys, g, s, j, x);
    assert Holder(sys', s) == Holder(sys, s);
    forall i: nat | Moves(sys, i, s) ensures KeepsCopy(sys, sys', i, s) {
      if i <= sys.cur.num {
        PastFact(sys, i, s);
      }
    }
    RetireNumbers(sys, g, s, j, x);
  }

  lemma RetirePast(sys: Sys, g: nat, s: ShardId, j: nat, x: ShardState)
    requires ConfigsOk(sys) && ShardOk(sys, s) && Moves(sys, j, s)
    requires g != Dst(sys, j, s) && At(sys, g, s).num <= j == x.num && !x.served
    ensures forall i: nat {:trigger Moves(SetSlot(sys, g, s, x), i, s)} ::
              i <= sys.cur.num && Moves(SetSlot(sys, g, s, x), i, s) ==> Past(SetSlot(sys, g, s, x), i, s)
  {
    var sys' := SetSlot(sys, g, s, x);
    SlotAt(sys, g, s, x);
    forall i: nat | i <= sys.cur.num && Moves(sys', i, s) ensures Past(sys', i, s) {
      PastFact(sys, i, s);
    }
  }

  lemma RetireNumbers(sys: Sys, g: nat, s: ShardId, j: nat, x: ShardState)
    requires sys.cur.num <= |sys.configs| && ShardOk(sys, s) && Moves(sys, j, s) && x.num == j
    requires x.data == At(sys, g, s).data || x.data == map[]
    ensures NumbersOk(SetSlot(sys, g, s, x), s) && PlacedOk(SetSlot(sys, g, s, x), s)
  {
    SlotAt(sys, g, s, x);
  }

  lemma FreezeOk(sys: Sys, g: nat, s: ShardId, j: nat)
    requires ConfigsOk(sys) && ShardOk(sys, s) && AskOk(sys, g, s, Freeze(j))
    ensures var (x, reply) := Exec(At(sys, g, s), Freeze(j));
            var sys' := SetSlot(sys, g, s, x);
            ShardOk(sys', s) && AnswerOk(sys', s, Freeze(j), reply) && At(sys, g, s).num <= x.num
            && (forall i: nat :: Moves(sys, i, s) ==> KeepsCopy(sys, sys', i, s))
  {
    var (x, reply) := Exec(At(sys, g, s), Freeze(j));
    SlotAt(sys, g, s, x);
    assert At(sys, g, s).num <= |sys.configs|;
    if j <= sys.cur.num {
      PastFact(sys, j, s);
    }
    if j < At(sys, g, s).num {
      SlotSame(sys, g, s, x);
    } else if Arrived(sys, j, s) {
      NotHolder(sys, g, s, j);
      Retire(sys, g, s, j, x);
      assert At(sys, Src(sys, j, s), s).num >= j;
    } else {
      OngoingChange(sys, j, s);
      FreezeNow(sys, g, s, j);
    }
  }

  lemma SlotSame(sys: Sys, g: nat, s: ShardId, x: ShardState)
    requires sys.cur.num <= |sys.configs| && ShardOk(sys, s) && x == At(sys, g, s)
    ensures ShardOk(SetSlot(sys, g, s, x), s)
    ensures forall i: nat :: Moves(sys, i, s) ==> KeepsCopy(sys, SetSlot(sys, g, s, x), i, s)
  {
    var sys' := SetSlot(sys, g, s, x);
    forall h, t ensures At(sys', h, t) == At(sys, h, t) {}
    forall j: nat | j <= sys'.cur.num && Moves(sys', j, s) ensures Past(sys', j, s) {
      assert Moves(sys, j, s);
    }
    assert Holder(sys', s) == Holder(sys, s) && InTransit(sys', s) == InTransit(sys, s);
  }

  lemma FreezeNow(sys: Sys, g: nat, s: ShardId, j: nat)
    requires ConfigsOk(sys) && ShardOk(sys, s) && Moves(sys, j, s) && g == Src(sys, j, s)
    requires j == |sys.configs| == sys.cur.num + 1 && g == sys.cur.shards[s]
    ensures var (x, reply) := Exec(At(sys, g, s), Freeze(j));
            var sys' := SetSlot(sys, g, s, x);
            ShardOk(sys', s) && AnswerOk(sys', s, Freeze(j), reply) && At(sys, g, s).num <= x.num
            && (forall i: nat :: Moves(sys, i, s) ==> KeepsCopy(sys, sys', i, s))
  {
    var x := Exec(At(sys, g, s), Freeze(j)).0;
    var sys' := SetSlot(sys, g, s, x);
    SlotAt(sys, g, s, x);
    assert At(sys, g, s).num <= j;
    KeepPast(sys, g, s, x);
    assert Holder(sys', s) == Holder(sys, s);
  }

  /** Raising a number beyond the configuration in force, or keeping the slot, keeps the past. */
  lemma KeepPast(sys: Sys, g: nat, s: ShardId, x: ShardState)
    requires sys.cur.num <= |sys.configs| && ShardOk(sys, s)
    requires x.num > sys.cur.num || (x.num == At(sys, g, s).num && x.served == At(sys, g, s).served)
    ensures forall j: nat {:trigger Moves(SetSlot(sys, g, s, x), j, s)} ::
              j <= sys.cur.num && Moves(SetSlot(sys, g, s, x), j, s) ==> Past(SetSlot(sys, g, s, x), j, s)
  {
    var sys' := SetSlot(sys, g, s, x);
    SlotAt(sys, g, s, x);
    forall j: nat | j <= sys.cur.num && Moves(sys', j, s) ensures Past(sys', j, s) {
      PastFact(sys, j, s);
    }
  }

  // ---------- Install ----------

  lemma InstallOk(sys: Sys, g: nat, s: ShardId, j: nat, state: Store)
    requires ConfigsOk(sys) && ShardOk(sys, s) && Moves(sys, j, s) && g == Dst(sys, j, s) && Copied(sys, j, s, state)
    ensures var (x, reply) := Exec(At(sys, g, s), Install(state, j));
            var sys' := SetSlot(sys, g, s, x);
            ShardOk(sys', s) && AnswerOk(sys', s, Install(state, j), reply) && At(sys, g, s).num <= x.num
            && (forall i: nat :: Moves(sys, i, s) ==> KeepsCopy(sys, sys', i, s))
  {
    var (x, reply) := Exec(At(sys, g, s), Install(state, j));
    SlotAt(sys, g, s, x);
    if j <= sys.cur.num {
      PastFact(sys, j, s);
      SlotSame(sys, g, s, x);
    } else {
      OngoingChange(sys, j, s);
      if Arrived(sys, j, s) {
        SlotSame(sys, g, s, x);
      } else {
        InstallNow(sys, g, s, j, state);
      }
    }
  }

  lemma InstallNow(sys: Sys, g: nat, s: ShardId, j: nat, state: Store)
    requires ConfigsOk(sys) && ShardOk(sys, s) && Moves(sys, j, s) && g == Dst(sys, j, s) && Copied(sys, j, s, state)
    requires j == |sys.configs| == sys.cur.num + 1 && Src(sys, j, s) == sys.cur.shards[s] && !Arrived(sys, j, s)
    ensures var (x, reply) := Exec(At(sys, g, s), Install(state, j));
            var sys' := SetSlot(sys, g, s, x);
            ShardOk(sys', s) && AnswerOk(sys', s, Install(state, j), reply) && At(sys, g, s).num <= x.num
            && (forall i: nat :: Moves(sys, i, s) ==> KeepsCopy(sys, sys', i, s))
  {
    var x := Exec(At(sys, g, s), Install(state, j)).0;
    var sys' := SetSlot(sys, g, s, x);
    SlotAt(sys, g, s, x);
    KeepPast(sys, g, s, x);
    assert At(sys, Src(sys, j, s), s).num <= j;
    assert Holder(sys, s) == Src(sys, j, s) && InTransit(sys, s);
    assert Holder(sys', s) == g;
    InstallKeeps(sys, g, s, j, x);
  }

  /** A group that was a source before has no copy that is still waiting to arrive. */
  lemma InstallKeeps(sys: Sys, g: nat, s: ShardId, j: nat, x: ShardState)
    requires ConfigsOk(sys) && ShardOk(sys, s) && Moves(sys, j, s) && g == Dst(sys, j, s)
    requires j == |sys.configs| == sys.cur.num + 1
    ensures forall i: nat :: Moves(sys, i, s) ==> KeepsCopy(sys, SetSlot(sys, g, s, x.(num := j)), i, s)
  {
    SlotAt(sys, g, s, x.(num := j));
    forall i: nat | Moves(sys, i, s) ensures KeepsCopy(sys, SetSlot(sys, g, s, x.(num := j)), i, s) {
      if i <= sys.cur.num {
        PastFact(sys, i, s);
      }
    }
  }

  // ---------- Delete ----------

  lemma DeleteOk(sys: Sys, g: nat, s: ShardId, j: nat)
    requires ConfigsOk(sys) && ShardOk(sys, s) && AskOk(sys, g, s, Delete(j))
    ensures var (x, reply) := Exec(At(sys, g, s), Delete(j));
            var sys' := SetSlot(sys, g, s, x);
            ShardOk(sys', s) && AnswerOk(sys', s, Delete(j), reply) && At(sys, g, s).num <= x.num
            && (forall i: nat :: Moves(sys, i, s) ==> KeepsCopy(sys, sys', i, s))
  {
    var (x, reply) := Exec(At(sys, g, s), Delete(j));
    SlotAt(sys, g, s, x);
    assert At(sys, g, s).num <= |sys.configs|;
    if j < At(sys, g, s).num {
      SlotSame(sys, g, s, x);
    } else {
      NotHolder(sys, g, s, j);
      Retire(sys, g, s, j, x);
    }
  }

  // ---------- Requests of clients ----------

  /** Only the holder answers a client with anything but ErrWrongGroup. */
  lemma ClientOk(sys: Sys, g: nat, s: ShardId, req: Request)
    requires ConfigsOk(sys) && ShardOk(sys, s) && s == sys.shardOf(req.key)
    ensures var x := Exec(At(sys, g, s), Kv(req)).0;
            var sys' := SetSlot(sys, g, s, x);
            ShardOk(sys', s) && At(sys, g, s).num <= x.num
            && (forall i: nat :: Moves(sys, i, s) ==> KeepsCopy(sys, sys', i, s))
  {
    var x := Exec(At(sys, g, s), Kv(req)).0;
    var sys' := SetSlot(sys, g, s, x);
    SlotAt(sys, g, s, x);
    if !At(sys, g, s).served {
      SlotSame(sys, g, s, x);
    } else {
      KeepPast(sys, g, s, x);
      assert g == Holder(sys, s) == Holder(sys', s);
      forall i: nat | Moves(sys, i, s) ensures KeepsCopy(sys, sys', i, s) {
        if i <= sys.cur.num {
          PastFact(sys, i, s);
        } else {
          OngoingChange(sys, i, s);
        }
      }
    }
  }

  // ---------- Steps ----------

  lemma SlotStep(sys: Sys, g: nat, s: ShardId, x: ShardState, sent: set<Msg>)
    requires Inv(sys) && sys.cur.num <= |sys.configs| && At(sys, g, s).num <= x.num
    requires ShardOk(SetSlot(sys, g, s, x), s)
    requires forall j: nat :: Moves(sys, j, s) ==> KeepsCopy(sys, SetSlot(sys, g, s, x), j, s)
    requires forall m :: m in sent ==> MsgOk(SetSlot(sys, g, s, x), m)
    ensures Inv(SetSlot(sys, g, s, x).(net := sys.net + sent))
  {
    hide Inv, Later, MsgOk, ProcOk, ShardOk, ConfigsOk, KeepsCopy, Moves;
    var sys1 := SetSlot(sys, g, s, x);
    ConfigsOf(sys);
    SlotLater(sys, g, s, x);
    forall t: ShardId ensures ShardOk(sys1, t) {
      if t != s {
        ShardFact(sys, t);
        OtherShard(sys, g, s, x, t);
      }
    }
    WithNet(sys, sys1, sent);
  }

  /** Sending the messages that go with a change of the groups or the keys. */
  lemma WithNet(sys: Sys, sys1: Sys, sent: set<Msg>)
    requires Inv(sys) && Later(sys, sys1) && sys1.net == sys.net && sys1.procs == sys.procs
    requires sys1.cur.num <= |sys1.configs|
    requires forall s: ShardId :: ShardOk(sys1, s)
    requires forall m :: m in sent ==> MsgOk(sys1, m)
    ensures Inv(sys1.(net := sys.net + sent))
  {
    hide Inv, Later, MsgOk, ProcOk, ShardOk, ConfigsOk;
    var sys' := sys1.(net := sys.net + sent);
    StepOk(sys, sys1, {});
    LaterOk(sys, sys1);
    SameLater(sys1, sys');
    forall s: ShardId ensures ShardOk(sys', s) { SameShard(sys1, sys', s); }
    forall m | m in sent ensures MsgOk(sys', m) { LaterMsg(sys1, sys', m); }
    StepOk(sys1, sys', sent);
  }

  lemma AskStep(sys: Sys, g: nat, s: ShardId, op: ShardOp)
    requires Inv(sys) && Ask(g, s, op) in sys.net
    ensures Inv(Execute(sys, Ask(g, s, op)))
  {
    hide Inv, Later, ShardOk, ConfigsOk, KeepsCopy, Moves, Copied, Arrived;
    ConfigsOf(sys);
    ShardFact(sys, s);
    MsgFact(sys, Ask(g, s, op));
    var (x, reply) := Exec(At(sys, g, s), op);
    match op {
      case Freeze(j) => FreezeOk(sys, g, s, j);
      case Install(state, j) => InstallOk(sys, g, s, j, state);
      case Delete(j) => DeleteOk(sys, g, s, j);
    }
    SlotStep(sys, g, s, x, {Answer(g, s, op, reply)});
  }

  lemma ClientStep(sys: Sys, g: nat, req: Request)
    requires Inv(sys)
    ensures Inv(Apply(sys, Client(g, req)))
  {
    hide Inv, Later, ShardOk, ConfigsOk, KeepsCopy, Moves;
    var s := sys.shardOf(req.key);
    var x := Exec(At(sys, g, s), Kv(req)).0;
    ConfigsOf(sys);
    ShardFact(sys, s);
    ClientOk(sys, g, s, req);
    SlotStep(sys, g, s, x, {});
    assert SetSlot(sys, g, s, x).(net := sys.net + {}) == Apply(sys, Client(g, req));
  }

  // ---------- The two keys ----------

  /** A claim that succeeds makes its configuration the next one. */
  lemma ClaimStep(sys: Sys, to: Config)
    requires ConfigsOk(sys) && PutOk(sys, Next, to, sys.nextVersion)
    ensures var sys' := PutConfig(sys, Next, to, sys.nextVersion).0;
            Later(sys, sys') && Claimed(sys', to)
  {
    var sys' := PutConfig(sys, Next, to, sys.nextVersion).0;
    forall g, s ensures At(sys', g, s) == At(sys, g, s) {}
    forall j: nat, s | Moves(sys, j, s) ensures KeepsCopy(sys, sys', j, s) {}
  }

  /** No group has seen its number yet, so nothing moves by claiming. */
  lemma ClaimShard(sys: Sys, to: Config, s: ShardId)
    requires ConfigsOk(sys) && PutOk(sys, Next, to, sys.nextVersion) && ShardOk(sys, s)
    ensures ShardOk(PutConfig(sys, Next, to, sys.nextVersion).0, s)
  {
    var sys' := PutConfig(sys, Next, to, sys.nextVersion).0;
    forall g ensures At(sys', g, s) == At(sys, g, s) {}
    assert |sys.configs| == sys.cur.num && |sys'.configs| == to.num == sys.cur.num + 1;
    assert Holder(sys, s) == sys.cur.shards[s];
    if Moves(sys', to.num, s) {
      assert At(sys, Dst(sys', to.num, s), s).num <= |sys.configs|;
      assert At(sys, Src(sys', to.num, s), s).num <= |sys.configs|;
    }
    forall j: nat | j <= sys'.cur.num && Moves(sys', j, s) ensures Past(sys', j, s) {
      assert Moves(sys, j, s);
    }
  }

  /** A publication that succeeds is of the next configuration, all of whose shards arrived. */
  lemma PublishStep(sys: Sys, to: Config)
    requires ConfigsOk(sys) && PutOk(sys, Current, to, sys.curVersion)
    ensures var sys' := PutConfig(sys, Current, to, sys.curVersion).0;
            Later(sys, sys') && to.num == |sys.configs| == sys.cur.num + 1 && to == sys.configs[to.num - 1]
            && ArrivedBelow(sys, to.num, NSHARDS)
  {
    var sys' := PutConfig(sys, Current, to, sys.curVersion).0;
    forall g, s ensures At(sys', g, s) == At(sys, g, s) {}
    forall j: nat, s | Moves(sys, j, s) ensures KeepsCopy(sys, sys', j, s) {}
  }

  lemma PublishShard(sys: Sys, to: Config, s: ShardId)
    requires ConfigsOk(sys) && ShardOk(sys, s) && ArrivedBelow(sys, to.num, NSHARDS)
    requires to.num == |sys.configs| == sys.cur.num + 1 && to == sys.configs[to.num - 1]
    ensures ShardOk(PutConfig(sys, Current, to, sys.curVersion).0, s)
  {
    var sys' := PutConfig(sys, Current, to, sys.curVersion).0;
    forall g ensures At(sys', g, s) == At(sys, g, s) {}
    if Moves(sys, to.num, s) {
      assert Arrived(sys, to.num, s);
      assert At(sys, Dst(sys, to.num, s), s).num <= to.num;
    }
    assert Holder(sys', s) == Holder(sys, s) == to.shards[s];
    forall j: nat | j <= sys'.cur.num && Moves(sys', j, s) ensures Past(sys', j, s) {
      assert Moves(sys, j, s);
    }
  }

  lemma PutStep(sys: Sys, id: nat, key: Key, to: Config, version: nat)
    requires Inv(sys) && PutAsk(id, key, to, version) in sys.net
    ensures Inv(Execute(sys, PutAsk(id, key, to, version)))
  {
    hide Inv, Later, ShardOk, ConfigsOk, ArrivedBelow;
    ConfigsOf(sys);
    MsgFact(sys, PutAsk(id, key, to, version));
    var (sys1, err) := PutConfig(sys, key, to, version);
    var sent := {PutAnswer(id, key, to, version, err)};
    if err != OK {
      SameLater(sys, sys);
      forall s: ShardId ensures ShardOk(sys, s) { ShardFact(sys, s); }
    } else if key == Next {
      ClaimStep(sys, to);
      LaterOk(sys, sys1);
      forall s: ShardId ensures ShardOk(sys1, s) {
        ShardFact(sys, s);
        ClaimShard(sys, to, s);
      }
    } else {
      PublishStep(sys, to);
      LaterOk(sys, sys1);
      forall s: ShardId ensures ShardOk(sys1, s) {
        ShardFact(sys, s);
        PublishShard(sys, to, s);
      }
    }
    CurBounded(sys1);
    WithNet(sys, sys1, sent);
  }

  lemma CurBounded(sys: Sys)
    requires ConfigsOk(sys)
    ensures sys.cur.num <= |sys.configs|
  {
  }

  // ---------- All steps ----------

  lemma InvKept(sys: Sys, step: Step)
    requires Inv(sys) && Enabled(sys, step) && InStep(sys, step)
    ensures Inv(Apply(sys, step))
  {
    hide Inv, ShardOk, ConfigsOk, MsgOk, ProcOk, Read, Unreachable, Heard, NextShard, MayMove;
    ConfigsOf(sys);
    match step {
      case Change(to) => ChangeStep(sys, to);
      case TakeOver => InheritOk(sys); AddProcOk(sys, Inherit);
      case Go(id) =>
        ProcFact(sys, id);
        ReadOk(sys, sys.procs[id]);
        SetProcOk(sys, id, Read(sys, sys.procs[id]));
      case Fail(id) =>
        ProcFact(sys, id);
        UnreachableOk(sys, sys.procs[id]);
        SetProcOk(sys, id, Unreachable(sys.procs[id]));
      case Hear(id, m) =>
        ProcFact(sys, id);
        MsgFact(sys, m);
        HeardOk(sys, id, sys.procs[id], m);
        SetProcOk(sys, id, Heard(sys.procs[id], m));
      case Serve(m) =>
        if m.Ask? { AskStep(sys, m.g, m.s, m.op); } else { PutStep(sys, m.id, m.key, m.cfg, m.version); }
      case Client(g, req) => ClientStep(sys, g, req);
    }
  }

  lemma InheritOk(sys: Sys)
    ensures ProcOk(sys, Inherit)
  {
  }

  lemma ChangeStep(sys: Sys, to: Config)
    requires Inv(sys) && Enabled(sys, Change(to))
    ensures Inv(Apply(sys, Change(to)))
  {
    hide Inv;
    ConfigsOf(sys);
    var q: int :| 0 <= q < |sys.configs| && sys.configs[q].num <= sys.cur.num && to.num == sys.configs[q].num + 1;
    assert ProcOk(sys, Begin(to));
    AddProcOk(sys, Begin(to));
  }

  lemma InitialInv(shardOf: string -> ShardId)
    ensures Inv(Initial(shardOf))
  {
    var sys := Initial(shardOf);
    forall s: ShardId ensures ShardOk(sys, s) {
      assert Holder(sys, s) == GID1;
    }
  }
}
