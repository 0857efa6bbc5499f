/** Every step of `ShardMove` keeps `ShardInv.Inv`. */
module ShardSteps {
  import opened KvStore
  import opened ShardGroup
  import opened ShardMove
  import opened ShardInv

  // ---------- Composing ----------

  /** A later state whose shards are right is right if its new messages and processes are. */
  lemma StepOk(sys: Sys, sys': Sys, sent: set<Msg>)
    requires Inv(sys) && Later(sys, sys') && sys'.net == sys.net + sent && |sys'.procs| >= |sys.procs|
    requires forall s: ShardId :: ShardOk(sys', s)
    requires forall m :: m in sent ==> MsgOk(sys', m)
    requires forall i :: 0 <= i < |sys'.procs| ==>
               (i < |sys.procs| && sys'.procs[i] == sys.procs[i]) || ProcOk(sys', sys'.procs[i])
    ensures Inv(sys')
  {
    hide Later, MsgOk, ProcOk, ShardOk, ConfigsOk;
    LaterOk(sys, sys');
    forall m | m in sys'.net ensures MsgOk(sys', m) {
      if m !in sent {
        assert MsgOk(sys, m);
        LaterMsg(sys, sys', m);
      }
    }
    forall i | 0 <= i < |sys'.procs| ensures ProcOk(sys', sys'.procs[i]) {
      if i < |sys.procs| && sys'.procs[i] == sys.procs[i] {
        assert ProcOk(sys, sys.procs[i]);
        LaterProc(sys, sys', sys.procs[i]);
      }
    }
  }

  lemma LaterOk(sys: Sys, sys': Sys)
    requires Later(sys, sys')
    ensures ConfigsOk(sys')
  {
  }

  /** The groups and the two keys are the same. */
  ghost predicate SameStore(sys: Sys, sys': Sys) {
    sys' == sys.(procs := sys'.procs, net := sys'.net)
  }

  lemma SameShard(sys: Sys, sys': Sys, s: ShardId)
    requires SameStore(sys, sys') && sys.cur.num <= |sys.configs| && ShardOk(sys, s)
    ensures ShardOk(sys', s)
  {
    assert Holder(sys', s) == Holder(sys, s) && InTransit(sys', s) == InTransit(sys, s);
    forall j: nat | j <= sys'.cur.num && Moves(sys', j, s) ensures Past(sys', j, s) {
      assert Moves(sys, j, s);
    }
    forall g ensures At(sys', g, s) == At(sys, g, s) {}
  }

  lemma SameLater(sys: Sys, sys': Sys)
    requires SameStore(sys, sys') && ConfigsOk(sys)
    ensures Later(sys, sys') && ConfigsOk(sys')
  {
    forall g, s ensures At(sys', g, s) == At(sys, g, s) {}
  }

  lemma ConfigsOf(sys: Sys)
    requires Inv(sys)
    ensures ConfigsOk(sys) && sys.cur.num <= |sys.configs|
  {
  }

  lemma ShardFact(sys: Sys, s: ShardId)
    requires Inv(sys) && sys.cur.num <= |sys.configs|
    ensures ShardOk(sys, s)
  {
    assert ShardOk(sys, s);
  }

  lemma MsgFact(sys: Sys, m: Msg)
    requires Inv(sys) && m in sys.net
    ensures MsgOk(sys, m)
  {
    assert MsgOk(sys, m);
  }

  lemma ProcFact(sys: Sys, i: nat)
    requires Inv(sys) && i < |sys.procs|
    ensures ProcOk(sys, sys.procs[i])
  {
    assert ProcOk(sys, sys.procs[i]);
  }

  // ---------- Processes ----------

  /** A request says what its process knows. */
  lemma PendingOk(sys: Sys, id: nat, p: Proc)
    requires ProcOk(sys, p)
    ensures forall m :: m in Pending(id, p) ==> MsgOk(sys, m)
  {
    hide Moves, Copied, Arrived, PutOk;
  }

  lemma SetProcOk(sys: Sys, id: nat, p: Proc)
    requires Inv(sys) && id < |sys.procs| && ProcOk(sys, p)
    ensures Inv(SetProc(sys, id, p))
  {
    hide Inv, Later, MsgOk, ProcOk, ShardOk, ConfigsOk;
    var sys' := SetProc(sys, id, p);
    ConfigsOf(sys);
    SameLater(sys, sys');
    forall s: ShardId ensures ShardOk(sys', s) {
      ShardFact(sys, s);
      SameShard(sys, sys', s);
    }
    LaterProc(sys, sys', p);
    PendingOk(sys', id, p);
    StepOk(sys, sys', Pending(id, p));
  }

  lemma AddProcOk(sys: Sys, p: Proc)
    requires Inv(sys) && ProcOk(sys, p)
    ensures Inv(AddProc(sys, p))
  {
    hide Inv, Later, MsgOk, ProcOk, ShardOk, ConfigsOk;
    var sys' := AddProc(sys, p);
    ConfigsOf(sys);
    SameLater(sys, sys');
    forall s: ShardId ensures ShardOk(sys', s) {
      ShardFact(sys, s);
      SameShard(sys, sys', s);
    }
    LaterProc(sys, sys', p);
    PendingOk(sys', |sys.procs|, p);
    StepOk(sys, sys', Pending(|sys.procs|, p));
  }

  lemma BelowNext(sys: Sys, j: nat, s: ShardId)
    requires ArrivedBelow(sys, j, s) && 2 <= j <= |sys.configs| && (Moves(sys, j, s) ==> Arrived(sys, j, s))
    ensures ArrivedBelow(sys, j, s + 1)
  {
    forall t: ShardId | t < s + 1 && Moves(sys, j, t) ensures Arrived(sys, j, t) {
      assert t < s || t == s;
    }
  }

  /** The next shard to move, or, if there is none left, publication. */
  lemma NextShardOk(sys: Sys, from: Config, to: Config, s: nat)
    requires ConfigsOk(sys) && Mover(sys, from, to) && s <= NSHARDS && ArrivedBelow(sys, to.num, s)
    ensures ProcOk(sys, NextShard(from, to, s))
    decreases NSHARDS - s
  {
    if s < NSHARDS && from.shards[s] == to.shards[s] {
      assert from.shards[s] == sys.configs[to.num - 2].shards[s] || Arrived(sys, to.num, s);
      BelowNext(sys, to.num, s);
      NextShardOk(sys, from, to, s + 1);
    } else if s < NSHARDS {
      assert from.shards[s] in from.groups;
      assert from.shards[s] == sys.configs[to.num - 2].shards[s] || Moves(sys, to.num, s);
    }
  }

  lemma AfterFreezeOk(sys: Sys, from: Config, to: Config, s: ShardId, state: Store)
    requires ConfigsOk(sys) && Mover(sys, from, to) && Moves(sys, to.num, s) && from.shards[s] != to.shards[s]
    requires ArrivedBelow(sys, to.num, s) && Copied(sys, to.num, s, state)
    ensures ProcOk(sys, AfterFreeze(from, to, s, state))
  {
    hide Copied;
    assert Complete(sys.configs[to.num - 1]);
  }

  lemma AfterInstallOk(sys: Sys, from: Config, to: Config, s: ShardId)
    requires ConfigsOk(sys) && Mover(sys, from, to) && Moves(sys, to.num, s) && from.shards[s] != to.shards[s]
    requires ArrivedBelow(sys, to.num, s) && Arrived(sys, to.num, s)
    ensures ProcOk(sys, AfterInstall(from, to, s))
  {
    hide Arrived;
    assert from.shards[s] in from.groups;
  }

  lemma NothingBelow(sys: Sys, j: nat)
    ensures 2 <= j <= |sys.configs| ==> ArrivedBelow(sys, j, 0)
  {
  }

  /** A claimed configuration that is not in force yet follows the one in force. */
  lemma ReadOk(sys: Sys, p: Proc)
    requires ConfigsOk(sys) && ProcOk(sys, p)
    requires p.InheritNext? && sys.next.Some? && sys.next.value.num > p.cur.num ==> MayMove(sys, p.cur, sys.next.value)
    ensures ProcOk(sys, Read(sys, p))
  {
    match p
    case Reread(to) =>
      if to.num > sys.cur.num {
        NothingBelow(sys, to.num);
        NextShardOk(sys, sys.cur, to, 0);
      }
    case Recheck(from, to) =>
      NothingBelow(sys, to.num);
      NextShardOk(sys, from, to, 0);
    case InheritNext(c) =>
      if sys.next.Some? && sys.next.value.num > c.num {
        NothingBelow(sys, sys.next.value.num);
        NextShardOk(sys, c, sys.next.value, 0);
      }
    case _ =>
  }

  lemma UnreachableOk(sys: Sys, p: Proc)
    requires ProcOk(sys, p)
    ensures ProcOk(sys, Unreachable(p))
  {
    hide PutOk, Mover;
  }

  lemma HeardOk(sys: Sys, id: nat, p: Proc, m: Msg)
    requires ConfigsOk(sys) && ProcOk(sys, p) && MsgOk(sys, m) && Answers(id, p, m)
    ensures ProcOk(sys, Heard(p, m))
  {
    match p
    case Move(from, to, s, stage) => MoveHeardOk(sys, id, from, to, s, stage, m);
    case _ =>
  }

  lemma MoveHeardOk(sys: Sys, id: nat, from: Config, to: Config, s: ShardId, stage: Stage, m: Msg)
    requires ConfigsOk(sys) && ProcOk(sys, Move(from, to, s, stage)) && MsgOk(sys, m)
    requires Answers(id, Move(from, to, s, stage), m)
    ensures ProcOk(sys, Heard(Move(from, to, s, stage), m))
  {
    hide ConfigsOk, Copied, Arrived, ArrivedBelow;
    if m.reply.err != ErrStale {
      match stage {
        case Freezing => AfterFreezeOk(sys, from, to, s, m.reply.state);
        case Installing(_) => AfterInstallOk(sys, from, to, s);
        case Deleting =>
          BelowNext(sys, to.num, s);
          NextShardOk(sys, from, to, s + 1);
      }
    }
  }
}
