/** What every step of `ShardMove` keeps, per shard, per message and per process. */
module ShardInv {
  import opened KvStore
  import opened ShardGroup
  import opened ShardMove

  // ---------- Configurations ----------

  /** config_next is the configuration in force or the one after it, and is complete. */
  ghost predicate ConfigsOk(sys: Sys) {
    (&& |sys.configs| >= 1 && sys.cur.num <= |sys.configs| <= sys.cur.num + 1 && 1 <= sys.cur.num
     && sys.cur == sys.configs[sys.cur.num - 1]
     && (forall j :: 0 <= j < |sys.configs| ==> sys.configs[j].num == j + 1 && Complete(sys.configs[j]))
     && sys.next == (if |sys.configs| == 1 then None else Some(sys.configs[|sys.configs| - 1]))) == true
  }

  /** Change number j takes shard s from one group to another. */
  ghost predicate Moves(sys: Sys, j: nat, s: ShardId) {
    2 <= j <= |sys.configs| && Src(sys, j, s) != Dst(sys, j, s)
  }

  ghost function Src(sys: Sys, j: nat, s: ShardId): nat
    requires 2 <= j <= |sys.configs|
  {
    sys.configs[j - 2].shards[s]
  }

  ghost function Dst(sys: Sys, j: nat, s: ShardId): nat
    requires 2 <= j <= |sys.configs|
  {
    sys.configs[j - 1].shards[s]
  }

  /** The destination has the shard, or had it and has seen a later change. */
  ghost predicate Arrived(sys: Sys, j: nat, s: ShardId)
    requires 2 <= j <= |sys.configs|
  {
    At(sys, Dst(sys, j, s), s).num >= j
  }

  // ---------- One shard ----------

  /** A finished change: its source no longer serves under its number, its destination does. */
  ghost predicate Past(sys: Sys, j: nat, s: ShardId)
    requires 2 <= j <= |sys.configs|
  {
    var a, b := At(sys, Src(sys, j, s), s), At(sys, Dst(sys, j, s), s);
    a.num >= j && b.num >= j && (a.num == j ==> !a.served) && (b.num == j ==> b.served)
  }

  /** The group whose copy of the shard counts. */
  ghost function Holder(sys: Sys, s: ShardId): nat
    requires sys.cur.num <= |sys.configs|
  {
    var n := |sys.configs|;
    if n > sys.cur.num && Moves(sys, n, s) && Arrived(sys, n, s) then Dst(sys, n, s) else sys.cur.shards[s]
  }

  /** Nobody serves the shard: its source is frozen and its destination does not have it yet. */
  ghost predicate InTransit(sys: Sys, s: ShardId)
    requires sys.cur.num <= |sys.configs|
  {
    var n := |sys.configs|;
    && n > sys.cur.num && Moves(sys, n, s) && !Arrived(sys, n, s)
    && At(sys, Src(sys, n, s), s).num == n
  }

  /** Only the holder serves the shard, and it does unless the shard is in transit. */
  ghost predicate ShardOk(sys: Sys, s: ShardId)
    requires sys.cur.num <= |sys.configs|
  {
    var n := |sys.configs|;
    (&& (forall g {:trigger At(sys, g, s)} :: At(sys, g, s).num <= n && (At(sys, g, s).served ==> g == Holder(sys, s)))
     && (forall j: nat {:trigger Moves(sys, j, s)} :: j <= sys.cur.num && Moves(sys, j, s) ==> Past(sys, j, s))
     && (At(sys, Holder(sys, s), s).served <==> !InTransit(sys, s))
     && (n > sys.cur.num && Moves(sys, n, s) && Arrived(sys, n, s) ==> At(sys, Src(sys, n, s), s).num == n)
     && PlacedOk(sys, s) && NumbersOk(sys, s)) == true
  }

  /** Every copy of the shard has only keys of the shard. */
  ghost predicate PlacedOk(sys: Sys, s: ShardId) {
    forall g {:trigger At(sys, g, s)} :: forall k :: k in At(sys, g, s).data ==> sys.shardOf(k) == s
  }

  /** A group's number for the shard is that of a change that moves the shard. */
  ghost predicate NumbersOk(sys: Sys, s: ShardId) {
    forall g {:trigger At(sys, g, s)} :: At(sys, g, s).num == 0 || Moves(sys, At(sys, g, s).num, s)
  }

  // ---------- Messages ----------

  /** A copy of the shard taken for change j: exactly its contents, until it has arrived. */
  ghost predicate Copied(sys: Sys, j: nat, s: ShardId, state: Store)
    requires 2 <= j <= |sys.configs|
  {
    var a := At(sys, Src(sys, j, s), s);
    a.num >= j && (!Arrived(sys, j, s) ==> state == a.data)
  }

  /** Some change after this one has begun, so this one is in force. */
  ghost predicate Overtaken(sys: Sys, j: nat) {
    j <= sys.cur.num
  }

  ghost predicate Claimed(sys: Sys, to: Config) {
    2 <= to.num <= |sys.configs| && sys.configs[to.num - 1] == to
  }

  ghost predicate Fresh(sys: Sys, to: Config) {
    2 <= to.num <= sys.cur.num + 1 && Complete(to)
  }

  /** Every shard below s that the change moves has arrived. */
  ghost predicate ArrivedBelow(sys: Sys, j: nat, s: nat) {
    forall t: ShardId {:trigger Moves(sys, j, t)} :: t < s && Moves(sys, j, t) ==> Arrived(sys, j, t)
  }

  ghost predicate MayPublish(sys: Sys, to: Config) {
    Claimed(sys, to) && (Overtaken(sys, to.num) || ArrivedBelow(sys, to.num, NSHARDS))
  }

  /** A compare-and-swap that can still succeed replaces an earlier configuration. */
  ghost predicate PutOk(sys: Sys, key: Key, to: Config, version: nat) {
    match key
    case Next =>
      && Fresh(sys, to) && version <= sys.nextVersion
      && (version == sys.nextVersion ==> |sys.configs| < to.num)
    case Current =>
      && MayPublish(sys, to) && version <= sys.curVersion
      && (version == sys.curVersion ==> sys.cur.num < to.num)
  }

  ghost predicate AskOk(sys: Sys, g: nat, s: ShardId, op: ShardOp) {
    match op
    case Kv(_) => false
    case Freeze(j) => Moves(sys, j, s) && g != Dst(sys, j, s) && (g == Src(sys, j, s) || Arrived(sys, j, s))
    case Install(state, j) => Moves(sys, j, s) && g == Dst(sys, j, s) && Copied(sys, j, s, state)
    case Delete(j) => Moves(sys, j, s) && g != Dst(sys, j, s) && Arrived(sys, j, s)
  }

  ghost predicate AnswerOk(sys: Sys, s: ShardId, op: ShardOp, reply: ShardReply) {
    match op
    case Kv(_) => false
    case Freeze(j) =>
      reply.FreezeReply? && if reply.err == ErrStale then Overtaken(sys, j)
                            else Moves(sys, j, s) && Copied(sys, j, s, reply.state)
    case Install(_, j) =>
      reply.InstallReply? && if reply.err == ErrStale then Overtaken(sys, j)
                             else Moves(sys, j, s) && Arrived(sys, j, s)
    case Delete(j) =>
      reply.DeleteReply? && if reply.err == ErrStale then Overtaken(sys, j)
                            else Moves(sys, j, s) && Arrived(sys, j, s)
  }

  ghost predicate MsgOk(sys: Sys, m: Msg) {
    (match m
     case Ask(g, s, op) => AskOk(sys, g, s, op)
     case Answer(_, s, op, reply) => AnswerOk(sys, s, op, reply)
     case PutAsk(_, key, cfg, v) => PutOk(sys, key, cfg, v)
     case PutAnswer(_, key, cfg, _, err) => key == Next && err == OK ==> Claimed(sys, cfg)) == true
  }

  // ---------- Processes ----------

  /** It moves each shard from where the predecessor of `to` places it, or to where it already is. */
  ghost predicate Mover(sys: Sys, from: Config, to: Config) {
    (&& Claimed(sys, to) && Complete(from)
     && forall s: ShardId {:trigger from.shards[s]} ::
          from.shards[s] == sys.configs[to.num - 2].shards[s] || (Moves(sys, to.num, s) && Arrived(sys, to.num, s))) == true
  }

  ghost predicate ProcOk(sys: Sys, p: Proc) {
    (match p
     case Begin(to) => Fresh(sys, to)
     case Claim(to) => Fresh(sys, to)
     case ClaimPut(to, v, _) => PutOk(sys, Next, to, v)
     case ClaimCheck(to) => Fresh(sys, to)
     case Reread(to) => Claimed(sys, to) && Fresh(sys, to)
     case Move(from, to, s, stage) =>
       && Mover(sys, from, to) && Moves(sys, to.num, s) && from.shards[s] != to.shards[s] && ArrivedBelow(sys, to.num, s)
       && (match stage
           case Freezing => true
           case Installing(state) => Copied(sys, to.num, s, state)
           case Deleting => Arrived(sys, to.num, s))
     case Recheck(from, to) => Mover(sys, from, to)
     case Publish(to) => MayPublish(sys, to)
     case PublishPut(to, v, _) => PutOk(sys, Current, to, v)
     case Inherit => true
     case InheritNext(c) =>
       1 <= c.num <= |sys.configs| && c.num <= sys.cur.num && c == sys.configs[c.num - 1]
     case Stop => true) == true
  }

  ghost predicate Inv(sys: Sys) {
    (&& ConfigsOk(sys)
     && (forall s: ShardId {:trigger ShardOk(sys, s)} :: ShardOk(sys, s))
     && (forall m {:trigger MsgOk(sys, m)} :: m in sys.net ==> MsgOk(sys, m))
     && (forall i {:trigger ProcOk(sys, sys.procs[i])} :: 0 <= i < |sys.procs| ==> ProcOk(sys, sys.procs[i]))) == true
  }

  // ---------- Later states ----------

  /** What no step ever takes back. */
  ghost predicate Later(sys: Sys, sys': Sys) {
    (&& ConfigsOk(sys) && ConfigsOk(sys') && sys'.shardOf == sys.shardOf
     && |sys.configs| <= |sys'.configs| && sys.cur.num <= sys'.cur.num
     && (forall j :: 0 <= j < |sys.configs| ==> sys'.configs[j] == sys.configs[j])
     && sys.nextVersion <= sys'.nextVersion && (sys'.nextVersion == sys.nextVersion ==> |sys'.configs| == |sys.configs|)
     && sys.curVersion <= sys'.curVersion && (sys'.curVersion == sys.curVersion ==> sys'.cur.num == sys.cur.num)
     && (forall g, s {:trigger At(sys', g, s)} :: At(sys, g, s).num <= At(sys', g, s).num)
     && (forall j: nat, s {:trigger Moves(sys, j, s)} :: Moves(sys, j, s) ==> KeepsCopy(sys, sys', j, s))) == true
  }

  /** Between freezing and arrival the source's copy does not change. */
  ghost predicate KeepsCopy(sys: Sys, sys': Sys, j: nat, s: ShardId)
    requires 2 <= j <= |sys.configs| && |sys.configs| <= |sys'.configs|
  {
    At(sys, Src(sys, j, s), s).num >= j && !Arrived(sys', j, s) ==>
      At(sys', Src(sys, j, s), s).data == At(sys, Src(sys, j, s), s).data
  }

  lemma LaterMoves(sys: Sys, sys': Sys, j: nat, s: ShardId)
    requires Later(sys, sys') && Moves(sys, j, s)
    ensures Moves(sys', j, s) && Src(sys', j, s) == Src(sys, j, s) && Dst(sys', j, s) == Dst(sys, j, s)
    ensures Arrived(sys, j, s) ==> Arrived(sys', j, s)
    ensures forall state :: Copied(sys, j, s, state) ==> Copied(sys', j, s, state)
  {
    assert KeepsCopy(sys, sys', j, s);
  }

  lemma LaterBelow(sys: Sys, sys': Sys, j: nat, s: nat)
    requires Later(sys, sys') && ArrivedBelow(sys, j, s) && 2 <= j <= |sys.configs|
    ensures ArrivedBelow(sys', j, s)
  {
    forall t: ShardId | t < s && Moves(sys', j, t) ensures Arrived(sys', j, t) {
      assert Moves(sys, j, t);
      LaterMoves(sys, sys', j, t);
    }
  }

  lemma LaterConfigs(sys: Sys, sys': Sys)
    requires Later(sys, sys')
    ensures sys.cur.num <= sys'.cur.num && |sys.configs| <= |sys'.configs|
    ensures forall to :: Claimed(sys, to) ==> Claimed(sys', to)
    ensures forall to :: Fresh(sys, to) ==> Fresh(sys', to)
    ensures forall c: Config :: 1 <= c.num <= sys.cur.num && c == sys.configs[c.num - 1] ==> c == sys'.configs[c.num - 1]
  {
  }

  lemma LaterMover(sys: Sys, sys': Sys, from: Config, to: Config)
    requires Later(sys, sys') && Mover(sys, from, to)
    ensures Mover(sys', from, to)
  {
    LaterConfigs(sys, sys');
    forall s: ShardId
      ensures from.shards[s] == sys'.configs[to.num - 2].shards[s] || (Moves(sys', to.num, s) && Arrived(sys', to.num, s))
    {
      if from.shards[s] != sys.configs[to.num - 2].shards[s] {
        LaterMoves(sys, sys', to.num, s);
      }
    }
  }

  lemma LaterPublish(sys: Sys, sys': Sys, to: Config)
    requires Later(sys, sys') && MayPublish(sys, to)
    ensures MayPublish(sys', to)
  {
    LaterConfigs(sys, sys');
    if !Overtaken(sys, to.num) {
      LaterBelow(sys, sys', to.num, NSHARDS);
    }
  }

  lemma LaterPut(sys: Sys, sys': Sys, key: Key, to: Config, version: nat)
    requires Later(sys, sys') && PutOk(sys, key, to, version)
    ensures PutOk(sys', key, to, version)
  {
    LaterConfigs(sys, sys');
    if key == Current {
      LaterPublish(sys, sys', to);
    }
  }

  lemma LaterMsg(sys: Sys, sys': Sys, m: Msg)
    requires Later(sys, sys') && MsgOk(sys, m)
    ensures MsgOk(sys', m)
  {
    hide Later, Moves, Arrived, Copied, Fresh, MayPublish;
    LaterConfigs(sys, sys');
    match m
    case Ask(g, s, op) => LaterAsk(sys, sys', g, s, op);
    case Answer(_, s, op, reply) => LaterAnswer(sys, sys', s, op, reply);
    case PutAsk(_, key, cfg, v) => LaterPut(sys, sys', key, cfg, v);
    case PutAnswer(_, _, _, _, _) =>
  }

  lemma LaterAsk(sys: Sys, sys': Sys, g: nat, s: ShardId, op: ShardOp)
    requires Later(sys, sys') && AskOk(sys, g, s, op)
    ensures AskOk(sys', g, s, op)
  {
    hide Later;
    match op
    case Freeze(j) => LaterMoves(sys, sys', j, s);
    case Install(_, j) => LaterMoves(sys, sys', j, s);
    case Delete(j) => LaterMoves(sys, sys', j, s);
  }

  lemma LaterAnswer(sys: Sys, sys': Sys, s: ShardId, op: ShardOp, reply: ShardReply)
    requires Later(sys, sys') && AnswerOk(sys, s, op, reply)
    ensures AnswerOk(sys', s, op, reply)
  {
    hide Later;
    LaterConfigs(sys, sys');
    var j := op.num;
    if Moves(sys, j, s) {
      LaterMoves(sys, sys', j, s);
    }
  }

  lemma MoverClaimed(sys: Sys, from: Config, to: Config)
    requires Mover(sys, from, to)
    ensures Claimed(sys, to) && Complete(from)
  {
  }

  lemma LaterProc(sys: Sys, sys': Sys, p: Proc)
    requires Later(sys, sys') && ProcOk(sys, p)
    ensures ProcOk(sys', p)
  {
    hide Later, MayPublish, Mover;
    LaterConfigs(sys, sys');
    match p
    case ClaimPut(to, v, _) => LaterPut(sys, sys', Next, to, v);
    case PublishPut(to, v, _) => LaterPut(sys, sys', Current, to, v);
    case Publish(to) => LaterPublish(sys, sys', to);
    case Recheck(from, to) => LaterMover(sys, sys', from, to);
    case Move(from, to, s, _) =>
      LaterMover(sys, sys', from, to);
      assert 2 <= to.num <= |sys.configs| by { MoverClaimed(sys, from, to); }
      LaterMoves(sys, sys', to.num, s);
      LaterBelow(sys, sys', to.num, s);
    case _ =>
  }
}
