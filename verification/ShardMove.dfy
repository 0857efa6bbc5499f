/**
 Reconfiguration of the sharded store: any number of controllers, each a process that can stop
 for ever at any point, claim and publish configurations by compare-and-swap on a `kvsrv` and
 move shards between groups. The network is the set of all messages ever sent, so every request
 and every answer can be delayed, repeated or lost. Clients send operations to any group.
 */
module ShardMove {
  import opened KvStore
  import opened ShardGroup

  type Shards = s: seq<nat> | |s| == NSHARDS witness seq(NSHARDS, i => 0)

  /** The server lists of the groups do not matter here: a group is reached by its id. */
  datatype Config = Config(num: nat, shards: Shards, groups: set<nat>)

  datatype Option<T> = None | Some(value: T)

  /** Every shard is on a member group, as after `Rebalance` with at least one group. */
  predicate Complete(c: Config) {
    forall s: ShardId :: c.shards[s] in c.groups
  }

  /** The two keys of the `kvsrv`. */
  datatype Key = Current | Next

  datatype Msg =
    | Ask(g: nat, s: ShardId, op: ShardOp)
    | Answer(g: nat, s: ShardId, op: ShardOp, reply: ShardReply)
    | PutAsk(id: nat, key: Key, cfg: Config, version: nat)
    | PutAnswer(id: nat, key: Key, cfg: Config, version: nat, err: Err)

  /** Which call for the present shard is open. */
  datatype Stage = Freezing | Installing(state: Store) | Deleting

  /** One call of `ChangeConfigTo` or `InitController`, by what it will do next. `resent` is the
      clerk's: a call for this Put has failed before. */
  datatype Proc =
    | Begin(to: Config)                                    // ChangeConfigTo: read config
    | Claim(to: Config)                                    // claim: read config_next
    | ClaimPut(to: Config, version: nat, resent: bool)     // claim: Put
    | ClaimCheck(to: Config)                               // claimLanded
    | Reread(to: Config)                                   // ChangeConfigTo: read config again
    | Move(from: Config, to: Config, s: ShardId, stage: Stage)  // moveTo
    | Recheck(from: Config, to: Config)                    // moveUntilDone, group unreachable
    | Publish(to: Config)                                  // publish: read config
    | PublishPut(to: Config, version: nat, resent: bool)   // publish: Put
    | Inherit                                                // InitController: read config
    | InheritNext(cur: Config)                               // InitController: read config_next
    | Stop

  datatype Slot = Slot(g: nat, s: ShardId)

  /** `configs` is not a program variable: all contents that config_next ever had, in order,
      behind the first configuration. */
  datatype Sys = Sys(
    shardOf: string -> ShardId,
    slots: map<Slot, ShardState>,
    cur: Config, curVersion: nat,
    next: Option<Config>, nextVersion: nat,
    configs: seq<Config>,
    procs: seq<Proc>,
    net: set<Msg>)

  function At(sys: Sys, g: nat, s: ShardId): ShardState {
    if Slot(g, s) in sys.slots then sys.slots[Slot(g, s)] else Start(g)
  }

  datatype Step =
    | Change(to: Config)          // somebody calls ChangeConfigTo
    | TakeOver                      // somebody calls InitController
    | Go(id: nat)                   // a process reads config or config_next
    | Fail(id: nat)                 // a process gets no answer
    | Hear(id: nat, m: Msg)         // a process gets an answer
    | Serve(m: Msg)                 // a group or the kvsrv executes a request
    | Client(g: nat, req: Request)  // a group executes a client's request

  // ---------- Controllers ----------

  /** The first shard from s on that moves, and its first call. */
  function NextShard(from: Config, to: Config, s: nat): Proc
    requires s <= NSHARDS
    decreases NSHARDS - s
  {
    if s == NSHARDS then Publish(to)
    else if from.shards[s] == to.shards[s] then NextShard(from, to, s + 1)
    else if from.shards[s] in from.groups then Move(from, to, s, Freezing)
    else AfterFreeze(from, to, s, map[])
  }

  function AfterFreeze(from: Config, to: Config, s: ShardId, state: Store): Proc
    decreases NSHARDS - s, 2
  {
    if to.shards[s] in to.groups then Move(from, to, s, Installing(state)) else AfterInstall(from, to, s)
  }

  function AfterInstall(from: Config, to: Config, s: ShardId): Proc
    decreases NSHARDS - s, 1
  {
    if from.shards[s] in from.groups then Move(from, to, s, Deleting) else NextShard(from, to, s + 1)
  }

  /** What a process does after reading config; nothing is there before `InitConfig`. */
  function SawCurrent(p: Proc, cur: Option<Config>, version: nat): Proc {
    match p
    case Begin(n) => if cur.None? || n.num <= cur.value.num then Stop else Claim(n)
    case Reread(n) => if cur.None? || n.num <= cur.value.num then Stop else NextShard(cur.value, n, 0)
    case Recheck(o, n) => if cur.Some? && cur.value.num >= n.num then Stop else NextShard(o, n, 0)
    case Publish(n) => if cur.None? || cur.value.num >= n.num then Stop else PublishPut(n, version, false)
    case Inherit => if cur.None? then Stop else InheritNext(cur.value)
    case _ => p
  }

  /** What a process does after reading config_next. */
  function SawNext(p: Proc, next: Option<Config>, version: nat): Proc {
    match p
    case Claim(n) => if next.Some? && next.value.num >= n.num then Stop else ClaimPut(n, version, false)
    case ClaimCheck(n) => if next == Some(n) then Reread(n) else Stop
    case InheritNext(c) => if next.None? || next.value.num <= c.num then Stop else NextShard(c, next.value, 0)
    case _ => p
  }

  predicate ReadsNext(p: Proc) {
    p.Claim? || p.ClaimCheck? || p.InheritNext?
  }

  function Read(sys: Sys, p: Proc): Proc {
    if ReadsNext(p) then SawNext(p, sys.next, sys.nextVersion) else SawCurrent(p, Some(sys.cur), sys.curVersion)
  }

  /** What a process does when a call returns false, or no server of the group answers. */
  function Unreachable(p: Proc): Proc {
    match p
    case ClaimPut(n, v, _) => ClaimPut(n, v, true)
    case PublishPut(n, v, _) => PublishPut(n, v, true)
    case Move(o, n, _, _) => Recheck(o, n)
    case _ => p
  }

  /** The request that a process waits for. */
  function Pending(id: nat, p: Proc): set<Msg> {
    match p
    case ClaimPut(n, v, _) => {PutAsk(id, Next, n, v)}
    case PublishPut(n, v, _) => {PutAsk(id, Current, n, v)}
    case Move(o, n, s, Freezing) => {Ask(o.shards[s], s, Freeze(n.num))}
    case Move(o, n, s, Installing(state)) => {Ask(n.shards[s], s, Install(state, n.num))}
    case Move(o, n, s, Deleting) => {Ask(o.shards[s], s, Delete(n.num))}
    case _ => {}
  }

  predicate Answers(id: nat, p: Proc, m: Msg) {
    match m
    case PutAnswer(j, key, cfg, v, _) => PutAsk(j, key, cfg, v) in Pending(id, p)
    case Answer(g, s, op, _) => Ask(g, s, op) in Pending(id, p)
    case _ => false
  }

  /** What a process does after the clerk's Put on the kvsrv. */
  function PutReturned(p: Proc, err: Err): Proc {
    match p
    case ClaimPut(n, _, _) => if err == OK then Reread(n) else if err == ErrMaybe then ClaimCheck(n) else Stop
    case PublishPut(n, _, _) => if err == OK then Stop else Publish(n)
    case _ => p
  }

  /** What a controller does after a group's answer. */
  function Replied(p: Proc, reply: ShardReply): Proc {
    match p
    case Move(o, n, s, Freezing) =>
      if !reply.FreezeReply? then p
      else if reply.err == ErrStale then Publish(n) else AfterFreeze(o, n, s, reply.state)
    case Move(o, n, s, Installing(_)) =>
      if !reply.InstallReply? then p
      else if reply.err == ErrStale then Publish(n) else AfterInstall(o, n, s)
    case Move(o, n, s, Deleting) =>
      if !reply.DeleteReply? then p
      else if reply.err == ErrStale then Publish(n) else NextShard(o, n, s + 1)
    case _ => p
  }

  /** `ErrVersion` after a lost reply becomes `ErrMaybe` in the clerk. */
  function Heard(p: Proc, m: Msg): Proc {
    match m
    case PutAnswer(_, _, _, _, err) =>
      PutReturned(p, if err == ErrVersion && (p.ClaimPut? || p.PublishPut?) && p.resent then ErrMaybe else err)
    case Answer(_, _, _, reply) => Replied(p, reply)
    case _ => p
  }

  // ---------- Steps ----------

  /** A caller derives the configuration from one it queried earlier. */
  predicate Enabled(sys: Sys, step: Step) {
    match step
    case Change(n) =>
      Complete(n) && exists q :: 0 <= q < |sys.configs| && sys.configs[q].num <= sys.cur.num && n.num == sys.configs[q].num + 1
    case TakeOver => true
    case Go(id) => id < |sys.procs|
    case Fail(id) => id < |sys.procs|
    case Hear(id, m) => id < |sys.procs| && m in sys.net && Answers(id, sys.procs[id], m)
    case Serve(m) => m in sys.net && (m.Ask? || m.PutAsk?)
    case Client(_, _) => true
  }

  /** Whether a controller may move from c to n: c places each shard as the predecessor of n does, or
      the shard has already arrived where n wants it. */
  predicate MayMove(sys: Sys, c: Config, n: Config) {
    && 2 <= n.num <= |sys.configs|
    && forall s: ShardId ::
         || c.shards[s] == sys.configs[n.num - 2].shards[s]
         || (sys.configs[n.num - 2].shards[s] != n.shards[s] && At(sys, n.shards[s], s).num >= n.num)
  }

  /** `InitController` reads config and config_next separately. The step is in step if what it has
      read then belongs together. */
  predicate InStep(sys: Sys, step: Step) {
    step.Go? && step.id < |sys.procs| && sys.procs[step.id].InheritNext? ==>
      var c := sys.procs[step.id].cur;
      sys.next.Some? && sys.next.value.num > c.num ==> MayMove(sys, c, sys.next.value)
  }

  function SetProc(sys: Sys, id: nat, p: Proc): Sys
    requires id < |sys.procs|
  {
    sys.(procs := sys.procs[id := p], net := sys.net + Pending(id, p))
  }

  function AddProc(sys: Sys, p: Proc): Sys {
    sys.(procs := sys.procs + [p], net := sys.net + Pending(|sys.procs|, p))
  }

  /** The conditional Put of the kvsrv on one of the two keys. */
  function PutConfig(sys: Sys, key: Key, cfg: Config, version: nat): (Sys, Err) {
    match key
    case Current =>
      if version == sys.curVersion then (sys.(cur := cfg, curVersion := version + 1), OK) else (sys, ErrVersion)
    case Next =>
      if version == sys.nextVersion
      then (sys.(next := Some(cfg), nextVersion := version + 1, configs := sys.configs + [cfg]), OK)
      else (sys, ErrVersion)
  }

  function Execute(sys: Sys, m: Msg): Sys
    requires m.Ask? || m.PutAsk?
  {
    match m
    case Ask(g, s, op) =>
      var (x, reply) := Exec(At(sys, g, s), op);
      sys.(slots := sys.slots[Slot(g, s) := x], net := sys.net + {Answer(g, s, op, reply)})
    case PutAsk(id, key, cfg, v) =>
      var (sys', err) := PutConfig(sys, key, cfg, v);
      sys'.(net := sys'.net + {PutAnswer(id, key, cfg, v, err)})
  }

  function Apply(sys: Sys, step: Step): Sys
    requires Enabled(sys, step)
  {
    match step
    case Change(n) => AddProc(sys, Begin(n))
    case TakeOver => AddProc(sys, Inherit)
    case Go(id) => SetProc(sys, id, Read(sys, sys.procs[id]))
    case Fail(id) => SetProc(sys, id, Unreachable(sys.procs[id]))
    case Hear(id, m) => SetProc(sys, id, Heard(sys.procs[id], m))
    case Serve(m) => Execute(sys, m)
    case Client(g, req) =>
      var s := sys.shardOf(req.key);
      sys.(slots := sys.slots[Slot(g, s) := Exec(At(sys, g, s), Kv(req)).0])
  }

  /** `InitConfig`: the first group has all shards. */
  function Initial(shardOf: string -> ShardId): Sys {
    var first := Config(1, seq(NSHARDS, i => GID1), {GID1});
    Sys(shardOf, map[], first, 1, None, 0, [first], [], {})
  }

  /** Takeovers whose two reads do not belong together are left out. */
  ghost predicate Follows(s: Sys, s': Sys) {
    exists step :: Enabled(s, step) && InStep(s, step) && s' == Apply(s, step)
  }

  /** A run from `sys`, with the steps taken; any takeover may be among them. */
  ghost predicate Path(sys: Sys, run: seq<Sys>, steps: seq<Step>) {
    && |run| == |steps| + 1 && run[0] == sys
    && forall k :: 0 <= k < |steps| ==> Enabled(run[k], steps[k]) && run[k + 1] == Apply(run[k], steps[k])
  }

  /** All takeovers from step `from` on are in step. */
  ghost predicate AllInStep(run: seq<Sys>, steps: seq<Step>, from: nat)
    requires |run| == |steps| + 1
  {
    forall k :: from <= k < |steps| ==> InStep(run[k], steps[k])
  }

  ghost predicate IsRun(shardOf: string -> ShardId, run: seq<Sys>) {
    && |run| >= 1 && run[0] == Initial(shardOf)
    && forall k :: 0 <= k < |run| - 1 ==> Follows(run[k], run[k + 1])
  }
}
