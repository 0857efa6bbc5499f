/**
 The replicated state machine of one shard group. Only `Freeze`, `Install` and `Delete` decide
 which shards a group serves; each carries the number of the configuration it belongs to, and
 the group refuses numbers below the largest it has seen for that shard.
 */
module ShardGroup {
  import opened KvStore

  const NSHARDS: nat := 12
  const GID1: nat := 1

  type ShardId = s: nat | s < NSHARDS witness 0

  /** One shard as one group sees it. */
  datatype ShardState = ShardState(data: Store, served: bool, num: nat)

  datatype ShardOp =
    | Kv(req: Request)
    | Freeze(num: nat)
    | Install(state: Store, num: nat)
    | Delete(num: nat)

  datatype ShardReply =
    | KvReply(reply: Reply)
    | FreezeReply(state: Store, num: nat, err: Err)
    | InstallReply(err: Err)
    | DeleteReply(err: Err)

  /** The first group starts with all shards, the others with none. */
  function Start(g: nat): ShardState {
    ShardState(map[], g == GID1, 0)
  }

  /** What one committed operation does to the shard it names, and what it answers. */
  function Exec(x: ShardState, op: ShardOp): (ShardState, ShardReply) {
    match op
    case Kv(req) =>
      if !x.served then
        (x, KvReply(if req.Get? then GetReply("", 0, ErrWrongGroup) else PutReply(ErrWrongGroup)))
      else
        var (m, reply) := DoOp(x.data, req);
        (x.(data := m), KvReply(reply))
    case Freeze(num) =>
      if num < x.num then (x, FreezeReply(map[], x.num, ErrStale))
      else (x.(num := num, served := false), FreezeReply(x.data, num, OK))
    case Install(state, num) =>
      if num < x.num then (x, InstallReply(ErrStale))
      else if num == x.num && x.served then (x, InstallReply(OK))
      else (ShardState(state, true, num), InstallReply(OK))
    case Delete(num) =>
      if num < x.num then (x, DeleteReply(ErrStale))
      else (ShardState(map[], false, num), DeleteReply(OK))
  }

  // ---------- What a group has of a shard, by what it has been asked ----------

  /** One operation after the other. */
  function Ran(x: ShardState, ops: seq<ShardOp>): ShardState {
    if ops == [] then x else Exec(Ran(x, ops[..|ops| - 1]), ops[|ops| - 1]).0
  }

  /** The operation is a Freeze, Install or Delete, and none before it had a larger number. */
  ghost predicate Taken(ops: seq<ShardOp>, k: nat) {
    k < |ops| && !ops[k].Kv? && forall j :: 0 <= j < k && !ops[j].Kv? ==> ops[j].num <= ops[k].num
  }

  ghost predicate LastTaken(ops: seq<ShardOp>, k: nat) {
    Taken(ops, k) && forall j: nat :: k < j ==> !Taken(ops, j)
  }

  lemma TakenBefore(ops: seq<ShardOp>, op: ShardOp)
    ensures forall k: nat :: k < |ops| ==> (Taken(ops + [op], k) <==> Taken(ops, k))
    ensures (ops + [op])[..|ops|] == ops
  {
    forall k: nat | k < |ops| ensures Taken(ops + [op], k) <==> Taken(ops, k) {
      assert forall j :: 0 <= j <= k ==> (ops + [op])[j] == ops[j];
    }
  }

  /** The number is the largest that was asked with; the shard is served exactly if the last operation that was
      taken is an Install (or there was none, and it is the first group); after a Delete nothing is left. */
  ghost predicate ByHistory(x: ShardState, g: nat, ops: seq<ShardOp>) {
    && LargestNum(x.num, ops)
    && (forall k: nat :: LastTaken(ops, k) ==>
          && x.num == ops[k].num && (x.served <==> ops[k].Install?) && (ops[k].Delete? ==> x.data == map[]))
    && ((forall k: nat :: !Taken(ops, k)) ==> x.num == 0 && (x.served <==> g == GID1))
  }

  ghost predicate LargestNum(num: nat, ops: seq<ShardOp>) {
    && (forall k :: 0 <= k < |ops| && !ops[k].Kv? ==> ops[k].num <= num)
    && (num == 0 || exists k: nat :: Taken(ops, k) && ops[k].num == num)
  }

  lemma {:induction false} ServesByHistory(g: nat, ops: seq<ShardOp>)
    ensures ByHistory(Ran(Start(g), ops), g, ops)
  {
    hide ByHistory, Exec;
    if ops == [] {
      assert ByHistory(Start(g), g, ops) by { NothingAsked(g); }
    } else {
      var last := |ops| - 1;
      var before, op := ops[..last], ops[last];
      assert before + [op] == ops;
      ServesByHistory(g, before);
      TakenBefore(before, op);
      if !op.Kv? && op.num >= Ran(Start(g), before).num {
        OneTaken(Ran(Start(g), before), g, before, op);
      } else {
        NoneTaken(Ran(Start(g), before), g, before, op);
      }
    }
  }

  lemma NothingAsked(g: nat)
    ensures ByHistory(Start(g), g, [])
  {
  }

  lemma OneTaken(x: ShardState, g: nat, ops: seq<ShardOp>, op: ShardOp)
    requires ByHistory(x, g, ops) && !op.Kv? && op.num >= x.num
    ensures ByHistory(Exec(x, op).0, g, ops + [op])
  {
    assert Taken(ops + [op], |ops|);
  }

  lemma NoneTaken(x: ShardState, g: nat, ops: seq<ShardOp>, op: ShardOp)
    requires ByHistory(x, g, ops) && (op.Kv? || op.num < x.num)
    ensures ByHistory(Exec(x, op).0, g, ops + [op])
  {
    hide Exec, Taken, LargestNum;
    var (all, x') := (ops + [op], Exec(x, op).0);
    Unchanged(x, op);
    SameTaken(x, g, ops, op);
    assert LargestNum(x.num, all) by { SameLargest(x.num, ops, op); }
    forall k: nat | LastTaken(all, k)
      ensures !all[k].Kv? && x'.num == all[k].num && (x'.served <==> all[k].Install?) && (all[k].Delete? ==> x'.data == map[])
    {
      assert LastTaken(ops, k);
      ATakenOne(ops, k);
    }
  }

  lemma ATakenOne(ops: seq<ShardOp>, k: nat)
    requires Taken(ops, k)
    ensures k < |ops| && !ops[k].Kv?
  {
  }

  lemma SameTaken(x: ShardState, g: nat, ops: seq<ShardOp>, op: ShardOp)
    requires ByHistory(x, g, ops) && (op.Kv? || op.num < x.num)
    ensures forall k: nat :: (Taken(ops + [op], k) <==> Taken(ops, k)) && (Taken(ops, k) ==> k < |ops| && (ops + [op])[k] == ops[k])
  {
    hide Taken, ByHistory;
    TakenBefore(ops, op);
    NotTaken(x, g, ops, op);
    forall k: nat ensures (Taken(ops + [op], k) <==> Taken(ops, k)) && (Taken(ops, k) ==> k < |ops| && (ops + [op])[k] == ops[k]) {
      if k >= |ops| { Beyond(ops, k); }
      if k > |ops| { Beyond(ops + [op], k); }
    }
  }

  lemma SameLargest(num: nat, ops: seq<ShardOp>, op: ShardOp)
    requires LargestNum(num, ops) && (op.Kv? || op.num < num)
    ensures LargestNum(num, ops + [op])
  {
    TakenBefore(ops, op);
    if num != 0 {
      var k: nat :| Taken(ops, k) && ops[k].num == num;
      assert Taken(ops + [op], k) && (ops + [op])[k].num == num;
    }
  }

  lemma Beyond(ops: seq<ShardOp>, k: nat)
    requires k >= |ops|
    ensures !Taken(ops, k)
  {
  }

  lemma NotTaken(x: ShardState, g: nat, ops: seq<ShardOp>, op: ShardOp)
    requires ByHistory(x, g, ops) && (op.Kv? || op.num < x.num)
    ensures !Taken(ops + [op], |ops|)
  {
    if !op.Kv? {
      var k: nat :| Taken(ops, k) && ops[k].num == x.num;
      assert (ops + [op])[k] == ops[k];
    }
  }

  lemma Unchanged(x: ShardState, op: ShardOp)
    requires op.Kv? || op.num < x.num
    ensures var x' := Exec(x, op).0; x'.num == x.num && x'.served == x.served && ((op.Kv? && x.served) || x' == x)
  {
  }

  /** What it answers: an operation is stale exactly if an earlier one had a larger number, and then changes nothing;
      otherwise a Freeze hands out the contents, and an Install that is not repeated puts in its own. A
      client's request is refused exactly if the shard is not served, and else done as on any store. */
  lemma AnswersByHistory(g: nat, ops: seq<ShardOp>, op: ShardOp)
    ensures var x := Ran(Start(g), ops); var (x', reply) := Exec(x, op);
            var stale := !op.Kv? && exists k :: 0 <= k < |ops| && !ops[k].Kv? && op.num < ops[k].num;
            match op
            case Kv(req) =>
              && reply.KvReply?
              && (reply.reply.err == ErrWrongGroup <==> !x.served)
              && (x.served ==> (x'.data, reply.reply) == DoOp(x.data, req)) && (!x.served ==> x' == x)
            case Freeze(num) =>
              && reply.FreezeReply? && (reply.err == ErrStale <==> stale) && (stale ==> x' == x && reply.num == x.num)
              && (!stale ==> reply == FreezeReply(x.data, num, OK) && x'.data == x.data)
            case Install(state, num) =>
              && reply.InstallReply? && (reply.err == ErrStale <==> stale) && (stale ==> x' == x)
              && (!stale ==> reply.err == OK && x'.data == if x.served && x.num == num then x.data else state)
            case Delete(num) =>
              && reply.DeleteReply? && (reply.err == ErrStale <==> stale) && (stale ==> x' == x) && (!stale ==> reply.err == OK)
  {
    ServesByHistory(g, ops);
    var x := Ran(Start(g), ops);
    if !op.Kv? && op.num < x.num {
      var k: nat :| Taken(ops, k) && ops[k].num == x.num;
    }
  }

  /** `KVServer` of a shard group: the state machine is three arrays, indexed by shard. */
  class KVServer {
    const shards: array<Store>
    const served: array<bool>
    const num: array<nat>

    ghost predicate Valid()
      reads this
    {
      shards.Length == served.Length == num.Length == NSHARDS
    }

    ghost function At(s: ShardId): ShardState
      requires Valid()
      reads this, shards, served, num
    {
      ShardState(shards[s], served[s], num[s])
    }

    constructor (gid: nat)
      ensures Valid() && fresh(shards) && fresh(served) && fresh(num)
      ensures forall s: ShardId :: At(s) == Start(gid)
    {
      shards := new Store[NSHARDS](i => map[]);
      served := new bool[NSHARDS](i => gid == GID1);
      num := new nat[NSHARDS](i => 0);
    }

    /** `DoOp`, with s the shard that a Freeze, Install or Delete names or a key belongs to. */
    method Execute(s: ShardId, op: ShardOp) returns (reply: ShardReply)
      requires Valid()
      modifies shards, served, num
      ensures (At(s), reply) == Exec(old(At(s)), op)
      ensures forall t: ShardId :: t != s ==> At(t) == old(At(t))
    {
      match op {
        case Kv(req) =>
          reply := ExecuteKv(s, req);
        case Freeze(n) =>
          if n < num[s] {
            return FreezeReply(map[], num[s], ErrStale);
          }
          num[s] := n;
          served[s] := false;
          reply := FreezeReply(shards[s], n, OK);
        case Install(state, n) =>
          if n < num[s] {
            return InstallReply(ErrStale);
          }
          if n == num[s] && served[s] {
            return InstallReply(OK);
          }
          shards[s] := state;
          served[s] := true;
          num[s] := n;
          reply := InstallReply(OK);
        case Delete(n) =>
          if n < num[s] {
            return DeleteReply(ErrStale);
          }
          num[s] := n;
          served[s] := false;
          shards[s] := map[];
          reply := DeleteReply(OK);
      }
    }

    method ExecuteKv(s: ShardId, req: Request) returns (reply: ShardReply)
      requires Valid()
      modifies shards
      ensures (At(s), reply) == Exec(old(At(s)), Kv(req))
      ensures forall t: ShardId :: t != s ==> At(t) == old(At(t))
    {
      match req {
        case Get(key) =>
          if !served[s] {
            return KvReply(GetReply("", 0, ErrWrongGroup));
          }
          if key !in shards[s] {
            return KvReply(GetReply("", 0, ErrNoKey));
          }
          reply := KvReply(GetReply(shards[s][key].value, shards[s][key].version, OK));
        case Put(key, value, version) =>
          if !served[s] {
            return KvReply(PutReply(ErrWrongGroup));
          }
          var m := shards[s];
          if key !in m {
            if version != 0 {
              return KvReply(PutReply(ErrNoKey));
            }
            shards[s] := m[key := Item(value, 1)];
            return KvReply(PutReply(OK));
          }
          if version != m[key].version {
            return KvReply(PutReply(ErrVersion));
          }
          shards[s] := m[key := Item(value, m[key].version + 1)];
          reply := KvReply(PutReply(OK));
      }
    }

    /** `Snapshot`: a copy of the whole state. */
    method Snapshot() returns (data: seq<ShardState>)
      requires Valid()
      ensures |data| == NSHARDS && forall s: ShardId :: data[s] == At(s)
    {
      data := seq(NSHARDS, i requires 0 <= i < NSHARDS reads this, shards, served, num requires Valid() =>
                    ShardState(shards[i], served[i], num[i]));
    }

    /** `Restore`: empty data is no snapshot, any other replaces the whole state. */
    method Restore(data: seq<ShardState>)
      requires Valid() && (data == [] || |data| == NSHARDS)
      modifies shards, served, num
      ensures forall s: ShardId :: At(s) == if data == [] then old(At(s)) else data[s]
    {
      if |data| == 0 {
        return;
      }
      for i := 0 to NSHARDS
        invariant forall s: ShardId :: s < i ==> At(s) == data[s]
      {
        shards[i] := data[i].data;
        served[i] := data[i].served;
        num[i] := data[i].num;
      }
    }
  }
}
