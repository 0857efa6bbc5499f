/** What one controller does when it runs alone, up to any point. */
module ShardAlone {
  import opened KvStore
  import opened ShardGroup
  import opened ShardMove

  // ---------- Runs without clients ----------

  ghost predicate Quiet(run: seq<Sys>, steps: seq<Step>)
    requires |run| == |steps| + 1
  {
    AllInStep(run, steps, 0) && forall k :: 0 <= k < |steps| ==> !steps[k].Client?
  }

  ghost predicate Leads(a: Sys, b: Sys) {
    exists run, steps :: Path(a, run, steps) && Quiet(run, steps) && run[|steps|] == b
  }

  lemma LeadsStep(a: Sys, step: Step)
    requires Enabled(a, step) && InStep(a, step) && !step.Client?
    ensures Leads(a, Apply(a, step))
  {
    var run, steps := [a, Apply(a, step)], [step];
    assert Path(a, run, steps) && Quiet(run, steps) && run[|steps|] == Apply(a, step);
  }

  lemma LeadsSelf(a: Sys)
    ensures Leads(a, a)
  {
    var steps: seq<Step> := [];
    assert Path(a, [a], steps) && Quiet([a], steps) && [a][|steps|] == a;
  }

  lemma Joined(a: Sys, r1: seq<Sys>, s1: seq<Step>, r2: seq<Sys>, s2: seq<Step>)
    requires Path(a, r1, s1) && Path(r1[|s1|], r2, s2)
    ensures Path(a, r1 + r2[1..], s1 + s2) && (r1 + r2[1..])[|s1 + s2|] == r2[|s2|]
    ensures forall from: nat :: from <= |s1| && AllInStep(r1, s1, from) && AllInStep(r2, s2, 0) ==> AllInStep(r1 + r2[1..], s1 + s2, from)
  {
    var run, steps := r1 + r2[1..], s1 + s2;
    forall k | 0 <= k < |run| ensures run[k] == if k <= |s1| then r1[k] else r2[k - |s1|] {
    }
    forall k | 0 <= k < |steps| ensures steps[k] == if k < |s1| then s1[k] else s2[k - |s1|] {
    }
  }

  lemma LeadsTwice(a: Sys, b: Sys, c: Sys)
    requires Leads(a, b) && Leads(b, c)
    ensures Leads(a, c)
  {
    hide AllInStep, Enabled, Apply;
    var r1, s1 :| Path(a, r1, s1) && Quiet(r1, s1) && r1[|s1|] == b;
    var r2, s2 :| Path(b, r2, s2) && Quiet(r2, s2) && r2[|s2|] == c;
    Joined(a, r1, s1, r2, s2);
    assert Quiet(r1 + r2[1..], s1 + s2);
  }

  // ---------- Calls ----------

  /** The process's call is on its way. */
  ghost predicate Ready(sys: Sys, id: nat) {
    id < |sys.procs| && Pending(id, sys.procs[id]) <= sys.net
  }

  ghost predicate SameKeys(a: Sys, b: Sys) {
    b == a.(slots := b.slots, procs := b.procs, net := b.net)
  }

  /** A call of a group is executed and answered. */
  lemma GroupCall(sys: Sys, id: nat, g: nat, s: ShardId, op: ShardOp) returns (sys': Sys)
    requires Ready(sys, id) && Pending(id, sys.procs[id]) == {Ask(g, s, op)}
    ensures Leads(sys, sys') && SameKeys(sys, sys') && Ready(sys', id)
    ensures var (x, reply) := Exec(At(sys, g, s), op);
            sys'.slots == sys.slots[Slot(g, s) := x] && sys'.procs == sys.procs[id := Replied(sys.procs[id], reply)]
  {
    hide Exec, Replied, Pending;
    var (x, reply) := Exec(At(sys, g, s), op);
    var m := Ask(g, s, op);
    assert m in Pending(id, sys.procs[id]);
    LeadsStep(sys, Serve(m));
    var s1 := Apply(sys, Serve(m));
    var answer := Answer(g, s, op, reply);
    assert Answers(id, s1.procs[id], answer);
    LeadsStep(s1, Hear(id, answer));
    sys' := Apply(s1, Hear(id, answer));
    LeadsTwice(sys, s1, sys');
  }

  /** A Put on the kvsrv that finds its version is executed and answered. */
  lemma PutCall(sys: Sys, id: nat, key: Key, cfg: Config, version: nat) returns (sys': Sys)
    requires Ready(sys, id) && Pending(id, sys.procs[id]) == {PutAsk(id, key, cfg, version)}
    requires version == if key == Current then sys.curVersion else sys.nextVersion
    ensures Leads(sys, sys') && Ready(sys', id) && sys'.procs == sys.procs[id := PutReturned(sys.procs[id], OK)]
    ensures sys' == PutConfig(sys, key, cfg, version).0.(procs := sys'.procs, net := sys'.net)
  {
    hide PutReturned, Pending;
    var m := PutAsk(id, key, cfg, version);
    assert m in Pending(id, sys.procs[id]);
    LeadsStep(sys, Serve(m));
    var s1 := Apply(sys, Serve(m));
    var answer := PutAnswer(id, key, cfg, version, OK);
    assert Answers(id, s1.procs[id], answer);
    LeadsStep(s1, Hear(id, answer));
    sys' := Apply(s1, Hear(id, answer));
    LeadsTwice(sys, s1, sys');
  }

  /** A process reads config or config_next. */
  lemma ReadCall(sys: Sys, id: nat) returns (sys': Sys)
    requires id < |sys.procs| && !sys.procs[id].InheritNext?
    ensures Leads(sys, sys') && SameKeys(sys, sys') && Ready(sys', id) && sys'.slots == sys.slots
    ensures sys'.procs == sys.procs[id := Read(sys, sys.procs[id])]
  {
    hide Pending, Read;
    LeadsStep(sys, Go(id));
    sys' := Apply(sys, Go(id));
  }

  // ---------- Moving ----------

  ghost predicate NumsUpTo(sys: Sys, n: nat) {
    forall g, s {:trigger At(sys, g, s)} :: At(sys, g, s).num <= n
  }

  /** What group g has of shard s once the shard has been moved. */
  function Moved(sys: Sys, from: Config, to: Config, s: ShardId, g: nat): ShardState {
    if g == from.shards[s] then ShardState(map[], false, to.num)
    else if g == to.shards[s] then Exec(At(sys, g, s), Install(At(sys, from.shards[s], s).data, to.num)).0
    else At(sys, g, s)
  }

  lemma MoveOne(sys: Sys, id: nat, from: Config, to: Config, s: ShardId) returns (sys': Sys)
    requires Ready(sys, id) && sys.procs[id] == Move(from, to, s, Freezing) && from.shards[s] != to.shards[s]
    requires Complete(from) && Complete(to) && NumsUpTo(sys, to.num)
    ensures Leads(sys, sys') && SameKeys(sys, sys') && Ready(sys', id)
    ensures sys'.procs == sys.procs[id := NextShard(from, to, s + 1)] && NumsUpTo(sys', to.num)
    ensures forall g, t: ShardId :: At(sys', g, t) == if t == s then Moved(sys, from, to, s, g) else At(sys, g, t)
  {
    hide NextShard, Leads;
    var (a, b, num) := (from.shards[s], to.shards[s], to.num);
    assert At(sys, a, s).num <= num && a in from.groups && b in to.groups;
    var data := At(sys, a, s).data;
    var s1 := GroupCall(sys, id, a, s, Freeze(num));
    assert s1.procs[id] == Move(from, to, s, Installing(data));
    assert At(s1, b, s) == At(sys, b, s) && At(sys, b, s).num <= num;
    var s2 := GroupCall(s1, id, b, s, Install(data, num));
    assert s2.procs[id] == Move(from, to, s, Deleting);
    assert At(s2, a, s) == ShardState(data, false, num);
    sys' := GroupCall(s2, id, a, s, Delete(num));
    LeadsTwice(sys, s1, s2);
    LeadsTwice(sys, s2, sys');
    forall g, t: ShardId ensures At(sys', g, t).num <= num {
      assert At(sys, g, t).num <= num;
    }
  }

  /** From shard s on, every shard is moved. */
  lemma {:induction false} MoveAll(sys: Sys, id: nat, from: Config, to: Config, s: nat) returns (sys': Sys)
    requires s <= NSHARDS && Ready(sys, id) && sys.procs[id] == NextShard(from, to, s)
    requires Complete(from) && Complete(to) && NumsUpTo(sys, to.num)
    ensures Leads(sys, sys') && SameKeys(sys, sys') && Ready(sys', id)
    ensures sys'.procs == sys.procs[id := Publish(to)] && NumsUpTo(sys', to.num)
    ensures forall g, t: ShardId :: At(sys', g, t) ==
              if t >= s && from.shards[t] != to.shards[t] then Moved(sys, from, to, t, g) else At(sys, g, t)
    decreases NSHARDS - s
  {
    hide Leads, Moved, Pending;
    if s == NSHARDS {
      LeadsSelf(sys);
      sys' := sys;
    } else if from.shards[s] == to.shards[s] {
      sys' := MoveAll(sys, id, from, to, s + 1);
    } else {
      assert from.shards[s] in from.groups;
      var s1 := MoveOne(sys, id, from, to, s);
      sys' := MoveAll(s1, id, from, to, s + 1);
      LeadsTwice(sys, s1, sys');
      forall g, t: ShardId | t != s ensures Moved(s1, from, to, t, g) == Moved(sys, from, to, t, g) {
        SameMoved(sys, s1, from, to, t, g);
      }
    }
  }

  lemma SameMoved(a: Sys, b: Sys, from: Config, to: Config, t: ShardId, g: nat)
    requires forall h :: At(b, h, t) == At(a, h, t)
    ensures Moved(b, from, to, t, g) == Moved(a, from, to, t, g)
  {
  }

  // ---------- Claiming and publishing ----------

  lemma PublishAlone(sys: Sys, id: nat, to: Config) returns (sys': Sys)
    requires id < |sys.procs| && sys.procs[id] == Publish(to) && sys.cur.num < to.num
    ensures Leads(sys, sys') && sys'.procs == sys.procs[id := Stop]
    ensures sys' == sys.(cur := to, curVersion := sys.curVersion + 1, procs := sys'.procs, net := sys'.net)
  {
    hide Leads;
    var s1 := ReadCall(sys, id);
    assert s1.procs[id] == PublishPut(to, sys.curVersion, false);
    sys' := PutCall(s1, id, Current, to, sys.curVersion);
    LeadsTwice(sys, s1, sys');
  }

  /** Somebody asks for a change, and a new controller claims it. */
  lemma ClaimAlone(sys: Sys, to: Config) returns (sys': Sys)
    requires Enabled(sys, Change(to)) && sys.cur.num < to.num && (sys.next.Some? ==> sys.next.value.num < to.num)
    ensures Leads(sys, sys') && sys'.procs == sys.procs + [Reread(to)]
    ensures sys' == sys.(next := Some(to), nextVersion := sys.nextVersion + 1, configs := sys.configs + [to],
                         procs := sys'.procs, net := sys'.net)
  {
    hide Leads;
    var id := |sys.procs|;
    LeadsStep(sys, Change(to));
    var s0 := Apply(sys, Change(to));
    var s1 := ReadCall(s0, id);
    assert s1.procs[id] == Claim(to);
    var s2 := ReadCall(s1, id);
    assert s2.procs[id] == ClaimPut(to, sys.nextVersion, false);
    sys' := PutCall(s2, id, Key.Next, to, sys.nextVersion);
    LeadsTwice(sys, s0, s1);
    LeadsTwice(sys, s1, s2);
    LeadsTwice(sys, s2, sys');
  }

  /** The whole change, to the end. */
  lemma ChangeAlone(sys: Sys, to: Config) returns (sys': Sys)
    requires Enabled(sys, Change(to)) && sys.cur.num < to.num && (sys.next.Some? ==> sys.next.value.num < to.num)
    requires Complete(sys.cur) && NumsUpTo(sys, to.num)
    ensures Leads(sys, sys') && sys'.procs == sys.procs + [Stop] && NumsUpTo(sys', to.num)
    ensures sys'.cur == to && sys'.next == Some(to) && sys'.configs == sys.configs + [to] && sys'.shardOf == sys.shardOf
  {
    hide Leads;
    var id := |sys.procs|;
    var s1 := ClaimAlone(sys, to);
    assert NumsUpTo(s1, to.num) by {
      forall g, s ensures At(s1, g, s) == At(sys, g, s) {}
    }
    var s2 := ReadCall(s1, id);
    assert s2.procs[id] == NextShard(sys.cur, to, 0);
    assert NumsUpTo(s2, to.num) by {
      forall g, s ensures At(s2, g, s) == At(s1, g, s) {}
    }
    var s3 := MoveAll(s2, id, sys.cur, to, 0);
    sys' := PublishAlone(s3, id, to);
    assert NumsUpTo(sys', to.num) by {
      forall g, s ensures At(sys', g, s) == At(s3, g, s) {}
    }
    LeadsTwice(sys, s1, s2);
    LeadsTwice(sys, s2, s3);
    LeadsTwice(sys, s3, sys');
  }
}
