/** The applier, the service's reader, snapshots and restarts, as steps that keep `ClusterInv.Ok`. */
module ClusterService {
  import opened KvStore
  import opened RaftTypes
  import opened RaftState
  import opened LogHistory
  import opened Cluster
  import opened ClusterInv
  import opened ClusterSteps
  import opened ClusterLeader

  /** A step of one server that the protocol history does not see. */
  lemma LocalStep(s: Sys, h: History, i: nat, node: Node)
    requires Ok(s, h) && i < |s.nodes| && NodeOk(h, i, node)
    ensures Ok(Update(s, i, node, {}), h)
  {
    hide Inv, Moves, MsgOk, Ok, NodeOk;
    InvOf(s, h);
    StayMoves(h, i);
    StepOk(s, h, h, i, node, {});
  }

  lemma NodeParts(h: History, i: nat, node: Node)
    requires NodeOk(h, i, node)
    ensures RaftOk(h, i, node.raft) && i < |h.srv| && ServiceOk(node, h.srv[i].log)
    ensures node.raft.role == Candidate ==>
              node.raft.voteCount <= |Tally(h, i, node.raft.currentTerm, node.calls)|
  {
  }

  lemma NodeFrom(h: History, i: nat, node: Node)
    requires RaftOk(h, i, node.raft) && i < |h.srv| && ServiceOk(node, h.srv[i].log)
    requires node.raft.role == Candidate ==>
               node.raft.voteCount <= |Tally(h, i, node.raft.currentTerm, node.calls)|
    ensures NodeOk(h, i, node)
  {
  }

  // ---------- The applier ----------

  lemma TakeRaft(h: History, i: nat, r: Raft)
    requires RaftOk(h, i, r) && r.InRange() && HasWork(r)
    ensures RaftOk(h, i, TakeBatch(r).0)
  {
    hide Sealed;
  }

  /** The batch continues what the service has: the pending snapshot, else the next commands. */
  lemma TakeService(node: Node, x: Log)
    requires ServiceOk(node, x) && LogIs(node.raft, x) && node.raft.InRange() && HasWork(node.raft) && node.outbox == []
    ensures ServiceOk(node.(raft := TakeBatch(node.raft).0, outbox := TakeBatch(node.raft).1), x)
  {
    var r := node.raft;
    var batch := TakeBatch(r).1;
    if r.pendingSnapshot == NoSnap {
      forall k | 0 <= k < |batch| ensures batch[k] == CommandMsg(node.svc.pos + 1 + k, x[node.svc.pos + 1 + k].cmd) {
        EntryFact(r, x, r.applyIndex + 1 + k);
      }
    }
  }

  lemma WorkStep(s: Sys, h: History, i: nat)
    requires Ok(s, h) && i < |s.nodes| && s.nodes[i].raft.InRange() && HasWork(s.nodes[i].raft)
    requires s.nodes[i].outbox == []
    ensures var (r, batch) := TakeBatch(s.nodes[i].raft);
            Ok(Update(s, i, s.nodes[i].(raft := r, outbox := batch), {}), h)
  {
    hide Inv, RaftOk, ServiceOk, MsgOk, Ok, NodeOk;
    var node := s.nodes[i];
    NodeFact(s, h, i);
    NodeParts(h, i, node);
    RaftLog(h, i, node.raft);
    TakeRaft(h, i, node.raft);
    TakeService(node, h.srv[i].log);
    var (r, batch) := TakeBatch(node.raft);
    NodeFrom(h, i, node.(raft := r, outbox := batch));
    LocalStep(s, h, i, node.(raft := r, outbox := batch));
  }

  // ---------- The reader ----------

  lemma ConsumeSnapshot(node: Node, x: Log, save: bool)
    requires ServiceOk(node, x) && node.outbox != [] && node.outbox[0].SnapshotMsg? && node.svc.saving.None?
    ensures ServiceOk(node.(outbox := node.outbox[1..], svc := OnApply(node.svc, node.outbox[0], save)), x)
  {
  }

  lemma ConsumeCommand(node: Node, x: Log, save: bool)
    requires ServiceOk(node, x) && node.outbox != [] && node.outbox[0].CommandMsg? && node.svc.saving.None?
    ensures ServiceOk(node.(outbox := node.outbox[1..], svc := OnApply(node.svc, node.outbox[0], save)), x)
    ensures node.outbox[0].index == node.svc.pos + 1 <= node.raft.applyIndex < |x|
    ensures node.outbox[0].cmd == x[node.outbox[0].index].cmd
  {
    hide Encodes;
    var m := node.outbox[0];
    var node' := node.(outbox := node.outbox[1..], svc := OnApply(node.svc, m, save));
    assert m.index == node.svc.pos + 1 && m.cmd == x[m.index].cmd;
    ConsumedState(node.svc, m, save, x);
    assert OutboxOk(node', x);
    assert End(node') == End(node);
  }

  /** One more entry of the log: the state, the position and a snapshot taken of it move together. */
  lemma ConsumedState(v: Service, m: ApplyMsg, save: bool, x: Log)
    requires m.CommandMsg? && v.pos + 1 < |x| && m.index == v.pos + 1 && m.cmd == x[m.index].cmd
    requires v.sm == Replay(x, v.pos + 1) && v.lastApplied <= v.pos && v.saving.None?
    ensures var v' := OnApply(v, m, save);
            && v'.pos == v.pos + 1 && v'.sm == Replay(x, v'.pos + 1) && v'.lastApplied <= v'.pos
            && (v'.saving.Some? ==> v'.saving.value.0 <= v'.pos && Encodes(v'.saving.value.1, x, v'.saving.value.0))
  {
  }

  lemma ConsumeNode(h: History, i: nat, node: Node, save: bool)
    requires NodeOk(h, i, node) && node.outbox != [] && node.svc.saving.None?
    ensures NodeOk(h, i, node.(outbox := node.outbox[1..], svc := OnApply(node.svc, node.outbox[0], save)))
    ensures node.outbox[0].CommandMsg? ==> AppliedOk(h, Applied(i, node.outbox[0].index, node.outbox[0].cmd))
  {
    hide NodeOk, RaftOk, ServiceOk, AppliedOk;
    NodeParts(h, i, node);
    if node.outbox[0].SnapshotMsg? {
      ConsumeSnapshot(node, h.srv[i].log, save);
    } else {
      ConsumeCommand(node, h.srv[i].log, save);
      RaftLog(h, i, node.raft);
      RaftSealed(h, i, node.raft);
      SealedApplied(h, i, h.srv[i].log, node.raft.commitIndex + 1, h.srv[i].term, node.outbox[0].index);
    }
    NodeFrom(h, i, node.(outbox := node.outbox[1..], svc := OnApply(node.svc, node.outbox[0], save)));
  }

  lemma SealedApplied(h: History, i: nat, x: Log, k: nat, hi: nat, index: nat)
    requires Sealed(h, x, k, hi) && 1 <= index < k && k <= |x|
    ensures AppliedOk(h, Applied(i, index, x[index].cmd))
  {
    var t: nat, n: nat :| t <= hi && k <= n + 1 && Committed(h, t, n) && Agree(x, h.led[t].log, k);
    assert Committed(h, t, n) && index <= n && h.led[t].log[index].cmd == x[index].cmd;
  }

  lemma MoreApplied(s: Sys, h: History, more: set<Applied>)
    requires Ok(s, h) && forall a :: a in more ==> AppliedOk(h, a)
    ensures Ok(s.(applied := s.applied + more), h)
  {
    var s' := s.(applied := s.applied + more);
    forall a | a in s'.applied ensures AppliedOk(h, a) {
      if a !in more { assert AppliedOk(h, a); }
    }
    forall i | 0 <= i < |s'.nodes| ensures NodeOk(h, i, s'.nodes[i]) {
      assert NodeOk(h, i, s.nodes[i]);
    }
  }

  lemma ConsumeStep(s: Sys, h: History, i: nat, save: bool)
    requires Ok(s, h) && Enabled(s, Consume(i, save))
    ensures Ok(Apply(s, Consume(i, save)), h)
  {
    hide NodeOk, Ok, AppliedOk;
    var m := s.nodes[i].outbox[0];
    var node := s.nodes[i].(outbox := s.nodes[i].outbox[1..], svc := OnApply(s.nodes[i].svc, m, save));
    NodeFact(s, h, i);
    ConsumeNode(h, i, s.nodes[i], save);
    LocalStep(s, h, i, node);
    MoreApplied(Update(s, i, node, {}), h, if m.CommandMsg? then {Applied(i, m.index, m.cmd)} else {});
  }

  // ---------- Snapshots ----------

  lemma SavedRaft(h: History, i: nat, r: Raft, index: nat, data: Snap)
    requires RaftOk(h, i, r) && |r.log| >= 1
    ensures RaftOk(h, i, OnSnapshot(r, index, data))
  {
    hide Sealed;
  }

  lemma SavedService(node: Node, x: Log)
    requires ServiceOk(node, x) && node.svc.saving.Some? && |node.raft.log| >= 1
    ensures var (index, data) := node.svc.saving.value;
            ServiceOk(node.(raft := OnSnapshot(node.raft, index, data), svc := node.svc.(saving := None)), x)
  {
    hide Encodes;
  }

  lemma SaveStep(s: Sys, h: History, i: nat)
    requires Ok(s, h) && i < |s.nodes| && |s.nodes[i].raft.log| >= 1 && s.nodes[i].svc.saving.Some?
    ensures var (index, data) := s.nodes[i].svc.saving.value;
            Ok(Update(s, i, s.nodes[i].(raft := OnSnapshot(s.nodes[i].raft, index, data),
                                        svc := s.nodes[i].svc.(saving := None)), {}), h)
  {
    hide RaftOk, ServiceOk, Ok, NodeOk;
    var node := s.nodes[i];
    var (index, data) := node.svc.saving.value;
    var node' := node.(raft := OnSnapshot(node.raft, index, data), svc := node.svc.(saving := None));
    NodeFact(s, h, i);
    NodeParts(h, i, node);
    SavedRaft(h, i, node.raft, index, data);
    SavedService(node, h.srv[i].log);
    NodeFrom(h, i, node');
    LocalStep(s, h, i, node');
  }

  // ---------- Restart ----------

  /** What is on disk is enough to go on as a follower. */
  lemma BootRaft(h: History, i: nat, r: Raft)
    requires Inv(h) && RaftOk(h, i, r)
    requires Sealed(h, h.srv[i].log, r.lastIncludeIndex + 1, r.currentTerm)
    ensures RaftOk(h, i, Boot(i, h.n, r.disk)) && Boot(i, h.n, r.disk).role == Follower
  {
    hide Inv, Sealed;
  }

  /** The service restarts from the snapshot, and the log continues exactly behind it. */
  lemma BootNode(node: Node, x: Log, n: nat)
    requires ServiceOk(node, x) && DiskOk(node.raft) && LogIs(node.raft, x) && |x| >= 1 && x[0] == SENTINEL
    ensures var r := Boot(node.raft.me, n, node.raft.disk);
            ServiceOk(Node(r, {}, [], BootService(r)), x)
  {
    assert Replay(x, 1) == Replay(x, 0);
  }

  lemma RestartStep(s: Sys, h: History, i: nat)
    requires Ok(s, h) && i < |s.nodes|
    ensures var r := Boot(s.nodes[i].raft.me, |s.nodes|, s.nodes[i].raft.disk);
            Ok(Update(s, i, Node(r, {}, [], BootService(r)), {}), h)
  {
    hide RaftOk, ServiceOk, Ok, NodeOk, Inv, Sealed, DiskOk;
    var node := s.nodes[i];
    var r := Boot(i, |s.nodes|, node.raft.disk);
    InvOf(s, h);
    NodeFact(s, h, i);
    RaftLog(h, i, node.raft);
    RaftDisk(h, i, node.raft);
    SameTerm(h, i, node.raft);
    RaftSealed(h, i, node.raft);
    SealedLess(h, h.srv[i].log, node.raft.commitIndex + 1, node.raft.lastIncludeIndex + 1, node.raft.currentTerm);
    BootRaft(h, i, node.raft);
    Sentinel(h, i);
    BootNode(node, h.srv[i].log, |s.nodes|);
    NodeOf(h, i, Node(r, {}, [], BootService(r)));
    LocalStep(s, h, i, Node(r, {}, [], BootService(r)));
  }

  lemma RaftDisk(h: History, i: nat, r: Raft)
    requires RaftOk(h, i, r)
    ensures DiskOk(r)
  {
  }

  lemma Sentinel(h: History, i: nat)
    requires Inv(h) && i < |h.srv|
    ensures |h.srv[i].log| >= 1 && h.srv[i].log[0] == SENTINEL
  {
    assert Rooted(h, h.srv[i].log, h.srv[i].term);
  }
}
