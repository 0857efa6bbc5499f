/** InstallSnapshot, as steps that keep `ClusterInv.Ok`. */
module ClusterInstall {
  import opened KvStore
  import opened RaftTypes
  import opened RaftState
  import opened LogHistory
  import opened Cluster
  import opened ClusterInv
  import opened ClusterSteps
  import opened ClusterLogs

  lemma InstallReqFact(h: History, i: nat, a: InstallArgs)
    requires MsgOk(h, InstallReq(i, a))
    ensures InstallOk(h, a) && i < h.n && i != a.leader
  {
  }

  lemma InstallRespOk(h: History, i: nat, a: InstallArgs, reply: InstallReply)
    requires InstallOk(h, a) && i < h.n && i != a.leader
    requires reply.success ==> a.lastIndex <= AckOf(h, i, a.term)
    ensures MsgOk(h, InstallResp(i, a, reply))
  {
  }

  lemma MayAcceptInstall(h: History, i: nat, a: InstallArgs)
    requires InstallOk(h, a) && i < |h.srv| && h.srv[i].term == a.term && a.leader != i
    ensures MayAccept(h, i, a.lastIndex + 1)
  {
  }

  /** Confirming a snapshot to the leader, whatever becomes of the server's log. */
  lemma InstallMoves(h: History, i: nat, a: InstallArgs)
    requires Inv(h) && MsgOk(h, InstallReq(i, a)) && a.term in h.led
    requires i < |h.srv| && h.srv[i].term == a.term && a.lastIndex + 1 <= |h.led[a.term].log|
    ensures MayAccept(h, i, a.lastIndex + 1) && Moves(h, Accept(h, i, a.lastIndex + 1), i)
    ensures MsgOk(Accept(h, i, a.lastIndex + 1), InstallResp(i, a, InstallReply(a.term, true)))
  {
    hide Inv, MsgOk, Moves, InstallOk;
    var h' := Accept(h, i, a.lastIndex + 1);
    InstallReqFact(h, i, a);
    MayAcceptInstall(h, i, a);
    AcceptGrows(h, i, a.lastIndex + 1);
    InstallFrame(h, h', a);
    InstallRespOk(h', i, a, InstallReply(a.term, true));
    AcceptMoves(h, i, a.lastIndex + 1);
  }

  // ---------- A snapshot that is not needed ----------

  /** The server already has everything the snapshot covers, so confirming it is right. */
  lemma SkippedLog(h: History, i: nat, r: Raft, a: InstallArgs)
    requires Inv(h) && RaftOk(h, i, r) && a.term == r.currentTerm && MayAccept(h, i, a.lastIndex + 1)
    requires a.lastIndex <= r.commitIndex && a.term in h.led
    ensures Accept(h, i, a.lastIndex + 1).srv[i].log == h.srv[i].log
  {
    CommittedInLeader(h, i, r, a.term);
    AgreeLess(h.srv[i].log, h.led[a.term].log, r.commitIndex + 1, a.lastIndex + 1);
    AcceptNothing(h, i, a.lastIndex + 1);
  }

  lemma SkippedRaft(h: History, h': History, i: nat, r: Raft)
    requires RaftOk(h, i, r) && r.role == Follower && h'.n == h.n && h'.vote == h.vote
    requires i < |h.srv| && i < |h'.srv| && h'.srv[i] == h.srv[i]
    requires Sealed(h', h.srv[i].log, r.commitIndex + 1, r.currentTerm)
    ensures RaftOk(h', i, r)
  {
  }

  lemma SkipStep(s: Sys, h: History, i: nat, a: InstallArgs)
    requires Ok(s, h) && i < |s.nodes| && MsgOk(h, InstallReq(i, a)) && a.term in h.led
    requires s.nodes[i].raft.role == Follower && a.term == s.nodes[i].raft.currentTerm
    requires a.lastIndex <= s.nodes[i].raft.commitIndex && i < |h.srv| && h.srv[i].term == a.term
    requires a.lastIndex + 1 <= |h.led[a.term].log|
    ensures var h' := Accept(h, i, a.lastIndex + 1);
            Moves(h, h', i) && Ok(Update(s, i, s.nodes[i], {InstallResp(i, a, InstallReply(a.term, true))}), h')
  {
    hide Ok, Inv, Moves, RaftOk, ServiceOk, MsgOk, InstallOk, NodeOk;
    NodeFact(s, h, i);
    InvOf(s, h);
    InstallMoves(h, i, a);
    SkipNode(h, i, s.nodes[i], a);
    StepOk(s, h, Accept(h, i, a.lastIndex + 1), i, s.nodes[i], {InstallResp(i, a, InstallReply(a.term, true))});
  }

  lemma SkipNode(h: History, i: nat, node: Node, a: InstallArgs)
    requires Inv(h) && RaftOk(h, i, node.raft) && i < |h.srv| && ServiceOk(node, h.srv[i].log)
    requires a.term in h.led && a.term == node.raft.currentTerm && node.raft.role == Follower
    requires a.lastIndex <= node.raft.commitIndex
    requires MayAccept(h, i, a.lastIndex + 1)
    ensures NodeOk(Accept(h, i, a.lastIndex + 1), i, node)
  {
    hide Inv, RaftOk, ServiceOk, Sealed;
    var h' := Accept(h, i, a.lastIndex + 1);
    SkippedLog(h, i, node.raft, a);
    AcceptStaysSealed(h, i, node.raft, a.lastIndex + 1);
    SameTerm(h, i, node.raft);
    SkippedRaft(h, h', i, node.raft);
    NodeOf(h', i, node);
  }

  // ---------- A snapshot that is installed ----------

  /** With an entry of the same term at the snapshot's end, the log behind it stays. */
  lemma KeptLog(h: History, i: nat, r: Raft, a: InstallArgs)
    requires i < |h.srv| && h.srv[i].term == a.term && a.term in h.led && MayAccept(h, i, a.lastIndex + 1)
    requires LogIs(r, h.srv[i].log) && r.lastIncludeIndex < a.lastIndex <= r.LastIndex()
    requires Rooted(h, h.srv[i].log, a.term) && Rooted(h, h.led[a.term].log, a.term)
    requires h.led[a.term].log[a.lastIndex].term == a.lastTerm == r.EntryAt(a.lastIndex).term
    ensures Accept(h, i, a.lastIndex + 1).srv[i].log == h.srv[i].log
    ensures LogIs(Installed(r, a), h.srv[i].log)
  {
    assert h.srv[i].log[a.lastIndex] == r.EntryAt(a.lastIndex);
    LogMatching(h, h.srv[i].log, h.led[a.term].log, a.term, a.term, a.lastIndex);
    AcceptNothing(h, i, a.lastIndex + 1);
  }

  /** Otherwise the log ends where the snapshot does. */
  lemma DroppedLog(h: History, i: nat, r: Raft, a: InstallArgs)
    requires i < |h.srv| && h.srv[i].term == a.term && a.term in h.led && MayAccept(h, i, a.lastIndex + 1)
    requires LogIs(r, h.srv[i].log) && r.lastIncludeIndex < a.lastIndex
    requires h.led[a.term].log[a.lastIndex].term == a.lastTerm
    requires r.LastIndex() < a.lastIndex || a.lastTerm != r.EntryAt(a.lastIndex).term
    ensures LogIs(Installed(r, a), Accept(h, i, a.lastIndex + 1).srv[i].log)
  {
    var x, y := h.srv[i].log, h.led[a.term].log;
    assert !(y[..a.lastIndex + 1] <= x) by {
      assert y[..a.lastIndex + 1][a.lastIndex] == y[a.lastIndex];
      if a.lastIndex < |x| { assert x[a.lastIndex] == r.EntryAt(a.lastIndex); }
    }
  }

  lemma InstalledLog(h: History, i: nat, r: Raft, a: InstallArgs)
    requires Inv(h) && RaftOk(h, i, r) && InstallOk(h, a) && a.term == r.currentTerm
    requires MayAccept(h, i, a.lastIndex + 1) && |r.log| >= 1 && r.lastIncludeIndex < a.lastIndex
    ensures LogIs(Installed(r, a), Accept(h, i, a.lastIndex + 1).srv[i].log)
  {
    LogsRooted(h, i, a.term);
    if r.LastIndex() >= a.lastIndex && r.EntryAt(a.lastIndex).term == a.lastTerm {
      KeptLog(h, i, r, a);
    } else {
      DroppedLog(h, i, r, a);
    }
  }

  /** Nothing that was committed goes: everything installed is committed. */
  lemma InstalledRaft(h: History, h': History, i: nat, r: Raft, a: InstallArgs)
    requires RaftOk(h, i, r) && r.role == Follower && h'.n == h.n && h'.vote == h.vote
    requires i < |h'.srv| && h'.srv[i].term == r.currentTerm && |r.log| >= 1
    requires a.lastIndex > r.commitIndex >= r.lastIncludeIndex && LogIs(Installed(r, a), h'.srv[i].log)
    requires Sealed(h', h'.srv[i].log, a.lastIndex + 1, r.currentTerm)
    ensures RaftOk(h', i, Installed(r, a))
  {
  }

  lemma OutboxFrame(node: Node, node': Node, x: Log, x': Log, c: nat)
    requires OutboxOk(node, x) && Agree(x, x', c) && End(node) < c
    requires node'.outbox == node.outbox && node'.svc == node.svc
    ensures OutboxOk(node', x')
  {
    ReplaySame(x, x', c);
    forall k | 0 <= k < |node.outbox| && node.outbox[k].CommandMsg?
      ensures node.outbox[k].index < |x'| && node.outbox[k].cmd == x'[node.outbox[k].index].cmd
    {
      assert !node.outbox[0].SnapshotMsg?;
    }
  }

  /** The service will get the snapshot after everything that is already on its way. */
  lemma InstalledService(node: Node, x: Log, x': Log, y: Log, a: InstallArgs)
    requires ServiceOk(node, x) && node.raft.InRange() && node.raft.applyIndex <= node.raft.commitIndex < a.lastIndex
    requires Agree(x, x', node.raft.commitIndex + 1) && Agree(y, x', a.lastIndex + 1)
    requires Encodes(a.data, y, a.lastIndex)
    ensures ServiceOk(node.(raft := Installed(node.raft, a)), x')
  {
    ReplaySame(x, x', node.raft.commitIndex + 1);
    ReplayAgrees(y, x', a.lastIndex + 1);
    OutboxFrame(node, node.(raft := Installed(node.raft, a)), x, x', node.raft.commitIndex + 1);
  }

  lemma InstallFacts(h: History, a: InstallArgs)
    requires InstallOk(h, a)
    ensures a.term in h.led && 1 <= a.lastIndex < |h.led[a.term].log|
    ensures Encodes(a.data, h.led[a.term].log, a.lastIndex)
    ensures Sealed(h, h.led[a.term].log, a.lastIndex + 1, a.term)
  {
  }

  lemma InstallNode(h: History, i: nat, node: Node, a: InstallArgs)
    requires Inv(h) && RaftOk(h, i, node.raft) && i < |h.srv| && ServiceOk(node, h.srv[i].log)
    requires InstallOk(h, a) && a.term == node.raft.currentTerm && node.raft.role == Follower
    requires node.raft.InRange() && node.raft.commitIndex < a.lastIndex
    requires MayAccept(h, i, a.lastIndex + 1)
    ensures NodeOk(Accept(h, i, a.lastIndex + 1), i, node.(raft := Installed(node.raft, a)))
  {
    var h' := Accept(h, i, a.lastIndex + 1);
    SameTerm(h, i, node.raft);
    InstallNodeRaft(h, i, node.raft, a);
    InstallNodeService(h, i, node, a);
    NodeOf(h', i, node.(raft := Installed(node.raft, a)));
  }

  lemma InstallNodeRaft(h: History, i: nat, r: Raft, a: InstallArgs)
    requires Inv(h) && RaftOk(h, i, r) && InstallOk(h, a) && a.term == r.currentTerm && r.role == Follower
    requires r.InRange() && r.commitIndex < a.lastIndex && MayAccept(h, i, a.lastIndex + 1)
    ensures RaftOk(Accept(h, i, a.lastIndex + 1), i, Installed(r, a))
  {
    hide Inv, RaftOk, InstallOk, Sealed, LogIs;
    var h' := Accept(h, i, a.lastIndex + 1);
    InstallFacts(h, a);
    SameTerm(h, i, r);
    InstalledLog(h, i, r, a);
    AcceptSealed(h, i, a.lastIndex + 1, a.lastIndex + 1, a.term);
    InstalledRaft(h, h', i, r, a);
  }

  lemma InstallNodeService(h: History, i: nat, node: Node, a: InstallArgs)
    requires Inv(h) && RaftOk(h, i, node.raft) && i < |h.srv| && ServiceOk(node, h.srv[i].log)
    requires InstallOk(h, a) && a.term == node.raft.currentTerm
    requires node.raft.InRange() && node.raft.commitIndex < a.lastIndex && MayAccept(h, i, a.lastIndex + 1)
    ensures ServiceOk(node.(raft := Installed(node.raft, a)), Accept(h, i, a.lastIndex + 1).srv[i].log)
  {
    hide Inv, RaftOk, ServiceOk, InstallOk, Encodes;
    InstallFacts(h, a);
    SameTerm(h, i, node.raft);
    AcceptKeepsCommitted(h, i, node.raft, a.lastIndex + 1);
    TakenPrefix(h, i, a.lastIndex + 1);
    InstalledService(node, h.srv[i].log, Accept(h, i, a.lastIndex + 1).srv[i].log, h.led[a.term].log, a);
  }

  lemma TakenPrefix(h: History, i: nat, n: nat)
    requires MayAccept(h, i, n)
    ensures Agree(h.led[h.srv[i].term].log, Accept(h, i, n).srv[i].log, n)
  {
  }

  lemma InstallStep(s: Sys, h: History, i: nat, a: InstallArgs)
    requires Ok(s, h) && i < |s.nodes| && MsgOk(h, InstallReq(i, a)) && a.term in h.led
    requires s.nodes[i].raft.role == Follower && a.term == s.nodes[i].raft.currentTerm
    requires s.nodes[i].raft.InRange() && a.lastIndex > s.nodes[i].raft.commitIndex
    requires i < |h.srv| && h.srv[i].term == a.term && a.lastIndex + 1 <= |h.led[a.term].log|
    ensures var h' := Accept(h, i, a.lastIndex + 1);
            && Moves(h, h', i)
            && Ok(Update(s, i, NodeWith(s, i, Installed(s.nodes[i].raft, a)),
                         {InstallResp(i, a, InstallReply(a.term, true))}), h')
  {
    hide Ok, Inv, Moves, RaftOk, ServiceOk, MsgOk, InstallOk, NodeOk;
    NodeFact(s, h, i);
    InvOf(s, h);
    InstallReqFact(h, i, a);
    InstallMoves(h, i, a);
    InstallNode(h, i, s.nodes[i], a);
    StepOk(s, h, Accept(h, i, a.lastIndex + 1), i, NodeWith(s, i, Installed(s.nodes[i].raft, a)),
           {InstallResp(i, a, InstallReply(a.term, true))});
  }

  // ---------- The handler ----------

  lemma FollowedInRange(s: Sys, h: History, i: nat)
    requires Ok(s, h) && i < |s.nodes|
    ensures s.nodes[i].raft.InRange() && i < |h.srv| && h.srv[i].term == s.nodes[i].raft.currentTerm
  {
    NodeFact(s, h, i);
  }

  /** The follower's answer, once it is in the leader's term. */
  function Received(r: Raft, a: InstallArgs): Raft
    requires |r.log| >= 1
  {
    if a.lastIndex <= r.lastIncludeIndex || a.lastIndex <= r.commitIndex then r else Installed(r, a)
  }

  lemma ReceivedStep(s: Sys, h: History, i: nat, a: InstallArgs) returns (h': History)
    requires Ok(s, h) && i < |s.nodes| && MsgOk(h, InstallReq(i, a))
    requires s.nodes[i].raft.role == Follower && a.term == s.nodes[i].raft.currentTerm && |s.nodes[i].raft.log| >= 1
    ensures Ok(Update(s, i, NodeWith(s, i, Received(s.nodes[i].raft, a)),
                      {InstallResp(i, a, InstallReply(a.term, true))}), h')
    ensures Moves(h, h', i)
  {
    InstallReqFact(h, i, a);
    InstallFacts(h, a);
    FollowedInRange(s, h, i);
    h' := Accept(h, i, a.lastIndex + 1);
    if a.lastIndex <= s.nodes[i].raft.commitIndex {
      SkipStep(s, h, i, a);
    } else {
      InstallStep(s, h, i, a);
    }
  }

  lemma InstallReqStep(s: Sys, h: History, i: nat, a: InstallArgs) returns (h': History)
    requires Ok(s, h) && i < |s.nodes| && MsgOk(h, InstallReq(i, a)) && |s.nodes[i].raft.log| >= 1
    ensures var (r', reply) := OnInstallSnapshot(s.nodes[i].raft, a);
            Ok(Update(s, i, NodeWith(s, i, r'), {InstallResp(i, a, reply)}), h')
    ensures Grows(h, h')
  {
    hide Ok, Inv, Moves, MsgOk, Grows;
    var r := s.nodes[i].raft;
    var (r', reply) := OnInstallSnapshot(r, a);
    if a.term < r.currentTerm {
      h' := h;
      InstallReqFact(h, i, a);
      InstallRespOk(h, i, a, reply);
      ReplyStep(s, h, i, InstallResp(i, a, reply));
      MovesGrows(h, h, i);
    } else {
      var n1 := NodeWith(s, i, Followed(r, a.term));
      var h1 := FollowedStep(s, h, i, a.term);
      MovesGrows(h, h1, i);
      MsgFrame(h, h1, InstallReq(i, a));
      h' := ReceivedStep(Update(s, i, n1, {}), h1, i, a);
      MovesGrows(h1, h', i);
      GrowsTwice(h, h1, h');
      UpdateTwice(s, i, n1, NodeWith(s, i, r'), {InstallResp(i, a, reply)});
    }
  }
}
