/** The leader's side of replication, as steps that keep `ClusterInv.Ok`. */
module ClusterLeader {
  import opened KvStore
  import opened RaftTypes
  import opened RaftState
  import opened LogHistory
  import opened Cluster
  import opened ClusterInv
  import opened ClusterSteps
  import Median

  lemma SealedLess(h: History, x: Log, k: nat, m: nat, hi: nat)
    requires Sealed(h, x, k, hi) && m <= k && 1 <= k
    ensures Sealed(h, x, m, hi)
  {
    if m > 1 {
      var t: nat, n: nat :| t <= hi && k <= n + 1 && Committed(h, t, n) && Agree(x, h.led[t].log, k);
      assert Agree(x, h.led[t].log, m);
    }
  }

  /** While a server leads, the log of its reign is its own full log. */
  lemma OwnReign(h: History, i: nat, r: Raft)
    requires Inv(h) && RaftOk(h, i, r) && r.role == Leader
    ensures r.currentTerm in h.led && h.led[r.currentTerm].leader == i && h.led[r.currentTerm].log == h.srv[i].log
    ensures AckOf(h, i, r.currentTerm) == |h.srv[i].log| - 1 == r.LastIndex()
  {
    assert ReignShape(h, r.currentTerm);
  }

  // ---------- Counting confirmations ----------

  /** The index the leader finds on half of the servers is committed if it is of its own term. */
  lemma CountedIsCommitted(h: History, i: nat, r: Raft)
    requires Inv(h) && RaftOk(h, i, r) && r.role == Leader && r.InRange() && |r.matchIndex| == h.n && r.me == i
    requires var n := MajorityIndex(r.matchIndex[i := r.LastIndex()]);
             n > r.commitIndex && n <= r.LastIndex() && r.EntryAt(n).term == r.currentTerm
    ensures Committed(h, r.currentTerm, MajorityIndex(r.matchIndex[i := r.LastIndex()]))
  {
    hide Inv;
    var m := r.matchIndex[i := r.LastIndex()];
    var n := MajorityIndex(m);
    OwnReign(h, i, r);
    EntryFact(r, h.srv[i].log, n);
    Median.MiddleIsHalf(m);
    HoldersConfirm(h, i, r, n);
    assert Confirmed(h, Median.Holders(m, n), r.currentTerm, n);
  }

  lemma EntryFact(r: Raft, x: Log, n: nat)
    requires LogIs(r, x) && r.lastIncludeIndex < n <= r.LastIndex()
    ensures n < |x| && r.EntryAt(n) == x[n]
  {
  }

  lemma HoldersConfirm(h: History, i: nat, r: Raft, n: int)
    requires RaftOk(h, i, r) && r.role == Leader && |r.matchIndex| == h.n && r.me == i < |r.matchIndex|
    requires AckOf(h, i, r.currentTerm) == r.LastIndex()
    ensures forall s :: s in Median.Holders(r.matchIndex[i := r.LastIndex()], n) ==>
              s < h.n && n <= AckOf(h, s, r.currentTerm)
  {
  }

  lemma CommitRaft(h: History, i: nat, r: Raft, n: nat)
    requires RaftOk(h, i, r) && r.role == Leader && r.commitIndex <= n <= r.LastIndex()
    requires Sealed(h, h.srv[i].log, n + 1, r.currentTerm)
    ensures RaftOk(h, i, r.(commitIndex := n))
  {
    hide Sealed;
  }

  lemma AdvanceRaft(h: History, i: nat, r: Raft)
    requires Inv(h) && RaftOk(h, i, r) && r.role == Leader && r.InRange() && |r.matchIndex| == h.n && r.me == i
    ensures RaftOk(h, i, AdvanceCommit(r)) && SameView(r, AdvanceCommit(r)) && AdvanceCommit(r).role == Leader
  {
    hide Inv, RaftOk;
    var n := MajorityIndex(r.matchIndex[i := r.LastIndex()]);
    SameTerm(h, i, r);
    MajorityInRange(r);
    if n > r.commitIndex && r.EntryAt(n).term == r.currentTerm {
      CountedIsCommitted(h, i, r);
      OwnReign(h, i, r);
      CommittedSealed(h, h.srv[i].log, r.currentTerm, n);
      CommitRaft(h, i, r, n);
    }
  }

  lemma MajorityInRange(r: Raft)
    requires r.InRange() && r.role == Leader
    ensures MajorityIndex(r.matchIndex[r.me := r.LastIndex()]) <= r.LastIndex()
  {
  }

  lemma CommittedSealed(h: History, x: Log, t: nat, n: nat)
    requires Committed(h, t, n) && t in h.led && x == h.led[t].log
    ensures Sealed(h, x, n + 1, t)
  {
    assert Agree(x, h.led[t].log, n + 1);
  }

  // ---------- Replies ----------

  lemma CountRaft(h: History, i: nat, r: Raft, peer: nat, m: nat)
    requires RaftOk(h, i, r) && r.role == Leader && r.InRange() && peer < |r.nextIndex| && peer != i
    requires m <= r.LastIndex() && m <= AckOf(h, peer, r.currentTerm)
    ensures RaftOk(h, i, r.(matchIndex := r.matchIndex[peer := m], nextIndex := r.nextIndex[peer := m + 1]))
  {
    hide Sealed;
  }

  lemma MatchedRaft(h: History, i: nat, r: Raft, peer: nat, matched: nat)
    requires Inv(h) && RaftOk(h, i, r) && r.role == Leader && r.InRange() && peer < |r.nextIndex| && peer != i
    requires matched <= r.LastIndex() && matched <= AckOf(h, peer, r.currentTerm)
    ensures RaftOk(h, i, Matched(r, peer, matched)) && SameView(r, Matched(r, peer, matched))
    ensures Matched(r, peer, matched).role == Leader
  {
    hide Inv, RaftOk;
    var m := Max(matched, r.matchIndex[peer]);
    var r1 := r.(matchIndex := r.matchIndex[peer := m], nextIndex := r.nextIndex[peer := m + 1]);
    MatchedBefore(h, i, r, peer);
    CountRaft(h, i, r, peer, m);
    SameTerm(h, i, r);
    AdvanceRaft(h, i, r1);
  }

  lemma MatchedBefore(h: History, i: nat, r: Raft, peer: nat)
    requires RaftOk(h, i, r) && r.role == Leader && peer < |r.matchIndex| && peer != i
    ensures r.matchIndex[peer] <= AckOf(h, peer, r.currentTerm)
  {
  }

  lemma BackupRaft(h: History, i: nat, r: Raft, peer: nat, reply: AppendReply)
    requires RaftOk(h, i, r) && r.role == Leader && r.InRange() && peer < |r.nextIndex|
    ensures RaftOk(h, i, r.(nextIndex := r.nextIndex[peer := Backup(r, reply)]))
  {
    hide Sealed;
    var next := Backup(r, reply);
    assert 1 <= next <= r.LastIndex() + 1;
  }

  /** A step of a leader that stays one, changing nothing that others see. */
  lemma LeaderStep(s: Sys, h: History, i: nat, r: Raft)
    requires Ok(s, h) && i < |s.nodes| && RaftOk(h, i, r) && SameView(s.nodes[i].raft, r) && r.role == Leader
    ensures Ok(Update(s, i, NodeWith(s, i, r), {}), h)
  {
    hide Inv, Moves, RaftOk, ServiceOk, MsgOk, Ok;
    InvOf(s, h);
    StayMoves(h, i);
    QuietStep(s, h, h, i, NodeWith(s, i, r), {});
  }

  lemma AppendRespFact(h: History, from: nat, a: AppendArgs, reply: AppendReply)
    requires MsgOk(h, AppendResp(from, a, reply))
    ensures from < h.n && from != a.leader && AppendOk(h, a)
    ensures a.term in h.led && a.prevIndex + |a.entries| < |h.led[a.term].log|
    ensures reply.success ==> a.prevIndex + |a.entries| <= AckOf(h, from, a.term)
  {
  }

  lemma AppendRespStep(s: Sys, h: History, from: nat, a: AppendArgs, reply: AppendReply) returns (h': History)
    requires Ok(s, h) && a.leader < |s.nodes| && MsgOk(h, AppendResp(from, a, reply))
    requires s.nodes[a.leader].raft.InRange() && from < |s.nodes[a.leader].raft.nextIndex|
    requires ReplyFits(s.nodes[a.leader].raft, AppendResp(from, a, reply))
    ensures Ok(Update(s, a.leader, NodeWith(s, a.leader, OnAppendReply(s.nodes[a.leader].raft, from, a, reply)), {}), h')
    ensures Grows(h, h')
  {
    hide Inv, Moves, RaftOk, ServiceOk, MsgOk, Ok, AppendOk, Matched, Backup;
    var i, r := a.leader, s.nodes[a.leader].raft;
    InvOf(s, h);
    NodeFact(s, h, i);
    StayMoves(h, i);
    MovesGrows(h, h, i);
    h' := h;
    if r.role != Leader || r.currentTerm != a.term {
      NoStep(s, h, i);
      assert NodeWith(s, i, r) == s.nodes[i];
    } else if reply.term > r.currentTerm {
      h' := Bump(h, i, reply.term);
      NewerStep(s, h, i, reply.term, s.nodes[i].calls);
      MovesGrows(h, h', i);
    } else {
      AppendRespFact(h, from, a, reply);
      if reply.success {
        MatchedRaft(h, i, r, from, a.prevIndex + |a.entries|);
      } else {
        BackupRaft(h, i, r, from, reply);
      }
      LeaderStep(s, h, i, OnAppendReply(r, from, a, reply));
    }
  }

  lemma InstallRespFact(h: History, from: nat, a: InstallArgs, reply: InstallReply)
    requires MsgOk(h, InstallResp(from, a, reply))
    ensures from < h.n && from != a.leader && InstallOk(h, a)
    ensures a.term in h.led && a.lastIndex < |h.led[a.term].log|
    ensures reply.success ==> a.lastIndex <= AckOf(h, from, a.term)
  {
  }

  lemma InstallRespStep(s: Sys, h: History, from: nat, a: InstallArgs, reply: InstallReply) returns (h': History)
    requires Ok(s, h) && a.leader < |s.nodes| && MsgOk(h, InstallResp(from, a, reply))
    requires s.nodes[a.leader].raft.InRange() && from < |s.nodes[a.leader].raft.nextIndex|
    requires ReplyFits(s.nodes[a.leader].raft, InstallResp(from, a, reply))
    ensures Ok(Update(s, a.leader, NodeWith(s, a.leader, OnInstallReply(s.nodes[a.leader].raft, from, a, reply)), {}), h')
    ensures Grows(h, h')
  {
    hide Inv, Moves, RaftOk, ServiceOk, MsgOk, Ok, InstallOk, Matched;
    var i, r := a.leader, s.nodes[a.leader].raft;
    InvOf(s, h);
    NodeFact(s, h, i);
    StayMoves(h, i);
    MovesGrows(h, h, i);
    h' := h;
    if r.role != Leader || r.currentTerm != a.term {
      NoStep(s, h, i);
      assert NodeWith(s, i, r) == s.nodes[i];
    } else if reply.term > r.currentTerm {
      h' := Bump(h, i, reply.term);
      NewerStep(s, h, i, reply.term, s.nodes[i].calls);
      MovesGrows(h, h', i);
    } else if !reply.success {
      NoStep(s, h, i);
      assert NodeWith(s, i, r) == s.nodes[i];
    } else {
      InstallRespFact(h, from, a, reply);
      MatchedRaft(h, i, r, from, a.lastIndex);
      LeaderStep(s, h, i, OnInstallReply(r, from, a, reply));
    }
  }

  // ---------- What the leader sends ----------

  lemma SentAppend(h: History, i: nat, r: Raft, peer: nat)
    requires Inv(h) && RaftOk(h, i, r) && r.role == Leader && r.InRange() && peer < |r.nextIndex| && r.me == i
    requires NextRound(r, peer).SendAppend?
    ensures AppendOk(h, NextRound(r, peer).append)
  {
    hide Inv, Sealed;
    var a := NextRound(r, peer).append;
    var x := h.srv[i].log;
    OwnReign(h, i, r);
    RaftSealed(h, i, r);
    SealedLess(h, x, r.commitIndex + 1, Min(a.leaderCommit, a.prevIndex + |a.entries|) + 1, r.currentTerm);
    SentQuotes(r, peer, x);
  }

  lemma SentQuotes(r: Raft, peer: nat, x: Log)
    requires LogIs(r, x) && r.role == Leader && r.InRange() && peer < |r.nextIndex|
    requires NextRound(r, peer).SendAppend?
    ensures Quotes(NextRound(r, peer).append, x)
  {
    var next, a := r.nextIndex[peer], NextRound(r, peer).append;
    assert LogAt(r, x, next - 1);
    forall k | 0 <= k < |a.entries| ensures a.entries[k] == x[a.prevIndex + 1 + k] {
      assert a.entries[k] == r.log[next + k - r.lastIncludeIndex];
      EntryFact(r, x, next + k);
    }
  }

  ghost predicate LogAt(r: Raft, x: Log, k: int) {
    r.lastIncludeIndex <= k <= r.LastIndex() && k < |x| && r.EntryAt(k).term == x[k].term
  }

  lemma SentInstall(h: History, i: nat, node: Node, peer: nat)
    requires Inv(h) && RaftOk(h, i, node.raft) && i < |h.srv| && ServiceOk(node, h.srv[i].log)
    requires node.raft.role == Leader && node.raft.InRange() && peer < |node.raft.nextIndex| && node.raft.me == i
    requires NextRound(node.raft, peer).SendInstall?
    ensures InstallOk(h, NextRound(node.raft, peer).install)
  {
    hide Inv, Sealed;
    var r := node.raft;
    OwnReign(h, i, r);
    RaftSealed(h, i, r);
    SealedLess(h, h.srv[i].log, r.commitIndex + 1, r.lastIncludeIndex + 1, r.currentTerm);
  }

  function Sent(r: Raft, peer: nat): Msg
    requires r.InRange() && r.role == Leader && peer < |r.nextIndex|
  {
    match NextRound(r, peer)
    case SendAppend(aa) => AppendReq(peer, aa)
    case SendInstall(ia) => InstallReq(peer, ia)
  }

  lemma ReplicateStep(s: Sys, h: History, i: nat, peer: nat)
    requires Ok(s, h) && i < |s.nodes| && s.nodes[i].raft.InRange() && s.nodes[i].raft.role == Leader
    requires peer < |s.nodes[i].raft.nextIndex| && peer != i
    ensures Ok(Update(s, i, s.nodes[i], {Sent(s.nodes[i].raft, peer)}), h) && Grows(h, h)
  {
    hide Inv, Moves, RaftOk, ServiceOk, Ok, AppendOk, InstallOk;
    var r := s.nodes[i].raft;
    InvOf(s, h);
    NodeFact(s, h, i);
    SameTerm(h, i, r);
    match NextRound(r, peer) {
      case SendAppend(_) => SentAppend(h, i, r, peer);
      case SendInstall(_) => SentInstall(h, i, s.nodes[i], peer);
    }
    ReplyStep(s, h, i, Sent(r, peer));
    MovesGrows(h, h, i);
  }

  // ---------- Start ----------

  lemma StartRaft(h: History, i: nat, r: Raft, cmd: Command)
    requires Inv(h) && RaftOk(h, i, r) && r.role == Leader && MayAppend(h, i)
    requires h.led[h.srv[i].term].log == h.srv[i].log
    requires Sealed(Append(h, i, cmd), Append(h, i, cmd).srv[i].log, r.commitIndex + 1, r.currentTerm)
    ensures RaftOk(Append(h, i, cmd), i, OnStart(r, cmd))
  {
    hide Inv, Sealed;
  }

  lemma StartNode(h: History, i: nat, node: Node, cmd: Command)
    requires Inv(h) && RaftOk(h, i, node.raft) && i < |h.srv| && ServiceOk(node, h.srv[i].log)
    requires node.raft.role == Leader
    ensures MayAppend(h, i) && NodeOk(Append(h, i, cmd), i, node.(raft := OnStart(node.raft, cmd)))
  {
    hide Inv, RaftOk, ServiceOk, Sealed;
    var r := node.raft;
    OwnReign(h, i, r);
    SameTerm(h, i, r);
    RaftSealed(h, i, r);
    InvGrowsAppend(h, i, cmd);
    SealedGrows(h, Append(h, i, cmd), h.srv[i].log, r.commitIndex + 1, r.currentTerm,
                Append(h, i, cmd).srv[i].log, r.currentTerm);
    StartRaft(h, i, r, cmd);
    ServiceFrame(node, node.(raft := OnStart(r, cmd)), h.srv[i].log, Append(h, i, cmd).srv[i].log);
    NodeOf(Append(h, i, cmd), i, node.(raft := OnStart(r, cmd)));
  }

  lemma InvGrowsAppend(h: History, i: nat, cmd: Command)
    requires Inv(h) && MayAppend(h, i)
    ensures Grows(h, Append(h, i, cmd))
  {
    AppendGrows(h, i, cmd);
  }

  lemma ProposeStep(s: Sys, h: History, i: nat, cmd: Command) returns (h': History)
    requires Ok(s, h) && i < |s.nodes| && s.nodes[i].raft.role == Leader
    ensures Ok(Update(s, i, s.nodes[i].(raft := OnStart(s.nodes[i].raft, cmd)), {}), h') && Grows(h, h')
  {
    hide Inv, Moves, RaftOk, ServiceOk, MsgOk, Ok, NodeOk;
    InvOf(s, h);
    NodeFact(s, h, i);
    StartNode(h, i, s.nodes[i], cmd);
    h' := Append(h, i, cmd);
    AppendMoves(h, i, cmd);
    MovesGrows(h, h', i);
    StepOk(s, h, h', i, s.nodes[i].(raft := OnStart(s.nodes[i].raft, cmd)), {});
  }
}
