/**
 Every step of `Cluster` is matched by steps of `LogHistory` that keep `ClusterInv.Ok`.
 Each lemma takes the history before the step and finds the one after it.
 */
module ClusterSteps {
  import opened KvStore
  import opened RaftTypes
  import opened RaftState
  import opened Quorum
  import opened LogHistory
  import opened Cluster
  import opened ClusterInv
  import Median

  /** What the service and the applier look at is the same. */
  ghost predicate SameView(r: Raft, r': Raft) {
    && r'.applyIndex == r.applyIndex
    && r'.pendingSnapshot == r.pendingSnapshot && r'.pendingIndex == r.pendingIndex
    && r'.lastIncludeIndex == r.lastIncludeIndex && r'.snapshot == r.snapshot
  }

  lemma ServiceSame(node: Node, node': Node, x: Log)
    requires ServiceOk(node, x) && SameView(node.raft, node'.raft)
    requires node'.outbox == node.outbox && node'.svc == node.svc
    ensures ServiceOk(node', x)
  {
  }

  /** The service does not notice changes of the log behind applyIndex. */
  lemma ServiceFrame(node: Node, node': Node, x: Log, x': Log)
    requires ServiceOk(node, x) && node.raft.lastIncludeIndex <= node.raft.applyIndex < |x'|
    requires Agree(x, x', node.raft.applyIndex + 1) && SameView(node.raft, node'.raft)
    requires node'.outbox == node.outbox && node'.svc == node.svc
    ensures ServiceOk(node', x')
  {
    ReplaySame(x, x', node.raft.applyIndex + 1);
    assert OutboxOk(node', x') by {
      forall k | 0 <= k < |node.outbox| && node.outbox[k].CommandMsg?
        ensures node.outbox[k].index < |x'| && node.outbox[k].cmd == x'[node.outbox[k].index].cmd
      {
        assert !node.outbox[0].SnapshotMsg?;
        assert node.outbox[k].index <= End(node);
      }
    }
  }

  /** A step that keeps the server's full log and all that its service sees. */
  lemma QuietStep(s: Sys, h: History, h': History, i: nat, node: Node, sent: set<Msg>)
    requires Ok(s, h) && Moves(h, h', i) && i < |s.nodes| && i < |h'.srv|
    requires i < |h.srv| && h'.srv[i].log == h.srv[i].log && SameView(s.nodes[i].raft, node.raft)
    requires node.outbox == s.nodes[i].outbox && node.svc == s.nodes[i].svc
    requires RaftOk(h', i, node.raft)
    requires node.raft.role == Candidate ==>
               node.raft.voteCount <= |Tally(h', i, node.raft.currentTerm, node.calls)|
    requires forall m :: m in sent ==> MsgOk(h', m)
    ensures Ok(Update(s, i, node, sent), h')
  {
    NodeFact(s, h, i);
    ServiceSame(s.nodes[i], node, h.srv[i].log);
    StepOk(s, h, h', i, node, sent);
  }

  lemma InvOf(s: Sys, h: History)
    requires Ok(s, h)
    ensures Inv(h) && |s.nodes| == h.n == |h.srv|
  {
  }

  lemma SameTerm(h: History, i: nat, r: Raft)
    requires RaftOk(h, i, r)
    ensures i < |h.srv| && h.srv[i].term == r.currentTerm && r.me == i && r.InRange() && |r.nextIndex| == h.n
  {
  }

  /** A server that is not a candidate. */
  lemma NodeOf(h: History, i: nat, node: Node)
    requires RaftOk(h, i, node.raft) && i < |h.srv| && ServiceOk(node, h.srv[i].log) && node.raft.role != Candidate
    ensures NodeOk(h, i, node)
  {
  }

  lemma RaftLog(h: History, i: nat, r: Raft)
    requires RaftOk(h, i, r)
    ensures i < |h.srv| && LogIs(r, h.srv[i].log) && r.InRange()
  {
  }

  lemma RaftSealed(h: History, i: nat, r: Raft)
    requires RaftOk(h, i, r)
    ensures Sealed(h, h.srv[i].log, r.commitIndex + 1, h.srv[i].term) && r.commitIndex < |h.srv[i].log|
  {
  }

  function NodeWith(s: Sys, i: nat, r: Raft): Node
    requires i < |s.nodes|
  {
    s.nodes[i].(raft := r)
  }

  // ---------- How each history step moves one server ----------

  lemma BumpMoves(h: History, i: nat, t: nat)
    requires Inv(h) && i < |h.srv| && h.srv[i].term <= t
    ensures Moves(h, Bump(h, i, t), i)
  {
    BumpKeeps(h, i, t);
  }

  lemma StayMoves(h: History, i: nat)
    requires Inv(h)
    ensures Moves(h, h, i)
  {
  }

  lemma StandMoves(h: History, i: nat)
    requires Inv(h) && i < |h.srv|
    ensures Moves(h, Stand(h, i), i)
  {
    StandKeeps(h, i);
  }

  lemma GrantMoves(h: History, i: nat, c: nat)
    requires Inv(h) && MayGrant(h, i, c)
    ensures Moves(h, Grant(h, i, c), i)
  {
    GrantKeeps(h, i, c);
  }

  lemma ElectMoves(h: History, i: nat, q: set<nat>)
    requires Inv(h) && MayElect(h, i, q)
    ensures Moves(h, Elect(h, i, q), i)
  {
    ElectKeeps(h, i, q);
  }

  lemma AppendMoves(h: History, i: nat, cmd: Command)
    requires Inv(h) && MayAppend(h, i)
    ensures Moves(h, Append(h, i, cmd), i)
  {
    AppendKeeps(h, i, cmd);
  }

  lemma AcceptMoves(h: History, i: nat, k: nat)
    requires Inv(h) && MayAccept(h, i, k)
    ensures Moves(h, Accept(h, i, k), i)
  {
    AcceptKeeps(h, i, k);
  }

  lemma StaySealed(h: History, h': History, i: nat, x: Log, k: nat, t: nat, t': nat)
    requires Moves(h, h', i) && Sealed(h, x, k, t) && t <= t' && k <= |x|
    ensures Sealed(h', x, k, t')
  {
    SealedGrows(h, h', x, k, t, x, t');
  }

  lemma MovesGrows(h: History, h': History, i: nat)
    requires Moves(h, h', i)
    ensures Grows(h, h') && Inv(h')
  {
  }

  // ---------- Terms ----------

  lemma NewerRaft(h: History, i: nat, r: Raft, t: nat)
    requires Inv(h) && RaftOk(h, i, r) && t > r.currentTerm
    requires Sealed(Bump(h, i, t), h.srv[i].log, r.commitIndex + 1, t)
    ensures RaftOk(Bump(h, i, t), i, r.Newer(t))
  {
  }

  lemma NewerStep(s: Sys, h: History, i: nat, t: nat, calls: set<nat>)
    requires Ok(s, h) && i < |s.nodes| && t > s.nodes[i].raft.currentTerm
    ensures Ok(Update(s, i, NodeWith(s, i, s.nodes[i].raft.Newer(t)).(calls := calls), {}), Bump(h, i, t))
    ensures Moves(h, Bump(h, i, t), i)
  {
    hide Ok, Inv, Moves, RaftOk, ServiceOk, MsgOk, NodeOk, Sealed;
    InvOf(s, h);
    NodeFact(s, h, i);
    SameTerm(h, i, s.nodes[i].raft);
    RaftSealed(h, i, s.nodes[i].raft);
    BumpMoves(h, i, t);
    StaySealed(h, Bump(h, i, t), i, h.srv[i].log, s.nodes[i].raft.commitIndex + 1, h.srv[i].term, t);
    NewerRaft(h, i, s.nodes[i].raft, t);
    QuietStep(s, h, Bump(h, i, t), i, NodeWith(s, i, s.nodes[i].raft.Newer(t)).(calls := calls), {});
  }

  lemma FollowerRaft(h: History, i: nat, r: Raft)
    requires RaftOk(h, i, r)
    ensures RaftOk(h, i, r.(role := Follower))
  {
  }

  lemma FollowedStep(s: Sys, h: History, i: nat, t: nat) returns (h': History)
    requires Ok(s, h) && i < |s.nodes| && t >= s.nodes[i].raft.currentTerm
    ensures Ok(Update(s, i, NodeWith(s, i, Followed(s.nodes[i].raft, t)), {}), h')
    ensures Moves(h, h', i)
  {
    if t > s.nodes[i].raft.currentTerm {
      h' := Bump(h, i, t);
      NewerStep(s, h, i, t, s.nodes[i].calls);
    } else {
      h' := h;
      NodeFact(s, h, i);
      StayMoves(h, i);
      FollowerRaft(h, i, s.nodes[i].raft);
      QuietStep(s, h, h, i, NodeWith(s, i, Followed(s.nodes[i].raft, t)), {});
    }
  }

  // ---------- Elections ----------

  lemma TimeoutRaft(h: History, i: nat, r: Raft)
    requires Inv(h) && RaftOk(h, i, r)
    requires Sealed(Stand(h, i), h.srv[i].log, r.commitIndex + 1, r.currentTerm + 1)
    ensures RaftOk(Stand(h, i), i, OnTimeout(r))
  {
    hide LogsHold, VotesHold, ElectionsHold, AllRooted;
    var t := r.currentTerm + 1;
    assert t in h.led ==> ReignShape(h, t);
  }

  lemma TimeoutTally(h: History, i: nat, t: nat)
    requires i < |h.srv| == h.n && h.srv[i].term == t
    ensures 1 <= |Tally(Stand(h, i), i, t + 1, Others(h.n, i))|
  {
    var a := Tally(Stand(h, i), i, t + 1, Others(h.n, i));
    assert {i} <= a;
    SubsetSize({i}, a);
  }

  lemma TimeoutMsgs(h: History, i: nat, r: Raft)
    requires RaftOk(h, i, r)
    ensures forall m :: m in VoteReqs(h.n, i, Candidacy(r)) ==> MsgOk(Stand(h, i), m)
  {
  }

  lemma TimeoutStep(s: Sys, h: History, i: nat)
    requires Ok(s, h) && i < |s.nodes| && s.nodes[i].raft.role != Leader && |s.nodes[i].raft.log| >= 1
    ensures var r := s.nodes[i].raft;
            Ok(Update(s, i, s.nodes[i].(raft := OnTimeout(r), calls := Others(|s.nodes|, i)),
                      VoteReqs(|s.nodes|, i, Candidacy(r))), Stand(h, i))
    ensures Moves(h, Stand(h, i), i)
  {
    hide Ok, Inv, Moves, RaftOk, ServiceOk, MsgOk, NodeOk, Sealed;
    var r := s.nodes[i].raft;
    InvOf(s, h);
    NodeFact(s, h, i);
    SameTerm(h, i, r);
    RaftSealed(h, i, r);
    StandMoves(h, i);
    StaySealed(h, Stand(h, i), i, h.srv[i].log, r.commitIndex + 1, r.currentTerm, r.currentTerm + 1);
    TimeoutRaft(h, i, r);
    TimeoutTally(h, i, r.currentTerm);
    TimeoutMsgs(h, i, r);
    QuietStep(s, h, Stand(h, i), i, s.nodes[i].(raft := OnTimeout(r), calls := Others(|s.nodes|, i)),
              VoteReqs(|s.nodes|, i, Candidacy(r)));
  }

  lemma MayVote(h: History, i: nat, r: Raft, va: VoteArgs)
    requires RaftOk(h, i, r) && MsgOk(h, VoteReq(i, va)) && va.term == r.currentTerm
    requires OnRequestVote(r, va).1.granted
    ensures MayGrant(h, i, va.candidate)
  {
    assert r.LastTerm() == h.srv[i].log[|h.srv[i].log| - 1].term;
  }

  lemma VotedRaft(h: History, i: nat, r: Raft, va: VoteArgs)
    requires RaftOk(h, i, r) && va.term == r.currentTerm
    requires OnRequestVote(r, va).1.granted
    requires Sealed(Grant(h, i, va.candidate), h.srv[i].log, r.commitIndex + 1, r.currentTerm)
    ensures RaftOk(Grant(h, i, va.candidate), i, OnRequestVote(r, va).0)
  {
  }

  lemma CandidateExists(h: History, va: VoteArgs)
    requires Inv(h) && At(va.candidate, va.term) in h.cand
    ensures va.candidate < h.n
  {
  }

  /** The vote itself, in the voter's current term. */
  lemma CastVote(s: Sys, h: History, i: nat, va: VoteArgs) returns (h': History)
    requires Ok(s, h) && i < |s.nodes| && |s.nodes[i].raft.log| >= 1
    requires MsgOk(h, VoteReq(i, va)) && va.term == s.nodes[i].raft.currentTerm
    ensures var (r', reply) := OnRequestVote(s.nodes[i].raft, va);
            Ok(Update(s, i, NodeWith(s, i, r'), {VoteResp(i, va, reply)}), h')
    ensures Moves(h, h', i)
  {
    if OnRequestVote(s.nodes[i].raft, va).1.granted {
      GrantStep(s, h, i, va);
      h' := Grant(h, i, va.candidate);
    } else {
      h' := h;
      CandidateExists(h, va);
      NodeFact(s, h, i);
      ReplyStep(s, h, i, VoteResp(i, va, OnRequestVote(s.nodes[i].raft, va).1));
    }
  }

  lemma GrantStep(s: Sys, h: History, i: nat, va: VoteArgs)
    requires Ok(s, h) && i < |s.nodes| && |s.nodes[i].raft.log| >= 1 && i < |h.srv|
    requires MsgOk(h, VoteReq(i, va)) && va.term == s.nodes[i].raft.currentTerm
    requires OnRequestVote(s.nodes[i].raft, va).1.granted
    ensures var (r', reply) := OnRequestVote(s.nodes[i].raft, va);
            Ok(Update(s, i, NodeWith(s, i, r'), {VoteResp(i, va, reply)}), Grant(h, i, va.candidate))
    ensures Moves(h, Grant(h, i, va.candidate), i)
  {
    hide Inv, Moves, RaftOk, ServiceOk, MsgOk, Ok;
    var h' := Grant(h, i, va.candidate);
    var r := s.nodes[i].raft;
    InvOf(s, h);
    NodeFact(s, h, i);
    MayVote(h, i, r, va);
    GrantMoves(h, i, va.candidate);
    StaySealed(h, h', i, h.srv[i].log, r.commitIndex + 1, va.term, va.term);
    VotedRaft(h, i, r, va);
    VotedMsg(h, i, r, va);
    QuietStep(s, h, h', i, NodeWith(s, i, OnRequestVote(r, va).0), {VoteResp(i, va, OnRequestVote(r, va).1)});
  }

  lemma VotedMsg(h: History, i: nat, r: Raft, va: VoteArgs)
    requires Inv(h) && RaftOk(h, i, r) && MsgOk(h, VoteReq(i, va)) && va.term == r.currentTerm
    requires OnRequestVote(r, va).1.granted
    ensures MsgOk(Grant(h, i, va.candidate), VoteResp(i, va, OnRequestVote(r, va).1))
  {
    CandidateExists(h, va);
  }

  /** A reply from a server that does not change. */
  lemma ReplyStep(s: Sys, h: History, i: nat, m: Msg)
    requires Ok(s, h) && i < |s.nodes| && MsgOk(h, m)
    ensures Ok(Update(s, i, s.nodes[i], {m}), h) && Moves(h, h, i)
  {
    NodeFact(s, h, i);
    StayMoves(h, i);
    StepOk(s, h, h, i, s.nodes[i], {m});
  }

  lemma UpdateTwice(s: Sys, i: nat, n1: Node, n2: Node, sent: set<Msg>)
    requires i < |s.nodes|
    ensures Update(Update(s, i, n1, {}), i, n2, sent) == Update(s, i, n2, sent)
  {
    assert s.nodes[i := n1][i := n2] == s.nodes[i := n2];
  }

  lemma GrowsTwice(h: History, h1: History, h2: History)
    requires Grows(h, h1) && Grows(h1, h2)
    ensures Grows(h, h2)
  {
    forall t | t in h.led ensures t in h2.led && ReignGrows(h.led[t], h2.led[t], t) {
      assert ReignGrows(h.led[t], h1.led[t], t) && ReignGrows(h1.led[t], h2.led[t], t);
      var x, y, z := h.led[t].log, h1.led[t].log, h2.led[t].log;
      forall k | |x| <= k < |z| ensures z[k].term == t {
        if k < |y| { assert z[k] == y[k]; }
      }
    }
  }

  lemma VoteReqStep(s: Sys, h: History, i: nat, va: VoteArgs) returns (h': History)
    requires Ok(s, h) && i < |s.nodes| && |s.nodes[i].raft.log| >= 1 && MsgOk(h, VoteReq(i, va))
    ensures var (r', reply) := OnRequestVote(s.nodes[i].raft, va);
            Ok(Update(s, i, NodeWith(s, i, r'), {VoteResp(i, va, reply)}), h')
    ensures Grows(h, h')
  {
    var r := s.nodes[i].raft;
    if va.term < r.currentTerm {
      h' := h;
      CandidateExists(h, va);
      ReplyStep(s, h, i, VoteResp(i, va, OnRequestVote(r, va).1));
    } else if va.term > r.currentTerm {
      var h1, n1 := Bump(h, i, va.term), NodeWith(s, i, r.Newer(va.term));
      NewerStep(s, h, i, va.term, s.nodes[i].calls);
      MovesGrows(h, h1, i);
      MsgFrame(h, h1, VoteReq(i, va));
      h' := CastVote(Update(s, i, n1, {}), h1, i, va);
      MovesGrows(h1, h', i);
      GrowsTwice(h, h1, h');
      var (r', reply) := OnRequestVote(r, va);
      assert OnRequestVote(n1.raft, va) == (r', reply);
      UpdateTwice(s, i, n1, NodeWith(s, i, r'), {VoteResp(i, va, reply)});
    } else {
      h' := CastVote(s, h, i, va);
      MovesGrows(h, h', i);
    }
  }

  // ---------- Counting votes ----------

  /** Two majorities of votes in one term are for the same candidate. */
  lemma OneLeader(h: History, i: nat, t: nat, q: set<nat>)
    requires LedShape(h) && Majority(h.n, q) && t in h.led
    requires forall v :: v in q ==> At(v, t) in h.vote && h.vote[At(v, t)] == i
    ensures h.led[t].leader == i
  {
    assert ReignShape(h, t);
    var v := HalfMeetsMajority(h.n, q, h.led[t].voters);
  }

  lemma CountedVote(h: History, i: nat, t: nat, calls: set<nat>, from: nat)
    requires from < h.n && from in calls && At(from, t) in h.vote && h.vote[At(from, t)] == i
    ensures |Tally(h, i, t, calls - {from})| >= |Tally(h, i, t, calls)| + 1
  {
    var a, b := Tally(h, i, t, calls), Tally(h, i, t, calls - {from});
    SubsetSize(a + {from}, b);
  }

  lemma FewerCalls(h: History, i: nat, t: nat, calls: set<nat>, from: nat)
    ensures |Tally(h, i, t, calls - {from})| >= |Tally(h, i, t, calls)|
  {
    SubsetSize(Tally(h, i, t, calls), Tally(h, i, t, calls - {from}));
  }

  lemma WonRaft(h: History, i: nat, r: Raft, q: set<nat>)
    requires Inv(h) && RaftOk(h, i, r) && r.role == Candidate && Majority(h.n, q)
    requires forall v :: v in q ==> At(v, r.currentTerm) in h.vote && h.vote[At(v, r.currentTerm)] == i
    ensures MayElect(h, i, q)
  {
    if r.currentTerm in h.led {
      OneLeader(h, i, r.currentTerm, q);
    }
  }

  lemma LeaderRaft(h: History, i: nat, r: Raft, q: set<nat>)
    requires RaftOk(h, i, r) && r.role == Candidate && MayElect(h, i, q)
    requires Sealed(Elect(h, i, q), h.srv[i].log, r.commitIndex + 1, r.currentTerm)
    ensures forall c :: RaftOk(Elect(h, i, q), i, BecomeLeader(r.(voteCount := c)))
  {
  }

  lemma ElectStep(s: Sys, h: History, i: nat, q: set<nat>, votes: nat, calls: set<nat>)
    requires Ok(s, h) && i < |s.nodes| && i < |h.srv| && i < |s.nodes[i].raft.matchIndex|
    requires s.nodes[i].raft.role == Candidate && Majority(h.n, q) && s.nodes[i].raft.me == i
    requires forall v :: v in q ==>
               At(v, s.nodes[i].raft.currentTerm) in h.vote && h.vote[At(v, s.nodes[i].raft.currentTerm)] == i
    ensures Ok(Update(s, i, s.nodes[i].(raft := BecomeLeader(s.nodes[i].raft.(voteCount := votes)), calls := calls), {}),
               Elect(h, i, q))
    ensures Moves(h, Elect(h, i, q), i)
  {
    hide Ok, Inv, Moves, RaftOk, ServiceOk, MsgOk, NodeOk, Sealed, MayElect;
    var r := s.nodes[i].raft;
    InvOf(s, h);
    NodeFact(s, h, i);
    SameTerm(h, i, r);
    RaftSealed(h, i, r);
    WonRaft(h, i, r, q);
    ElectMoves(h, i, q);
    StaySealed(h, Elect(h, i, q), i, h.srv[i].log, r.commitIndex + 1, r.currentTerm, r.currentTerm);
    LeaderRaft(h, i, r, q);
    QuietStep(s, h, Elect(h, i, q), i,
              s.nodes[i].(raft := BecomeLeader(r.(voteCount := votes)), calls := calls), {});
  }

  lemma CountStep(s: Sys, h: History, i: nat, votes: nat, calls: set<nat>)
    requires Ok(s, h) && i < |s.nodes| && s.nodes[i].raft.role == Candidate
    requires votes <= |Tally(h, i, s.nodes[i].raft.currentTerm, calls)|
    ensures Ok(Update(s, i, s.nodes[i].(raft := s.nodes[i].raft.(voteCount := votes), calls := calls), {}), h)
  {
    NodeFact(s, h, i);
    StayMoves(h, i);
    CountRaft(h, i, s.nodes[i].raft, votes);
    QuietStep(s, h, h, i, s.nodes[i].(raft := s.nodes[i].raft.(voteCount := votes), calls := calls), {});
  }

  lemma CountRaft(h: History, i: nat, r: Raft, votes: nat)
    requires RaftOk(h, i, r)
    ensures RaftOk(h, i, r.(voteCount := votes))
  {
  }

  /** Nothing happens at all. */
  lemma NoStep(s: Sys, h: History, i: nat)
    requires Ok(s, h) && i < |s.nodes|
    ensures Ok(Update(s, i, s.nodes[i], {}), h) && Grows(h, h)
  {
    assert Update(s, i, s.nodes[i], {}) == s;
    StayMoves(h, i);
  }

  /** The reply of an open call of the current candidacy. */
  lemma TallyStep(s: Sys, h: History, i: nat, from: nat, va: VoteArgs, vr: VoteReply) returns (h': History)
    requires Ok(s, h) && i < |s.nodes| && s.nodes[i].raft.me == i < |s.nodes[i].raft.matchIndex| == h.n
    requires s.nodes[i].raft.role == Candidate && va.term == s.nodes[i].raft.currentTerm && i < |h.srv|
    requires from in s.nodes[i].calls && from < h.n && vr.term <= va.term
    requires vr.granted ==> At(from, va.term) in h.vote && h.vote[At(from, va.term)] == i
    ensures Ok(Update(s, i, s.nodes[i].(raft := OnVoteReply(s.nodes[i].raft, va, vr), calls := s.nodes[i].calls - {from}), {}), h')
    ensures Moves(h, h', i)
  {
    hide Ok, Inv, Moves;
    var node, r := s.nodes[i], s.nodes[i].raft;
    var calls := node.calls - {from};
    InvOf(s, h);
    VotesCounted(s, h, i);
    FewerCalls(h, i, va.term, node.calls, from);
    StayMoves(h, i);
    h' := h;
    if vr.term == va.term && vr.granted && r.voteCount <= |r.matchIndex| / 2 {
      CountedVote(h, i, va.term, node.calls, from);
      if r.voteCount + 1 > |r.matchIndex| / 2 {
        var q := Tally(h, i, va.term, calls);
        ElectStep(s, h, i, q, r.voteCount + 1, calls);
        h' := Elect(h, i, q);
      } else {
        CountStep(s, h, i, r.voteCount + 1, calls);
      }
    } else {
      CountStep(s, h, i, r.voteCount, calls);
    }
  }

  lemma VotesCounted(s: Sys, h: History, i: nat)
    requires Ok(s, h) && i < |s.nodes| && s.nodes[i].raft.role == Candidate
    ensures s.nodes[i].raft.voteCount <= |Tally(h, i, s.nodes[i].raft.currentTerm, s.nodes[i].calls)|
  {
    NodeFact(s, h, i);
  }

  lemma VoteRespStep(s: Sys, h: History, from: nat, va: VoteArgs, vr: VoteReply) returns (h': History)
    requires Ok(s, h) && va.candidate < |s.nodes| && MsgOk(h, VoteResp(from, va, vr))
    requires s.nodes[va.candidate].raft.InRange()
    requires va.term == s.nodes[va.candidate].raft.currentTerm && s.nodes[va.candidate].raft.role == Candidate
             ==> from in s.nodes[va.candidate].calls
    ensures Ok(Update(s, va.candidate, Handle(s.nodes[va.candidate], VoteResp(from, va, vr)).0, {}), h')
    ensures Grows(h, h')
  {
    var i, r := va.candidate, s.nodes[va.candidate].raft;
    var open := va.term == r.currentTerm && r.role == Candidate;
    NodeFact(s, h, i);
    if vr.term > r.currentTerm {
      h' := Bump(h, i, vr.term);
      NewerStep(s, h, i, vr.term, if open then s.nodes[i].calls - {from} else s.nodes[i].calls);
      MovesGrows(h, h', i);
    } else if open {
      h' := TallyStep(s, h, i, from, va, vr);
      MovesGrows(h, h', i);
    } else {
      h' := h;
      NoStep(s, h, i);
    }
  }
}
