/** AppendEntries, InstallSnapshot and the leader's side of replication, as steps that keep `Ok`. */
module ClusterLogs {
  import opened KvStore
  import opened RaftTypes
  import opened RaftState
  import opened LogHistory
  import opened Cluster
  import opened ClusterInv
  import opened ClusterSteps
  import Median

  // ---------- Taking over a leader's entries ----------

  /** What a server knows to be committed is in the log of every leader it may hear from. */
  lemma CommittedInLeader(h: History, i: nat, r: Raft, t: nat)
    requires Inv(h) && RaftOk(h, i, r) && t in h.led && r.currentTerm <= t
    ensures Agree(h.srv[i].log, h.led[t].log, r.commitIndex + 1)
  {
    assert Rooted(h, h.srv[i].log, h.srv[i].term);
    SealedInLeader(h, h.srv[i].log, r.commitIndex + 1, r.currentTerm, t);
  }

  /** If the consistency check passes, or is skipped inside the snapshot, the logs agree there. */
  lemma CheckedAgree(h: History, r: Raft, a: AppendArgs, x: Log, y: Log, hi: int)
    requires LogIs(r, x) && Quotes(a, y) && Rooted(h, x, hi) && Rooted(h, y, hi)
    requires Agree(x, y, r.lastIncludeIndex + 1) && |r.log| >= 1 && Matches(r, a)
    ensures Agree(x, y, Max(a.prevIndex, r.lastIncludeIndex) + 1)
  {
    if a.prevIndex >= r.lastIncludeIndex {
      assert x[a.prevIndex].term == y[a.prevIndex].term;
      LogMatching(h, x, y, hi, hi, a.prevIndex);
    }
  }

  /** While the entries' terms match, the whole logs do. */
  lemma SameUpTo(h: History, r: Raft, a: AppendArgs, k: nat, x: Log, y: Log, hi: int)
    requires LogIs(r, x) && Quotes(a, y) && Rooted(h, x, hi) && Rooted(h, y, hi)
    requires Max(0, r.lastIncludeIndex - a.prevIndex) < k <= |a.entries|
    requires a.prevIndex + k <= r.LastIndex()
    requires r.log[a.prevIndex + k - r.lastIncludeIndex].term == a.entries[k - 1].term
    ensures Agree(x, y, a.prevIndex + 1 + k)
  {
    var p := a.prevIndex + k;
    assert x[p] == r.log[p - r.lastIncludeIndex] && a.entries[k - 1] == y[p];
    LogMatching(h, x, y, hi, hi, p);
  }

  /** How many of the entries are already in the log: up to the first conflict or the log's end. */
  ghost function Present(log: Log, lii: nat, prev: nat, es: seq<Entry>): (c: nat)
    requires |log| >= 1 && prev <= |log| + lii - 1
    ensures c <= |es| && prev + c <= Max(|log| + lii - 1, prev + Min(|es|, Max(0, lii - prev)))
  {
    var k0 := Max(0, lii - prev);
    if |es| <= k0 then |es|
    else Min(FirstConflict(log, lii, prev, es, k0), |log| + lii - 1 - prev)
  }

  /** `TakeOver` keeps the log if all the entries are there, and else replaces what follows. */
  lemma TakeOverShape(log: Log, lii: nat, prev: nat, es: seq<Entry>)
    requires |log| >= 1 && prev <= |log| + lii - 1
    ensures var c, k0 := Present(log, lii, prev, es), Max(0, lii - prev);
            && (forall j :: k0 <= j < c ==> prev + 1 + j - lii < |log| && log[prev + 1 + j - lii].term == es[j].term)
            && (c == |es| ==> TakeOver(log, lii, prev, es) == log)
            && (c < |es| ==>
                  && k0 <= c && TakeOver(log, lii, prev, es) == log[..prev + 1 + c - lii] + es[c..]
                  && (prev + 1 + c - lii < |log| ==> log[prev + 1 + c - lii].term != es[c].term))
  {
  }

  lemma MayAcceptAppend(h: History, i: nat, a: AppendArgs)
    requires AppendOk(h, a) && i < |h.srv| && h.srv[i].term == a.term && a.leader != i
    ensures MayAccept(h, i, a.prevIndex + |a.entries| + 1)
  {
  }

  /** What `Present` skips or finds equal is the same in both logs. */
  lemma PresentAgree(h: History, r: Raft, a: AppendArgs, x: Log, y: Log, hi: int)
    requires LogIs(r, x) && Quotes(a, y) && Rooted(h, x, hi) && Rooted(h, y, hi)
    requires Agree(x, y, r.lastIncludeIndex + 1) && |r.log| >= 1 && Matches(r, a)
    ensures Agree(x, y, a.prevIndex + 1 + Present(r.log, r.lastIncludeIndex, a.prevIndex, a.entries))
  {
    hide Rooted, LogIs, Quotes, TakeOver;
    var c, k0 := Present(r.log, r.lastIncludeIndex, a.prevIndex, a.entries), Max(0, r.lastIncludeIndex - a.prevIndex);
    CheckedAgree(h, r, a, x, y, hi);
    TakeOverShape(r.log, r.lastIncludeIndex, a.prevIndex, a.entries);
    if c > k0 {
      SameUpTo(h, r, a, c, x, y, hi);
    } else {
      AgreeLess(x, y, Max(a.prevIndex, r.lastIncludeIndex) + 1, a.prevIndex + 1 + c);
    }
  }

  lemma AgreeLess(x: Log, y: Log, k: nat, m: nat)
    requires Agree(x, y, k) && m <= k
    ensures Agree(x, y, m)
  {
  }

  /** `TakeOver` on the compacted log is `Accept` on the full log. */
  lemma TakeOverIsAccept(h: History, i: nat, r: Raft, a: AppendArgs)
    requires i < |h.srv| && a.term in h.led && a.term == h.srv[i].term
    requires MayAccept(h, i, a.prevIndex + |a.entries| + 1)
    requires LogIs(r, h.srv[i].log) && Quotes(a, h.led[a.term].log)
    requires Rooted(h, h.srv[i].log, a.term) && Rooted(h, h.led[a.term].log, a.term)
    requires Agree(h.srv[i].log, h.led[a.term].log, r.lastIncludeIndex + 1) && |r.log| >= 1 && Matches(r, a)
    ensures LogIs(r.(log := TakeOver(r.log, r.lastIncludeIndex, a.prevIndex, a.entries)),
                  Accept(h, i, a.prevIndex + |a.entries| + 1).srv[i].log)
  {
    hide Rooted, LogIs, Quotes, Present, TakeOver;
    var c := Present(r.log, r.lastIncludeIndex, a.prevIndex, a.entries);
    PresentAgree(h, r, a, h.srv[i].log, h.led[a.term].log, a.term);
    TakeOverShape(r.log, r.lastIncludeIndex, a.prevIndex, a.entries);
    if c == |a.entries| {
      AcceptNothing(h, i, a.prevIndex + |a.entries| + 1);
    } else {
      AcceptRest(h, i, r, a, c);
    }
  }

  lemma AcceptNothing(h: History, i: nat, n: nat)
    requires MayAccept(h, i, n) && Agree(h.srv[i].log, h.led[h.srv[i].term].log, n)
    ensures Accept(h, i, n).srv[i].log == h.srv[i].log
  {
    assert h.led[h.srv[i].term].log[..n] <= h.srv[i].log;
  }

  lemma AcceptRest(h: History, i: nat, r: Raft, a: AppendArgs, c: nat)
    requires i < |h.srv| && a.term in h.led && a.term == h.srv[i].term
    requires LogIs(r, h.srv[i].log) && Quotes(a, h.led[a.term].log) && |r.log| >= 1
    requires MayAccept(h, i, a.prevIndex + |a.entries| + 1)
    requires c < |a.entries| && r.lastIncludeIndex <= a.prevIndex + c <= r.LastIndex()
    requires Agree(h.srv[i].log, h.led[a.term].log, a.prevIndex + c + 1)
    requires a.prevIndex + c < r.LastIndex() ==>
               r.EntryAt(a.prevIndex + 1 + c).term != a.entries[c].term
    ensures LogIs(r.(log := r.log[..a.prevIndex + 1 + c - r.lastIncludeIndex] + a.entries[c..]),
                  Accept(h, i, a.prevIndex + |a.entries| + 1).srv[i].log)
  {
    var x, y, n := h.srv[i].log, h.led[a.term].log, a.prevIndex + |a.entries| + 1;
    assert !(y[..n] <= x) by {
      var p := a.prevIndex + 1 + c;
      assert y[..n][p] == y[p] == a.entries[c];
      if p < |x| { assert x[p] == r.log[p - r.lastIncludeIndex]; }
    }
    CutLog(r, x, y, a, c);
  }

  /** Keeping what agrees and appending the rest gives the suffix of the leader's log. */
  lemma CutLog(r: Raft, x: Log, y: Log, a: AppendArgs, c: nat)
    requires LogIs(r, x) && c <= |a.entries| && r.lastIncludeIndex <= a.prevIndex + c <= r.LastIndex()
    requires a.prevIndex + |a.entries| < |y| && Agree(x, y, a.prevIndex + c + 1)
    requires forall k :: 0 <= k < |a.entries| ==> a.entries[k] == y[a.prevIndex + 1 + k]
    ensures LogIs(r.(log := r.log[..a.prevIndex + 1 + c - r.lastIncludeIndex] + a.entries[c..]),
                  y[..a.prevIndex + |a.entries| + 1])
  {
  }

  /** Taking over a leader's log does not touch what is committed. */
  lemma AcceptKeepsCommitted(h: History, i: nat, r: Raft, n: nat)
    requires Inv(h) && RaftOk(h, i, r) && MayAccept(h, i, n)
    ensures Agree(h.srv[i].log, Accept(h, i, n).srv[i].log, r.commitIndex + 1)
  {
    CommittedInLeader(h, i, r, r.currentTerm);
    var x, y := h.srv[i].log, h.led[r.currentTerm].log;
    if n <= r.commitIndex + 1 {
      assert y[..n] <= x;
    }
  }

  /** The part of the log that a message seals is in the log of the server that accepts it. */
  lemma AcceptSealed(h: History, i: nat, n: nat, k: nat, t: nat)
    requires MayAccept(h, i, n) && k <= n && t == h.srv[i].term
    requires Sealed(h, h.led[t].log, k, t)
    ensures Sealed(Accept(h, i, n), Accept(h, i, n).srv[i].log, k, t)
  {
    AcceptGrows(h, i, n);
    var y := h.led[t].log;
    assert Agree(y, Accept(h, i, n).srv[i].log, n);
    SealedGrows(h, Accept(h, i, n), y, k, t, Accept(h, i, n).srv[i].log, t);
  }

  lemma AcceptStaysSealed(h: History, i: nat, r: Raft, n: nat)
    requires Inv(h) && RaftOk(h, i, r) && MayAccept(h, i, n)
    ensures Sealed(Accept(h, i, n), Accept(h, i, n).srv[i].log, r.commitIndex + 1, r.currentTerm)
  {
    AcceptGrows(h, i, n);
    AcceptKeepsCommitted(h, i, r, n);
    SealedGrows(h, Accept(h, i, n), h.srv[i].log, r.commitIndex + 1, r.currentTerm,
                Accept(h, i, n).srv[i].log, r.currentTerm);
  }

  /** What `Accepted` changes. */
  lemma AcceptedFields(r: Raft, a: AppendArgs)
    requires |r.log| >= 1 && Matches(r, a) && r.lastIncludeIndex <= r.commitIndex && DiskOk(r)
    ensures var r' := Accepted(r, a);
            && r'.log == TakeOver(r.log, r.lastIncludeIndex, a.prevIndex, a.entries)
            && r' == r.(log := r'.log, disk := r'.disk, commitIndex := r'.commitIndex)
            && DiskOk(r')
            && r.commitIndex <= r'.commitIndex
            && (r'.commitIndex != r.commitIndex ==> r'.commitIndex == Min(a.leaderCommit, a.prevIndex + |a.entries|))
  {
  }

  lemma AcceptedRaft(h: History, i: nat, r: Raft, a: AppendArgs)
    requires Inv(h) && RaftOk(h, i, r) && r.role == Follower && AppendOk(h, a) && a.term == r.currentTerm
    requires |r.log| >= 1 && Matches(r, a) && MayAccept(h, i, a.prevIndex + |a.entries| + 1)
    ensures RaftOk(Accept(h, i, a.prevIndex + |a.entries| + 1), i, Accepted(r, a))
  {
    AcceptedLog(h, i, r, a);
    AcceptedCommit(h, i, r, a);
    AcceptedBase(h, Accept(h, i, a.prevIndex + |a.entries| + 1), i, r, a);
  }

  lemma AcceptedLog(h: History, i: nat, r: Raft, a: AppendArgs)
    requires Inv(h) && RaftOk(h, i, r) && AppendOk(h, a) && a.term == r.currentTerm
    requires |r.log| >= 1 && Matches(r, a) && MayAccept(h, i, a.prevIndex + |a.entries| + 1)
    ensures LogIs(r.(log := TakeOver(r.log, r.lastIncludeIndex, a.prevIndex, a.entries)),
                  Accept(h, i, a.prevIndex + |a.entries| + 1).srv[i].log)
  {
    CommittedInLeader(h, i, r, a.term);
    LogsRooted(h, i, a.term);
    TakeOverIsAccept(h, i, r, a);
  }

  lemma LogsRooted(h: History, i: nat, t: nat)
    requires Inv(h) && i < |h.srv| && t in h.led
    ensures Rooted(h, h.srv[i].log, h.srv[i].term) && Rooted(h, h.led[t].log, t)
  {
  }

  lemma AcceptedCommit(h: History, i: nat, r: Raft, a: AppendArgs)
    requires Inv(h) && RaftOk(h, i, r) && AppendOk(h, a) && a.term == r.currentTerm
    requires |r.log| >= 1 && Matches(r, a) && MayAccept(h, i, a.prevIndex + |a.entries| + 1)
    ensures var h' := Accept(h, i, a.prevIndex + |a.entries| + 1);
            Sealed(h', h'.srv[i].log, Accepted(r, a).commitIndex + 1, a.term)
  {
    hide Inv, RaftOk, AppendOk, Sealed, Accepted;
    var n := a.prevIndex + |a.entries| + 1;
    SameTerm(h, i, r);
    AcceptStaysSealed(h, i, r, n);
    AppendSealed(h, a);
    AcceptSealed(h, i, n, Min(a.leaderCommit, a.prevIndex + |a.entries|) + 1, a.term);
    CommitCases(r, a);
  }

  lemma AppendSealed(h: History, a: AppendArgs)
    requires AppendOk(h, a)
    ensures Sealed(h, h.led[a.term].log, Min(a.leaderCommit, a.prevIndex + |a.entries|) + 1, a.term)
  {
  }

  lemma CommitCases(r: Raft, a: AppendArgs)
    requires |r.log| >= 1 && Matches(r, a)
    ensures Accepted(r, a).commitIndex == r.commitIndex
            || Accepted(r, a).commitIndex == Min(a.leaderCommit, a.prevIndex + |a.entries|)
  {
  }

  /** A follower that keeps its term, its vote and its snapshot. */
  lemma AcceptedBase(h: History, h': History, i: nat, r: Raft, a: AppendArgs)
    requires RaftOk(h, i, r) && r.role == Follower && h'.n == h.n && h'.vote == h.vote
    requires i < |h'.srv| && h'.srv[i].term == r.currentTerm && |r.log| >= 1 && Matches(r, a)
    requires LogIs(r.(log := TakeOver(r.log, r.lastIncludeIndex, a.prevIndex, a.entries)), h'.srv[i].log)
    requires Sealed(h', h'.srv[i].log, Accepted(r, a).commitIndex + 1, r.currentTerm)
    ensures RaftOk(h', i, Accepted(r, a))
  {
    hide Sealed, TakeOver;
    AcceptedFields(r, a);
    SealedLength(h', h'.srv[i].log, Accepted(r, a).commitIndex + 1, r.currentTerm);
  }

  lemma SealedLength(h: History, x: Log, k: nat, hi: nat)
    requires Sealed(h, x, k, hi)
    ensures k <= |x|
  {
  }

  // ---------- AppendEntries ----------

  lemma AcceptedView(r: Raft, a: AppendArgs)
    requires |r.log| >= 1 && Matches(r, a)
    ensures SameView(r, Accepted(r, a)) && Accepted(r, a).role == r.role
  {
  }

  lemma AcceptedService(h: History, i: nat, node: Node, a: AppendArgs, n: nat)
    requires Inv(h) && RaftOk(h, i, node.raft) && ServiceOk(node, h.srv[i].log) && MayAccept(h, i, n)
    requires |node.raft.log| >= 1 && Matches(node.raft, a)
    ensures ServiceOk(node.(raft := Accepted(node.raft, a)), Accept(h, i, n).srv[i].log)
  {
    AcceptKeepsCommitted(h, i, node.raft, n);
    AgreeLess(h.srv[i].log, Accept(h, i, n).srv[i].log, node.raft.commitIndex + 1, node.raft.applyIndex + 1);
    AcceptedView(node.raft, a);
    ServiceFrame(node, node.(raft := Accepted(node.raft, a)), h.srv[i].log, Accept(h, i, n).srv[i].log);
  }

  lemma AppendRespOk(h: History, i: nat, a: AppendArgs, reply: AppendReply)
    requires AppendOk(h, a) && i < h.n && i != a.leader
    requires if reply.success then a.prevIndex + |a.entries| <= AckOf(h, i, a.term) else RejectOk(h, a, reply)
    ensures MsgOk(h, AppendResp(i, a, reply))
  {
  }

  lemma AppendReqFact(h: History, i: nat, a: AppendArgs)
    requires MsgOk(h, AppendReq(i, a))
    ensures AppendOk(h, a) && i < h.n && i != a.leader
  {
  }

  lemma AcceptStep(s: Sys, h: History, i: nat, a: AppendArgs, reply: AppendReply)
    requires Ok(s, h) && i < |s.nodes| && MsgOk(h, AppendReq(i, a)) && reply.success
    requires s.nodes[i].raft.role == Follower && a.term == s.nodes[i].raft.currentTerm
    requires |s.nodes[i].raft.log| >= 1 && Matches(s.nodes[i].raft, a)
    requires i < |h.srv| && h.srv[i].term in h.led && a.prevIndex + |a.entries| + 1 <= |h.led[h.srv[i].term].log|
    ensures var h' := Accept(h, i, a.prevIndex + |a.entries| + 1);
            Moves(h, h', i) && Ok(Update(s, i, NodeWith(s, i, Accepted(s.nodes[i].raft, a)), {AppendResp(i, a, reply)}), h')
  {
    hide Ok, Inv, Moves, RaftOk, ServiceOk, MsgOk, AppendOk, NodeOk;
    var n := a.prevIndex + |a.entries| + 1;
    NodeFact(s, h, i);
    InvOf(s, h);
    AppendReqFact(h, i, a);
    SameTerm(h, i, s.nodes[i].raft);
    AcceptedNode(h, i, s.nodes[i], a);
    AcceptedMoves(h, i, a, reply);
    StepOk(s, h, Accept(h, i, n), i, NodeWith(s, i, Accepted(s.nodes[i].raft, a)), {AppendResp(i, a, reply)});
  }

  lemma AcceptedNode(h: History, i: nat, node: Node, a: AppendArgs)
    requires Inv(h) && RaftOk(h, i, node.raft) && i < |h.srv| && ServiceOk(node, h.srv[i].log)
    requires AppendOk(h, a) && a.leader != i && a.term == h.srv[i].term == node.raft.currentTerm
    requires node.raft.role == Follower && |node.raft.log| >= 1 && Matches(node.raft, a)
    ensures MayAccept(h, i, a.prevIndex + |a.entries| + 1)
    ensures NodeOk(Accept(h, i, a.prevIndex + |a.entries| + 1), i, node.(raft := Accepted(node.raft, a)))
  {
    hide Inv, RaftOk, ServiceOk, AppendOk;
    MayAcceptAppend(h, i, a);
    AcceptedRaft(h, i, node.raft, a);
    AcceptedService(h, i, node, a, a.prevIndex + |a.entries| + 1);
    AcceptedView(node.raft, a);
    NodeOf(Accept(h, i, a.prevIndex + |a.entries| + 1), i, node.(raft := Accepted(node.raft, a)));
  }

  lemma AcceptedMoves(h: History, i: nat, a: AppendArgs, reply: AppendReply)
    requires reply.success && Inv(h) && AppendOk(h, a) && a.leader != i && i < |h.srv| == h.n && h.srv[i].term == a.term
    requires MayAccept(h, i, a.prevIndex + |a.entries| + 1)
    ensures var h' := Accept(h, i, a.prevIndex + |a.entries| + 1);
            Moves(h, h', i) && MsgOk(h', AppendResp(i, a, reply))
  {
    hide Inv;
    var h' := Accept(h, i, a.prevIndex + |a.entries| + 1);
    AcceptGrows(h, i, a.prevIndex + |a.entries| + 1);
    AppendFrame(h, h', a);
    AppendRespOk(h', i, a, reply);
    AcceptMoves(h, i, a.prevIndex + |a.entries| + 1);
  }

  lemma AppendBounds(h: History, i: nat, a: AppendArgs)
    requires AppendOk(h, a)
    ensures a.term in h.led && a.prevIndex + |a.entries| + 1 <= |h.led[a.term].log|
  {
  }

  /** The follower's answer, once it is in the leader's term. */
  function Checked(r: Raft, a: AppendArgs, xLen: int): (Raft, AppendReply)
    requires |r.log| >= 1
  {
    if !Matches(r, a) then (r, Rejection(r, a)) else (Accepted(r, a), AppendReply(a.term, true, -1, -1, xLen))
  }

  lemma CheckedStep(s: Sys, h: History, i: nat, a: AppendArgs, xLen: int) returns (h': History)
    requires Ok(s, h) && i < |s.nodes| && MsgOk(h, AppendReq(i, a))
    requires s.nodes[i].raft.role == Follower && a.term == s.nodes[i].raft.currentTerm && |s.nodes[i].raft.log| >= 1
    ensures var (r', reply) := Checked(s.nodes[i].raft, a, xLen);
            Ok(Update(s, i, NodeWith(s, i, r'), {AppendResp(i, a, reply)}), h')
    ensures Moves(h, h', i)
  {
    var (r', reply) := Checked(s.nodes[i].raft, a, xLen);
    AppendReqFact(h, i, a);
    if Matches(s.nodes[i].raft, a) {
      AppendBounds(h, i, a);
      NodeFact(s, h, i);
      SameTerm(h, i, s.nodes[i].raft);
      InvOf(s, h);
      h' := Accept(h, i, a.prevIndex + |a.entries| + 1);
      AcceptStep(s, h, i, a, reply);
    } else {
      h' := h;
      NodeFact(s, h, i);
      InvOf(s, h);
      RejectionOk(h, i, s.nodes[i].raft, a);
      AppendRespOk(h, i, a, reply);
      ReplyStep(s, h, i, AppendResp(i, a, reply));
    }
  }

  /** What a rejection says about the follower's log is true of it. */
  lemma RejectionOk(h: History, i: nat, r: Raft, a: AppendArgs)
    requires Inv(h) && RaftOk(h, i, r) && AppendOk(h, a) && a.term == r.currentTerm
    requires |r.log| >= 1 && !Matches(r, a)
    ensures RejectOk(h, a, Rejection(r, a))
  {
    hide Inv, RaftOk, AppendOk;
    RaftLog(h, i, r);
    AppendFact(h, a);
    LogsRooted(h, i, a.term);
    if a.prevIndex <= r.LastIndex() {
      MismatchOk(h, r, a, h.srv[i].log, h.led[a.term].log, h.srv[i].term, a.term);
    }
  }

  lemma AppendFact(h: History, a: AppendArgs)
    requires AppendOk(h, a)
    ensures a.term in h.led && Quotes(a, h.led[a.term].log)
  {
  }

  lemma MismatchOk(h: History, r: Raft, a: AppendArgs, x: Log, y: Log, hx: int, hy: int)
    requires LogIs(r, x) && Quotes(a, y) && Rooted(h, x, hx) && Rooted(h, y, hy)
    requires |r.log| >= 1 && !Matches(r, a) && a.prevIndex <= r.LastIndex()
    ensures RejectOk(h, a, Rejection(r, a))
  {
    var p := a.prevIndex;
    assert x[p].term == r.EntryAt(p).term;
    if p >= 1 {
      assert RootedAt(h, x, p, hx);
    }
  }

  lemma AppendReqStep(s: Sys, h: History, i: nat, a: AppendArgs) returns (h': History)
    requires Ok(s, h) && i < |s.nodes| && MsgOk(h, AppendReq(i, a)) && |s.nodes[i].raft.log| >= 1
    ensures var (r', reply) := OnAppendEntries(s.nodes[i].raft, a);
            Ok(Update(s, i, NodeWith(s, i, r'), {AppendResp(i, a, reply)}), h')
    ensures Grows(h, h')
  {
    hide Ok, Inv, Moves, MsgOk, Grows;
    var r := s.nodes[i].raft;
    var (r', reply) := OnAppendEntries(r, a);
    if a.term < r.currentTerm {
      h' := h;
      AppendReqFact(h, i, a);
      AppendRespOk(h, i, a, reply);
      ReplyStep(s, h, i, AppendResp(i, a, reply));
      MovesGrows(h, h, i);
    } else {
      var n1 := NodeWith(s, i, Followed(r, a.term));
      var h1 := FollowedStep(s, h, i, a.term);
      MovesGrows(h, h1, i);
      MsgFrame(h, h1, AppendReq(i, a));
      h' := CheckedStep(Update(s, i, n1, {}), h1, i, a, r.LastIndex() + 1);
      MovesGrows(h1, h', i);
      GrowsTwice(h, h1, h');
      UpdateTwice(s, i, n1, NodeWith(s, i, r'), {AppendResp(i, a, reply)});
    }
  }
}
