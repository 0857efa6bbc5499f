/**
 The compacting servers keep the rules of the paper: in every reachable state, each step of a server
 comes to what the server of `PaperRaft` would do with the whole log, of which the server only has the
 end.
 */
module ClusterPaper {
  import opened KvStore
  import opened RaftTypes
  import opened RaftState
  import opened LogHistory
  import opened Cluster
  import opened ClusterInv
  import opened ClusterSteps
  import opened ClusterLogs
  import opened ClusterLeader
  import opened ClusterService
  import opened ClusterInstall
  import opened ClusterSafety
  import opened PaperRaft
  import Median

  /** x is the whole log of server i, of which it has the end: history h is one of the whole cluster. */
  ghost predicate WholeLog(s: Sys, h: History, i: nat, x: Log) {
    Ok(s, h) && i < |s.nodes| && i < |h.srv| && x == h.srv[i].log && LogIs(s.nodes[i].raft, x)
  }

  /** The only answer to the message is this one. */
  predicate Answers(s: Sys, m: Msg, answer: Msg) {
    && Enabled(s, Receive(m))
    && Handle(s.nodes[Receiver(m)], m).1 == {answer} && Apply(s, Receive(m)).net == s.net + {answer}
  }

  /** The state of server i after a step. */
  function Then(s: Sys, step: Step, i: nat): Raft
    requires Enabled(s, step) && i < |s.nodes|
  {
    Apply(s, step).nodes[i].raft
  }

  lemma Whole(n: nat, s: Sys, i: nat) returns (h: History, x: Log)
    requires Reachable(n, s) && i < |s.nodes|
    ensures WholeLog(s, h, i, x) && Inv(h) && RaftOk(h, i, s.nodes[i].raft) && s.nodes[i].raft.InRange() && |x| >= 1
    ensures h.n == |s.nodes|
  {
    hide Ok, Inv, RaftOk, NodeOk, ServiceOk, Reachable;
    h := ReachableOk(n, s);
    InvOf(s, h);
    NodeFact(s, h, i);
    RaftLog(h, i, s.nodes[i].raft);
    x := h.srv[i].log;
    assert |x| >= 1 by { Sentinel(h, i); }
  }

  lemma End(r: Raft, x: Log)
    requires LogIs(r, x)
    ensures |r.log| >= 1 && |x| >= 1 && r.LastIndex() == |x| - 1 && r.LastTerm() == x[|x| - 1].term
  {
  }

  lemma Ends(r: Raft, x: Log)
    requires LogIs(r, x)
    ensures |r.log| >= 1 && |x| >= 1 && r.LastIndex() == |x| - 1 && r.LastTerm() == x[|x| - 1].term
    ensures forall k :: r.lastIncludeIndex <= k < |x| ==> r.EntryAt(k).term == x[k].term
  {
  }

  // ---------- Elections ----------

  /** A server grants its vote by its whole log, exactly by the rule. */
  lemma VotesByRule(n: nat, s: Sys, i: nat, va: VoteArgs) returns (h: History, x: Log, reply: VoteReply)
    requires Reachable(n, s) && Enabled(s, Receive(VoteReq(i, va)))
    ensures WholeLog(s, h, i, x) && Answers(s, VoteReq(i, va), VoteResp(i, va, reply))
    ensures var (r, r') := (s.nodes[i].raft, Then(s, Receive(VoteReq(i, va)), i));
            LogIs(r', x) && SameStore(r, r') && VoteRule(View(r, x), va, View(r', x), reply)
  {
    hide Reachable, Ok, Inv, RaftOk;
    h, x := Whole(n, s, i);
    reply := OnRequestVote(s.nodes[i].raft, va).1;
    VoteLocal(s.nodes[i].raft, x, va);
  }

  lemma VoteLocal(r: Raft, x: Log, va: VoteArgs)
    requires LogIs(r, x)
    ensures var (r', reply) := OnRequestVote(r, va);
            LogIs(r', x) && SameStore(r, r') && VoteRule(View(r, x), va, View(r', x), reply)
  {
    hide LogIs;
    End(r, x);
    SameEnd(r, OnRequestVote(r, va).0, x);
  }

  lemma SameEnd(r: Raft, r': Raft, x: Log)
    requires LogIs(r, x) && r'.log == r.log && r'.lastIncludeIndex == r.lastIncludeIndex && r'.lastIncludeTerm == r.lastIncludeTerm
    ensures LogIs(r', x)
  {
  }

  lemma StandsByRule(n: nat, s: Sys, i: nat) returns (h: History, x: Log, a: VoteArgs)
    requires Reachable(n, s) && Enabled(s, Timeout(i))
    ensures WholeLog(s, h, i, x)
    ensures Apply(s, Timeout(i)).net == s.net + set p | p in Others(|s.nodes|, i) :: VoteReq(p, a)
    ensures var (r, r') := (s.nodes[i].raft, Then(s, Timeout(i), i));
            LogIs(r', x) && SameStore(r, r') && StandRule(View(r, x), View(r', x), a)
  {
    hide Reachable, Ok, Inv, RaftOk, LogIs, StandRule, SameStore, OnTimeout, Candidacy, View;
    h, x := Whole(n, s, i);
    StandLocal(s.nodes[i].raft, x);
    a := Candidacy(s.nodes[i].raft);
  }

  lemma StandLocal(r: Raft, x: Log)
    requires LogIs(r, x)
    ensures |r.log| >= 1 && var r' := OnTimeout(r); LogIs(r', x) && SameStore(r, r') && StandRule(View(r, x), View(r', x), Candidacy(r))
  {
    hide LogIs;
    End(r, x);
    SameEnd(r, OnTimeout(r), x);
  }

  lemma CountsByRule(n: nat, s: Sys, from: nat, va: VoteArgs, vr: VoteReply) returns (h: History, x: Log)
    requires Reachable(n, s) && Enabled(s, Receive(VoteResp(from, va, vr)))
    ensures WholeLog(s, h, va.candidate, x)
    ensures var (r, r') := (s.nodes[va.candidate].raft, Then(s, Receive(VoteResp(from, va, vr)), va.candidate));
            LogIs(r', x) && SameStore(r, r') && CountRule(View(r, x), va, vr, View(r', x))
  {
    hide Reachable, Ok, Inv, RaftOk, LogIs;
    h, x := Whole(n, s, va.candidate);
    Ends(s.nodes[va.candidate].raft, x);
    SameEnd(s.nodes[va.candidate].raft, OnVoteReply(s.nodes[va.candidate].raft, va, vr), x);
  }

  // ---------- AppendEntries ----------

  /** The server in the term of a message of a leader, and the history in which it is. */
  lemma InTerm(s: Sys, h: History, i: nat, t: nat) returns (h1: History)
    requires Ok(s, h) && i < |s.nodes| && t >= s.nodes[i].raft.currentTerm
    ensures h1 == (if t > s.nodes[i].raft.currentTerm then Bump(h, i, t) else h) && i < |h.srv|
    ensures Inv(h1) && RaftOk(h1, i, Followed(s.nodes[i].raft, t)) && h1.srv[i].log == h.srv[i].log && h1.led == h.led
    ensures Grows(h, h1)
  {
    hide Ok, Inv, RaftOk, NodeOk, ServiceOk, Moves, Grows;
    var r := s.nodes[i].raft;
    InvOf(s, h);
    NodeFact(s, h, i);
    if t > r.currentTerm {
      h1 := Bump(h, i, t);
      NewerStep(s, h, i, t, s.nodes[i].calls);
      MovesGrows(h, h1, i);
      var s1 := Update(s, i, NodeWith(s, i, r.Newer(t)).(calls := s.nodes[i].calls), {});
      NodeFact(s1, h1, i);
    } else {
      h1 := h;
      FollowerRaft(h, i, r);
      StayMoves(h, i);
      MovesGrows(h, h, i);
    }
  }

  /** The check on the compacted log is the one on the whole log: under the snapshot it always holds. */
  lemma ChecksWhole(h: History, i: nat, r: Raft, x: Log, a: AppendArgs)
    requires Inv(h) && RaftOk(h, i, r) && i < |h.srv| && x == h.srv[i].log && LogIs(r, x) && |r.log| >= 1
    requires AppendOk(h, a) && a.term == r.currentTerm
    ensures Matches(r, a) <==> a.prevIndex < |x| && x[a.prevIndex].term == a.prevTerm
    ensures Matches(r, a) ==> Agree(x, h.led[a.term].log, a.prevIndex + 1)
  {
    hide Inv, RaftOk, AppendOk, LogIs, Rooted;
    Ends(r, x);
    AppendFact(h, a);
    SameTerm(h, i, r);
    CommittedInLeader(h, i, r, a.term);
    LogsRooted(h, i, a.term);
    var y := h.led[a.term].log;
    AgreeLess(x, y, r.commitIndex + 1, r.lastIncludeIndex + 1);
    if Matches(r, a) {
      CheckedAgree(h, r, a, x, y, a.term);
      AgreeLess(x, y, Max(a.prevIndex, r.lastIncludeIndex) + 1, a.prevIndex + 1);
    }
  }

  /** What is taken over is the paper's merge of the whole log. */
  lemma TakesWhole(h: History, i: nat, r: Raft, x: Log, a: AppendArgs)
    requires Inv(h) && RaftOk(h, i, r) && i < |h.srv| && x == h.srv[i].log && LogIs(r, x) && |r.log| >= 1
    requires AppendOk(h, a) && a.term == r.currentTerm && a.leader != i && Matches(r, a)
    ensures a.prevIndex < |x| && LogIs(Accepted(r, a), Merged(x, a.prevIndex, a.entries))
  {
    hide Inv, RaftOk, AppendOk, LogIs, Rooted, Matches, Accepted, TakeOver, Accept, Agree, Merged, MayAccept;
    ChecksWhole(h, i, r, x, a);
    Ends(r, x);
    SameTerm(h, i, r);
    RaftDisk(h, i, r);
    MayAcceptAppend(h, i, a);
    AcceptedLog(h, i, r, a);
    AcceptedFields(r, a);
    MergesAs(h, i, x, a);
    SameEnd(r.(log := TakeOver(r.log, r.lastIncludeIndex, a.prevIndex, a.entries)), Accepted(r, a), Merged(x, a.prevIndex, a.entries));
  }

  lemma MergesAs(h: History, i: nat, x: Log, a: AppendArgs)
    requires AppendOk(h, a) && i < |h.srv| && x == h.srv[i].log && h.srv[i].term == a.term && MayAccept(h, i, a.prevIndex + |a.entries| + 1)
    requires a.term in h.led && Agree(x, h.led[a.term].log, a.prevIndex + 1)
    ensures a.prevIndex < |x| && Accept(h, i, a.prevIndex + |a.entries| + 1).srv[i].log == Merged(x, a.prevIndex, a.entries)
  {
    hide AppendOk, Quotes, Agree;
    AppendFact(h, a);
    QuotedPrefix(x, h.led[a.term].log, a);
    SameMerge(h, i, x, a.prevIndex, a.entries, a.prevIndex + |a.entries| + 1);
  }

  lemma SameMerge(h: History, i: nat, x: Log, prev: nat, es: Log, n: nat)
    requires i < |h.srv| && x == h.srv[i].log && h.srv[i].term in h.led && prev < |x|
    requires n <= |h.led[h.srv[i].term].log| && h.led[h.srv[i].term].log[..n] == x[..prev + 1] + es
    ensures Accept(h, i, n).srv[i].log == Merged(x, prev, es)
  {
  }

  lemma QuotedPrefix(x: Log, y: Log, a: AppendArgs)
    requires Quotes(a, y) && Agree(x, y, a.prevIndex + 1)
    ensures a.prevIndex < |x| && y[..a.prevIndex + |a.entries| + 1] == x[..a.prevIndex + 1] + a.entries
  {
    var n := a.prevIndex + |a.entries| + 1;
    forall k | 0 <= k < n ensures y[..n][k] == (x[..a.prevIndex + 1] + a.entries)[k] {
    }
  }

  lemma HintsByRule(r: Raft, x: Log, a: AppendArgs)
    requires LogIs(r, x) && |r.log| >= 1 && !Matches(r, a)
    ensures HintRule(x, r.lastIncludeIndex, a, Rejection(r, a))
  {
    hide LogIs;
    Ends(r, x);
    if a.prevIndex <= r.LastIndex() {
      var lii := r.lastIncludeIndex;
      var q := RunStart(r.log, a.prevIndex - lii) + lii;
      forall k | q <= k <= a.prevIndex ensures x[k].term == x[a.prevIndex].term {
        assert r.EntryAt(k).term == x[k].term;
      }
      if q > lii {
        assert r.EntryAt(q - 1).term == x[q - 1].term;
      }
    }
  }

  /** A server takes a leader's entries, and commits, exactly by the rule on its whole log; and its
      refusals describe that log. */
  lemma AppendsByRule(n: nat, s: Sys, i: nat, a: AppendArgs) returns (h: History, x: Log, x': Log, reply: AppendReply)
    requires Reachable(n, s) && Enabled(s, Receive(AppendReq(i, a)))
    ensures WholeLog(s, h, i, x) && Answers(s, AppendReq(i, a), AppendResp(i, a, reply))
    ensures var (r, r') := (s.nodes[i].raft, Then(s, Receive(AppendReq(i, a)), i));
            && LogIs(r', x') && SameStore(r, r') && AppendRule(View(r, x), a, View(r', x'), reply)
            && (!reply.success && r.currentTerm <= a.term ==> HintRule(x, r.lastIncludeIndex, a, reply))
  {
    hide Reachable, Ok, Inv, RaftOk, LogIs, OnAppendEntries, AppendOk, MsgOk, Grows;
    h, x := Whole(n, s, i);
    var r := s.nodes[i].raft;
    reply := OnAppendEntries(r, a).1;
    x' := x;
    Ends(r, x);
    if a.term < r.currentTerm {
      AppendStale(r, x, a);
    } else {
      var h1 := InTerm(s, h, i, a.term);
      MsgFact(s, h, AppendReq(i, a));
      AppendReqFact(h, i, a);
      AppendFrame(h, h1, a);
      if Matches(Followed(r, a.term), a) {
        ChecksWhole(h1, i, Followed(r, a.term), x, a) by { SameEnd(r, Followed(r, a.term), x); }
        x' := Merged(x, a.prevIndex, a.entries);
      }
      AppendFresh(h1, i, r, x, a);
    }
  }

  lemma AppendStale(r: Raft, x: Log, a: AppendArgs)
    requires LogIs(r, x) && |r.log| >= 1 && a.term < r.currentTerm
    ensures var (r', reply) := OnAppendEntries(r, a); LogIs(r', x) && SameStore(r, r') && AppendRule(View(r, x), a, View(r', x), reply)
  {
    hide LogIs;
  }

  lemma AppendFresh(h: History, i: nat, r: Raft, x: Log, a: AppendArgs)
    requires LogIs(r, x) && |r.log| >= 1 && r.currentTerm <= a.term && r.InRange()
    requires Inv(h) && RaftOk(h, i, Followed(r, a.term)) && i < |h.srv| && x == h.srv[i].log && AppendOk(h, a) && a.leader != i
    ensures var (r', reply) := OnAppendEntries(r, a);
            && (reply.success ==> a.prevIndex < |x|)
            && var x' := if reply.success then Merged(x, a.prevIndex, a.entries) else x;
            && LogIs(r', x') && SameStore(r, r') && AppendRule(View(r, x), a, View(r', x'), reply)
            && (!reply.success ==> HintRule(x, r.lastIncludeIndex, a, reply))
  {
    hide Inv, RaftOk, LogIs, AppendOk, HintRule, TakeOver, Merged;
    var r1 := Followed(r, a.term);
    SameEnd(r, r1, x);
    ChecksWhole(h, i, r1, x, a);
    if Matches(r1, a) {
      TakesWhole(h, i, r1, x, a);
      RaftDisk(h, i, r1);
      AcceptedFields(r1, a);
    } else {
      HintsByRule(r1, x, a);
    }
  }

  // ---------- InstallSnapshot ----------

  /** A server takes a snapshot exactly if it reaches beyond what it knows to be committed; its log stays
      if it has the last entry that the snapshot covers, and else it ends there. The service gets it
      next, and all of it is committed and applied. */
  lemma InstallsByRule(n: nat, s: Sys, i: nat, a: InstallArgs) returns (h: History, x: Log, x': Log, reply: InstallReply)
    requires Reachable(n, s) && Enabled(s, Receive(InstallReq(i, a)))
    ensures WholeLog(s, h, i, x) && Answers(s, InstallReq(i, a), InstallResp(i, a, reply)) && a.term in h.led
    ensures var (r, r') := (s.nodes[i].raft, Then(s, Receive(InstallReq(i, a)), i));
            && LogIs(r', x') && InstallRule(View(r, x), a, h.led[a.term].log, View(r', x'), reply)
            && if r.currentTerm <= a.term && r.commitIndex < a.lastIndex then Replaced(r', a) else SameStore(r, r')
  {
    hide Reachable, Ok, Inv, RaftOk, LogIs, OnInstallSnapshot, InstallOk, MsgOk, Grows;
    h, x := Whole(n, s, i);
    var r := s.nodes[i].raft;
    reply := OnInstallSnapshot(r, a).1;
    Ends(r, x);
    MsgFact(s, h, InstallReq(i, a));
    InstallReqFact(h, i, a);
    var y := LedLog(h, a);
    x' := InstallLocal(r, x, a, y);
  }

  lemma LedLog(h: History, a: InstallArgs) returns (y: Log)
    requires InstallOk(h, a)
    ensures a.term in h.led && y == h.led[a.term].log && a.lastIndex < |y| && y[a.lastIndex].term == a.lastTerm && 1 <= a.lastIndex
  {
    y := h.led[a.term].log;
  }

  /** What taking a snapshot leaves in the store. */
  predicate Replaced(r': Raft, a: InstallArgs) {
    && r'.lastIncludeIndex == r'.applyIndex == r'.pendingIndex == a.lastIndex && r'.snapshot == r'.pendingSnapshot == a.data
    && r'.lastIncludeTerm == r'.pendingTerm == a.lastTerm
  }

  lemma InstallLocal(r: Raft, x: Log, a: InstallArgs, y: Log) returns (x': Log)
    requires LogIs(r, x) && |r.log| >= 1 && r.InRange() && a.lastIndex < |y| && y[a.lastIndex].term == a.lastTerm
    ensures var (r', reply) := OnInstallSnapshot(r, a);
            && LogIs(r', x') && InstallRule(View(r, x), a, y, View(r', x'), reply)
            && if r.currentTerm <= a.term && r.commitIndex < a.lastIndex then Replaced(r', a) else SameStore(r, r')
  {
    hide LogIs, InstallRule, Replaced, SameStore, Installed;
    x' := x;
    if r.currentTerm <= a.term && r.commitIndex < a.lastIndex {
      x' := InstallTaken(r, x, a, y);
    } else {
      InstallSkipped(r, x, a, y);
    }
  }

  lemma InstallSkipped(r: Raft, x: Log, a: InstallArgs, y: Log)
    requires LogIs(r, x) && |r.log| >= 1 && r.InRange() && a.lastIndex < |y| && y[a.lastIndex].term == a.lastTerm
    requires !(r.currentTerm <= a.term && r.commitIndex < a.lastIndex)
    ensures var (r', reply) := OnInstallSnapshot(r, a); LogIs(r', x) && InstallRule(View(r, x), a, y, View(r', x), reply) && SameStore(r, r')
  {
    hide LogIs, Installed;
    SameEnd(r, OnInstallSnapshot(r, a).0, x);
  }

  lemma InstallTaken(r: Raft, x: Log, a: InstallArgs, y: Log) returns (x': Log)
    requires LogIs(r, x) && |r.log| >= 1 && r.InRange() && a.lastIndex < |y| && y[a.lastIndex].term == a.lastTerm
    requires r.currentTerm <= a.term && r.commitIndex < a.lastIndex
    ensures var (r', reply) := OnInstallSnapshot(r, a);
            LogIs(r', x') && InstallRule(View(r, x), a, y, View(r', x'), reply) && Replaced(r', a)
  {
    hide LogIs, Installed, Replaced;
    var r1 := Followed(r, a.term);
    SameEnd(r, r1, x);
    x' := if a.lastIndex < |x| && x[a.lastIndex].term == a.lastTerm then x else y[..a.lastIndex + 1];
    InstalledLogIs(r1, x, a, y, x');
    InstalledFields(r1, a);
    assert OnInstallSnapshot(r, a) == (Installed(r1, a), InstallReply(a.term, true));
  }

  lemma InstalledLogIs(r: Raft, x: Log, a: InstallArgs, y: Log, x': Log)
    requires LogIs(r, x) && |r.log| >= 1 && r.lastIncludeIndex < a.lastIndex < |y| && y[a.lastIndex].term == a.lastTerm
    requires x' == if a.lastIndex < |x| && x[a.lastIndex].term == a.lastTerm then x else y[..a.lastIndex + 1]
    ensures LogIs(Installed(r, a), x')
  {
    hide LogIs, Installed;
    Ends(r, x);
    if a.lastIndex < |x| {
      assert r.EntryAt(a.lastIndex).term == x[a.lastIndex].term;
    }
    if a.lastIndex < |x| && x[a.lastIndex].term == a.lastTerm {
      KeptEnd(r, x, a);
    } else {
      CutEnd(r, y, a);
    }
  }

  lemma InstalledFields(r: Raft, a: InstallArgs)
    requires |r.log| >= 1 && a.lastIndex > r.lastIncludeIndex && r.applyIndex <= r.commitIndex < a.lastIndex
    ensures var r' := Installed(r, a);
            && Replaced(r', a)
            && r' == r.(log := r'.log, commitIndex := a.lastIndex, lastIncludeIndex := r'.lastIncludeIndex,
                        lastIncludeTerm := r'.lastIncludeTerm, snapshot := r'.snapshot, applyIndex := r'.applyIndex,
                        pendingSnapshot := r'.pendingSnapshot, pendingIndex := r'.pendingIndex,
                        pendingTerm := r'.pendingTerm, disk := r'.disk)
  {
  }

  lemma KeptEnd(r: Raft, x: Log, a: InstallArgs)
    requires LogIs(r, x) && |r.log| >= 1 && r.lastIncludeIndex < a.lastIndex <= r.LastIndex() && r.EntryAt(a.lastIndex).term == a.lastTerm
    ensures LogIs(Installed(r, a), x)
  {
  }

  lemma CutEnd(r: Raft, y: Log, a: InstallArgs)
    requires |r.log| >= 1 && r.lastIncludeIndex < a.lastIndex < |y| && y[a.lastIndex].term == a.lastTerm
    requires r.LastIndex() < a.lastIndex || r.EntryAt(a.lastIndex).term != a.lastTerm
    ensures LogIs(Installed(r, a), y[..a.lastIndex + 1])
  {
  }

  // ---------- The leader ----------

  /** The replicator of a peer sends entries of the whole log from nextIndex on, or, if they are cut off, the
      snapshot, which covers them. */
  lemma SendsByRule(n: nat, s: Sys, i: nat, peer: nat) returns (h: History, x: Log, m: Msg)
    requires Reachable(n, s) && Enabled(s, Replicate(i, peer))
    ensures WholeLog(s, h, i, x) && Apply(s, Replicate(i, peer)).net == s.net + {m} && Apply(s, Replicate(i, peer)).nodes == s.nodes
    ensures var r := s.nodes[i].raft;
            && peer < |r.nextIndex|
            && if r.nextIndex[peer] <= r.lastIncludeIndex
               then r.lastIncludeIndex < |x|
                    && m == InstallReq(peer, InstallArgs(r.currentTerm, i, r.lastIncludeIndex, x[r.lastIncludeIndex].term, r.snapshot))
               else m.AppendReq? && m.to == peer && RoundRule(View(r, x), peer, m.aa)
  {
    hide Reachable, Ok, Inv, RaftOk, LogIs;
    h, x := Whole(n, s, i);
    var r := s.nodes[i].raft;
    SameTerm(h, i, r);
    m := Sent(r, peer);
    RoundLocal(r, x, peer);
  }

  lemma RoundLocal(r: Raft, x: Log, peer: nat)
    requires LogIs(r, x) && r.InRange() && r.role == Leader && peer < |r.nextIndex|
    ensures r.lastIncludeIndex < |x| && x[r.lastIncludeIndex].term == r.lastIncludeTerm
    ensures match NextRound(r, peer)
            case SendInstall(_) => r.nextIndex[peer] <= r.lastIncludeIndex
            case SendAppend(a) => r.nextIndex[peer] > r.lastIncludeIndex && RoundRule(View(r, x), peer, a)
  {
    hide LogIs, NextRound;
    Ends(r, x);
    FirstTerm(r, x);
    Round0(r, peer);
    var next := r.nextIndex[peer];
    if next > r.lastIncludeIndex {
      var hi := Min(|x|, next + MAX_BATCH);
      var es := if r.LastIndex() >= next then r.log[next - r.lastIncludeIndex..hi - r.lastIncludeIndex] else [];
      assert es == x[next..hi] by { Batch(r, x, next, hi); }
      assert r.EntryAt(next - 1).term == x[next - 1].term;
      BuiltRound(r, peer, es, x[next - 1].term, hi);
    }
  }

  lemma Batch(r: Raft, x: Log, next: nat, hi: nat)
    requires LogIs(r, x) && r.lastIncludeIndex < next <= hi <= |x| && (next < |x| ==> next < hi)
    ensures x[next..hi] == if r.LastIndex() >= next && hi - r.lastIncludeIndex <= |r.log| then r.log[next - r.lastIncludeIndex..hi - r.lastIncludeIndex] else []
  {
    Slice(r, x, next, hi);
  }

  lemma BuiltRound(r: Raft, peer: nat, es: Log, prevTerm: nat, hi: nat)
    requires r.InRange() && r.role == Leader && peer < |r.nextIndex| && r.nextIndex[peer] > r.lastIncludeIndex
    requires hi == Min(r.LastIndex() + 1, r.nextIndex[peer] + MAX_BATCH) && prevTerm == r.EntryAt(r.nextIndex[peer] - 1).term
    requires es == if r.LastIndex() >= r.nextIndex[peer] then r.log[r.nextIndex[peer] - r.lastIncludeIndex..hi - r.lastIncludeIndex] else []
    ensures NextRound(r, peer) == SendAppend(AppendArgs(r.currentTerm, r.me, r.nextIndex[peer] - 1, prevTerm, es, r.commitIndex))
  {
  }

  lemma Round0(r: Raft, peer: nat)
    requires r.InRange() && r.role == Leader && peer < |r.nextIndex|
    ensures NextRound(r, peer).SendInstall? <==> r.nextIndex[peer] <= r.lastIncludeIndex
  {
  }

  lemma FirstTerm(r: Raft, x: Log)
    requires LogIs(r, x)
    ensures r.lastIncludeIndex < |x| && x[r.lastIncludeIndex].term == r.lastIncludeTerm
  {
  }

  lemma Slice(r: Raft, x: Log, lo: nat, hi: nat)
    requires LogIs(r, x) && r.lastIncludeIndex < lo <= hi <= |x|
    ensures hi - r.lastIncludeIndex <= |r.log| && r.log[lo - r.lastIncludeIndex..hi - r.lastIncludeIndex] == x[lo..hi]
  {
  }

  lemma StartsByRule(n: nat, s: Sys, i: nat, cmd: Command) returns (h: History, x: Log)
    requires Reachable(n, s) && Enabled(s, Propose(i, cmd))
    ensures WholeLog(s, h, i, x)
    ensures var (r, r') := (s.nodes[i].raft, Then(s, Propose(i, cmd), i));
            var x' := x + [Entry(r.currentTerm, cmd)];
            LogIs(r', x') && SameStore(r, r') && View(r', x') == View(r, x).(log := x')
  {
    hide Reachable, Ok, Inv, RaftOk;
    h, x := Whole(n, s, i);
  }

  // ---------- Replies ----------

  lemma HoldersHave(me: nat, matched: seq<int>, end: int, j: int)
    requires me < |matched| && j <= end
    ensures HalfHave(me, matched, j) <==> j <= MajorityIndex(matched[me := end])
  {
    var m := matched[me := end];
    assert (set q: nat | q < |matched| && (q == me || matched[q] >= j)) == Median.Holders(m, j);
    Median.MiddleIsLast(m, j);
  }

  /** The sorted middle commits what the rule says: along a log terms only grow. */
  lemma CommitsByRule(h: History, r: Raft, x: Log)
    requires LogIs(r, x) && r.InRange() && r.role == Leader && Rooted(h, x, r.currentTerm) && AllRooted(h)
    ensures AdvanceCommit(r) == r.(commitIndex := AdvanceCommit(r).commitIndex)
    ensures CommitRule(View(r, x), r.matchIndex, AdvanceCommit(r).commitIndex)
  {
    hide LogIs, MajorityIndex, HalfHave, Rooted, AllRooted;
    var p, commit := View(r, x), AdvanceCommit(r).commitIndex;
    var top := MajorityIndex(r.matchIndex[r.me := r.LastIndex()]);
    MajorityInRange(r);
    Ends(r, x);
    forall k: nat ensures k <= commit <==> k <= p.commit || UnderSettled(p, r.matchIndex, k) {
      if k <= commit && k > p.commit {
        HoldersHave(r.me, r.matchIndex, r.LastIndex(), top);
        assert r.EntryAt(top).term == x[top].term;
        assert Settled(p, r.matchIndex, top);
      } else if UnderSettled(p, r.matchIndex, k) && k > p.commit {
        var j :| k <= j && Settled(p, r.matchIndex, j);
        HoldersHave(r.me, r.matchIndex, r.LastIndex(), j);
        assert r.EntryAt(top).term == x[top].term;
        TopTerm(h, x, r.currentTerm, j, top);
      }
    }
  }

  lemma TopTerm(h: History, x: Log, t: nat, j: nat, k: nat)
    requires Rooted(h, x, t) && AllRooted(h) && 1 <= j <= k < |x| && x[j].term == t
    ensures x[k].term == t
  {
    TermsGrow(h, x, t, j, k);
    assert RootedAt(h, x, k, t);
  }

  lemma ConfirmsLocal(h: History, r: Raft, x: Log, peer: nat, upTo: nat)
    requires LogIs(r, x) && r.InRange() && r.role == Leader && Rooted(h, x, r.currentTerm) && AllRooted(h)
    requires peer < |r.nextIndex| && upTo <= r.LastIndex() && peer != r.me
    ensures LogIs(Matched(r, peer, upTo), x) && SameStore(r, Matched(r, peer, upTo))
    ensures ConfirmRule(View(r, x), peer, upTo, View(Matched(r, peer, upTo), x))
  {
    hide LogIs, MajorityIndex, Rooted, AllRooted, CommitRule, AdvanceCommit;
    var m := Max(upTo, r.matchIndex[peer]);
    var r1 := r.(matchIndex := r.matchIndex[peer := m], nextIndex := r.nextIndex[peer := m + 1]);
    SameEnd(r, r1, x);
    CommitsByRule(h, r1, x);
    SameEnd(r1, AdvanceCommit(r1), x);
    SameCommit(View(r, x), View(r1, x), r1.matchIndex, AdvanceCommit(r1).commitIndex);
  }

  lemma SameCommit(p: Paper, q: Paper, matched: seq<int>, commit: nat)
    requires CommitRule(q, matched, commit) && q.log == p.log && q.term == p.term && q.me == p.me && q.commit == p.commit
    ensures CommitRule(p, matched, commit)
  {
    forall k: nat ensures k <= commit <==> k <= p.commit || UnderSettled(p, matched, k) {
      assert k <= commit <==> k <= q.commit || UnderSettled(q, matched, k);
      if j :| k <= j && Settled(p, matched, j) { assert Settled(q, matched, j); }
      if j :| k <= j && Settled(q, matched, j) { assert Settled(p, matched, j); }
    }
  }

  lemma BacksLocal(r: Raft, x: Log, peer: nat, reply: AppendReply)
    requires LogIs(r, x) && r.InRange() && peer < |r.nextIndex|
    ensures BackRule(View(r, x), r.lastIncludeIndex, peer, reply, View(r.(nextIndex := r.nextIndex[peer := Backup(r, reply)]), x))
  {
    hide LogIs;
    Ends(r, x);
    var q := LastOfTerm(r.log, |r.log| - 1, reply.xTerm);
    var lii := r.lastIncludeIndex;
    var want := if reply.xTerm == -1 then reply.xLen else if q == -1 then reply.xIndex else q + lii + 1;
    forall k | lii < k < |x| ensures x[k].term == r.log[k - lii].term {
      assert r.EntryAt(k).term == x[k].term;
    }
    if q != -1 {
      assert x[q + lii].term == reply.xTerm;
    }
    assert GoesBackTo(x, lii, reply, want);
  }

  /** The leader counts confirmations, commits and goes back exactly by the rules on its whole log. */
  lemma AppendRepliesByRule(n: nat, s: Sys, from: nat, a: AppendArgs, reply: AppendReply) returns (h: History, x: Log)
    requires Reachable(n, s) && Enabled(s, Receive(AppendResp(from, a, reply)))
    ensures WholeLog(s, h, a.leader, x)
    ensures var (r, r') := (s.nodes[a.leader].raft, Then(s, Receive(AppendResp(from, a, reply)), a.leader));
            LogIs(r', x) && SameStore(r, r') && AppendReplyRule(View(r, x), r.lastIncludeIndex, from, a, reply, View(r', x))
  {
    hide Reachable, Ok, Inv, RaftOk, LogIs, MsgOk, Matched, Backup, ConfirmRule, BackRule;
    h, x := Whole(n, s, a.leader);
    var r := s.nodes[a.leader].raft;
    MsgFact(s, h, AppendResp(from, a, reply));
    AppendRespFact(h, from, a, reply);
    SameTerm(h, a.leader, r);
    SrvsRooted(h, a.leader);
    if r.role == Leader && r.currentTerm == a.term && reply.term <= r.currentTerm && reply.success {
      ConfirmsLocal(h, r, x, from, a.prevIndex + |a.entries|);
    } else {
      SameEnd(r, OnAppendReply(r, from, a, reply), x);
      BacksLocal(r, x, from, reply);
    }
  }

  lemma InstallRepliesByRule(n: nat, s: Sys, from: nat, a: InstallArgs, reply: InstallReply) returns (h: History, x: Log)
    requires Reachable(n, s) && Enabled(s, Receive(InstallResp(from, a, reply)))
    ensures WholeLog(s, h, a.leader, x)
    ensures var (r, r') := (s.nodes[a.leader].raft, Then(s, Receive(InstallResp(from, a, reply)), a.leader));
            LogIs(r', x) && SameStore(r, r') && InstallReplyRule(View(r, x), from, a, reply, View(r', x))
  {
    hide Reachable, Ok, Inv, RaftOk, LogIs, MsgOk, Matched, ConfirmRule;
    h, x := Whole(n, s, a.leader);
    var r := s.nodes[a.leader].raft;
    MsgFact(s, h, InstallResp(from, a, reply));
    InstallRespFact(h, from, a, reply);
    SameTerm(h, a.leader, r);
    SrvsRooted(h, a.leader);
    if r.role == Leader && r.currentTerm == a.term && reply.term <= r.currentTerm && reply.success {
      ConfirmsLocal(h, r, x, from, a.lastIndex);
    } else {
      SameEnd(r, OnInstallReply(r, from, a, reply), x);
    }
  }

  // ---------- Compaction and the service ----------

  /** The service's snapshot cuts the log at its index, if that is applied and not yet cut; nothing else
      changes, and the whole log least of all. */
  lemma SavesByRule(n: nat, s: Sys, i: nat) returns (h: History, x: Log)
    requires Reachable(n, s) && Enabled(s, Save(i))
    ensures WholeLog(s, h, i, x)
    ensures var (r, r', saved) := (s.nodes[i].raft, Then(s, Save(i), i), s.nodes[i].svc.saving.value);
            && LogIs(r', x) && View(r', x) == View(r, x)
            && if r.lastIncludeIndex < saved.0 <= r.applyIndex
               then saved.0 < |x| && r'.lastIncludeIndex == saved.0 && r'.lastIncludeTerm == x[saved.0].term && r'.snapshot == saved.1
               else r' == r
  {
    hide Reachable, Ok, Inv, RaftOk;
    h, x := Whole(n, s, i);
  }

  /** The applier takes a pending snapshot, or else every entry that is committed and not applied. */
  lemma WorksByRule(n: nat, s: Sys, i: nat) returns (h: History, x: Log)
    requires Reachable(n, s) && Enabled(s, Work(i))
    ensures WholeLog(s, h, i, x)
    ensures var (node, node') := (s.nodes[i], Apply(s, Work(i)).nodes[i]);
            var r, r' := node.raft, node'.raft;
            && LogIs(r', x) && View(r', x) == View(r, x) && r.applyIndex <= r.commitIndex < |x|
            && if r.pendingSnapshot != NoSnap
               then r'.applyIndex == r.applyIndex && r'.pendingSnapshot == NoSnap
                    && node'.outbox == [SnapshotMsg(r.pendingIndex, r.pendingTerm, r.pendingSnapshot)]
               else
                 && r'.applyIndex == r.commitIndex && |node'.outbox| == r.commitIndex - r.applyIndex
                 && forall k :: 0 <= k < |node'.outbox| ==>
                      node'.outbox[k] == CommandMsg(r.applyIndex + 1 + k, x[r.applyIndex + 1 + k].cmd)
  {
    hide Reachable, Ok, Inv, RaftOk;
    h, x := Whole(n, s, i);
  }

  /** A server that crashes, whenever it is, starts as a follower with the whole log, term and vote that it had; it
      knows to be committed, and its service has executed, just what the snapshot covers. */
  lemma RestartsByRule(n: nat, s: Sys, i: nat) returns (h: History, x: Log)
    requires Reachable(n, s) && i < |s.nodes|
    ensures WholeLog(s, h, i, x)
    ensures var (r, node') := (s.nodes[i].raft, Apply(s, Restart(i)).nodes[i]);
            var r', v := node'.raft, node'.svc;
            && LogIs(r', x) && r'.currentTerm == r.currentTerm && r'.votedFor == r.votedFor && r'.role == Follower
            && r'.me == r.me && r'.lastIncludeIndex == r.lastIncludeIndex && r'.snapshot == r.snapshot
            && r'.commitIndex == r'.applyIndex == v.pos == r.lastIncludeIndex < |x| && v.sm == Replay(x, v.pos + 1)
            && r'.pendingSnapshot == NoSnap && node'.outbox == [] && v.saving.None?
  {
    hide Reachable, Ok, Inv, RaftOk, NodeOk, ServiceOk, Replay, Boot, LogIs, Sealed, DiskOk;
    h, x := Whole(n, s, i);
    var r := s.nodes[i].raft;
    NodeFact(s, h, i);
    RaftDisk(h, i, r);
    SameTerm(h, i, r);
    Sentinel(h, i);
    BootNode(s.nodes[i], x, |s.nodes|);
    RaftSealed(h, i, r);
    SealedLess(h, x, r.commitIndex + 1, r.lastIncludeIndex + 1, r.currentTerm);
    BootRaft(h, i, r);
    var r' := Boot(i, |s.nodes|, r.disk);
    RaftLog(h, i, r');
    Booted(r, |s.nodes|);
    ReplayedTo(Node(r', {}, [], BootService(r')), x);
  }

  lemma Booted(r: Raft, n: nat)
    requires DiskOk(r) && |r.log| >= 1
    ensures var r' := Boot(r.me, n, r.disk);
            && r'.me == r.me && r'.currentTerm == r.currentTerm && r'.votedFor == r.votedFor && r'.role == Follower
            && r'.lastIncludeIndex == r.lastIncludeIndex == r'.commitIndex == r'.applyIndex
            && r'.snapshot == r.snapshot && r'.pendingSnapshot == NoSnap
  {
  }

  lemma ReplayedTo(node: Node, x: Log)
    requires ServiceOk(node, x)
    ensures node.svc.pos < |x| && node.svc.sm == Replay(x, node.svc.pos + 1)
  {
  }

  /** When neither the applier nor the reader has anything to do, the service has executed everything that the
      server knows to be committed: its state is that of the whole log up to there. */
  lemma RestsWhenDone(n: nat, s: Sys, i: nat) returns (h: History, x: Log)
    requires Reachable(n, s) && i < |s.nodes|
    requires !Enabled(s, Work(i)) && !Enabled(s, Consume(i, false)) && !Enabled(s, Save(i))
    ensures WholeLog(s, h, i, x)
    ensures var (r, v) := (s.nodes[i].raft, s.nodes[i].svc);
            && r.applyIndex == r.commitIndex == v.pos < |x| && v.sm == Replay(x, v.pos + 1)
            && r.pendingSnapshot == NoSnap && s.nodes[i].outbox == [] && v.saving.None?
  {
    hide Reachable, Ok, Inv, RaftOk, NodeOk, Replay;
    h, x := Whole(n, s, i);
    NodeFact(s, h, i);
  }
}
