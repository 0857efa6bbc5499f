/** Runs of three servers at whose end the documented lower bound of nextIndex does not hold: in one a
    snapshot overtakes a server, in the other a server's confirmation comes too late. */
module ClusterExample {
  import opened KvStore
  import opened RaftTypes
  import opened RaftState
  import opened Cluster
  import opened ClusterSafety

  const FIRST := Op(0, 1, Get(""))
  const SECOND := Op(0, 2, Get(""))
  const BOTH := [Entry(1, FIRST), Entry(1, SECOND)]

  function OnDisk(log: Log): Option<Disk> {
    Some(Disk(1, 0, log, 0, 0, NoSnap))
  }

  /** Server 0 leads in term 1. */
  function LeaderWith(log: Log, commit: nat, next: seq<int>, matched: seq<int>): Raft {
    Raft(0, 1, 0, Leader, 2, log, commit, 0, next, matched, 0, 0, NoSnap, NoSnap, 0, 0, OnDisk(log))
  }

  /** Server 1 has voted for it. */
  function FollowerWith(log: Log): Raft {
    Raft(1, 1, 0, Follower, 0, log, 0, 0, [0, 0, 0], [0, 0, 0], 0, 0, NoSnap, NoSnap, 0, 0, OnDisk(log))
  }

  const IDLE := Service(map[], 0, None, 0)

  lemma Next(s: Sys, step: Step) returns (s': Sys)
    requires Reachable(3, s) && Enabled(s, step)
    ensures Reachable(3, s') && s' == Apply(s, step)
  {
    hide Initial, Enabled, Apply;
    s' := Apply(s, step);
    assert Follows(s, s') by { assert Enabled(s, step) && s' == Apply(s, step); }
    var run := RunPrefix(3, s, s');
  }

  lemma Start() returns (s: Sys)
    ensures Reachable(3, s) && s == Initial(3)
  {
    s := Initial(3);
    assert IsRun(3, [s]);
    assert [s][|[s]| - 1] == s;
  }

  lemma Zeros()
    ensures seq(3, i => 0) == [0, 0, 0]
  {
  }

  lemma Elected() returns (s: Sys)
    ensures Reachable(3, s) && |s.nodes| == 3
    ensures s.nodes[0].raft == LeaderWith([SENTINEL], 0, [1, 1, 1], [0, 0, 0]) && s.nodes[1].raft == FollowerWith([SENTINEL])
    ensures s.nodes[2].raft == Boot(2, 3, None) && s.nodes[0].outbox == [] && s.nodes[0].svc == IDLE
  {
    hide Reachable;
    Zeros();
    var s0 := Start();
    var va := VoteArgs(1, 0, 0, 0);
    assert 1 in Others(3, 0);
    var s1 := Next(s0, Timeout(0));
    assert VoteReq(1, va) in s1.net;
    var s2 := Next(s1, Receive(VoteReq(1, va)));
    var yes := VoteReply(1, true);
    assert VoteResp(1, va, yes) in s2.net;
    s := Next(s2, Receive(VoteResp(1, va, yes)));
    assert s.nodes[0].raft.nextIndex == [1, 1, 1] && s.nodes[0].raft.matchIndex == [0, 0, 0];
  }

  lemma Proposed() returns (s: Sys)
    ensures Reachable(3, s) && |s.nodes| == 3
    ensures s.nodes[0].raft == LeaderWith([SENTINEL] + BOTH, 0, [1, 1, 1], [0, 0, 0])
    ensures s.nodes[1].raft == FollowerWith([SENTINEL]) && s.nodes[2].raft == Boot(2, 3, None)
    ensures s.nodes[0].outbox == [] && s.nodes[0].svc == IDLE
  {
    hide Reachable;
    var s0 := Elected();
    var s1 := Next(s0, Propose(0, FIRST));
    s := Next(s1, Propose(0, SECOND));
    assert s.nodes[0].raft.log == [SENTINEL] + BOTH;
  }

  lemma TakesBoth()
    ensures OnAppendEntries(FollowerWith([SENTINEL]), AppendArgs(1, 0, 0, 0, BOTH, 0))
            == (FollowerWith([SENTINEL] + BOTH), AppendReply(1, true, -1, -1, 1))
  {
    assert BOTH[0..] == BOTH;
  }

  lemma Replicated() returns (s: Sys)
    ensures Reachable(3, s) && |s.nodes| == 3
    ensures s.nodes[0].raft == LeaderWith([SENTINEL] + BOTH, 0, [1, 1, 1], [0, 0, 0])
    ensures s.nodes[1].raft == FollowerWith([SENTINEL] + BOTH) && s.nodes[2].raft == Boot(2, 3, None)
    ensures s.nodes[0].outbox == [] && s.nodes[0].svc == IDLE
    ensures AppendResp(1, AppendArgs(1, 0, 0, 0, BOTH, 0), AppendReply(1, true, -1, -1, 1)) in s.net
  {
    hide Reachable;
    var s0 := Proposed();
    var aa := AppendArgs(1, 0, 0, 0, BOTH, 0);
    assert ([SENTINEL] + BOTH)[1..3] == BOTH;
    var s1 := Next(s0, Replicate(0, 1));
    assert AppendReq(1, aa) in s1.net;
    hide OnAppendEntries;
    TakesBoth();
    s := Next(s1, Receive(AppendReq(1, aa)));
  }

  lemma Middle(x: int)
    requires x > 0
    ensures MajorityIndex([x, x, 0]) == x
  {
    var none: seq<int>, one: seq<int>, two: seq<int> := [], [0], [x, 0];
    assert one[1..] == none && two[1..] == one && [x, x, 0][1..] == two;
    assert SortInts(none) == none;
    assert SortInts(one) == [0];
    assert SortInts(two) == [0, x] by { assert InsertInt(x, one) == [0] + InsertInt(x, none); }
    assert InsertInt(x, [0, x]) == [0] + InsertInt(x, [x]) by { assert [0, x][1..] == [x]; }
    assert SortInts([x, x, 0]) == [0, x, x];
  }

  lemma Committed() returns (s: Sys)
    ensures Reachable(3, s) && |s.nodes| == 3
    ensures s.nodes[0].raft == LeaderWith([SENTINEL] + BOTH, 2, [1, 3, 1], [0, 2, 0])
    ensures s.nodes[0].outbox == [] && s.nodes[0].svc == IDLE
  {
    hide Reachable;
    var s0 := Replicated();
    Middle(2);
    s := Next(s0, Receive(AppendResp(1, AppendArgs(1, 0, 0, 0, BOTH, 0), AppendReply(1, true, -1, -1, 1))));
    assert [0, 0, 0][1 := 2][0 := 2] == [2, 2, 0];
    assert s.nodes[0].raft.matchIndex == [0, 2, 0] && s.nodes[0].raft.nextIndex == [1, 3, 1];
  }

  /** Two servers have the two entries, the leader has applied them, and its service takes a snapshot. */
  lemma Applied() returns (s: Sys)
    ensures Reachable(3, s) && |s.nodes| == 3
    ensures s.nodes[0].raft == LeaderWith([SENTINEL] + BOTH, 2, [1, 3, 1], [0, 2, 0]).(applyIndex := 2)
    ensures s.nodes[0].svc.saving == Some((2, Snap(map[])))
  {
    hide Reachable;
    var s0 := Committed();
    var s1 := Next(s0, Work(0));
    assert s1.nodes[0].outbox == [CommandMsg(1, FIRST), CommandMsg(2, SECOND)];
    var s2 := Next(s1, Consume(0, false));
    s := Next(s2, Consume(0, true));
  }

  /** The documented lower bound of nextIndex holds before the snapshot and not after it. */
  lemma SnapshotOvertakesPeer() returns (s: Sys, s': Sys)
    ensures Reachable(3, s) && Reachable(3, s') && Enabled(s, Save(0)) && s' == Apply(s, Save(0))
    ensures var r, r' := s.nodes[0].raft, s'.nodes[0].raft;
            && r.role == r'.role == Leader && |r.nextIndex| == |r'.nextIndex| == 3
            && r.lastIncludeIndex <= r.nextIndex[2] && r'.lastIncludeIndex > r'.nextIndex[2]
  {
    hide Reachable;
    s := Applied();
    s' := Next(s, Save(0));
  }

  // ---------- A confirmation that comes too late ----------

  const THIRD := Op(0, 3, Get(""))
  const FOURTH := Op(0, 4, Get(""))
  const LATER := [Entry(2, THIRD), Entry(2, FOURTH)]

  const OLD := [SENTINEL] + BOTH
  const FULL := OLD + LATER

  function DiskAt(term: nat, voted: int, log: Log, lii: nat, lit: nat, data: Snap): Option<Disk> {
    Some(Disk(term, voted, log, lii, lit, data))
  }

  /** Server 0 leads in term 2. */
  function LeaderAgain(log: Log, commit: nat, next: seq<int>, matched: seq<int>): Raft {
    Raft(0, 2, 0, Leader, 2, log, commit, 0, next, matched, 0, 0, NoSnap, NoSnap, 0, 0, DiskAt(2, 0, log, 0, 0, NoSnap))
  }

  /** Server 1 has voted for it, or server 2 has heard of it. */
  function FollowerAgain(me: nat, voted: int, log: Log): Raft {
    Raft(me, 2, voted, Follower, 0, log, 0, 0, [0, 0, 0], [0, 0, 0], 0, 0, NoSnap, NoSnap, 0, 0, DiskAt(2, voted, log, 0, 0, NoSnap))
  }

  lemma Reelected() returns (s: Sys)
    ensures Reachable(3, s) && |s.nodes| == 3
    ensures s.nodes[0].raft == LeaderAgain(OLD, 0, [3, 3, 3], [2, 0, 0]) && s.nodes[1].raft == FollowerAgain(1, 0, OLD)
    ensures s.nodes[2].raft == Boot(2, 3, None) && s.nodes[0].outbox == [] && s.nodes[0].svc == IDLE
  {
    hide Reachable;
    Zeros();
    var s0 := Replicated();
    var s1 := Next(s0, Restart(0));
    var va := VoteArgs(2, 0, 2, 1);
    assert 1 in Others(3, 0);
    var s2 := Next(s1, Timeout(0));
    assert VoteReq(1, va) in s2.net;
    var s3 := Next(s2, Receive(VoteReq(1, va)));
    var yes := VoteReply(2, true);
    assert VoteResp(1, va, yes) in s3.net;
    s := Next(s3, Receive(VoteResp(1, va, yes)));
    assert s.nodes[0].raft.nextIndex == [3, 3, 3] && s.nodes[0].raft.matchIndex == [2, 0, 0];
  }

  const PROBE := AppendArgs(2, 0, 2, 1, [], 0)
  const REFUSAL := AppendResp(2, PROBE, AppendReply(2, false, -1, -1, 1))

  /** Two probes have been refused by server 2, and the first refusal has arrived. */
  lemma Refused() returns (s: Sys)
    ensures Reachable(3, s) && |s.nodes| == 3
    ensures s.nodes[0].raft == LeaderAgain(OLD, 0, [3, 3, 1], [2, 0, 0]) && s.nodes[1].raft == FollowerAgain(1, 0, OLD)
    ensures s.nodes[2].raft == FollowerAgain(2, -1, [SENTINEL]) && s.nodes[0].outbox == [] && s.nodes[0].svc == IDLE
    ensures REFUSAL in s.net
  {
    hide Reachable;
    Zeros();
    var s0 := Reelected();
    var s1 := Next(s0, Replicate(0, 2));
    assert AppendReq(2, PROBE) in s1.net;
    var s2 := Next(s1, Replicate(0, 2));
    var s3 := Next(s2, Receive(AppendReq(2, PROBE)));
    var s4 := Next(s3, Receive(AppendReq(2, PROBE)));
    s := Next(s4, Receive(REFUSAL));
    assert s.nodes[0].raft.nextIndex == [3, 3, 1];
  }

  const CATCHUP := AppendResp(2, AppendArgs(2, 0, 0, 0, BOTH, 0), AppendReply(2, true, -1, -1, 1))

  /** Server 2 has the two entries, but its answer is late. */
  lemma CaughtUp() returns (s: Sys)
    ensures Reachable(3, s) && |s.nodes| == 3
    ensures s.nodes[0].raft == LeaderAgain(OLD, 0, [3, 3, 1], [2, 0, 0]) && s.nodes[1].raft == FollowerAgain(1, 0, OLD)
    ensures s.nodes[0].outbox == [] && s.nodes[0].svc == IDLE
    ensures REFUSAL in s.net && CATCHUP in s.net
  {
    hide Reachable;
    var s0 := Refused();
    var aa := AppendArgs(2, 0, 0, 0, BOTH, 0);
    assert OLD[1..3] == BOTH;
    var s1 := Next(s0, Replicate(0, 2));
    assert AppendReq(2, aa) in s1.net;
    s := Next(s1, Receive(AppendReq(2, aa)));
  }

  /** Two more entries are at servers 0 and 1. */
  lemma MoreReplicated() returns (s: Sys)
    ensures Reachable(3, s) && |s.nodes| == 3
    ensures s.nodes[0].raft == LeaderAgain(FULL, 0, [3, 3, 1], [2, 0, 0])
    ensures s.nodes[0].outbox == [] && s.nodes[0].svc == IDLE
    ensures REFUSAL in s.net && CATCHUP in s.net
    ensures AppendResp(1, AppendArgs(2, 0, 2, 1, LATER, 0), AppendReply(2, true, -1, -1, 3)) in s.net
  {
    hide Reachable;
    var s0 := CaughtUp();
    var aa := AppendArgs(2, 0, 2, 1, LATER, 0);
    var s1 := Next(s0, Propose(0, THIRD));
    var s2 := Next(s1, Propose(0, FOURTH));
    assert OLD + [Entry(2, THIRD)] + [Entry(2, FOURTH)] == FULL && FULL[3..5] == LATER;
    var s3 := Next(s2, Replicate(0, 1));
    assert AppendReq(1, aa) in s3.net;
    s := Next(s3, Receive(AppendReq(1, aa)));
  }

  lemma MoreCommitted() returns (s: Sys)
    ensures Reachable(3, s) && |s.nodes| == 3
    ensures s.nodes[0].raft == LeaderAgain(FULL, 4, [3, 5, 1], [2, 4, 0])
    ensures s.nodes[0].outbox == [] && s.nodes[0].svc == IDLE
    ensures REFUSAL in s.net && CATCHUP in s.net
  {
    hide Reachable;
    var s0 := MoreReplicated();
    Middle(4);
    s := Next(s0, Receive(AppendResp(1, AppendArgs(2, 0, 2, 1, LATER, 0), AppendReply(2, true, -1, -1, 3))));
    assert [2, 0, 0][1 := 4][0 := 4] == [4, 4, 0];
    assert s.nodes[0].raft.matchIndex == [2, 4, 0] && s.nodes[0].raft.nextIndex == [3, 5, 1];
  }

  /** Server 0 has compacted its log behind all four entries. */
  function Compacted(next: seq<int>): Raft {
    Raft(0, 2, 0, Leader, 2, [Entry(2, FOURTH)], 4, 4, next, [2, 4, 0], 4, 2, Snap(map[]), NoSnap, 0, 0,
         DiskAt(2, 0, [Entry(2, FOURTH)], 4, 2, Snap(map[])))
  }

  lemma MoreCompacted() returns (s: Sys)
    ensures Reachable(3, s) && |s.nodes| == 3
    ensures s.nodes[0].raft == Compacted([3, 5, 1])
    ensures REFUSAL in s.net && CATCHUP in s.net
  {
    hide Reachable;
    var s0 := MoreCommitted();
    var s1 := Next(s0, Work(0));
    assert s1.nodes[0].outbox == [CommandMsg(1, FIRST), CommandMsg(2, SECOND), CommandMsg(3, THIRD), CommandMsg(4, FOURTH)];
    var s2 := Next(s1, Consume(0, false));
    var s3 := Next(s2, Consume(0, false));
    var s4 := Next(s3, Consume(0, false));
    var s5 := Next(s4, Consume(0, true));
    s := Next(s5, Save(0));
    assert FULL[4..] == [Entry(2, FOURTH)];
  }

  /** The second refusal lifts nextIndex to the snapshot; the late confirmation takes it back below. */
  lemma ConfirmationTooLate() returns (s: Sys, s': Sys)
    ensures Reachable(3, s) && Reachable(3, s') && Enabled(s, Receive(CATCHUP)) && s' == Apply(s, Receive(CATCHUP))
    ensures var r, r' := s.nodes[0].raft, s'.nodes[0].raft;
            && r.role == r'.role == Leader && |r.nextIndex| == |r'.nextIndex| == 3
            && r.lastIncludeIndex == r'.lastIncludeIndex == r.nextIndex[2] == 4 && r'.nextIndex[2] == 3
  {
    hide Reachable;
    var s0 := MoreCompacted();
    s := Next(s0, Receive(REFUSAL));
    s' := Next(s, Receive(CATCHUP));
  }
}
