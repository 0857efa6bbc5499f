/** The theorems about runs of a cluster: each holds for every number of servers and every run. */
module ClusterSafety {
  import opened KvStore
  import opened RaftTypes
  import opened RaftState
  import opened LogHistory
  import opened Quorum
  import opened Cluster
  import opened ClusterInv
  import opened ClusterSteps
  import opened ClusterLogs
  import opened ClusterInstall
  import opened ClusterLeader
  import opened ClusterService

  // ---------- Every step refines the history ----------

  lemma ReceiveStep(s: Sys, h: History, m: Msg) returns (h': History)
    requires Ok(s, h) && Enabled(s, Receive(m))
    ensures Ok(Apply(s, Receive(m)), h') && Grows(h, h')
  {
    hide Ok, MsgOk, Grows, OnRequestVote, OnAppendEntries, OnInstallSnapshot, OnAppendReply, OnInstallReply, OnVoteReply;
    MsgFact(s, h, m);
    match m {
      case VoteReq(to, va) => h' := VoteReqStep(s, h, to, va);
      case VoteResp(from, va, vr) => h' := VoteRespStep(s, h, from, va, vr);
      case AppendReq(to, aa) => h' := AppendReqStep(s, h, to, aa);
      case AppendResp(from, aa, ar) => h' := AppendRespStep(s, h, from, aa, ar);
      case InstallReq(to, ia) => h' := InstallReqStep(s, h, to, ia);
      case InstallResp(from, ia, ir) => h' := InstallRespStep(s, h, from, ia, ir);
    }
  }

  /** One step of the cluster is matched by a history that only grows. */
  lemma Simulate(s: Sys, h: History, step: Step) returns (h': History)
    requires Ok(s, h) && Enabled(s, step)
    ensures Ok(Apply(s, step), h') && Grows(h, h')
  {
    hide Ok, Grows, Handle, Inv, Moves;
    InvOf(s, h);
    StayMoves(h, 0);
    MovesGrows(h, h, 0);
    h' := h;
    match step {
      case Timeout(i) =>
        h' := Stand(h, i);
        TimeoutStep(s, h, i);
        MovesGrows(h, h', i);
      case Receive(m) => h' := ReceiveStep(s, h, m);
      case Replicate(i, peer) => ReplicateStep(s, h, i, peer);
      case Propose(i, cmd) => h' := ProposeStep(s, h, i, cmd);
      case Work(i) => WorkStep(s, h, i);
      case Consume(i, save) => ConsumeStep(s, h, i, save);
      case Save(i) => SaveStep(s, h, i);
      case Restart(i) => RestartStep(s, h, i);
    }
  }

  function Birth(n: nat): History {
    History(n, seq(n, i => Srv(0, [SENTINEL])), map[], map[], map[], map[])
  }

  lemma BirthInv(n: nat)
    ensures Inv(Birth(n))
  {
  }

  lemma InitialOk(n: nat)
    ensures Ok(Initial(n), Birth(n))
  {
    BirthInv(n);
    forall i | 0 <= i < n ensures NodeOk(Birth(n), i, Initial(n).nodes[i]) {
      InitialNode(n, i);
    }
  }

  lemma InitialNode(n: nat, i: nat)
    requires i < n
    ensures NodeOk(Birth(n), i, Initial(n).nodes[i])
  {
    assert Replay([SENTINEL], 1) == Replay([SENTINEL], 0);
  }

  /** Every state of a run has a history, and the one of the last state includes them all. */
  lemma {:induction false} RunHistory(n: nat, run: seq<Sys>) returns (hs: seq<History>)
    requires IsRun(n, run)
    ensures |hs| == |run|
    ensures forall k :: 0 <= k < |run| ==> Ok(run[k], hs[k]) && Grows(hs[k], hs[|hs| - 1])
  {
    hide Ok, Grows, Initial, Inv;
    if |run| == 1 {
      InitialOk(n);
      hs := [Birth(n)];
      InvOf(run[0], hs[0]);
      StayMoves(hs[0], 0);
      MovesGrows(hs[0], hs[0], 0);
    } else {
      var before := run[..|run| - 1];
      assert IsRun(n, before) by {
        forall k | 0 <= k < |before| - 1 ensures Follows(before[k], before[k + 1]) {
          assert Follows(run[k], run[k + 1]);
        }
      }
      var hs0 := RunHistory(n, before);
      assert Follows(run[|run| - 2], run[|run| - 2 + 1]);
      var h' := SimulateStep(run[|run| - 2], hs0[|hs0| - 1], run[|run| - 1]);
      hs := hs0 + [h'];
      forall k | 0 <= k < |run| ensures Grows(hs[k], h') {
        if k < |hs0| { GrowsTwice(hs0[k], hs0[|hs0| - 1], h'); }
      }
    }
  }

  lemma SimulateStep(s: Sys, h: History, s': Sys) returns (h': History)
    requires Ok(s, h) && Follows(s, s')
    ensures Ok(s', h') && Grows(h, h') && Grows(h', h')
  {
    hide Ok, Grows, Inv;
    var step :| Enabled(s, step) && s' == Apply(s, step);
    h' := Simulate(s, h, step);
    InvOf(s', h');
    StayMoves(h', 0);
    MovesGrows(h', h', 0);
  }

  /** `s` can be reached. */
  ghost predicate Reachable(n: nat, s: Sys) {
    exists run :: IsRun(n, run) && run[|run| - 1] == s
  }

  lemma ReachableOk(n: nat, s: Sys) returns (h: History)
    requires Reachable(n, s)
    ensures Ok(s, h) && h.n == n
  {
    hide Ok, Grows, Initial;
    var run :| IsRun(n, run) && run[|run| - 1] == s;
    var hs := RunHistory(n, run);
    h := hs[|hs| - 1];
    RunSize(n, run);
    InvOf(s, h);
  }

  lemma {:induction false} RunSize(n: nat, run: seq<Sys>)
    requires IsRun(n, run)
    ensures forall k :: 0 <= k < |run| ==> |run[k].nodes| == n
  {
    if |run| > 1 {
      var before := run[..|run| - 1];
      forall k | 0 <= k < |before| - 1 ensures Follows(before[k], before[k + 1]) {
        assert Follows(run[k], run[k + 1]);
      }
      RunSize(n, before);
      StepSize(run[|run| - 2], run[|run| - 2 + 1]);
    }
  }

  lemma StepSize(s: Sys, s': Sys)
    requires Follows(s, s')
    ensures |s'.nodes| == |s.nodes|
  {
  }

  // ---------- State Machine Safety ----------

  /** One log d that explains a server: the entries it knows to be committed and still has are
      those of d, its service has executed a prefix of d, and its snapshot is a prefix of d. */
  ghost predicate Explained(node: Node, d: Log) {
    var r, v := node.raft, node.svc;
    && r.lastIncludeIndex <= r.commitIndex <= r.LastIndex() && r.commitIndex < |d|
    && r.log[0].term == d[r.lastIncludeIndex].term
    && (forall k :: r.lastIncludeIndex < k <= r.commitIndex ==> r.EntryAt(k) == d[k])
    && v.pos <= r.commitIndex && v.sm == Replay(d, v.pos + 1)
    && (r.snapshot != NoSnap ==> r.snapshot == Snap(Replay(d, r.lastIncludeIndex + 1)))
  }

  /** It also explains every command that a service ever executed, at its index. */
  ghost predicate Explains(s: Sys, d: Log) {
    && (forall i {:trigger s.nodes[i]} :: 0 <= i < |s.nodes| ==> Explained(s.nodes[i], d))
    && (forall a :: a in s.applied ==> a.index < |d| && d[a.index].cmd == a.cmd)
  }

  /** The log of the latest leader. */
  ghost function LastTermOf(ts: set<nat>): (t: nat)
    ensures ts != {} ==> t in ts && forall u :: u in ts ==> u <= t
  {
    if ts == {} then 0
    else
      var x :| x in ts;
      var y := LastTermOf(ts - {x});
      assert forall u :: u in ts ==> u == x || u in ts - {x};
      if ts - {x} == {} || x > y then x else y
  }

  ghost function Decided(h: History): Log {
    var t := LastTermOf(h.led.Keys);
    if t in h.led then h.led[t].log else [SENTINEL]
  }

  /** Every sealed prefix, of any time, is a prefix of the latest leader's log. */
  lemma SealedDecided(h: History, x: Log, k: nat, hi: nat)
    requires Inv(h) && Sealed(h, x, k, hi) && 1 <= k && |x| >= 1 && x[0] == SENTINEL
    ensures Agree(x, Decided(h), k)
  {
    var u := LastTermOf(h.led.Keys);
    if k > 1 {
      var t: nat, n: nat :| t <= hi && k <= n + 1 && Committed(h, t, n) && Agree(x, h.led[t].log, k);
      assert t in h.led.Keys;
      SealedInLeader(h, x, k, t, u);
    } else if u in h.led {
      assert Rooted(h, h.led[u].log, u);
    }
  }

  lemma ExplainNode(h: History, h': History, i: nat, node: Node)
    requires Inv(h) && NodeOk(h, i, node) && Grows(h, h') && Inv(h')
    ensures Explained(node, Decided(h'))
  {
    hide Inv, NodeOk, RaftOk, ServiceOk, Sealed, Decided, Grows;
    var r := node.raft;
    NodeParts(h, i, node);
    RaftLog(h, i, r);
    Sentinel(h, i);
    RaftSealed(h, i, r);
    var x := h.srv[i].log;
    SealedGrows(h, h', x, r.commitIndex + 1, h.srv[i].term, x, h.srv[i].term);
    SealedDecided(h', x, r.commitIndex + 1, h.srv[i].term);
    ExplainService(node, x, Decided(h'));
    forall k | r.lastIncludeIndex < k <= r.commitIndex ensures r.EntryAt(k) == Decided(h')[k] {
      EntryFact(r, x, k);
    }
  }

  lemma ExplainService(node: Node, x: Log, d: Log)
    requires ServiceOk(node, x) && node.raft.InRange() && Agree(x, d, node.raft.commitIndex + 1)
    ensures node.svc.pos <= node.raft.commitIndex && node.svc.sm == Replay(d, node.svc.pos + 1)
    ensures node.raft.snapshot != NoSnap ==> node.raft.snapshot == Snap(Replay(d, node.raft.lastIncludeIndex + 1))
  {
    ReplaySame(x, d, node.raft.commitIndex + 1);
  }

  lemma ExplainApplied(h: History, a: Applied)
    requires Inv(h) && AppliedOk(h, a)
    ensures a.index < |Decided(h)| && Decided(h)[a.index].cmd == a.cmd
  {
    var t: nat, n: nat :| Committed(h, t, n) && a.index <= n && h.led[t].log[a.index].cmd == a.cmd;
    assert t in h.led.Keys;
    LeaderCompleteness(h, t, n, LastTermOf(h.led.Keys));
  }

  /** State Machine Safety, with compaction, crashes and lost, delayed, reordered and repeated
      messages: one log explains what all servers committed, executed and snapshotted at all
      times of the run. */
  lemma StateMachineSafety(n: nat, run: seq<Sys>) returns (d: Log)
    requires IsRun(n, run)
    ensures forall k :: 0 <= k < |run| ==> Explains(run[k], d)
  {
    hide Ok, Grows, Initial, Inv, Decided, Explained, AppliedOk, NodeOk;
    var hs := RunHistory(n, run);
    var h := hs[|hs| - 1];
    InvOf(run[|run| - 1], h);
    d := Decided(h);
    forall k | 0 <= k < |run| ensures Explains(run[k], d) {
      InvOf(run[k], hs[k]);
      forall i | 0 <= i < |run[k].nodes| ensures Explained(run[k].nodes[i], d) {
        NodeFact(run[k], hs[k], i);
        ExplainNode(hs[k], h, i, run[k].nodes[i]);
      }
      forall a | a in run[k].applied ensures a.index < |d| && d[a.index].cmd == a.cmd {
        AppliedFact(run[k], hs[k], a);
        AppliedFrame(hs[k], h, a);
        ExplainApplied(h, a);
      }
    }
  }

  lemma AppliedFact(s: Sys, h: History, a: Applied)
    requires Ok(s, h) && a in s.applied
    ensures AppliedOk(h, a)
  {
    assert AppliedOk(h, a);
  }

  ghost predicate SameCommands(s: Sys, s': Sys) {
    forall a, b :: a in s.applied && b in s'.applied && a.index == b.index ==> a.cmd == b.cmd
  }

  ghost predicate SameStates(s: Sys, s': Sys) {
    forall a, b :: 0 <= a < |s.nodes| && 0 <= b < |s'.nodes| && s.nodes[a].svc.pos == s'.nodes[b].svc.pos ==>
      s.nodes[a].svc.sm == s'.nodes[b].svc.sm
  }

  /** In particular no two servers ever execute different commands at the same index, and
      services that have got equally far are in the same state, whenever they were. */
  lemma SameCommandsSameStates(n: nat, run: seq<Sys>)
    requires IsRun(n, run)
    ensures forall j, k :: 0 <= j < |run| && 0 <= k < |run| ==> SameCommands(run[j], run[k]) && SameStates(run[j], run[k])
  {
    hide IsRun;
    var d := StateMachineSafety(n, run);
    forall j, k | 0 <= j < |run| && 0 <= k < |run| ensures SameCommands(run[j], run[k]) && SameStates(run[j], run[k]) {
      assert Explains(run[j], d) && Explains(run[k], d);
      forall a, b | 0 <= a < |run[j].nodes| && 0 <= b < |run[k].nodes|
        && run[j].nodes[a].svc.pos == run[k].nodes[b].svc.pos
        ensures run[j].nodes[a].svc.sm == run[k].nodes[b].svc.sm
      {
        assert Explained(run[j].nodes[a], d) && Explained(run[k].nodes[b], d);
      }
    }
  }

  // ---------- Elections ----------

  lemma LeaderInHistory(h: History, h': History, i: nat, node: Node)
    requires NodeOk(h, i, node) && node.raft.role == Leader && Grows(h, h')
    ensures node.raft.currentTerm in h'.led && h'.led[node.raft.currentTerm].leader == i
  {
    assert ReignGrows(h.led[node.raft.currentTerm], h'.led[node.raft.currentTerm], node.raft.currentTerm);
  }

  /** Election Safety: in a whole run, a term has at most one leader. */
  lemma OneLeaderPerTerm(n: nat, run: seq<Sys>, j: nat, k: nat, a: nat, b: nat)
    requires IsRun(n, run) && j < |run| && k < |run| && a < |run[j].nodes| && b < |run[k].nodes|
    requires run[j].nodes[a].raft.role == Leader && run[k].nodes[b].raft.role == Leader
    requires run[j].nodes[a].raft.currentTerm == run[k].nodes[b].raft.currentTerm
    ensures a == b
  {
    hide IsRun, Ok, Grows, NodeOk;
    var hs := RunHistory(n, run);
    var h := hs[|hs| - 1];
    NodeFact(run[j], hs[j], a);
    NodeFact(run[k], hs[k], b);
    LeaderInHistory(hs[j], h, a, run[j].nodes[a]);
    LeaderInHistory(hs[k], h, b, run[k].nodes[b]);
  }

  // ---------- Logs ----------

  /** Log Matching over compacted logs: if two servers have entries of the same term at index i,
      then all entries up to i that both still have are the same; terms never decrease along a
      log; and the entry at lastIncludeIndex keeps its term. */
  lemma LogsMatch(n: nat, s: Sys, a: nat, b: nat, i: int)
    requires Reachable(n, s) && a < |s.nodes| && b < |s.nodes|
    requires var r, q := s.nodes[a].raft, s.nodes[b].raft;
             && r.lastIncludeIndex <= i <= r.LastIndex() && q.lastIncludeIndex <= i <= q.LastIndex()
             && r.EntryAt(i).term == q.EntryAt(i).term
    ensures var r, q := s.nodes[a].raft, s.nodes[b].raft;
            && (forall k :: r.lastIncludeIndex < k <= i && q.lastIncludeIndex < k ==> r.EntryAt(k) == q.EntryAt(k))
            && (forall j, k :: 0 <= j <= k < |r.log| ==> r.log[j].term <= r.log[k].term)
            && r.log[0].term == r.lastIncludeTerm
  {
    hide Ok, Inv, RaftOk, NodeOk, ServiceOk, Rooted;
    var h := ReachableOk(n, s);
    InvOf(s, h);
    NodeFact(s, h, a);
    NodeFact(s, h, b);
    var r, q := s.nodes[a].raft, s.nodes[b].raft;
    RaftLog(h, a, r);
    RaftLog(h, b, q);
    SrvsRooted(h, a);
    SrvsRooted(h, b);
    var x, y := h.srv[a].log, h.srv[b].log;
    LogMatching(h, x, y, h.srv[a].term, h.srv[b].term, i);
    forall j, k | 0 <= j <= k < |r.log| ensures r.log[j].term <= r.log[k].term {
      TermsGrow(h, x, h.srv[a].term, r.lastIncludeIndex + j, r.lastIncludeIndex + k);
    }
  }

  lemma SrvsRooted(h: History, i: nat)
    requires Inv(h) && i < |h.srv|
    ensures Rooted(h, h.srv[i].log, h.srv[i].term) && AllRooted(h)
  {
  }

  /** Leader Completeness: what a server knew to be committed is in the log, or under the
      snapshot, of every leader that comes later in the run and has at least its term. */
  lemma LeadersHaveCommitted(n: nat, run: seq<Sys>, j: nat, k: nat, a: nat, b: nat)
    requires IsRun(n, run) && j <= k < |run| && a < |run[j].nodes| && b < |run[k].nodes|
    requires run[k].nodes[b].raft.role == Leader
    requires run[j].nodes[a].raft.currentTerm <= run[k].nodes[b].raft.currentTerm
    ensures var r, l := run[j].nodes[a].raft, run[k].nodes[b].raft;
            && r.commitIndex <= r.LastIndex() && r.commitIndex <= l.LastIndex()
            && forall i :: r.lastIncludeIndex < i <= r.commitIndex && l.lastIncludeIndex < i ==> l.EntryAt(i) == r.EntryAt(i)
  {
    hide Ok, Grows, Initial, Inv, RaftOk, NodeOk, ServiceOk, Sealed, LogIs;
    var upTo := run[..k + 1];
    assert IsRun(n, upTo) by {
      forall m | 0 <= m < |upTo| - 1 ensures Follows(upTo[m], upTo[m + 1]) {
        assert Follows(run[m], run[m + 1]);
      }
    }
    var hs := RunHistory(n, upTo);
    var g, h := hs[j], hs[k];
    assert upTo[j] == run[j] && upTo[k] == run[k];
    InvOf(run[j], g);
    InvOf(run[k], h);
    NodeFact(run[j], g, a);
    NodeFact(run[k], h, b);
    CommitReachesLeader(g, h, a, b, run[j].nodes[a].raft, run[k].nodes[b].raft);
  }

  lemma CommitReachesLeader(g: History, h: History, a: nat, b: nat, r: Raft, l: Raft)
    requires Inv(g) && Inv(h) && Grows(g, h) && RaftOk(g, a, r) && RaftOk(h, b, l)
    requires l.role == Leader && r.currentTerm <= l.currentTerm
    ensures r.commitIndex <= r.LastIndex() && r.commitIndex <= l.LastIndex()
    ensures forall i :: r.lastIncludeIndex < i <= r.commitIndex && l.lastIncludeIndex < i ==> l.EntryAt(i) == r.EntryAt(i)
  {
    hide Inv, RaftOk, Sealed, Grows, LogIs;
    RaftLog(g, a, r);
    RaftSealed(g, a, r);
    SameTerm(g, a, r);
    Sentinel(g, a);
    RaftLog(h, b, l);
    OwnReign(h, b, l);
    var x, y := g.srv[a].log, h.srv[b].log;
    SealedGrows(g, h, x, r.commitIndex + 1, r.currentTerm, x, r.currentTerm);
    SealedInLeader(h, x, r.commitIndex + 1, r.currentTerm, l.currentTerm);
    forall i | r.lastIncludeIndex < i <= r.commitIndex && l.lastIncludeIndex < i ensures l.EntryAt(i) == r.EntryAt(i) {
      EntryFact(r, x, i);
      EntryFact(l, y, i);
    }
  }

  // ---------- Index arithmetic ----------

  lemma ReplyInBounds(s: Sys, h: History, m: Msg)
    requires Ok(s, h) && m in s.net && (m.AppendResp? || m.InstallResp?)
    ensures Receiver(m) < |s.nodes| && m.from < h.n && ReplyFits(s.nodes[Receiver(m)].raft, m)
  {
    hide Ok, Inv, RaftOk;
    InvOf(s, h);
    MsgFact(s, h, m);
    SenderExists(h, m);
    var r := s.nodes[Receiver(m)].raft;
    NodeFact(s, h, Receiver(m));
    if r.role == Leader {
      OwnReign(h, Receiver(m), r);
    }
  }

  lemma SenderExists(h: History, m: Msg)
    requires Inv(h) && MsgOk(h, m)
    ensures Receiver(m) < h.n
    ensures m.AppendResp? ==>
              m.from < h.n && m.aa.term in h.led && m.aa.prevIndex + |m.aa.entries| < |h.led[m.aa.term].log|
    ensures m.InstallResp? ==>
              m.from < h.n && m.ia.term in h.led && m.ia.lastIndex < |h.led[m.ia.term].log|
  {
    match m
    case AppendResp(_, aa, _) => assert ReignShape(h, aa.term);
    case InstallResp(_, ia, _) => assert ReignShape(h, ia.term);
    case _ =>
  }

  /** No step that the program can take in a reachable state indexes outside a log or addresses
      a server that does not exist; on the way, lastIncludeIndex <= applyIndex <= commitIndex <=
      lastIndex() and, for a leader, 1 <= nextIndex <= lastIndex() + 1 and matchIndex <= lastIndex(). */
  lemma NeverOutOfBounds(n: nat, s: Sys)
    requires Reachable(n, s)
    ensures |s.nodes| == n && forall i :: 0 <= i < n ==> s.nodes[i].raft.InRange()
    ensures forall step :: Offered(s, step) ==> InBounds(s, step)
  {
    hide Ok, Inv, RaftOk, NodeOk, ServiceOk, MsgOk;
    var h := ReachableOk(n, s);
    InvOf(s, h);
    forall i | 0 <= i < n ensures s.nodes[i].raft.InRange() && |s.nodes[i].raft.nextIndex| == n {
      NodeFact(s, h, i);
      SameTerm(h, i, s.nodes[i].raft);
    }
    forall step | Offered(s, step) ensures InBounds(s, step) {
      if step.Receive? {
        MsgFact(s, h, step.m);
        SenderExists(h, step.m);
        if step.m.AppendResp? || step.m.InstallResp? {
          ReplyInBounds(s, h, step.m);
        }
      }
    }
  }

  /** The documented lower bound of a leader's nextIndex. */
  predicate Bounded(r: Raft, p: nat) {
    r.role == Leader && p < |r.nextIndex| ==> r.lastIncludeIndex <= r.nextIndex[p]
  }

  /** The service of leader i hands over a snapshot that reaches beyond what it will send to p next. */
  predicate SnapshotOvertakes(s: Sys, step: Step, i: nat, p: nat)
    requires i < |s.nodes|
  {
    var r := s.nodes[i].raft;
    && step == Save(i) && r.role == Leader && s.nodes[i].svc.saving.Some? && p < |r.nextIndex|
    && r.nextIndex[p] < s.nodes[i].svc.saving.value.0 <= r.applyIndex
  }

  /** The message tells the leader, in its present term, that p has its entries up to this index. */
  function ConfirmedUpTo(r: Raft, m: Msg, p: nat): Option<nat> {
    match m
    case AppendResp(from, aa, ar) =>
      if from == p && r.role == Leader && aa.term == r.currentTerm && ar.term <= r.currentTerm && ar.success
      then Some(aa.prevIndex + |aa.entries|) else None
    case InstallResp(from, ia, ir) =>
      if from == p && r.role == Leader && ia.term == r.currentTerm && ir.term <= r.currentTerm && ir.success
      then Some(ia.lastIndex) else None
    case _ => None
  }

  /** Leader i hears what p confirmed so late that it has compacted its log beyond that and beyond
      everything that p had confirmed before. */
  predicate ConfirmsTooLate(s: Sys, step: Step, i: nat, p: nat)
    requires i < |s.nodes|
  {
    var r := s.nodes[i].raft;
    && step.Receive? && Receiver(step.m) == i && p < |r.matchIndex|
    && var matched := ConfirmedUpTo(r, step.m, p);
    matched.Some? && Max(matched.value, r.matchIndex[p]) + 1 < r.lastIncludeIndex
  }

  lemma HandleBound(node: Node, m: Msg, p: nat)
    requires node.raft.InRange() && ReplyFits(node.raft, m) && Bounded(node.raft, p)
    requires m.AppendResp? || m.InstallResp? ==> m.from < |node.raft.nextIndex|
    ensures var (r, r') := (node.raft, Handle(node, m).0.raft);
            var matched := ConfirmedUpTo(r, m, p);
            !Bounded(r', p) <==> p < |r.matchIndex| && matched.Some? && Max(matched.value, r.matchIndex[p]) + 1 < r.lastIncludeIndex
  {
  }

  /** From every reachable state where lastIncludeIndex <= nextIndex[p] holds, every step keeps it with
      exactly two exceptions: a local snapshot that overtakes the peer, and a confirmation that comes
      too late. (The bound that accesses rely on is 1.) */
  lemma NextIndexBoundIff(n: nat, s: Sys, step: Step, i: nat, p: nat)
    requires Reachable(n, s) && Enabled(s, step) && i < |s.nodes| && Bounded(s.nodes[i].raft, p)
    ensures Bounded(Apply(s, step).nodes[i].raft, p) <==> !SnapshotOvertakes(s, step, i, p) && !ConfirmsTooLate(s, step, i, p)
  {
    hide Reachable, Handle, NextRound, ConfirmedUpTo;
    NeverOutOfBounds(n, s);
    if step.Receive? && Receiver(step.m) == i {
      HandleBound(s.nodes[i], step.m, p);
    }
  }

  // ---------- What a step keeps ----------

  lemma {:induction false} RunPrefix(n: nat, s: Sys, s': Sys) returns (run: seq<Sys>)
    requires Reachable(n, s) && Follows(s, s')
    ensures IsRun(n, run) && |run| >= 2 && run[|run| - 2] == s && run[|run| - 1] == s'
  {
    hide Initial, Follows;
    var before :| IsRun(n, before) && before[|before| - 1] == s;
    run := before + [s'];
    forall k | 0 <= k < |run| - 1 ensures Follows(run[k], run[k + 1]) {
      if k < |before| - 1 {
        assert Follows(before[k], before[k + 1]);
      }
    }
  }

  /** Entries that both states of a server still have below their commit index. */
  ghost predicate KeepsCommitted(r: Raft, r': Raft) {
    forall k :: r.lastIncludeIndex < k <= r.commitIndex && r'.lastIncludeIndex < k <= r'.commitIndex ==>
      k <= r.LastIndex() && k <= r'.LastIndex() && r.EntryAt(k) == r'.EntryAt(k)
  }

  /** Neither a conflicting AppendEntries nor a snapshot removes or changes an entry that the
      server knows to be committed, and only a restart makes it forget how far that is. */
  lemma CommittedStays(n: nat, s: Sys, step: Step, i: nat)
    requires Reachable(n, s) && Enabled(s, step) && i < |s.nodes|
    ensures var r, r' := s.nodes[i].raft, Apply(s, step).nodes[i].raft;
            && KeepsCommitted(r, r')
            && (step != Restart(i) ==> r.commitIndex <= r'.commitIndex <= r'.LastIndex())
            && (step == Restart(i) ==> r'.commitIndex == r.lastIncludeIndex)
  {
    hide Reachable, IsRun, Explains;
    var s' := Apply(s, step);
    assert Follows(s, s');
    var run := RunPrefix(n, s, s');
    var d := StateMachineSafety(n, run);
    StateOf(run, d, |run| - 2, i);
    StepSize(s, s');
    StateOf(run, d, |run| - 1, i);
    if step == Restart(i) {
      RestartKeeps(n, s, i);
    } else {
      CommitNeverFalls(s, step, i);
    }
  }

  lemma StateOf(run: seq<Sys>, d: Log, k: nat, i: nat)
    requires forall j :: 0 <= j < |run| ==> Explains(run[j], d)
    requires k < |run| && i < |run[k].nodes|
    ensures Explained(run[k].nodes[i], d)
  {
    assert Explains(run[k], d);
  }

  lemma CommitNeverFalls(s: Sys, step: Step, i: nat)
    requires Enabled(s, step) && i < |s.nodes| && step != Restart(i)
    ensures s.nodes[i].raft.commitIndex <= Apply(s, step).nodes[i].raft.commitIndex
  {
    if step.Receive? && i == Receiver(step.m) {
      HandleCommit(s.nodes[i], step.m);
    }
  }

  lemma HandleCommit(node: Node, m: Msg)
    requires node.raft.InRange() && ReplyFits(node.raft, m)
    requires m.AppendResp? || m.InstallResp? ==> m.from < |node.raft.nextIndex|
    ensures node.raft.commitIndex <= Handle(node, m).0.raft.commitIndex
  {
  }

  /** A restart loses nothing that the protocol relies on: term, vote, log and snapshot are those
      of the moment before the crash, whenever it happens. */
  lemma RestartKeeps(n: nat, s: Sys, i: nat)
    requires Reachable(n, s) && i < |s.nodes|
    ensures var r, r' := s.nodes[i].raft, Apply(s, Restart(i)).nodes[i].raft;
            && r'.currentTerm == r.currentTerm && r'.votedFor == r.votedFor && r'.log == r.log
            && r'.lastIncludeIndex == r.lastIncludeIndex && r'.lastIncludeTerm == r.lastIncludeTerm
            && r'.snapshot == r.snapshot && r'.commitIndex == r'.applyIndex == r.lastIncludeIndex
            && r'.log[0].term == r'.lastIncludeTerm
  {
    hide Ok, Inv, RaftOk, NodeOk, ServiceOk;
    var h := ReachableOk(n, s);
    NodeFact(s, h, i);
    RaftDisk(h, i, s.nodes[i].raft);
    RaftLog(h, i, s.nodes[i].raft);
  }

  // ---------- The order of the apply stream ----------

  /** The next message for the service is the command that follows its position, or the only
      message in flight and a snapshot ahead of it. */
  ghost predicate InOrder(node: Node) {
    node.outbox != [] ==>
      if node.outbox[0].CommandMsg? then node.outbox[0].index == node.svc.pos + 1
      else node.outbox[0].index > node.svc.pos && |node.outbox| == 1
  }

  /** The service's position is where its last message left it; it never jumps back or skips a
      command, however InstallSnapshot interleaves with the applier. */
  lemma ApplyOrder(n: nat, s: Sys, i: nat)
    requires Reachable(n, s) && i < |s.nodes|
    ensures InOrder(s.nodes[i])
    ensures forall save :: Enabled(s, Consume(i, save)) ==>
              Apply(s, Consume(i, save)).nodes[i].svc.pos == s.nodes[i].outbox[0].index
    ensures forall step :: Enabled(s, step) && step != Restart(i) && !(step.Consume? && step.i == i) ==>
              Apply(s, step).nodes[i].svc.pos == s.nodes[i].svc.pos
  {
    hide Ok, Inv, RaftOk, NodeOk;
    var h := ReachableOk(n, s);
    NodeFact(s, h, i);
    assert OutboxOk(s.nodes[i], h.srv[i].log);
    forall step | Enabled(s, step) && step != Restart(i) && !(step.Consume? && step.i == i)
      ensures Apply(s, step).nodes[i].svc.pos == s.nodes[i].svc.pos
    {
      if step.Receive? && i == Receiver(step.m) {
        HandleService(s.nodes[i], step.m);
      }
    }
  }

  lemma HandleService(node: Node, m: Msg)
    requires node.raft.InRange() && ReplyFits(node.raft, m)
    requires m.AppendResp? || m.InstallResp? ==> m.from < |node.raft.nextIndex|
    ensures Handle(node, m).0.svc == node.svc && Handle(node, m).0.outbox == node.outbox
  {
  }

  /** What a service answers: one log explains the cluster, before and after a service executes a
      command; it has that command at that index, and the service is in the state after all earlier
      entries. So a Submit that is answered speaks of a committed operation and its result. */
  lemma AnswersDecided(n: nat, s: Sys, i: nat, save: bool) returns (d: Log)
    requires Reachable(n, s) && Enabled(s, Consume(i, save)) && s.nodes[i].outbox[0].CommandMsg?
    ensures Explains(s, d) && Explains(Apply(s, Consume(i, save)), d)
    ensures var (m, v) := (s.nodes[i].outbox[0], s.nodes[i].svc);
            1 <= m.index < |d| && d[m.index].cmd == m.cmd && v.sm == Replay(d, m.index)
  {
    hide Reachable, IsRun, Explains;
    var s' := Apply(s, Consume(i, save));
    var m := s.nodes[i].outbox[0];
    assert Follows(s, s');
    var run := RunPrefix(n, s, s');
    d := StateMachineSafety(n, run);
    assert Explains(run[|run| - 2], d) && Explains(run[|run| - 1], d);
    ApplyOrder(n, s, i);
    StateOf(run, d, |run| - 2, i);
    assert m.index == s.nodes[i].svc.pos + 1;
    WasApplied(s', d, Applied(i, m.index, m.cmd));
  }

  lemma WasApplied(s: Sys, d: Log, a: Applied)
    requires Explains(s, d) && a in s.applied
    ensures a.index < |d| && d[a.index].cmd == a.cmd
  {
  }

  // ---------- Fast backup ----------

  /** If the leader had an entry of the follower's term behind the mismatch, it would have that
      term's entry at the mismatch too. */
  lemma NoLaterEntry(h: History, x: Log, hx: int, prev: nat, t: nat, k: nat)
    requires Rooted(h, x, hx) && 1 <= prev <= k < |x| && t in h.led && x[k].term == t
    requires prev < |h.led[t].log| && h.led[t].log[prev].term == t
    ensures x[prev].term == t
  {
    assert RootedAt(h, x, k, hx);
    assert x[prev] == h.led[t].log[prev];
  }

  /** For the leader's compacted log: the last entry of that term, if there is one, is earlier. */
  lemma LastOfTermEarlier(h: History, r: Raft, x: Log, hx: int, prev: nat, t: nat)
    requires Rooted(h, x, hx) && LogIs(r, x) && 1 <= prev <= r.LastIndex() && r.lastIncludeIndex <= prev
    requires t in h.led && prev < |h.led[t].log| && h.led[t].log[prev].term == t && x[prev].term != t
    ensures LastOfTerm(r.log, |r.log| - 1, t) + r.lastIncludeIndex < prev || LastOfTerm(r.log, |r.log| - 1, t) == -1
  {
    var q := LastOfTerm(r.log, |r.log| - 1, t);
    if q != -1 && q + r.lastIncludeIndex >= prev {
      EntryFact(r, x, q + r.lastIncludeIndex);
      NoLaterEntry(h, x, hx, prev, t, q + r.lastIncludeIndex);
    }
  }

  lemma BackupLowers(h: History, i: nat, r: Raft, a: AppendArgs, reply: AppendReply)
    requires Inv(h) && RaftOk(h, i, r) && r.role == Leader && r.currentTerm == a.term
    requires AppendOk(h, a) && RejectOk(h, a, reply) && reply.term <= a.term && |r.log| >= 1
    ensures Backup(r, reply) <= a.prevIndex <==> r.lastIncludeIndex <= a.prevIndex
  {
    hide Inv, RaftOk, AppendOk;
    OwnReign(h, i, r);
    RaftLog(h, i, r);
    AppendFact(h, a);
    LogsRooted(h, i, a.term);
    if r.lastIncludeIndex <= a.prevIndex && reply.xTerm != -1 {
      LastOfTermEarlier(h, r, h.srv[i].log, h.srv[i].term, a.prevIndex, reply.xTerm);
    }
  }

  /** Fast backup makes progress: a rejection of the round that the leader sent from the present
      nextIndex lowers nextIndex, unless the log has meanwhile been compacted beyond that round. */
  lemma RejectionLowersNextIndex(n: nat, s: Sys, m: Msg)
    requires Reachable(n, s) && m in s.net && m.AppendResp? && !m.ar.success && m.ar.term <= m.aa.term
    requires Enabled(s, Receive(m))
    requires s.nodes[m.aa.leader].raft.role == Leader && s.nodes[m.aa.leader].raft.currentTerm == m.aa.term
    requires s.nodes[m.aa.leader].raft.nextIndex[m.from] == m.aa.prevIndex + 1
    ensures var r, r' := s.nodes[m.aa.leader].raft, Apply(s, Receive(m)).nodes[m.aa.leader].raft;
            r'.nextIndex[m.from] < r.nextIndex[m.from] <==> r.lastIncludeIndex <= m.aa.prevIndex
  {
    hide Ok, Inv, RaftOk, NodeOk, ServiceOk, RejectOk, AppendOk;
    var h := ReachableOk(n, s);
    var i := m.aa.leader;
    InvOf(s, h);
    MsgFact(s, h, m);
    NodeFact(s, h, i);
    RejectFact(h, m);
    BackupLowers(h, i, s.nodes[i].raft, m.aa, m.ar);
  }

  lemma RejectFact(h: History, m: Msg)
    requires MsgOk(h, m) && m.AppendResp? && !m.ar.success
    ensures AppendOk(h, m.aa) && RejectOk(h, m.aa, m.ar)
  {
  }
}
