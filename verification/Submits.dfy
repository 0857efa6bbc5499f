/**
 The replicated service as its callers see it: the servers of `Cluster` with the `Submit` calls that
 wait at each of them. Ids are counted from where the server resumes after a restart; the program
 resumes at 0.
 */
module Submits {
  import opened KvStore
  import opened RaftTypes
  import opened RaftState
  import opened Cluster
  import opened ClusterSafety
  import opened Desks

  /** An operation that `Start` accepted: its place in the log of the leader of this term. `seen` is
      not a program variable: it is the number of answers that had been given before. */
  datatype Call = Call(server: nat, index: nat, term: nat, id: nat, req: Request, seen: nat)

  /** OK, with rep, was sent to the call of this number after cmd had been executed. */
  datatype Answer = Answer(call: nat, cmd: Command, rep: Reply)

  /** Waiters' channels are named by the numbers of their calls. */
  datatype Front = Front(c: Sys, desks: seq<Desk>, calls: seq<Call>, told: seq<Answer>)

  datatype Move =
    | Inner(step: Step)            // what Raft does by itself
    | Submit(i: nat, req: Request) // the first half of Submit, with Start
    | Serve(i: nat, save: bool)    // the reader's turn
    | GiveUp(i: nat, index: nat)   // a Submit finds that its server does not lead its term any more
    | Crash(i: nat)

  predicate CanMove(f: Front, mv: Move) {
    |f.desks| == |f.c.nodes| &&
    match mv
    case Inner(step) => !step.Propose? && !step.Consume? && !step.Restart? && Enabled(f.c, step)
    case Submit(i, _) => i < |f.c.nodes|
    case Serve(i, save) => Enabled(f.c, Consume(i, save))
    case GiveUp(i, _) => i < |f.c.nodes|
    case Crash(i) => i < |f.c.nodes|
  }

  /** What the server at which the operation is submitted makes of it. */
  function OnSubmit(f: Front, i: nat, req: Request): Front
    requires |f.desks| == |f.c.nodes| && i < |f.c.nodes|
  {
    var r, desk := f.c.nodes[i].raft, f.desks[i].Numbered();
    if r.role != Leader then f.(desks := f.desks[i := desk])
    else
      var index := Max(0, r.LastIndex() + 1);
      Front(Apply(f.c, Propose(i, Op(i, desk.reqNum, req))),
            f.desks[i := desk.Registered(i, |f.calls|, index)],
            f.calls + [Call(i, index, r.currentTerm, desk.reqNum, req, |f.told|)],
            f.told)
  }

  /** OK for the waiter of this index, if it waits for this command. */
  function Told(desk: Desk, m: ApplyMsg, sm: Store): seq<Answer> {
    match m
    case SnapshotMsg(_, _, _) => []
    case CommandMsg(index, cmd) =>
      if cmd.Nil? || index !in desk.pending then []
      else
        var rep := DoOp(sm, cmd.req).1;
        if Verdict(desk.pending[index], cmd, rep).err == OK then [Answer(desk.pending[index].ch, cmd, rep)] else []
  }

  function OnServe(f: Front, i: nat, save: bool): Front
    requires |f.desks| == |f.c.nodes| && Enabled(f.c, Consume(i, save))
  {
    var m, v := f.c.nodes[i].outbox[0], f.c.nodes[i].svc;
    Front(Apply(f.c, Consume(i, save)), f.desks[i := f.desks[i].Served(m, v.lastApplied)],
          f.calls, f.told + Told(f.desks[i], m, v.sm))
  }

  function Moved(resume: nat -> nat, f: Front, mv: Move): Front
    requires CanMove(f, mv)
  {
    match mv
    case Inner(step) => f.(c := Apply(f.c, step))
    case Submit(i, req) => OnSubmit(f, i, req)
    case Serve(i, save) => OnServe(f, i, save)
    case GiveUp(i, index) =>
      f.(desks := f.desks[i := if index in f.desks[i].pending
                               then f.desks[i].Discarded(index, f.desks[i].pending[index].ch) else f.desks[i]])
    case Crash(i) =>
      f.(c := Apply(f.c, Restart(i)), desks := f.desks[i := Desk(resume(f.desks[i].reqNum), map[])])
  }

  function Opening(n: nat): Front {
    Front(Initial(n), seq(n, i => Desk(0, map[])), [], [])
  }

  ghost predicate Goes(resume: nat -> nat, f: Front, f': Front) {
    exists mv :: CanMove(f, mv) && f' == Moved(resume, f, mv)
  }

  ghost predicate IsHistory(n: nat, resume: nat -> nat, run: seq<Front>) {
    && |run| >= 1 && run[0] == Opening(n)
    && forall k :: 0 <= k < |run| - 1 ==> Goes(resume, run[k], run[k + 1])
  }

  // ---------- What an answer is worth ----------

  /** An earlier operation, of the same server under the same id, was put at the same index. */
  predicate Twin(calls: seq<Call>, j: nat, k: nat) {
    && j < k < |calls|
    && calls[j].server == calls[k].server && calls[j].id == calls[k].id && calls[j].index == calls[k].index
  }

  ghost predicate NoTwin(calls: seq<Call>, k: nat) {
    forall j: nat :: !Twin(calls, j, k)
  }

  /** The entry that this very call made. */
  function EntryOf(c: Call): Entry {
    Entry(c.term, Op(c.server, c.id, c.req))
  }

  /** In the log that the cluster agrees on, the call's own entry is at its index, the answer is what
      its operation gives after all entries before it, and everything that had been answered when the
      call started is before it. */
  ghost predicate Right(f: Front, d: Log, a: Answer) {
    && a.call < |f.calls|
    && var c := f.calls[a.call];
    && 1 <= c.index < |d| && d[c.index] == EntryOf(c)
    && a.rep == DoOp(Replay(d, c.index), c.req).1
    && forall x :: 0 <= x < c.seen && x < |f.told| && f.told[x].call < |f.calls| ==> f.calls[f.told[x].call].index < c.index
  }

  // ---------- Where entries come from ----------

  /** An entry with an operation, at index k, was made by some call. */
  ghost predicate Born(calls: seq<Call>, k: int, e: Entry) {
    e.cmd.Op? ==> exists j {:trigger calls[j]} :: 0 <= j < |calls| && calls[j].index == k && e == EntryOf(calls[j])
  }

  lemma BornLater(calls: seq<Call>, c: Call, k: int, e: Entry)
    requires Born(calls, k, e)
    ensures Born(calls + [c], k, e)
  {
    if e.cmd.Op? {
      var j :| 0 <= j < |calls| && calls[j].index == k && e == EntryOf(calls[j]);
      assert (calls + [c])[j] == calls[j];
    }
  }

  ghost predicate LogBorn(calls: seq<Call>, r: Raft) {
    (forall p :: 1 <= p < |r.log| ==> Born(calls, r.lastIncludeIndex + p, r.log[p])) == true
  }

  ghost predicate BatchBorn(calls: seq<Call>, prev: nat, es: seq<Entry>) {
    (forall p :: 0 <= p < |es| ==> Born(calls, prev + 1 + p, es[p])) == true
  }

  ghost predicate MsgBorn(calls: seq<Call>, m: Msg) {
    m.AppendReq? ==> BatchBorn(calls, m.aa.prevIndex, m.aa.entries)
  }

  ghost predicate AllBorn(calls: seq<Call>, s: Sys) {
    && (forall i {:trigger s.nodes[i]} :: 0 <= i < |s.nodes| ==> LogBorn(calls, s.nodes[i].raft))
    && (forall m :: m in s.net ==> MsgBorn(calls, m))
  }

  lemma TakeOverBorn(calls: seq<Call>, r: Raft, prev: nat, es: seq<Entry>)
    requires |r.log| >= 1 && prev <= r.LastIndex() && LogBorn(calls, r) && BatchBorn(calls, prev, es)
    ensures LogBorn(calls, r.(log := TakeOver(r.log, r.lastIncludeIndex, prev, es)))
  {
    hide Born;
    var log', lii := TakeOver(r.log, r.lastIncludeIndex, prev, es), r.lastIncludeIndex;
    forall p | 1 <= p < |log'| ensures Born(calls, lii + p, log'[p]) {
      if p < |r.log| && log'[p] == r.log[p] {
      } else {
        assert log'[p] == es[lii - 1 - prev + p];
      }
    }
  }

  lemma AcceptedBorn(calls: seq<Call>, r: Raft, a: AppendArgs)
    requires |r.log| >= 1 && Matches(r, a) && LogBorn(calls, r) && BatchBorn(calls, a.prevIndex, a.entries)
    ensures LogBorn(calls, Accepted(r, a))
  {
    hide Born, TakeOver;
    TakeOverBorn(calls, r, a.prevIndex, a.entries);
  }

  lemma SuffixBorn(calls: seq<Call>, r: Raft, k: nat, r': Raft)
    requires LogBorn(calls, r) && k < |r.log| && r'.lastIncludeIndex == r.lastIncludeIndex + k
    requires |r'.log| == |r.log| - k && forall p :: 1 <= p < |r'.log| ==> r'.log[p] == r.log[k + p]
    ensures LogBorn(calls, r')
  {
    hide Born;
    forall p | 1 <= p < |r'.log| ensures Born(calls, r'.lastIncludeIndex + p, r'.log[p]) {
      assert Born(calls, r.lastIncludeIndex + (k + p), r.log[k + p]);
    }
  }

  lemma InstalledBorn(calls: seq<Call>, r: Raft, a: InstallArgs)
    requires |r.log| >= 1 && a.lastIndex > r.lastIncludeIndex && LogBorn(calls, r)
    ensures LogBorn(calls, Installed(r, a))
  {
    if r.LastIndex() >= a.lastIndex && r.EntryAt(a.lastIndex).term == a.lastTerm {
      SuffixBorn(calls, r, a.lastIndex - r.lastIncludeIndex, Installed(r, a));
    }
  }

  lemma HandleBorn(calls: seq<Call>, node: Node, m: Msg)
    requires node.raft.InRange() && ReplyFits(node.raft, m)
    requires m.AppendResp? || m.InstallResp? ==> m.from < |node.raft.nextIndex|
    requires LogBorn(calls, node.raft) && MsgBorn(calls, m)
    ensures LogBorn(calls, Handle(node, m).0.raft) && forall x :: x in Handle(node, m).1 ==> MsgBorn(calls, x)
  {
    hide Born, Accepted, Installed, TakeOver, Matched;
    var r := node.raft;
    match m {
      case VoteReq(_, va) => assert OnRequestVote(r, va).0.log == r.log;
      case AppendReq(_, aa) =>
        var r1 := Followed(r, aa.term);
        if aa.term >= r.currentTerm && Matches(r1, aa) {
          AcceptedBorn(calls, r1, aa);
        }
      case InstallReq(_, ia) =>
        var r1 := Followed(r, ia.term);
        if ia.term >= r.currentTerm && ia.lastIndex > r1.lastIncludeIndex && ia.lastIndex > r1.commitIndex {
          InstalledBorn(calls, r1, ia);
        }
      case VoteResp(_, va, vr) => assert OnVoteReply(r, va, vr).log == r.log;
      case AppendResp(from, aa, ar) => ReplyLog(r, from, m);
      case InstallResp(from, ia, ir) => ReplyLog(r, from, m);
    }
  }

  lemma ReplyLog(r: Raft, from: nat, m: Msg)
    requires r.InRange() && ReplyFits(r, m) && from < |r.nextIndex|
    ensures m.AppendResp? ==> var r' := OnAppendReply(r, from, m.aa, m.ar); r'.log == r.log && r'.lastIncludeIndex == r.lastIncludeIndex
    ensures m.InstallResp? ==> var r' := OnInstallReply(r, from, m.ia, m.ir); r'.log == r.log && r'.lastIncludeIndex == r.lastIncludeIndex
  {
  }

  lemma RoundBorn(calls: seq<Call>, r: Raft, peer: nat)
    requires r.InRange() && r.role == Leader && peer < |r.nextIndex| && LogBorn(calls, r)
    ensures match NextRound(r, peer) case SendAppend(aa) => BatchBorn(calls, aa.prevIndex, aa.entries) case SendInstall(_) => true
  {
    hide Born;
    match NextRound(r, peer)
    case SendInstall(_) =>
    case SendAppend(aa) =>
      var next := r.nextIndex[peer];
      forall p | 0 <= p < |aa.entries| ensures Born(calls, aa.prevIndex + 1 + p, aa.entries[p]) {
        assert aa.entries[p] == r.log[next - r.lastIncludeIndex + p];
        assert Born(calls, r.lastIncludeIndex + (next - r.lastIncludeIndex + p), r.log[next - r.lastIncludeIndex + p]);
      }
  }

  /** The new state of the only server that a step changes, and what it sends. */
  lemma UpdateBorn(calls: seq<Call>, s: Sys, s': Sys, i: nat, node: Node, sent: set<Msg>)
    requires AllBorn(calls, s) && i < |s.nodes| && s'.nodes == s.nodes[i := node] && s'.net == s.net + sent
    requires LogBorn(calls, node.raft) && forall m :: m in sent ==> MsgBorn(calls, m)
    ensures AllBorn(calls, s')
  {
    hide LogBorn, MsgBorn;
  }

  /** Entries only move: from logs to messages and from messages to logs, each at its index. */
  lemma StepBorn(calls: seq<Call>, s: Sys, step: Step)
    requires AllBorn(calls, s) && Enabled(s, step)
    requires step.Propose? ==> var r := s.nodes[step.i].raft; |r.log| >= 1 && Born(calls, r.LastIndex() + 1, Entry(r.currentTerm, step.cmd))
    requires step.Restart? ==> var r := s.nodes[step.i].raft; var r' := Boot(r.me, |s.nodes|, r.disk);
                               r'.log == r.log && r'.lastIncludeIndex == r.lastIncludeIndex
    ensures AllBorn(calls, Apply(s, step))
  {
    hide Born, LogBorn, BatchBorn, Handle, NextRound, OnSnapshot, OnApply, Boot;
    var s' := Apply(s, step);
    match step {
      case Timeout(i) => SameLog(calls, s, s', i, VoteReqs(|s.nodes|, i, Candidacy(s.nodes[i].raft)));
      case Receive(m) =>
        HandleBorn(calls, s.nodes[Receiver(m)], m);
        UpdateBorn(calls, s, s', Receiver(m), Handle(s.nodes[Receiver(m)], m).0, Handle(s.nodes[Receiver(m)], m).1);
      case Replicate(i, peer) =>
        RoundBorn(calls, s.nodes[i].raft, peer);
        SameLog(calls, s, s', i, s'.net);
      case Propose(i, cmd) => OneMoreBorn(calls, s, i, cmd);
      case Work(i) => SameLog(calls, s, s', i, {});
      case Consume(i, save) => SameLog(calls, s, s', i, {});
      case Save(i) =>
        SnapshotBorn(calls, s.nodes[i].raft, s.nodes[i].svc.saving.value.0, s.nodes[i].svc.saving.value.1);
        UpdateBorn(calls, s, s', i, s'.nodes[i], {});
      case Restart(i) => SameLog(calls, s, s', i, {});
    }
  }

  lemma SameLog(calls: seq<Call>, s: Sys, s': Sys, i: nat, sent: set<Msg>)
    requires AllBorn(calls, s) && i < |s.nodes| == |s'.nodes| && s'.nodes == s.nodes[i := s'.nodes[i]] && s'.net == s.net + sent
    requires s'.nodes[i].raft.log == s.nodes[i].raft.log
    requires s'.nodes[i].raft.lastIncludeIndex == s.nodes[i].raft.lastIncludeIndex
    requires forall m :: m in sent && m !in s.net ==> MsgBorn(calls, m)
    ensures AllBorn(calls, s')
  {
    hide Born;
    assert LogBorn(calls, s.nodes[i].raft);
    UpdateBorn(calls, s, s', i, s'.nodes[i], set m | m in sent && m !in s.net);
  }

  lemma OneMoreBorn(calls: seq<Call>, s: Sys, i: nat, cmd: Command)
    requires AllBorn(calls, s) && Enabled(s, Propose(i, cmd))
    requires var r := s.nodes[i].raft; |r.log| >= 1 && Born(calls, r.LastIndex() + 1, Entry(r.currentTerm, cmd))
    ensures AllBorn(calls, Apply(s, Propose(i, cmd)))
  {
    hide Born, MsgBorn;
    assert LogBorn(calls, s.nodes[i].raft);
    var s' := Apply(s, Propose(i, cmd));
    UpdateBorn(calls, s, s', i, s'.nodes[i], {});
  }

  lemma SnapshotBorn(calls: seq<Call>, r: Raft, index: nat, data: Snap)
    requires |r.log| >= 1 && LogBorn(calls, r)
    ensures LogBorn(calls, OnSnapshot(r, index, data))
  {
    if index > r.lastIncludeIndex && index <= r.LastIndex() && index <= r.applyIndex {
      SuffixBorn(calls, r, index - r.lastIncludeIndex, OnSnapshot(r, index, data));
    }
  }

  // ---------- What is committed was called for ----------

  /** The entries of the agreed log up to this index were made by these calls. */
  ghost predicate Known(calls: seq<Call>, d: Log, upTo: nat) {
    (forall m :: 1 <= m <= upTo && m < |d| ==> Born(calls, m, d[m])) == true
  }

  ghost predicate AllKnown(calls: seq<Call>, d: Log, s: Sys) {
    && (forall i {:trigger s.nodes[i]} :: 0 <= i < |s.nodes| ==> Known(calls, d, s.nodes[i].raft.commitIndex))
    && (forall m :: m in s.net && m.InstallReq? ==> Known(calls, d, m.ia.lastIndex))
  }

  lemma KnownLess(calls: seq<Call>, d: Log, k: nat, upTo: nat)
    requires Known(calls, d, upTo) && k <= upTo
    ensures Known(calls, d, k)
  {
  }

  lemma CommitKnown(calls: seq<Call>, d: Log, node: Node)
    requires LogBorn(calls, node.raft) && Explained(node, d) && Known(calls, d, node.raft.lastIncludeIndex)
    ensures Known(calls, d, node.raft.commitIndex)
  {
    hide Born;
    var r := node.raft;
    forall m | 1 <= m <= r.commitIndex && m < |d| ensures Born(calls, m, d[m]) {
      if m > r.lastIncludeIndex {
        assert r.EntryAt(m) == r.log[m - r.lastIncludeIndex];
        assert Born(calls, r.lastIncludeIndex + (m - r.lastIncludeIndex), r.log[m - r.lastIncludeIndex]);
      }
    }
  }

  /** A server only compacts what it has applied, or what a snapshot that it is sent covers. */
  lemma StepCompacts(s: Sys, step: Step, i: nat)
    requires Enabled(s, step) && i < |s.nodes| && s.nodes[i].raft.InRange()
    requires step.Restart? ==> var r := s.nodes[step.i].raft; Boot(r.me, |s.nodes|, r.disk).lastIncludeIndex == r.lastIncludeIndex
    ensures var lii := Apply(s, step).nodes[i].raft.lastIncludeIndex;
            lii <= s.nodes[i].raft.commitIndex || (step.Receive? && step.m.InstallReq? && lii == step.m.ia.lastIndex)
  {
    hide Handle, NextRound;
    if step.Receive? && i == Receiver(step.m) {
      HandleCompacts(s.nodes[i], step.m);
    }
  }

  lemma HandleCompacts(node: Node, m: Msg)
    requires node.raft.InRange() && ReplyFits(node.raft, m)
    requires m.AppendResp? || m.InstallResp? ==> m.from < |node.raft.nextIndex|
    ensures var lii := Handle(node, m).0.raft.lastIncludeIndex;
            lii == node.raft.lastIncludeIndex || (m.InstallReq? && lii == m.ia.lastIndex)
  {
    if m.AppendResp? || m.InstallResp? {
      ReplyLog(node.raft, m.from, m);
    }
  }

  /** Only replicators send snapshots, those that they have. */
  lemma SnapshotsSent(s: Sys, step: Step, m: Msg)
    requires Enabled(s, step) && m in Apply(s, step).net && m !in s.net && m.InstallReq?
    ensures step.Replicate? && m.ia.lastIndex == s.nodes[step.i].raft.lastIncludeIndex
  {
    if step.Receive? {
      HandleSends(s.nodes[Receiver(step.m)], step.m);
    }
  }

  lemma HandleSends(node: Node, m: Msg)
    requires node.raft.InRange() && ReplyFits(node.raft, m)
    requires m.AppendResp? || m.InstallResp? ==> m.from < |node.raft.nextIndex|
    ensures forall x :: x in Handle(node, m).1 ==> !x.InstallReq?
  {
  }

  lemma StepKnown(calls: seq<Call>, d: Log, s: Sys, step: Step)
    requires AllKnown(calls, d, s) && Enabled(s, step) && AllBorn(calls, Apply(s, step))
    requires forall i :: 0 <= i < |s.nodes| ==> s.nodes[i].raft.InRange()
    requires Explains(Apply(s, step), d)
    requires step.Restart? ==> var r := s.nodes[step.i].raft; Boot(r.me, |s.nodes|, r.disk).lastIncludeIndex == r.lastIncludeIndex
    ensures AllKnown(calls, d, Apply(s, step))
  {
    hide Known, LogBorn, Explained, Apply, Boot;
    var s' := Apply(s, step);
    forall i | 0 <= i < |s'.nodes| ensures Known(calls, d, s'.nodes[i].raft.commitIndex) {
      StepSizes(s, step);
      StepCompacts(s, step, i);
      assert Known(calls, d, s'.nodes[i].raft.lastIncludeIndex) by {
        var lii := s'.nodes[i].raft.lastIncludeIndex;
        if lii <= s.nodes[i].raft.commitIndex {
          KnownLess(calls, d, lii, s.nodes[i].raft.commitIndex);
        }
      }
      CommitKnown(calls, d, s'.nodes[i]);
    }
    forall m | m in s'.net && m.InstallReq? ensures Known(calls, d, m.ia.lastIndex) {
      if m !in s.net {
        SnapshotsSent(s, step, m);
        KnownLess(calls, d, m.ia.lastIndex, s.nodes[step.i].raft.commitIndex);
      }
    }
  }

  lemma StepSizes(s: Sys, step: Step)
    requires Enabled(s, step)
    ensures |Apply(s, step).nodes| == |s.nodes|
  {
  }
}
