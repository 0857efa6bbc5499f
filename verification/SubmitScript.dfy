/** Pieces of runs, for clusters of any size: elections, submissions, crashes and rounds of replication
    between servers that have not committed anything yet. */
module SubmitScript {
  import opened KvStore
  import opened RaftTypes
  import opened RaftState
  import opened Cluster
  import opened ClusterInv
  import opened ClusterSafety
  import opened Desks
  import opened Submits
  import opened SubmitSafety

  /** The state can be reached. */
  ghost predicate Occurs(n: nat, resume: nat -> nat, f: Front) {
    exists run :: IsHistory(n, resume, run) && run[|run| - 1] == f
  }

  lemma GoOn(n: nat, resume: nat -> nat, f: Front, mv: Move) returns (f': Front)
    requires Occurs(n, resume, f) && CanMove(f, mv)
    ensures Occurs(n, resume, f') && f' == Moved(resume, f, mv)
  {
    hide Opening, CanMove, Moved, Goes;
    f' := Moved(resume, f, mv);
    var run :| IsHistory(n, resume, run) && run[|run| - 1] == f;
    OneMove(n, resume, run, mv);
    assert (run + [f'])[|run + [f']| - 1] == f';
  }

  lemma Begin(n: nat, resume: nat -> nat) returns (f: Front)
    ensures Occurs(n, resume, f) && f == Opening(n)
  {
    f := Opening(n);
    assert IsHistory(n, resume, [f]) && [f][|[f]| - 1] == f;
  }

  // ---------- Servers that have not committed anything ----------

  ghost predicate Young(n: nat, i: nat, term: nat, log: Log, node: Node) {
    var r := node.raft;
    && r.me == i && r.currentTerm == term && r.log == log && |log| >= 1 && r.lastIncludeIndex == 0
    && r.commitIndex == r.applyIndex == 0 && r.pendingSnapshot == NoSnap && r.snapshot == NoSnap
    && r.lastIncludeTerm == 0
    && |r.nextIndex| == |r.matchIndex| == n && DiskOk(r) && r.InRange()
    && node.outbox == [] && node.svc == Service(map[], 0, None, 0)
  }

  /** All servers are in this term, with these logs, and follow, except perhaps one. */
  ghost predicate Scene(n: nat, term: nat, logs: seq<Log>, f: Front, lead: nat) {
    && |f.c.nodes| == |f.desks| == |logs| == n
    && forall j :: 0 <= j < n ==> Young(n, j, term, logs[j], f.c.nodes[j]) && (j != lead ==> f.c.nodes[j].raft.role == Follower)
  }

  lemma OpeningScene(n: nat, f: Front)
    requires f == Opening(n)
    ensures Scene(n, 0, seq(n, i => [SENTINEL]), f, n)
    ensures forall i :: 0 <= i < n ==> f.desks[i] == Desk(0, map[])
  {
  }

  // ---------- Ids, submissions and crashes ----------

  ghost predicate SameDesksBut(f: Front, f': Front, i: nat) {
    |f'.desks| == |f.desks| && forall j :: 0 <= j < |f.desks| && j != i ==> f'.desks[j] == f.desks[j]
  }

  /** Submits at a server that does not lead use up ids. */
  lemma {:induction false} UseUp(n: nat, resume: nat -> nat, f: Front, i: nat, k: nat) returns (f': Front)
    requires Occurs(n, resume, f) && i < |f.desks| == |f.c.nodes| && f.c.nodes[i].raft.role != Leader && f.desks[i].reqNum <= k
    ensures Occurs(n, resume, f') && f' == f.(desks := f.desks[i := f.desks[i].(reqNum := k)])
    decreases k - f.desks[i].reqNum
  {
    hide Occurs;
    f' := f;
    if f.desks[i].reqNum < k {
      var g := GoOn(n, resume, f, Submit(i, Get("")));
      f' := UseUp(n, resume, g, i, k);
    }
  }

  lemma Crashed(n: nat, resume: nat -> nat, f: Front, term: nat, logs: seq<Log>, i: nat) returns (f': Front)
    requires Occurs(n, resume, f) && Scene(n, term, logs, f, i) && i < n
    ensures Occurs(n, resume, f') && Scene(n, term, logs, f', n)
    ensures f'.desks == f.desks[i := Desk(resume(f.desks[i].reqNum), map[])] && f'.calls == f.calls && f'.told == f.told
  {
    hide Occurs;
    f' := GoOn(n, resume, f, Crash(i));
  }

  /** The leader takes an operation. */
  lemma Taken(n: nat, resume: nat -> nat, f: Front, term: nat, logs: seq<Log>, i: nat, req: Request) returns (f': Front, e: Entry)
    requires Occurs(n, resume, f) && Scene(n, term, logs, f, i) && i < n && f.c.nodes[i].raft.role == Leader
    ensures Occurs(n, resume, f') && Scene(n, term, logs[i := logs[i] + [e]], f', i)
    ensures e == Entry(term, Op(i, f.desks[i].reqNum + 1, req))
    ensures f'.desks == f.desks[i := f.desks[i].Numbered().Registered(i, |f.calls|, |logs[i]|)]
    ensures f'.calls == f.calls + [Call(i, |logs[i]|, term, f.desks[i].reqNum + 1, req, |f.told|)] && f'.told == f.told
    ensures var r, r' := f.c.nodes[i].raft, f'.c.nodes[i].raft;
            r'.role == Leader && r'.nextIndex == r.nextIndex && r'.matchIndex == r.matchIndex
  {
    hide Occurs;
    e := Entry(term, Op(i, f.desks[i].reqNum + 1, req));
    f' := GoOn(n, resume, f, Submit(i, req));
  }

  // ---------- Elections ----------

  predicate UpToDate(c: Log, x: Log) {
    |c| >= 1 && |x| >= 1 &&
    (c[|c| - 1].term > x[|x| - 1].term || (c[|c| - 1].term == x[|x| - 1].term && |c| >= |x|))
  }

  /** Votes that candidate i has once the first k servers have been asked; x refuses. */
  function Votes(k: nat, i: nat, x: nat): (v: nat)
    ensures v >= 1
  {
    if k == 0 then 1 else Votes(k - 1, i, x) + if k - 1 == i || k - 1 == x then 0 else 1
  }

  lemma {:induction false} VotesCount(k: nat, i: nat, x: nat)
    requires i != x
    ensures Votes(k, i, x) == k + 1 - (if i < k then 1 else 0) - (if x < k then 1 else 0)
  {
    if k > 0 {
      VotesCount(k - 1, i, x);
    }
  }

  /** The candidate's state with that many votes. */
  function Voted(base: Raft, votes: nat): Raft
    requires base.me < |base.matchIndex|
  {
    if votes <= |base.matchIndex| / 2 then base.(voteCount := votes)
    else BecomeLeader(base.(voteCount := |base.matchIndex| / 2 + 1))
  }

  /** What candidate `base` asks every other server. */
  function Question(base: Raft): VoteArgs
    requires |base.log| >= 1
  {
    VoteArgs(base.currentTerm, base.me, |base.log| - 1, base.log[|base.log| - 1].term)
  }

  predicate Asked(f: Front, j: nat, base: Raft)
    requires |base.log| >= 1
  {
    VoteReq(j, Question(base)) in f.c.net
  }

  ghost predicate Polling(n: nat, t: nat, logs: seq<Log>, f: Front, i: nat, x: nat, k: nat, base: Raft) {
    && |f.c.nodes| == |logs| == |f.desks| == n
    && k <= n && i < n && x < n && i != x
    && base.role == Candidate && base.me == i && base.currentTerm == t + 1 && base.log == logs[i] && base.lastIncludeIndex == 0
    && |base.nextIndex| == |base.matchIndex| == n && base.voteCount == 1 && |base.log| >= 1
    && f.c.nodes[i].raft == Voted(base, Votes(k, i, x)) && Young(n, i, t + 1, logs[i], f.c.nodes[i])
    && (forall j :: k <= j < n && j != i ==> j in f.c.nodes[i].calls)
    && (forall j :: 0 <= j < k && j != i ==> Young(n, j, t + 1, logs[j], f.c.nodes[j]) && f.c.nodes[j].raft.role == Follower)
    && (forall j :: k <= j < n && j != i ==> Young(n, j, t, logs[j], f.c.nodes[j]))
    && (forall j :: 0 <= j < n && j != i ==> Asked(f, j, base))
  }

  lemma Stood(n: nat, resume: nat -> nat, f: Front, t: nat, logs: seq<Log>, lead: nat, i: nat, x: nat) returns (f': Front, base: Raft)
    requires Occurs(n, resume, f) && Scene(n, t, logs, f, lead) && i < n && x < n && i != x && i != lead && n >= 3
    ensures Occurs(n, resume, f') && f' == f.(c := f'.c) && Polling(n, t, logs, f', i, x, 0, base)
  {
    hide Occurs;
    var r := f.c.nodes[i].raft;
    base := OnTimeout(r);
    f' := GoOn(n, resume, f, Inner(Timeout(i)));
  }

  lemma VoteYoung(n: nat, j: nat, t: nat, log: Log, node: Node, va: VoteArgs)
    requires Young(n, j, t, log, node) && va.term == t + 1
    ensures var (r', reply) := OnRequestVote(node.raft, va);
            && Young(n, j, t + 1, log, node.(raft := r')) && r'.role == Follower && reply.term == t + 1
            && (reply.granted <==> va.lastLogTerm > log[|log| - 1].term || (va.lastLogTerm == log[|log| - 1].term && va.lastLogIndex >= |log| - 1))
  {
  }

  lemma VotedMore(base: Raft, votes: nat, va: VoteArgs)
    requires base.role == Candidate && base.currentTerm == va.term && base.me < |base.matchIndex| && 1 <= votes
    ensures OnVoteReply(Voted(base, votes), va, VoteReply(va.term, true)) == Voted(base, votes + 1)
  {
  }

  lemma Asks(n: nat, resume: nat -> nat, f: Front, t: nat, logs: seq<Log>, i: nat, x: nat, k: nat, base: Raft) returns (f': Front)
    requires Occurs(n, resume, f) && Polling(n, t, logs, f, i, x, k, base) && k < n
    requires k != i && k != x ==> UpToDate(logs[i], logs[k])
    ensures Occurs(n, resume, f') && f' == f.(c := f'.c) && Polling(n, t, logs, f', i, x, k + 1, base)
  {
    hide Occurs, OnRequestVote, OnVoteReply, Young, Voted;
    if k == i {
      f' := f;
    } else {
      var va := Question(base);
      assert Asked(f, k, base);
      YoungFacts(n, k, t, logs[k], f.c.nodes[k]);
      var g := GoOn(n, resume, f, Inner(Receive(VoteReq(k, va))));
      VoteYoung(n, k, t, logs[k], f.c.nodes[k], va);
      var reply := OnRequestVote(f.c.nodes[k].raft, va).1;
      assert g.c == Update(f.c, k, f.c.nodes[k].(raft := OnRequestVote(f.c.nodes[k].raft, va).0), {VoteResp(k, va, reply)});
      if k == x {
        f' := g;
      } else {
        f' := Counts(n, resume, g, i, k, va, base, Votes(k, i, x));
      }
      forall j | 0 <= j < n && j != i ensures Asked(f', j, base) {
        assert Asked(f, j, base);
      }
    }
  }

  lemma YoungFacts(n: nat, j: nat, t: nat, log: Log, node: Node)
    requires Young(n, j, t, log, node)
    ensures node.raft.InRange() && |node.raft.nextIndex| == |node.raft.matchIndex| == n && node.raft.me == j
    ensures node.raft.currentTerm == t && node.raft.log == log && |log| >= 1 && node.raft.lastIncludeIndex == 0
    ensures node.raft.commitIndex == 0
  {
  }

  lemma Counts(n: nat, resume: nat -> nat, f: Front, i: nat, k: nat, va: VoteArgs, base: Raft, votes: nat) returns (f': Front)
    requires Occurs(n, resume, f) && |f.c.nodes| == |f.desks| && i < |f.c.nodes| && va.candidate == i
    requires VoteResp(k, va, VoteReply(va.term, true)) in f.c.net && k in f.c.nodes[i].calls
    requires base.role == Candidate && base.currentTerm == va.term && base.me == i && |base.matchIndex| == n && i < n && 1 <= votes
    requires f.c.nodes[i].raft == Voted(base, votes) && Young(n, i, va.term, base.log, f.c.nodes[i])
    ensures Occurs(n, resume, f') && f' == f.(c := f'.c) && f'.c.net == f.c.net
    ensures |f'.c.nodes| == |f.c.nodes| && forall j :: 0 <= j < |f.c.nodes| && j != i ==> f'.c.nodes[j] == f.c.nodes[j]
    ensures f'.c.nodes[i].raft == Voted(base, votes + 1) && Young(n, i, va.term, base.log, f'.c.nodes[i])
    ensures forall j :: j in f.c.nodes[i].calls && j != k ==> j in f'.c.nodes[i].calls
  {
    hide Occurs, OnRequestVote, OnVoteReply, Young, Voted;
    VotedMore(base, votes, va);
    YoungFacts(n, i, va.term, base.log, f.c.nodes[i]);
    f' := GoOn(n, resume, f, Inner(Receive(VoteResp(k, va, VoteReply(va.term, true)))));
    VotedYoung(n, f.c.nodes[i], f'.c.nodes[i], base, votes, va.term);
  }

  lemma VotedYoung(n: nat, node: Node, node': Node, base: Raft, votes: nat, t: nat)
    requires base.me < |base.matchIndex| && node.raft == Voted(base, votes) && Young(n, base.me, t, base.log, node)
    requires node'.raft == Voted(base, votes + 1) && node'.outbox == node.outbox && node'.svc == node.svc
    ensures Young(n, base.me, t, base.log, node')
  {
  }

  lemma {:induction false} AsksAll(n: nat, resume: nat -> nat, f: Front, t: nat, logs: seq<Log>, i: nat, x: nat, k: nat, base: Raft) returns (f': Front)
    requires Occurs(n, resume, f) && Polling(n, t, logs, f, i, x, k, base)
    requires forall j :: k <= j < n && j != i && j != x ==> UpToDate(logs[i], logs[j])
    ensures Occurs(n, resume, f') && f' == f.(c := f'.c) && Polling(n, t, logs, f', i, x, n, base)
    decreases n - k
  {
    hide Occurs, Young, UpToDate, Voted, Asked;
    if k == n {
      f' := f;
    } else {
      var g := Asks(n, resume, f, t, logs, i, x, k, base);
      f' := AsksAll(n, resume, g, t, logs, i, x, k + 1, base);
    }
  }

  /** Server i is elected in the next term, although x refuses; all servers hear of it. */
  lemma Elected(n: nat, resume: nat -> nat, f: Front, t: nat, logs: seq<Log>, lead: nat, i: nat, x: nat) returns (f': Front)
    requires Occurs(n, resume, f) && Scene(n, t, logs, f, lead) && i < n && x < n && i != x && i != lead && n >= 3
    requires forall j :: 0 <= j < n && j != i && j != x ==> UpToDate(logs[i], logs[j])
    ensures Occurs(n, resume, f') && f' == f.(c := f'.c) && Scene(n, t + 1, logs, f', i)
    ensures var r := f'.c.nodes[i].raft;
            && r.role == Leader
            && forall p :: 0 <= p < n && p != i ==> r.nextIndex[p] == |logs[i]| && r.matchIndex[p] == 0
  {
    hide Occurs, Young, UpToDate, Asked;
    var g, base := Stood(n, resume, f, t, logs, lead, i, x);
    f' := AsksAll(n, resume, g, t, logs, i, x, 0, base);
    VotesCount(n, i, x);
  }

  // ---------- Replication ----------

  /** What leader i sends to p next, as long as nothing is compacted. */
  function Batch(r: Raft, p: nat): AppendArgs
    requires r.InRange() && r.role == Leader && p < |r.nextIndex| && r.lastIncludeIndex == 0
  {
    NextRound(r, p).append
  }

  /** The batch arrives at p. */
  lemma Arrives(n: nat, resume: nat -> nat, f: Front, i: nat, p: nat) returns (f': Front)
    requires Occurs(n, resume, f) && |f.c.nodes| == |f.desks| && i < |f.c.nodes| && p < |f.c.nodes| && p != i
    requires var r := f.c.nodes[i].raft; r.InRange() && r.role == Leader && p < |r.nextIndex| && r.lastIncludeIndex == 0
    requires f.c.nodes[p].raft.InRange()
    ensures Occurs(n, resume, f') && f' == f.(c := f'.c) && |f'.c.nodes| == |f.c.nodes| && f.c.net <= f'.c.net
    ensures var aa := Batch(f.c.nodes[i].raft, p); var (r', reply) := OnAppendEntries(f.c.nodes[p].raft, aa);
            f'.c.nodes == f.c.nodes[p := f.c.nodes[p].(raft := r')] && AppendResp(p, aa, reply) in f'.c.net
  {
    hide Occurs, OnAppendEntries;
    var aa := Batch(f.c.nodes[i].raft, p);
    var g := GoOn(n, resume, f, Inner(Replicate(i, p)));
    assert AppendReq(p, aa) in g.c.net;
    f' := GoOn(n, resume, g, Inner(Receive(AppendReq(p, aa))));
  }

  /** And p's answer arrives at i. */
  lemma Returns(n: nat, resume: nat -> nat, f: Front, i: nat, p: nat, aa: AppendArgs, reply: AppendReply) returns (f': Front)
    requires Occurs(n, resume, f) && |f.c.nodes| == |f.desks| && i < |f.c.nodes| && p < |f.c.nodes|
    requires AppendResp(p, aa, reply) in f.c.net && aa.leader == i && aa.prevIndex + |aa.entries| <= f.c.nodes[i].raft.LastIndex()
    requires f.c.nodes[i].raft.InRange() && p < |f.c.nodes[i].raft.nextIndex|
    ensures Occurs(n, resume, f') && f' == f.(c := f'.c) && f.c.net <= f'.c.net
    ensures f'.c.nodes == f.c.nodes[i := f.c.nodes[i].(raft := OnAppendReply(f.c.nodes[i].raft, p, aa, reply))]
  {
    hide Occurs, OnAppendReply;
    f' := GoOn(n, resume, f, Inner(Receive(AppendResp(p, aa, reply))));
  }

  lemma BatchFacts(n: nat, i: nat, t: nat, log: Log, node: Node, p: nat)
    requires Young(n, i, t, log, node) && node.raft.role == Leader && p < n && |log| <= MAX_BATCH
    ensures var (aa, next) := (Batch(node.raft, p), node.raft.nextIndex[p]);
            && aa == AppendArgs(t, i, next - 1, log[next - 1].term, log[next..], 0)
            && aa.prevIndex + |aa.entries| == node.raft.LastIndex() == |log| - 1 && 1 <= next <= |log|
  {
  }

  /** Where a leader with this log goes back to when a server with that log refuses the entries from
      `next` on, in the cases that these runs need. */
  ghost predicate Refuses(log: Log, theirs: Log, next: int, next': int) {
    && 1 <= |theirs| && 1 <= next <= |log|
    && if |theirs| < next then next' == |theirs|
       else
         && next >= 2 && next' == next - 1
         && theirs[next - 1].term != theirs[next - 2].term
         && forall k :: 0 <= k < |log| ==> log[k].term != theirs[next - 1].term
  }

  lemma RefusedReply(n: nat, i: nat, p: nat, t: nat, log: Log, theirs: Log, leader: Node, peer: Node, next': int)
    requires Young(n, i, t, log, leader) && leader.raft.role == Leader && p < n && |log| <= MAX_BATCH
    requires Young(n, p, t, theirs, peer) && peer.raft.role == Follower
    requires Refuses(log, theirs, leader.raft.nextIndex[p], next')
    ensures var r := leader.raft; var (r', reply) := OnAppendEntries(peer.raft, Batch(r, p));
            && r' == peer.raft && Batch(r, p).leader == i && Batch(r, p).prevIndex + |Batch(r, p).entries| <= r.LastIndex()
            && OnAppendReply(r, p, Batch(r, p), reply) == r.(nextIndex := r.nextIndex[p := next'])
  {
    BatchFacts(n, i, t, log, leader, p);
    var next := leader.raft.nextIndex[p];
    if |theirs| >= next {
      assert RunStart(theirs, next - 1) == next - 1;
      assert LastOfTerm(log, |log| - 1, theirs[next - 1].term) == -1;
    } else {
      assert LastOfTerm(log, |log| - 1, -1) >= -1;
    }
  }

  /** A round that p refuses. */
  lemma Refused(n: nat, resume: nat -> nat, f: Front, t: nat, logs: seq<Log>, i: nat, p: nat, next': int) returns (f': Front)
    requires Occurs(n, resume, f) && Scene(n, t, logs, f, i) && i < n && p < n && p != i && f.c.nodes[i].raft.role == Leader
    requires |logs[i]| <= MAX_BATCH && Refuses(logs[i], logs[p], f.c.nodes[i].raft.nextIndex[p], next')
    ensures Occurs(n, resume, f') && f' == f.(c := f'.c) && Scene(n, t, logs, f', i) && f.c.net <= f'.c.net
    ensures var r := f.c.nodes[i].raft;
            f'.c.nodes == f.c.nodes[i := f.c.nodes[i].(raft := r.(nextIndex := r.nextIndex[p := next']))]
  {
    hide Occurs, OnAppendEntries, OnAppendReply, Batch;
    RefusedReply(n, i, p, t, logs[i], logs[p], f.c.nodes[i], f.c.nodes[p], next');
    var aa := Batch(f.c.nodes[i].raft, p);
    var reply := OnAppendEntries(f.c.nodes[p].raft, aa).1;
    var g := Arrives(n, resume, f, i, p);
    assert g.c.nodes == f.c.nodes;
    f' := Returns(n, resume, g, i, p, aa, reply);
  }

  lemma TakesAll(log: Log, theirs: Log)
    requires |log| >= 2 && |theirs| >= 1 && theirs[0] == log[0] && (|theirs| >= 2 ==> theirs[1].term != log[1].term)
    ensures TakeOver(theirs, 0, 0, log[1..]) == log
  {
    var es := log[1..];
    assert [log[0]] + es == log && es[0..] == es;
    if |theirs| >= 2 {
      assert FirstConflict(theirs, 0, 0, es, 0) == 0;
      assert theirs[..1] == [log[0]];
    } else {
      assert FirstConflict(theirs, 0, 0, es, 0) == |es|;
      assert theirs == [log[0]];
    }
  }

  /** From `next` on, which is 1, the server takes over the leader's log. */
  lemma CopiedReply(n: nat, i: nat, p: nat, t: nat, log: Log, theirs: Log, leader: Node, peer: Node)
    requires Young(n, i, t, log, leader) && leader.raft.role == Leader && p < n && 2 <= |log| <= MAX_BATCH
    requires Young(n, p, t, theirs, peer) && peer.raft.role == Follower && leader.raft.nextIndex[p] == 1
    requires theirs[0] == log[0] && (|theirs| >= 2 ==> theirs[1].term != log[1].term)
    ensures var r := leader.raft; var (r', reply) := OnAppendEntries(peer.raft, Batch(r, p));
            && Young(n, p, t, log, peer.(raft := r')) && r'.role == Follower && reply.success && reply.term == t
            && Batch(r, p) == AppendArgs(t, i, 0, log[0].term, log[1..], 0)
  {
    hide TakeOver, NextRound;
    BatchFacts(n, i, t, log, leader, p);
    TakesAll(log, theirs);
    assert Matches(peer.raft, Batch(leader.raft, p));
  }

  lemma Copied(n: nat, resume: nat -> nat, f: Front, t: nat, logs: seq<Log>, i: nat, p: nat) returns (f': Front, reply: AppendReply)
    requires Occurs(n, resume, f) && Scene(n, t, logs, f, i) && i < n && p < n && p != i && f.c.nodes[i].raft.role == Leader
    requires 2 <= |logs[i]| <= MAX_BATCH && f.c.nodes[i].raft.nextIndex[p] == 1
    requires logs[p][0] == logs[i][0] && (|logs[p]| >= 2 ==> logs[p][1].term != logs[i][1].term)
    ensures Occurs(n, resume, f') && f' == f.(c := f'.c) && Scene(n, t, logs[p := logs[i]], f', i) && f.c.net <= f'.c.net
    ensures f'.c.nodes[i] == f.c.nodes[i] && reply.success && reply.term == t
    ensures AppendResp(p, AppendArgs(t, i, 0, logs[i][0].term, logs[i][1..], 0), reply) in f'.c.net
  {
    hide Occurs, OnAppendEntries, Batch;
    CopiedReply(n, i, p, t, logs[i], logs[p], f.c.nodes[i], f.c.nodes[p]);
    reply := OnAppendEntries(f.c.nodes[p].raft, Batch(f.c.nodes[i].raft, p)).1;
    f' := Arrives(n, resume, f, i, p);
  }
}
