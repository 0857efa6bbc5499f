/**
 What relates the servers of `Cluster` to the protocol history of `LogHistory`: each server's
 compacted log is a suffix of its full log in the history, each message quotes the log of the
 leader that sent it, and everything committed, snapshotted, sent or applied is sealed.
 */
module ClusterInv {
  import opened KvStore
  import opened RaftTypes
  import opened RaftState
  import opened Quorum
  import opened LogHistory
  import opened Cluster

  // ---------- One server ----------

  /** The server's log is the part of the full log x from lastIncludeIndex on; of the entry at
      lastIncludeIndex itself only the term is kept for sure. */
  ghost predicate LogIs(r: Raft, x: Log) {
    (&& |r.log| >= 1 && |x| == |r.log| + r.lastIncludeIndex
     && r.log[0].term == x[r.lastIncludeIndex].term == r.lastIncludeTerm
     && forall k :: 1 <= k < |r.log| ==> r.log[k] == x[r.lastIncludeIndex + k]) == true
  }

  ghost predicate VoteOk(h: History, i: nat, r: Raft) {
    if r.votedFor == -1 then At(i, r.currentTerm) !in h.vote
    else At(i, r.currentTerm) in h.vote && h.vote[At(i, r.currentTerm)] == r.votedFor
  }

  /** What is on disk is what the server would need after a crash, at every moment. */
  ghost predicate DiskOk(r: Raft) {
    match r.disk
    case None =>
      r.currentTerm == 0 && r.votedFor == -1 && r.log == [SENTINEL] && r.lastIncludeIndex == 0
      && r.lastIncludeTerm == 0 && r.snapshot == NoSnap
    case Some(d) =>
      d == Disk(r.currentTerm, r.votedFor, r.log, r.lastIncludeIndex, r.lastIncludeTerm, r.snapshot)
  }

  ghost predicate RoleOk(h: History, i: nat, r: Raft)
    requires i < |h.srv|
  {
    match r.role
    case Follower => true
    case Candidate =>
      && At(i, r.currentTerm) in h.cand && h.cand[At(i, r.currentTerm)] == h.srv[i].log
      && (r.currentTerm in h.led ==> h.led[r.currentTerm].leader != i)
    case Leader =>
      && r.currentTerm in h.led && h.led[r.currentTerm].leader == i
      && forall p :: 0 <= p < |r.matchIndex| && p != i ==> r.matchIndex[p] <= AckOf(h, p, r.currentTerm)
  }

  /** A server's Raft state. A candidate asked for votes with the log it has and is not the
      leader yet; a leader only counts what its followers have confirmed. */
  ghost predicate RaftOk(h: History, i: nat, r: Raft) {
    (&& i < |h.srv| && r.me == i && |r.nextIndex| == h.n && r.InRange()
     && r.currentTerm == h.srv[i].term && LogIs(r, h.srv[i].log)
     && VoteOk(h, i, r) && DiskOk(r) && RoleOk(h, i, r)
     && Sealed(h, h.srv[i].log, r.commitIndex + 1, r.currentTerm)) == true
  }

  /** Servers that voted for candidate i and whose RequestVote call has returned. */
  ghost function Tally(h: History, i: nat, t: nat, calls: set<nat>): set<nat> {
    set v | v in Peers(h.n) && v !in calls && At(v, t) in h.vote && h.vote[At(v, t)] == i
  }

  /** The index the service will have reached once it has consumed the outbox. */
  function End(node: Node): nat {
    if node.outbox == [] then node.svc.pos
    else if node.outbox[0].SnapshotMsg? then node.outbox[0].index
    else node.svc.pos + |node.outbox|
  }

  /** A snapshot that covers exactly the entries up to index k of x. */
  ghost predicate Encodes(data: Snap, x: Log, k: nat) {
    k < |x| && data == Snap(Replay(x, k + 1))
  }

  /** Messages in flight continue the service's position without gap or repetition. */
  ghost predicate OutboxOk(node: Node, x: Log) {
    && (forall k :: 0 <= k < |node.outbox| && node.outbox[k].CommandMsg? ==>
          && node.outbox[k].index == node.svc.pos + 1 + k < |x|
          && node.outbox[k].cmd == x[node.outbox[k].index].cmd)
    && (forall k :: 0 <= k < |node.outbox| && node.outbox[k].SnapshotMsg? ==>
          && |node.outbox| == 1 && node.svc.pos < node.outbox[k].index
          && Encodes(node.outbox[k].data, x, node.outbox[k].index))
  }

  /** The service state is the replay of the log up to the service's position, and so is every
      snapshot; a pending snapshot is ahead of everything in flight. */
  ghost predicate ServiceOk(node: Node, x: Log) {
    var r, v := node.raft, node.svc;
    (&& r.applyIndex < |x| && v.pos < |x|
     && v.sm == Replay(x, v.pos + 1)
     && v.lastApplied <= v.pos <= End(node) <= r.applyIndex
     && (v.saving.Some? ==> v.saving.value.0 <= v.pos && Encodes(v.saving.value.1, x, v.saving.value.0))
     && OutboxOk(node, x)
     && (if r.pendingSnapshot == NoSnap then End(node) == r.applyIndex
         else End(node) < r.pendingIndex == r.applyIndex && Encodes(r.pendingSnapshot, x, r.pendingIndex))
     && (if r.lastIncludeIndex == 0 then r.snapshot == NoSnap
         else Encodes(r.snapshot, x, r.lastIncludeIndex))) == true
  }

  /** A candidate has not counted more votes than it was given in calls that returned. */
  ghost predicate NodeOk(h: History, i: nat, node: Node) {
    (&& RaftOk(h, i, node.raft) && ServiceOk(node, h.srv[i].log)
     && (node.raft.role == Candidate ==>
           node.raft.voteCount <= |Tally(h, i, node.raft.currentTerm, node.calls)|)) == true
  }

  // ---------- Messages ----------

  /** The message carries the entries of log x behind prevIndex. */
  ghost predicate Quotes(a: AppendArgs, x: Log) {
    && a.prevIndex + |a.entries| < |x| && x[a.prevIndex].term == a.prevTerm
    && forall k :: 0 <= k < |a.entries| ==> a.entries[k] == x[a.prevIndex + 1 + k]
  }

  ghost predicate AppendOk(h: History, a: AppendArgs) {
    (&& a.term in h.led && h.led[a.term].leader == a.leader
     && var x := h.led[a.term].log;
     && Quotes(a, x)
     && Sealed(h, x, Min(a.leaderCommit, a.prevIndex + |a.entries|) + 1, a.term)) == true
  }

  ghost predicate InstallOk(h: History, a: InstallArgs) {
    (&& a.term in h.led && h.led[a.term].leader == a.leader
     && var x := h.led[a.term].log;
     && 1 <= a.lastIndex < |x| && x[a.lastIndex].term == a.lastTerm
     && Encodes(a.data, x, a.lastIndex)
     && Sealed(h, x, a.lastIndex + 1, a.term)) == true
  }

  /** A rejection comes from a later term, or says that the follower's log ends before prevIndex,
      or that it has an entry of another term there, and where the run of that term starts. */
  ghost predicate RejectOk(h: History, a: AppendArgs, reply: AppendReply) {
    (|| reply.term > a.term
     || (reply.xTerm == -1 && reply.xLen <= a.prevIndex && 1 <= a.prevIndex)
     || (&& 1 <= a.prevIndex && 1 <= reply.xTerm != a.prevTerm && reply.xIndex <= a.prevIndex
         && reply.xTerm in h.led && a.prevIndex < |h.led[reply.xTerm].log|
         && h.led[reply.xTerm].log[a.prevIndex].term == reply.xTerm)) == true
  }

  ghost predicate MsgOk(h: History, m: Msg) {
    (match m
     case VoteReq(to, va) =>
       && to < h.n && to != va.candidate && At(va.candidate, va.term) in h.cand
       && var c := h.cand[At(va.candidate, va.term)];
       && |c| >= 1 && va.lastLogIndex == |c| - 1 && va.lastLogTerm == c[|c| - 1].term
     case VoteResp(from, va, vr) =>
       && from < h.n && va.candidate < h.n
       && (vr.granted ==>
             vr.term == va.term && At(from, va.term) in h.vote && h.vote[At(from, va.term)] == va.candidate)
     case AppendReq(to, aa) => to < h.n && to != aa.leader && AppendOk(h, aa)
     case AppendResp(from, aa, ar) =>
       && from < h.n && from != aa.leader && AppendOk(h, aa)
       && if ar.success then aa.prevIndex + |aa.entries| <= AckOf(h, from, aa.term) else RejectOk(h, aa, ar)
     case InstallReq(to, ia) => to < h.n && to != ia.leader && InstallOk(h, ia)
     case InstallResp(from, ia, ir) =>
       && from < h.n && from != ia.leader && InstallOk(h, ia)
       && (ir.success ==> ia.lastIndex <= AckOf(h, from, ia.term))) == true
  }

  /** The command is at its index in a committed prefix. */
  ghost predicate AppliedOk(h: History, a: Applied) {
    exists t: nat, n: nat :: Committed(h, t, n) && a.index <= n && h.led[t].log[a.index].cmd == a.cmd
  }

  ghost predicate Ok(s: Sys, h: History) {
    (&& |s.nodes| == h.n && Inv(h)
    && (forall i {:trigger NodeOk(h, i, s.nodes[i])} :: 0 <= i < |s.nodes| ==> NodeOk(h, i, s.nodes[i]))
    && (forall m {:trigger MsgOk(h, m)} :: m in s.net ==> MsgOk(h, m))
    && (forall a {:trigger AppliedOk(h, a)} :: a in s.applied ==> AppliedOk(h, a))) == true
  }

  lemma NodeFact(s: Sys, h: History, i: nat)
    requires Ok(s, h) && i < |s.nodes|
    ensures NodeOk(h, i, s.nodes[i]) && RaftOk(h, i, s.nodes[i].raft)
    ensures ServiceOk(s.nodes[i], h.srv[i].log)
  {
    assert NodeOk(h, i, s.nodes[i]);
  }

  lemma MsgFact(s: Sys, h: History, m: Msg)
    requires Ok(s, h) && m in s.net
    ensures MsgOk(h, m)
  {
    assert MsgOk(h, m);
  }

  // ---------- What a growing history keeps ----------

  /** Nothing happened to server j. */
  ghost predicate Untouched(h: History, h': History, j: nat) {
    && j < |h.srv| && j < |h'.srv| && h'.srv[j] == h.srv[j]
    && (forall t: nat :: At(j, t) in h'.vote ==> At(j, t) in h.vote)
    && (forall t :: t in h'.led && t !in h.led ==> h'.led[t].leader != j)
  }

  lemma RaftFrame(h: History, h': History, j: nat, r: Raft)
    requires RaftOk(h, j, r) && Grows(h, h') && Untouched(h, h', j)
    ensures RaftOk(h', j, r)
  {
    SealedGrows(h, h', h.srv[j].log, r.commitIndex + 1, r.currentTerm, h'.srv[j].log, r.currentTerm);
    if r.currentTerm in h.led {
      assert ReignGrows(h.led[r.currentTerm], h'.led[r.currentTerm], r.currentTerm);
    }
  }

  lemma TallyGrows(h: History, h': History, i: nat, t: nat, calls: set<nat>)
    requires Grows(h, h')
    ensures |Tally(h, i, t, calls)| <= |Tally(h', i, t, calls)|
  {
    SubsetSize(Tally(h, i, t, calls), Tally(h', i, t, calls));
  }

  lemma NodeFrame(h: History, h': History, j: nat, node: Node)
    requires NodeOk(h, j, node) && Grows(h, h') && Untouched(h, h', j)
    ensures NodeOk(h', j, node)
  {
    RaftFrame(h, h', j, node.raft);
    TallyGrows(h, h', j, node.raft.currentTerm, node.calls);
  }

  lemma AppendFrame(h: History, h': History, a: AppendArgs)
    requires AppendOk(h, a) && Grows(h, h')
    ensures AppendOk(h', a)
  {
    assert ReignGrows(h.led[a.term], h'.led[a.term], a.term);
    SealedGrows(h, h', h.led[a.term].log, Min(a.leaderCommit, a.prevIndex + |a.entries|) + 1, a.term,
                h'.led[a.term].log, a.term);
  }

  lemma ReplaySame(x: Log, y: Log, c: nat)
    requires Agree(x, y, c)
    ensures forall k: nat :: k <= c ==> Replay(x, k) == Replay(y, k)
  {
    forall k: nat | k <= c ensures Replay(x, k) == Replay(y, k) {
      ReplayAgrees(x, y, k);
    }
  }

  lemma InstallFrame(h: History, h': History, a: InstallArgs)
    requires InstallOk(h, a) && Grows(h, h')
    ensures InstallOk(h', a)
  {
    var x, x' := h.led[a.term].log, h'.led[a.term].log;
    assert ReignGrows(h.led[a.term], h'.led[a.term], a.term);
    ReplayAgrees(x, x', a.lastIndex + 1);
    SealedGrows(h, h', x, a.lastIndex + 1, a.term, x', a.term);
  }

  lemma RejectFrame(h: History, h': History, a: AppendArgs, reply: AppendReply)
    requires RejectOk(h, a, reply) && Grows(h, h')
    ensures RejectOk(h', a, reply)
  {
    var x := reply.xTerm;
    if x >= 0 && x as nat in h.led {
      assert ReignGrows(h.led[x], h'.led[x], x);
    }
  }

  lemma MsgFrame(h: History, h': History, m: Msg)
    requires MsgOk(h, m) && Grows(h, h')
    ensures MsgOk(h', m)
  {
    match m
    case AppendReq(_, aa) => AppendFrame(h, h', aa);
    case AppendResp(_, aa, ar) =>
      AppendFrame(h, h', aa);
      if !ar.success { RejectFrame(h, h', aa, ar); }
    case InstallReq(_, ia) => InstallFrame(h, h', ia);
    case InstallResp(_, ia, _) => InstallFrame(h, h', ia);
    case _ =>
  }

  lemma AppliedFrame(h: History, h': History, a: Applied)
    requires AppliedOk(h, a) && Grows(h, h')
    ensures AppliedOk(h', a)
  {
    var t: nat, n: nat :| Committed(h, t, n) && a.index <= n && h.led[t].log[a.index].cmd == a.cmd;
    CommittedGrows(h, h', t, n);
    assert ReignGrows(h.led[t], h'.led[t], t);
  }

  /** A step of server i that gets from h to h' and leaves the others alone. */
  ghost predicate Moves(h: History, h': History, i: nat) {
    (&& Inv(h') && Grows(h, h')
     && forall j {:trigger Untouched(h, h', j)} :: 0 <= j < |h.srv| && j != i ==> Untouched(h, h', j)) == true
  }

  /** It is right if it leaves server i, and what it sends, right. */
  lemma StepOk(s: Sys, h: History, h': History, i: nat, node: Node, sent: set<Msg>)
    requires Ok(s, h) && Moves(h, h', i) && i < |s.nodes|
    requires NodeOk(h', i, node) && forall m :: m in sent ==> MsgOk(h', m)
    ensures Ok(Update(s, i, node, sent), h')
  {
    var s' := Update(s, i, node, sent);
    forall j | 0 <= j < |s'.nodes| ensures NodeOk(h', j, s'.nodes[j]) {
      if j != i {
        NodeFact(s, h, j);
        assert Untouched(h, h', j);
        NodeFrame(h, h', j, s.nodes[j]);
      }
    }
    forall m | m in s'.net ensures MsgOk(h', m) {
      if m !in sent {
        MsgFact(s, h, m);
        MsgFrame(h, h', m);
      }
    }
    forall a | a in s'.applied ensures AppliedOk(h', a) {
      assert AppliedOk(h, a);
      AppliedFrame(h, h', a);
    }
  }
}
