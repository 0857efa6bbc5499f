/**
 The server of the Raft paper (its figure 2), which never compacts its log, said as rules: what a
 message or a decision of a server comes to, in terms of its whole log. `ClusterPaper` proves that the
 compacting servers of `Cluster` keep these rules, whatever they have cut off.
 */
module PaperRaft {
  import opened RaftTypes
  import opened RaftState

  datatype Paper = Paper(
    me: nat, term: nat, voted: int, role: Role, votes: nat,
    log: Log, commit: nat, next: seq<int>, matched: seq<int>)

  /** A server whose whole log is x. */
  function View(r: Raft, x: Log): Paper {
    Paper(r.me, r.currentTerm, r.votedFor, r.role, r.voteCount, x, r.commitIndex, r.nextIndex, r.matchIndex)
  }

  /** What only concerns snapshots and the service is the same. */
  predicate SameStore(r: Raft, r': Raft) {
    && r'.lastIncludeIndex == r.lastIncludeIndex && r'.lastIncludeTerm == r.lastIncludeTerm && r'.snapshot == r.snapshot
    && r'.applyIndex == r.applyIndex && r'.pendingSnapshot == r.pendingSnapshot
    && r'.pendingIndex == r.pendingIndex && r'.pendingTerm == r.pendingTerm
  }

  // ---------- Elections ----------

  /** The log that is asked with does not end before x does: first by term, then by length. */
  predicate NotBehind(a: VoteArgs, x: Log)
    requires |x| >= 1
  {
    var end := |x| - 1;
    x[end].term < a.lastLogTerm || (x[end].term == a.lastLogTerm && end <= a.lastLogIndex)
  }

  predicate VoteRule(p: Paper, a: VoteArgs, p': Paper, reply: VoteReply) {
    && |p.log| >= 1
    && (reply.granted <==>
          p.term <= a.term && (p.term == a.term ==> p.voted == -1 || p.voted == a.candidate) && NotBehind(a, p.log))
    && reply.term == p'.term
    && p' == p.(term := Max(p.term, a.term),
                voted := if reply.granted then a.candidate else if p.term < a.term then -1 else p.voted,
                role := if reply.granted || p.term < a.term then Follower else p.role)
  }

  /** A candidate of the next term, with its own vote, and what it asks all others. */
  predicate StandRule(p: Paper, p': Paper, a: VoteArgs) {
    && |p.log| >= 1
    && p' == p.(term := p.term + 1, voted := p.me, role := Candidate, votes := 1)
    && a == VoteArgs(p.term + 1, p.me, |p.log| - 1, p.log[|p.log| - 1].term)
  }

  /** The vote that makes a majority makes a leader, which expects everybody to have its log. */
  predicate CountRule(p: Paper, a: VoteArgs, reply: VoteReply, p': Paper) {
    var counts := p.role == Candidate && p.term == a.term == reply.term && reply.granted && 2 * p.votes <= |p.matched|;
    if p.term < reply.term then p' == p.(term := reply.term, voted := -1, role := Follower)
    else if !counts then p' == p
    else if 2 * (p.votes + 1) <= |p.matched| then p' == p.(votes := p.votes + 1)
    else
      && p' == p.(votes := p.votes + 1, role := Leader, next := p'.next, matched := p'.matched)
      && |p'.next| == |p.next| && |p'.matched| == |p.matched|
      && (forall k :: 0 <= k < |p'.next| ==> p'.next[k] == |p.log|)
      && (forall k :: 0 <= k < |p'.matched| ==> p'.matched[k] == if k == p.me then |p.log| - 1 else 0)
  }

  // ---------- Replication ----------

  /** The log with `es` behind prev: it stays if it has them already, else it ends with them. */
  function Merged(log: Log, prev: nat, es: Log): Log
    requires prev < |log|
  {
    var y := log[..prev + 1] + es;
    if y <= log then log else y
  }

  predicate AppendRule(p: Paper, a: AppendArgs, p': Paper, reply: AppendReply) {
    && (reply.success <==> p.term <= a.term && a.prevIndex < |p.log| && p.log[a.prevIndex].term == a.prevTerm)
    && reply.term == p'.term
    && p' == p.(term := Max(p.term, a.term),
                voted := if p.term < a.term then -1 else p.voted,
                role := if p.term <= a.term then Follower else p.role,
                log := if reply.success then Merged(p.log, a.prevIndex, a.entries) else p.log,
                commit := if reply.success then Max(p.commit, Min(a.leaderCommit, a.prevIndex + |a.entries|)) else p.commit)
  }

  /** What a refusal says: where the log ends, or whose entry is at the mismatch and where the run of that
      term starts, as far back as the server still has it (from `kept` on). */
  predicate HintRule(log: Log, kept: nat, a: AppendArgs, reply: AppendReply) {
    && reply.xLen == |log|
    && if |log| <= a.prevIndex then reply.xTerm == -1
       else
         && reply.xTerm == log[a.prevIndex].term && kept <= reply.xIndex <= a.prevIndex
         && (forall k :: reply.xIndex <= k <= a.prevIndex ==> log[k].term == reply.xTerm)
         && (reply.xIndex > kept ==> log[reply.xIndex - 1].term != reply.xTerm)
  }

  /** What the leader sends to a peer that is not behind its snapshot: at most one batch of entries. */
  predicate RoundRule(p: Paper, peer: nat, a: AppendArgs) {
    && peer < |p.next| && 1 <= p.next[peer] <= |p.log|
    && var next := p.next[peer];
    a == AppendArgs(p.term, p.me, next - 1, p.log[next - 1].term, p.log[next..Min(|p.log|, next + MAX_BATCH)], p.commit)
  }

  /** Half of the servers have the entry at j: the leader itself, and those that have said so. */
  ghost predicate HalfHave(me: nat, matched: seq<int>, j: int) {
    2 * |set q: nat | q < |matched| && (q == me || matched[q] >= j)| >= |matched|
  }

  /** An entry of the leader's own term that half of the servers have. */
  ghost predicate Settled(p: Paper, matched: seq<int>, j: int) {
    0 <= j < |p.log| && p.log[j].term == p.term && HalfHave(p.me, matched, j)
  }

  ghost predicate UnderSettled(p: Paper, matched: seq<int>, k: int) {
    exists j :: k <= j && Settled(p, matched, j)
  }

  /** The leader commits exactly up to the last such entry, and never less than before. */
  ghost predicate CommitRule(p: Paper, matched: seq<int>, commit: nat) {
    forall k: nat {:trigger UnderSettled(p, matched, k)} :: k <= commit <==> k <= p.commit || UnderSettled(p, matched, k)
  }

  /** A peer has confirmed the entries up to an index. */
  ghost predicate ConfirmRule(p: Paper, peer: nat, upTo: nat, p': Paper) {
    && peer < |p.matched| == |p.next|
    && var m := Max(upTo, p.matched[peer]);
    && p' == p.(matched := p.matched[peer := m], next := p.next[peer := m + 1], commit := p'.commit)
    && CommitRule(p, p'.matched, p'.commit)
  }

  /** A peer has refused: the leader goes back behind its own last entry of the peer's term, if it still
      has one (behind `kept`), else to the start of that term at the peer, else to the peer's end; but
      not before what it can send, and not beyond its end. */
  ghost predicate BackRule(p: Paper, kept: nat, peer: nat, reply: AppendReply, p': Paper) {
    && peer < |p.next|
    && exists want: int ::
         && GoesBackTo(p.log, kept, reply, want)
         && p' == p.(next := p.next[peer := Min(Max(want, Max(1, kept)), |p.log|)])
  }

  ghost predicate GoesBackTo(log: Log, kept: nat, reply: AppendReply, want: int) {
    if reply.xTerm == -1 then want == reply.xLen
    else if exists k :: kept < k < |log| && log[k].term == reply.xTerm
    then kept + 1 < want <= |log| && log[want - 1].term == reply.xTerm
         && forall k :: want <= k < |log| ==> log[k].term != reply.xTerm
    else want == reply.xIndex
  }

  ghost predicate AppendReplyRule(p: Paper, kept: nat, peer: nat, a: AppendArgs, reply: AppendReply, p': Paper) {
    if p.role != Leader || p.term != a.term then p' == p
    else if p.term < reply.term then p' == p.(term := reply.term, voted := -1, role := Follower)
    else if reply.success then ConfirmRule(p, peer, a.prevIndex + |a.entries|, p')
    else BackRule(p, kept, peer, reply, p')
  }

  // ---------- Snapshots ----------

  /** A snapshot of the first entries of log y replaces a log that does not have them. */
  predicate InstallRule(p: Paper, a: InstallArgs, y: Log, p': Paper, reply: InstallReply) {
    var takes := p.term <= a.term && p.commit < a.lastIndex;
    && a.lastIndex < |y| && y[a.lastIndex].term == a.lastTerm
    && (reply.success <==> p.term <= a.term)
    && reply.term == p'.term
    && p' == p.(term := Max(p.term, a.term),
                voted := if p.term < a.term then -1 else p.voted,
                role := if p.term <= a.term then Follower else p.role,
                log := if takes && !(a.lastIndex < |p.log| && p.log[a.lastIndex].term == a.lastTerm) then y[..a.lastIndex + 1] else p.log,
                commit := if takes then a.lastIndex else p.commit)
  }

  ghost predicate InstallReplyRule(p: Paper, peer: nat, a: InstallArgs, reply: InstallReply, p': Paper) {
    if p.role != Leader || p.term != a.term then p' == p
    else if p.term < reply.term then p' == p.(term := reply.term, voted := -1, role := Follower)
    else if reply.success then ConfirmRule(p, peer, a.lastIndex, p')
    else p' == p
  }
}
