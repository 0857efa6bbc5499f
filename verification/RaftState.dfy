/**
 The state of one Raft server and what each of its critical sections does to it: the
 specification of the methods of `RaftServer`, and the local steps of `Cluster`.
 `log[0]` stands for the entry at `lastIncludeIndex`, the last one the snapshot covers.
 */
module RaftState {
  import opened RaftTypes

  datatype Option<T> = None | Some(value: T)

  datatype Role = Follower | Candidate | Leader

  /** What `persist` saves, in one atomic write together with the snapshot. */
  datatype Disk = Disk(term: nat, votedFor: int, log: Log,
                       lastIncludeIndex: nat, lastIncludeTerm: nat, snapshot: Snap)

  const MAX_BATCH := 64

  datatype Raft = Raft(
    me: nat,
    currentTerm: nat,
    votedFor: int,                // -1 for nobody
    role: Role,
    voteCount: nat,
    log: Log,
    commitIndex: nat,
    applyIndex: nat,
    nextIndex: seq<int>,
    matchIndex: seq<int>,
    lastIncludeIndex: nat,
    lastIncludeTerm: nat,
    snapshot: Snap,
    pendingSnapshot: Snap,        // waiting to be sent to the service
    pendingIndex: nat,
    pendingTerm: nat,
    disk: Option<Disk>)
  {
    /** Index of the last entry. */
    function LastIndex(): int { |log| + lastIncludeIndex - 1 }

    function LastTerm(): nat
      requires |log| >= 1
    {
      log[|log| - 1].term
    }

    /** The entry at index i of the uncompacted log. */
    function EntryAt(i: int): Entry
      requires lastIncludeIndex <= i <= LastIndex()
    {
      log[i - lastIncludeIndex]
    }

    function Persist(): Raft {
      this.(disk := Some(Disk(currentTerm, votedFor, log, lastIncludeIndex, lastIncludeTerm, snapshot)))
    }

    /** Adopt a newer term: no vote in it yet, not a leader or candidate any more. */
    function Newer(t: nat): Raft {
      this.(currentTerm := t, votedFor := -1, role := Follower).Persist()
    }

    /** Every index the server uses lies in the part of the log that it still has. */
    predicate InRange() {
      && |log| >= 1
      && lastIncludeIndex <= applyIndex <= commitIndex <= LastIndex()
      && me < |nextIndex| == |matchIndex|
      && (role == Leader ==>
            forall p :: 0 <= p < |nextIndex| ==>
              1 <= nextIndex[p] <= LastIndex() + 1 && 0 <= matchIndex[p] <= LastIndex())
    }
  }

  // ---------- RequestVote ----------

  function OnRequestVote(r: Raft, a: VoteArgs): (Raft, VoteReply)
    requires |r.log| >= 1
  {
    if a.term < r.currentTerm then
      (r, VoteReply(r.currentTerm, false))
    else
      var r1 := if a.term > r.currentTerm then r.Newer(a.term) else r;
      var upToDate := a.lastLogTerm > r1.LastTerm()
                      || (a.lastLogTerm == r1.LastTerm() && a.lastLogIndex >= r1.LastIndex());
      if (r1.votedFor == -1 || r1.votedFor == a.candidate) && upToDate then
        (r1.(votedFor := a.candidate, role := Follower).Persist(), VoteReply(a.term, true))
      else
        (r1, VoteReply(a.term, false))
  }

  // ---------- AppendEntries ----------

  /** Position in `es`, from k on, of the first entry whose term differs from the log's entry
      at the same index; |es| if there is none. */
  function FirstConflict(log: Log, lii: nat, prev: nat, es: seq<Entry>, k: nat): (c: nat)
    requires |log| >= 1 && k <= |es| && lii <= prev + k
    ensures k <= c <= |es|
    ensures c < |es| ==> prev + 1 + c - lii < |log| && log[prev + 1 + c - lii].term != es[c].term
    ensures forall j :: k <= j < c && prev + 1 + j - lii < |log| ==> log[prev + 1 + j - lii].term == es[j].term
    decreases |es| - k
  {
    if k == |es| || prev + 1 + k - lii >= |log| then |es|
    else if log[prev + 1 + k - lii].term != es[k].term then k
    else FirstConflict(log, lii, prev, es, k + 1)
  }

  /** The log after taking over `es` behind index `prev`: cut at the first conflict, then
      extended if `es` reaches further. What the snapshot covers is not compared. */
  function TakeOver(log: Log, lii: nat, prev: nat, es: seq<Entry>): Log
    requires |log| >= 1 && prev <= |log| + lii - 1
  {
    var k0 := Max(0, lii - prev);
    if |es| <= k0 then log
    else
      var c := FirstConflict(log, lii, prev, es, k0);
      var kept := if c < |es| then log[..prev + 1 + c - lii] else log;
      var last := |kept| + lii - 1;
      if last < prev + |es| then kept + es[last - prev..] else kept
  }

  /** Position of the first entry of the run of equal terms that ends at p. */
  function RunStart(log: Log, p: nat): (q: nat)
    requires p < |log|
    ensures q <= p && forall j :: q <= j <= p ==> log[j].term == log[p].term
    ensures q > 0 ==> log[q - 1].term != log[p].term
  {
    if p > 0 && log[p - 1].term == log[p].term then RunStart(log, p - 1) else p
  }

  /** A server that hears from the leader of a term at least its own. */
  function Followed(r: Raft, t: nat): Raft {
    if t > r.currentTerm then r.Newer(t) else r.(role := Follower)
  }

  /** The consistency check; there is nothing to compare inside the snapshot. */
  predicate Matches(r: Raft, a: AppendArgs)
    requires |r.log| >= 1
  {
    && a.prevIndex <= r.LastIndex()
    && (a.prevIndex >= r.lastIncludeIndex ==> r.EntryAt(a.prevIndex).term == a.prevTerm)
  }

  function Accepted(r: Raft, a: AppendArgs): Raft
    requires |r.log| >= 1 && Matches(r, a)
  {
    var r1 := if |a.entries| == 0 then r
              else r.(log := TakeOver(r.log, r.lastIncludeIndex, a.prevIndex, a.entries)).Persist();
    if a.leaderCommit > r1.commitIndex
    then r1.(commitIndex := Max(r1.commitIndex, Min(a.leaderCommit, a.prevIndex + |a.entries|)))
    else r1
  }

  /** How a follower describes the mismatch, so that the leader can skip a whole term. */
  function Rejection(r: Raft, a: AppendArgs): AppendReply
    requires |r.log| >= 1 && !Matches(r, a)
  {
    if a.prevIndex > r.LastIndex() then
      AppendReply(r.currentTerm, false, -1, -1, r.LastIndex() + 1)
    else
      var p := a.prevIndex - r.lastIncludeIndex;
      AppendReply(r.currentTerm, false, r.log[p].term, RunStart(r.log, p) + r.lastIncludeIndex, r.LastIndex() + 1)
  }

  function OnAppendEntries(r: Raft, a: AppendArgs): (Raft, AppendReply)
    requires |r.log| >= 1
  {
    if a.term < r.currentTerm then
      (r, AppendReply(r.currentTerm, false, -1, -1, r.LastIndex() + 1))
    else
      var r1 := Followed(r, a.term);
      if !Matches(r1, a) then (r1, Rejection(r1, a))
      else (Accepted(r1, a), AppendReply(a.term, true, -1, -1, r.LastIndex() + 1))
  }

  // ---------- InstallSnapshot ----------

  /** A snapshot that reaches behind everything known to be committed here replaces what it
      covers; the log behind it stays if the entry it ends with is there (section 7). */
  function Installed(r: Raft, a: InstallArgs): Raft
    requires |r.log| >= 1 && a.lastIndex > r.lastIncludeIndex
  {
    var log' := if r.LastIndex() >= a.lastIndex && r.EntryAt(a.lastIndex).term == a.lastTerm
                then r.log[a.lastIndex - r.lastIncludeIndex..]
                else [Entry(a.lastTerm, Nil)];
    r.(log := log',
       lastIncludeIndex := a.lastIndex,
       lastIncludeTerm := a.lastTerm,
       snapshot := a.data,
       applyIndex := Max(r.applyIndex, a.lastIndex),
       commitIndex := Max(r.commitIndex, a.lastIndex),
       pendingSnapshot := a.data,
       pendingIndex := a.lastIndex,
       pendingTerm := a.lastTerm).Persist()
  }

  function OnInstallSnapshot(r: Raft, a: InstallArgs): (Raft, InstallReply)
    requires |r.log| >= 1
  {
    if a.term < r.currentTerm then
      (r, InstallReply(r.currentTerm, false))
    else
      var r1 := Followed(r, a.term);
      if a.lastIndex <= r1.lastIncludeIndex || a.lastIndex <= r1.commitIndex then
        (r1, InstallReply(a.term, true))
      else
        (Installed(r1, a), InstallReply(a.term, true))
  }

  // ---------- Snapshot, called by the service ----------

  function OnSnapshot(r: Raft, index: nat, data: Snap): Raft
    requires |r.log| >= 1
  {
    if index <= r.lastIncludeIndex || index > r.LastIndex() || index > r.applyIndex then r
    else
      var log' := r.log[index - r.lastIncludeIndex..];
      r.(log := log', lastIncludeIndex := index, lastIncludeTerm := log'[0].term, snapshot := data).Persist()
  }

  // ---------- Elections ----------

  function OnTimeout(r: Raft): Raft {
    r.(role := Candidate, currentTerm := r.currentTerm + 1, votedFor := r.me, voteCount := 1).Persist()
  }

  /** What a server that starts an election asks for. */
  function Candidacy(r: Raft): VoteArgs
    requires |r.log| >= 1
  {
    VoteArgs(r.currentTerm + 1, r.me, r.LastIndex(), r.LastTerm())
  }

  function BecomeLeader(r: Raft): Raft
    requires r.me < |r.matchIndex|
  {
    r.(role := Leader,
       nextIndex := seq(|r.nextIndex|, i => r.LastIndex() + 1),
       matchIndex := seq(|r.matchIndex|, i => if i == r.me then r.LastIndex() else 0))
  }

  function OnVoteReply(r: Raft, a: VoteArgs, reply: VoteReply): Raft
    requires r.me < |r.matchIndex|
  {
    if reply.term > r.currentTerm then r.Newer(reply.term)
    else if r.role != Candidate || r.currentTerm != a.term || reply.term != a.term || !reply.granted then r
    else if r.voteCount > |r.matchIndex| / 2 then r
    else
      var r1 := r.(voteCount := r.voteCount + 1);
      if r1.voteCount > |r.matchIndex| / 2 then BecomeLeader(r1) else r1
  }

  // ---------- The leader ----------

  function OnStart(r: Raft, cmd: Command): Raft
    requires r.role == Leader
  {
    r.(log := r.log + [Entry(r.currentTerm, cmd)]).Persist()
  }

  function InsertInt(x: int, s: seq<int>): (t: seq<int>)
    ensures |t| == |s| + 1
  {
    if s == [] || x <= s[0] then [x] + s else [s[0]] + InsertInt(x, s[1..])
  }

  /** `sort.Ints`. */
  function SortInts(s: seq<int>): (t: seq<int>)
    ensures |t| == |s|
  {
    if s == [] then [] else InsertInt(s[0], SortInts(s[1..]))
  }

  lemma {:induction false} InsertMembers(x: int, s: seq<int>, y: int)
    requires y in InsertInt(x, s)
    ensures y == x || y in s
  {
    if s != [] && x > s[0] && y != s[0] {
      InsertMembers(x, s[1..], y);
    }
  }

  lemma {:induction false} SortMembers(s: seq<int>, y: int)
    requires y in SortInts(s)
    ensures y in s
  {
    if s != [] {
      InsertMembers(s[0], SortInts(s[1..]), y);
      if y != s[0] {
        SortMembers(s[1..], y);
      }
    }
  }

  /** The index that `advanceCommitIndex` takes as replicated on a majority. */
  function MajorityIndex(m: seq<int>): (n: int)
    requires |m| >= 1
    ensures n in m
  {
    var n := SortInts(m)[|m| / 2];
    SortMembers(m, n);
    n
  }

  function AdvanceCommit(r: Raft): Raft
    requires r.InRange()
  {
    if r.role != Leader then r
    else
      var n := MajorityIndex(r.matchIndex[r.me := r.LastIndex()]);
      if n > r.commitIndex && r.EntryAt(n).term == r.currentTerm
      then r.(commitIndex := n)
      else r
  }

  /** What the replicator of one peer sends next. */
  datatype Round = SendAppend(append: AppendArgs) | SendInstall(install: InstallArgs)

  function NextRound(r: Raft, peer: nat): Round
    requires r.InRange() && r.role == Leader && peer < |r.nextIndex|
  {
    var next := r.nextIndex[peer];
    if next <= r.lastIncludeIndex then
      SendInstall(InstallArgs(r.currentTerm, r.me, r.lastIncludeIndex, r.lastIncludeTerm, r.snapshot))
    else
      var hi := Min(r.LastIndex() + 1, next + MAX_BATCH);
      var es := if r.LastIndex() >= next
                then r.log[next - r.lastIncludeIndex..hi - r.lastIncludeIndex] else [];
      SendAppend(AppendArgs(r.currentTerm, r.me, next - 1, r.EntryAt(next - 1).term, es, r.commitIndex))
  }

  /** Largest position in 1..p that holds an entry of term t, or -1. */
  function LastOfTerm(log: Log, p: nat, t: int): (q: int)
    requires p < |log|
    ensures q == -1 || (1 <= q <= p && log[q].term == t)
    ensures forall j :: 1 <= j <= p && j > q ==> log[j].term != t
  {
    if p == 0 then -1
    else if log[p].term == t then p
    else LastOfTerm(log, p - 1, t)
  }

  /** Where a rejected leader continues: behind its own last entry of the follower's term, else
      at the start of that term in the follower's log, else at the end of the follower's log. */
  function Backup(r: Raft, reply: AppendReply): (next: int)
    requires |r.log| >= 1
    ensures Max(1, r.lastIncludeIndex) <= r.LastIndex() + 1 ==>
              Max(1, r.lastIncludeIndex) <= next <= r.LastIndex() + 1
  {
    var idx := LastOfTerm(r.log, |r.log| - 1, reply.xTerm);
    var want := if reply.xTerm == -1 then reply.xLen
                else if idx == -1 then reply.xIndex
                else idx + r.lastIncludeIndex + 1;
    Min(Max(want, Max(1, r.lastIncludeIndex)), r.LastIndex() + 1)
  }

  function OnAppendReply(r: Raft, peer: nat, a: AppendArgs, reply: AppendReply): Raft
    requires r.InRange() && peer < |r.nextIndex|
    requires a.prevIndex + |a.entries| <= r.LastIndex() || r.role != Leader || r.currentTerm != a.term
  {
    if r.role != Leader || r.currentTerm != a.term then r
    else if reply.term > r.currentTerm then r.Newer(reply.term)
    else if reply.success then
      Matched(r, peer, a.prevIndex + |a.entries|)
    else
      r.(nextIndex := r.nextIndex[peer := Backup(r, reply)])
  }

  /** The peer has the leader's entries up to `matched`. */
  function Matched(r: Raft, peer: nat, matched: nat): Raft
    requires r.InRange() && r.role == Leader && peer < |r.nextIndex| && matched <= r.LastIndex()
  {
    var m := Max(matched, r.matchIndex[peer]);
    AdvanceCommit(r.(matchIndex := r.matchIndex[peer := m], nextIndex := r.nextIndex[peer := m + 1]))
  }

  function OnInstallReply(r: Raft, peer: nat, a: InstallArgs, reply: InstallReply): Raft
    requires r.InRange() && peer < |r.nextIndex|
    requires a.lastIndex <= r.LastIndex() || r.role != Leader || r.currentTerm != a.term
  {
    if r.role != Leader || r.currentTerm != a.term then r
    else if reply.term > r.currentTerm then r.Newer(reply.term)
    else if !reply.success then r
    else Matched(r, peer, a.lastIndex)
  }

  // ---------- The applier ----------

  predicate HasWork(r: Raft) {
    r.applyIndex < r.commitIndex || r.pendingSnapshot != NoSnap
  }

  function Commands(r: Raft, lo: nat, hi: nat): (ms: seq<ApplyMsg>)
    requires r.lastIncludeIndex <= lo <= hi <= r.LastIndex() + 1
    ensures |ms| == hi - lo
    ensures forall k :: 0 <= k < hi - lo ==> ms[k] == CommandMsg(lo + k, r.EntryAt(lo + k).cmd)
  {
    seq(hi - lo, k requires 0 <= k < hi - lo => CommandMsg(lo + k, r.EntryAt(lo + k).cmd))
  }

  /** One turn of the applier under the lock: the messages it will send, snapshot first. */
  function TakeBatch(r: Raft): (Raft, seq<ApplyMsg>)
    requires r.InRange() && HasWork(r)
  {
    if r.pendingSnapshot != NoSnap then
      (r.(pendingSnapshot := NoSnap), [SnapshotMsg(r.pendingIndex, r.pendingTerm, r.pendingSnapshot)])
    else
      (r.(applyIndex := r.commitIndex), Commands(r, r.applyIndex + 1, r.commitIndex + 1))
  }

  // ---------- Start and restart ----------

  /** `Make`: a server that starts, with what it persisted before, if anything. */
  function Boot(me: nat, n: nat, disk: Option<Disk>): Raft {
    var zeros := seq(n, i => 0);
    if disk.None? then
      Raft(me, 0, -1, Follower, 0, [SENTINEL], 0, 0, zeros, zeros, 0, 0, NoSnap, NoSnap, 0, 0, disk)
    else
      var d := disk.value;
      var log := if d.log == [] then [SENTINEL] else d.log;
      Raft(me, d.term, d.votedFor, Follower, 0, log, d.lastIncludeIndex, d.lastIncludeIndex, zeros, zeros,
           d.lastIncludeIndex, d.lastIncludeTerm, d.snapshot, NoSnap, 0, 0, disk)
  }
}
