/**
 The Raft server as the program has it: an object whose handlers run one at a time under its
 lock and update its fields in place. Every method is proved against `RaftState`.
 */
module RaftServer {
  import opened RaftTypes
  import opened RaftState

  class Server {
    const me: nat
    var currentTerm: nat
    var votedFor: int
    var role: Role
    var voteCount: nat
    var log: Log
    var commitIndex: nat
    var applyIndex: nat
    const nextIndex: array<int>
    const matchIndex: array<int>
    var lastIncludeIndex: nat
    var lastIncludeTerm: nat
    var snapshot: Snap
    var pendingSnapshot: Snap
    var pendingIndex: nat
    var pendingTerm: nat
    var disk: Option<Disk>

    ghost predicate Valid()
      reads this
    {
      && |log| >= 1
      && nextIndex != matchIndex
      && me < nextIndex.Length == matchIndex.Length
    }

    ghost function State(): Raft
      reads this, nextIndex, matchIndex
    {
      Raft(me, currentTerm, votedFor, role, voteCount, log, commitIndex, applyIndex,
           nextIndex[..], matchIndex[..], lastIncludeIndex, lastIncludeTerm, snapshot,
           pendingSnapshot, pendingIndex, pendingTerm, disk)
    }

    constructor Make(me: nat, n: nat, saved: Option<Disk>)
      requires me < n
      ensures Valid() && fresh(nextIndex) && fresh(matchIndex)
      ensures State() == Boot(me, n, saved)
    {
      this.me := me;
      currentTerm, votedFor, role, voteCount := 0, -1, Follower, 0;
      log := [SENTINEL];
      commitIndex, applyIndex := 0, 0;
      nextIndex := new int[n](i => 0);
      matchIndex := new int[n](i => 0);
      lastIncludeIndex, lastIncludeTerm := 0, 0;
      pendingSnapshot, pendingIndex, pendingTerm := NoSnap, 0, 0;
      disk := saved;
      snapshot := if saved.Some? then saved.value.snapshot else NoSnap;
      new;
      ReadPersist();
      assert nextIndex[..] == seq(n, i => 0) && matchIndex[..] == seq(n, i => 0);
    }

    method ReadPersist()
      requires Valid()
      modifies this
      ensures Valid()
      ensures disk == old(disk) && role == old(role) && voteCount == old(voteCount)
      ensures snapshot == old(snapshot) && pendingSnapshot == old(pendingSnapshot)
      ensures pendingIndex == old(pendingIndex) && pendingTerm == old(pendingTerm)
      ensures disk.None? ==> State() == old(State())
      ensures disk.Some? ==>
                var d := disk.value;
                && currentTerm == d.term && votedFor == d.votedFor
                && log == (if d.log == [] then [SENTINEL] else d.log)
                && lastIncludeIndex == commitIndex == applyIndex == d.lastIncludeIndex
                && lastIncludeTerm == d.lastIncludeTerm
    {
      if disk.None? {
        return;
      }
      var d := disk.value;
      currentTerm, votedFor := d.term, d.votedFor;
      log := if |d.log| == 0 then [SENTINEL] else d.log;
      lastIncludeIndex, lastIncludeTerm := d.lastIncludeIndex, d.lastIncludeTerm;
      commitIndex, applyIndex := lastIncludeIndex, lastIncludeIndex;
    }

    method Persist()
      modifies this`disk
      ensures State() == old(State()).Persist()
    {
      disk := Some(Disk(currentTerm, votedFor, log, lastIncludeIndex, lastIncludeTerm, snapshot));
    }

    function LastIndex(): int
      reads this
    {
      |log| + lastIncludeIndex - 1
    }

    method RequestVote(args: VoteArgs) returns (reply: VoteReply)
      requires Valid()
      modifies this
      ensures Valid()
      ensures (State(), reply) == OnRequestVote(old(State()), args)
    {
      reply := VoteReply(currentTerm, false);
      if args.term < currentTerm {
        return;
      }
      if args.term > currentTerm {
        currentTerm, votedFor, role := args.term, -1, Follower;
        Persist();
      }
      reply := VoteReply(currentTerm, false);

      var lastLogIndex, lastLogTerm := LastIndex(), log[|log| - 1].term;
      var upToDate := args.lastLogTerm > lastLogTerm
                      || (args.lastLogTerm == lastLogTerm && args.lastLogIndex >= lastLogIndex);
      if (votedFor == -1 || votedFor == args.candidate) && upToDate {
        votedFor, role := args.candidate, Follower;
        Persist();
        reply := VoteReply(currentTerm, true);
      }
    }

    /** A message of a current leader: adopt its term and follow it. */
    method Follow(term: nat)
      requires Valid() && term >= currentTerm
      modifies this
      ensures Valid()
      ensures State() == Followed(old(State()), term) && currentTerm == term
    {
      if term > currentTerm {
        currentTerm, votedFor := term, -1;
        Persist();
      }
      role := Follower;
    }

    method AppendEntries(args: AppendArgs) returns (reply: AppendReply)
      requires Valid()
      modifies this
      ensures Valid()
      ensures (State(), reply) == OnAppendEntries(old(State()), args)
    {
      var xLen := LastIndex() + 1;
      reply := AppendReply(currentTerm, false, -1, -1, xLen);
      if args.term < currentTerm {
        return;
      }
      Follow(args.term);
      reply := reply.(term := currentTerm);

      if args.prevIndex > LastIndex() {
        return;
      }
      if args.prevIndex >= lastIncludeIndex && log[args.prevIndex - lastIncludeIndex].term != args.prevTerm {
        var i := FirstOfRun(args.prevIndex);
        reply := reply.(xTerm := log[args.prevIndex - lastIncludeIndex].term, xIndex := i);
        return;
      }
      reply := reply.(success := true);
      AcceptEntries(args);
    }

    method AcceptEntries(args: AppendArgs)
      requires Valid() && Matches(State(), args)
      modifies this
      ensures Valid()
      ensures State() == Accepted(old(State()), args)
    {
      if |args.entries| > 0 {
        TakeOverEntries(args);
        Persist();
      }
      if args.leaderCommit > commitIndex {
        commitIndex := Max(commitIndex, Min(args.leaderCommit, args.prevIndex + |args.entries|));
      }
    }

    method FirstOfRun(index: nat) returns (i: nat)
      requires lastIncludeIndex <= index <= LastIndex()
      ensures i == RunStart(log, index - lastIncludeIndex) + lastIncludeIndex
    {
      var xTerm := log[index - lastIncludeIndex].term;
      i := index;
      while i > lastIncludeIndex && log[i - 1 - lastIncludeIndex].term == xTerm
        invariant lastIncludeIndex <= i <= index
        invariant log[i - lastIncludeIndex].term == xTerm
        invariant RunStart(log, i - lastIncludeIndex) == RunStart(log, index - lastIncludeIndex)
      {
        i := i - 1;
      }
    }

    method TakeOverEntries(args: AppendArgs)
      requires Valid() && args.prevIndex <= LastIndex()
      modifies this`log
      ensures Valid()
      ensures log == TakeOver(old(log), lastIncludeIndex, args.prevIndex, args.entries)
    {
      var conflict := FindConflict(args);
      if conflict >= 0 {
        log := log[..conflict - lastIncludeIndex];
      }
      if LastIndex() < args.prevIndex + |args.entries| {
        log := log + args.entries[LastIndex() - args.prevIndex..];
      }
    }

    /** The index of the first conflict behind the snapshot, or -1. */
    method FindConflict(args: AppendArgs) returns (conflict: int)
      requires Valid() && args.prevIndex <= LastIndex()
      ensures var k0 := Max(0, lastIncludeIndex - args.prevIndex);
              if k0 > |args.entries| then conflict == -1
              else
                var c := FirstConflict(log, lastIncludeIndex, args.prevIndex, args.entries, k0);
                conflict == if c < |args.entries| then args.prevIndex + 1 + c else -1
    {
      ghost var k0 := Max(0, lastIncludeIndex - args.prevIndex);
      conflict := -1;
      var k := Max(0, lastIncludeIndex - args.prevIndex);
      while k < |args.entries|
        invariant k0 <= k && (k0 <= |args.entries| ==> k <= |args.entries|)
        invariant conflict == -1
        invariant k0 <= |args.entries| ==>
                    FirstConflict(log, lastIncludeIndex, args.prevIndex, args.entries, k0)
                    == FirstConflict(log, lastIncludeIndex, args.prevIndex, args.entries, k)
      {
        var i := args.prevIndex + 1 + k;
        if i > LastIndex() {
          break;
        }
        if log[i - lastIncludeIndex].term != args.entries[k].term {
          conflict := i;
          break;
        }
        k := k + 1;
      }
    }

    method TruncateFront(from: nat)
      requires lastIncludeIndex <= from <= LastIndex()
      modifies this`log
      ensures log == old(log)[from - lastIncludeIndex..]
    {
      log := log[from - lastIncludeIndex..];
    }

    method InstallSnapshot(args: InstallArgs) returns (reply: InstallReply)
      requires Valid()
      modifies this
      ensures Valid()
      ensures (State(), reply) == OnInstallSnapshot(old(State()), args)
    {
      reply := InstallReply(currentTerm, false);
      if args.term < currentTerm {
        return;
      }
      Follow(args.term);
      reply := InstallReply(currentTerm, false);
      if args.lastIndex <= lastIncludeIndex || args.lastIndex <= commitIndex {
        reply := reply.(success := true);
        return;
      }
      Install(args);
      reply := reply.(success := true);
    }

    method Install(args: InstallArgs)
      requires Valid() && args.lastIndex > lastIncludeIndex
      modifies this
      ensures Valid()
      ensures State() == Installed(old(State()), args)
    {
      KeepOrReplace(args);
      MoveTo(args);
      Persist();
    }

    /** All that installing a snapshot changes besides the log. */
    method MoveTo(args: InstallArgs)
      modifies this
      ensures State() == old(State()).(
                lastIncludeIndex := args.lastIndex, lastIncludeTerm := args.lastTerm, snapshot := args.data,
                applyIndex := Max(old(applyIndex), args.lastIndex),
                commitIndex := Max(old(commitIndex), args.lastIndex),
                pendingSnapshot := args.data, pendingIndex := args.lastIndex, pendingTerm := args.lastTerm)
    {
      lastIncludeIndex, lastIncludeTerm := args.lastIndex, args.lastTerm;
      snapshot := args.data;
      applyIndex := Max(applyIndex, lastIncludeIndex);
      commitIndex := Max(commitIndex, lastIncludeIndex);
      pendingSnapshot, pendingIndex, pendingTerm := args.data, args.lastIndex, args.lastTerm;
    }

    method KeepOrReplace(args: InstallArgs)
      requires Valid() && args.lastIndex > lastIncludeIndex
      modifies this`log
      ensures log == if |old(log)| + lastIncludeIndex - 1 >= args.lastIndex
                        && old(log)[args.lastIndex - lastIncludeIndex].term == args.lastTerm
                     then old(log)[args.lastIndex - lastIncludeIndex..]
                     else [Entry(args.lastTerm, Nil)]
    {
      if LastIndex() >= args.lastIndex && log[args.lastIndex - lastIncludeIndex].term == args.lastTerm {
        TruncateFront(args.lastIndex);
      } else {
        log := [Entry(args.lastTerm, Nil)];
      }
    }

    method Snapshot(index: nat, data: Snap)
      requires Valid()
      modifies this
      ensures Valid()
      ensures State() == OnSnapshot(old(State()), index, data)
    {
      if index <= lastIncludeIndex {
        return;
      }
      if index > LastIndex() || index > applyIndex {
        return;
      }
      TruncateFront(index);
      lastIncludeIndex := index;
      lastIncludeTerm := log[0].term;
      snapshot := data;
      Persist();
    }

    method StartElection() returns (started: bool, args: VoteArgs)
      requires Valid()
      modifies this
      ensures Valid()
      ensures started == (old(role) != Leader)
      ensures started ==>
                && State() == OnTimeout(old(State()))
                && args == Candidacy(old(State()))
      ensures !started ==> State() == old(State())
    {
      args := VoteArgs(0, 0, 0, 0);
      if role == Leader {
        started := false;
        return;
      }
      role := Candidate;
      currentTerm := currentTerm + 1;
      votedFor, voteCount := me, 1;
      args := VoteArgs(currentTerm, me, LastIndex(), log[|log| - 1].term);
      Persist();
      started := true;
    }

    method BecomeLeader()
      requires Valid()
      modifies this, nextIndex, matchIndex
      ensures Valid()
      ensures State() == RaftState.BecomeLeader(old(State()))
    {
      role := Leader;
      var n := LastIndex();
      var i := 0;
      while i < nextIndex.Length
        invariant 0 <= i <= nextIndex.Length
        invariant forall j :: 0 <= j < i ==> nextIndex[j] == n + 1 && matchIndex[j] == 0
        modifies nextIndex, matchIndex
      {
        nextIndex[i], matchIndex[i] := n + 1, 0;
        i := i + 1;
      }
      matchIndex[me] := n;
      assert nextIndex[..] == RaftState.BecomeLeader(old(State())).nextIndex;
      assert matchIndex[..] == RaftState.BecomeLeader(old(State())).matchIndex;
    }

    method HandleVoteReply(args: VoteArgs, reply: VoteReply)
      requires Valid()
      modifies this, nextIndex, matchIndex
      ensures Valid()
      ensures State() == OnVoteReply(old(State()), args, reply)
    {
      if reply.term > currentTerm {
        currentTerm, votedFor, role := reply.term, -1, Follower;
        Persist();
        return;
      }
      if role != Candidate || currentTerm != args.term || reply.term != args.term || !reply.granted {
        return;
      }
      if voteCount > matchIndex.Length / 2 {
        return;
      }
      voteCount := voteCount + 1;
      if voteCount > matchIndex.Length / 2 {
        BecomeLeader();
      }
    }

    method Start(cmd: Command) returns (index: int, term: nat, isLeader: bool)
      requires Valid()
      modifies this
      ensures Valid()
      ensures isLeader == (old(role) == Leader) && term == old(currentTerm)
      ensures isLeader ==> State() == OnStart(old(State()), cmd) && index == LastIndex()
      ensures !isLeader ==> State() == old(State()) && index == -1
    {
      if role != Leader {
        return -1, currentTerm, false;
      }
      index := LastIndex() + 1;
      log := log + [Entry(currentTerm, cmd)];
      Persist();
      return index, currentTerm, true;
    }

    method AdvanceCommitIndex()
      requires Valid() && State().InRange()
      modifies this`commitIndex
      ensures Valid()
      ensures State() == AdvanceCommit(old(State()))
    {
      if role != Leader {
        return;
      }
      var m := matchIndex[..];
      m := m[me := LastIndex()];
      m := SortInts(m);
      var n := m[|m| / 2];
      assert n == MajorityIndex(matchIndex[..][me := LastIndex()]);
      if n > commitIndex && log[n - lastIncludeIndex].term == currentTerm {
        commitIndex := n;
      }
    }

    /** The next message to a peer, as its replicator builds it. */
    method BuildRound(peer: nat) returns (round: Round)
      requires Valid() && State().InRange() && role == Leader && peer < nextIndex.Length
      ensures round == NextRound(State(), peer)
    {
      var next := nextIndex[peer];
      if next <= lastIncludeIndex {
        return SendInstall(InstallArgs(currentTerm, me, lastIncludeIndex, lastIncludeTerm, snapshot));
      }
      var entries := [];
      if LastIndex() >= next {
        var hi := Min(LastIndex() + 1, next + MAX_BATCH);
        entries := log[next - lastIncludeIndex..hi - lastIncludeIndex];
      }
      return SendAppend(AppendArgs(currentTerm, me, next - 1, log[next - 1 - lastIncludeIndex].term,
                                   entries, commitIndex));
    }

    method HandleAppendReply(peer: nat, args: AppendArgs, reply: AppendReply) returns (again: bool)
      requires Valid() && State().InRange() && peer < nextIndex.Length
      requires args.prevIndex + |args.entries| <= LastIndex() || role != Leader || currentTerm != args.term
      modifies this, nextIndex, matchIndex
      ensures Valid()
      ensures State() == OnAppendReply(old(State()), peer, args, reply)
      ensures again <==>
                && old(role) == Leader && old(currentTerm) == args.term && reply.term <= old(currentTerm)
                && (reply.success ==> nextIndex[peer] <= LastIndex())
    {
      if role != Leader || currentTerm != args.term {
        return false;
      }
      if reply.term > currentTerm {
        currentTerm, votedFor, role := reply.term, -1, Follower;
        Persist();
        return false;
      }
      if reply.success {
        again := RaiseMatch(peer, args.prevIndex + |args.entries|);
        return;
      }
      BackUp(peer, reply);
      return true;
    }

    /** The bookkeeping that both kinds of successful replies share. */
    method RaiseMatch(peer: nat, matched: nat) returns (behind: bool)
      requires Valid() && State().InRange() && role == Leader
      requires peer < nextIndex.Length && matched <= LastIndex()
      modifies this`commitIndex, nextIndex, matchIndex
      ensures Valid()
      ensures State() == Matched(old(State()), peer, matched)
      ensures behind == (nextIndex[peer] <= LastIndex())
    {
      ghost var before := State();
      if matched > matchIndex[peer] {
        matchIndex[peer] := matched;
      }
      nextIndex[peer] := matchIndex[peer] + 1;
      ghost var m := Max(matched, before.matchIndex[peer]);
      assert matchIndex[..] == before.matchIndex[peer := m];
      assert nextIndex[..] == before.nextIndex[peer := m + 1];
      AdvanceCommitIndex();
      behind := nextIndex[peer] <= LastIndex();
    }

    method BackUp(peer: nat, reply: AppendReply)
      requires Valid() && peer < nextIndex.Length
      modifies nextIndex
      ensures State() == old(State()).(nextIndex := old(nextIndex[..])[peer := Backup(old(State()), reply)])
    {
      ghost var before := nextIndex[..];
      if reply.xTerm == -1 {
        nextIndex[peer] := reply.xLen;
      } else {
        var idx := -1;
        var i := LastIndex();
        while i > lastIncludeIndex
          invariant lastIncludeIndex <= i <= LastIndex()
          invariant idx == -1
          invariant LastOfTerm(log, i - lastIncludeIndex, reply.xTerm) == LastOfTerm(log, |log| - 1, reply.xTerm)
        {
          if log[i - lastIncludeIndex].term == reply.xTerm {
            idx := i;
            break;
          }
          i := i - 1;
        }
        nextIndex[peer] := if idx == -1 then reply.xIndex else idx + 1;
      }
      var lo := Max(1, lastIncludeIndex);
      if nextIndex[peer] < lo {
        nextIndex[peer] := lo;
      }
      if nextIndex[peer] > LastIndex() + 1 {
        nextIndex[peer] := LastIndex() + 1;
      }
      assert nextIndex[..] == before[peer := nextIndex[peer]];
    }

    method HandleInstallReply(peer: nat, args: InstallArgs, reply: InstallReply) returns (again: bool)
      requires Valid() && State().InRange() && peer < nextIndex.Length
      requires args.lastIndex <= LastIndex() || role != Leader || currentTerm != args.term
      modifies this, nextIndex, matchIndex
      ensures Valid()
      ensures State() == OnInstallReply(old(State()), peer, args, reply)
      ensures again <==>
                old(role) == Leader && old(currentTerm) == args.term && reply.term <= old(currentTerm) && reply.success
    {
      if role != Leader || currentTerm != args.term {
        return false;
      }
      if reply.term > currentTerm {
        currentTerm, votedFor, role := reply.term, -1, Follower;
        Persist();
        return false;
      }
      if !reply.success {
        return false;
      }
      var _ := RaiseMatch(peer, args.lastIndex);
      return true;
    }

    /** The locked half of one applier turn; the messages are sent after unlocking. */
    method TakeWork() returns (batch: seq<ApplyMsg>)
      requires Valid() && State().InRange() && HasWork(State())
      modifies this
      ensures Valid()
      ensures (State(), batch) == TakeBatch(old(State()))
    {
      if pendingSnapshot != NoSnap {
        batch := [SnapshotMsg(pendingIndex, pendingTerm, pendingSnapshot)];
        pendingSnapshot := NoSnap;
        return;
      }
      var lo, hi := applyIndex + 1, commitIndex;
      batch := [];
      var k := 0;
      while k < hi + 1 - lo
        invariant 0 <= k <= hi + 1 - lo && |batch| == k
        invariant forall j :: 0 <= j < k ==> batch[j] == CommandMsg(lo + j, log[lo + j - lastIncludeIndex].cmd)
      {
        batch := batch + [CommandMsg(lo + k, log[lo + k - lastIncludeIndex].cmd)];
        k := k + 1;
      }
      applyIndex := hi;
      assert batch == Commands(old(State()), lo, hi + 1);
    }
  }
}
