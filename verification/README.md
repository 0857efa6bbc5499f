# Verified model of a replicated, sharded key/value store and of MapReduce

The project models a set of distributed programs written in Go and proves what they promise:

- **Raft with log compaction** (`src/raft1/raft.go`). `RaftServer.Server` is one server, with handlers
  that update its fields and arrays in place; each method is proved against a function of
  `RaftState`. `Cluster` makes every run of a cluster out of these functions: messages form a set
  that only grows (so they may be lost, delayed, reordered and repeated), servers crash and restart
  at any point, and the applier and the service's reader interleave with everything else. The
  servers only hold a suffix of their log. `ClusterInv` relates them to the uncompacted history of
  `LogHistory`, where the protocol argument is made, and `ClusterSafety` states the theorems.
  `PaperRaft` says, as rules on whole logs, what the server of the Raft paper does, and `ClusterPaper`
  proves that every step of the compacting servers is just that.
- **The replicated service** (`rsm.go`, `kvraft1`, `kvsrv1`). `Rsm.RSM` is the reader and `Submit`;
  `Submits` puts the waiting Submits on top of the servers of `Cluster`, `SubmitSafety` proves that what
  they are told is linearizable, and `SubmitPolicy` exactly when that holds over restarts;
  `Clerks` states what clerks answer over a lossy network and proves linearizability against the
  sequential specification of `models1/kv.go`, and `LateCopies` says exactly when late copies are harmless; `ClerkLoops` has the clerks' retry loops.
- **The lock** (`lock.go`). `LockService` proves mutual exclusion for any number of clients;
  `LockLoops.Lock` has the loops of `Acquire` and `Release`, proved to be walks through the states of
  that model, and to make exactly the calls that `AcquireFlow` and `ReleaseFlow` list.
- **Sharded store and reconfiguration** (`shardkv1`). `ShardGroup.KVServer` is the state machine of
  a group; `ShardMove` is the system of all groups, the configuration store and any number of
  controllers that stop anywhere and race each other; `ShardSafety` has the theorems, and
  `ShardTakeover` says exactly when a controller may take over;
  `Controller.ShardCtrler` has the controller's methods, proved to be walks of a process of
  `ShardMove`, and to make exactly the calls that the `Flow` predicates list. `ShardCfg.ShardConfig` rebalances shards in place and is proved against `Balance`.
- **MapReduce** (`mr/worker.go`, `mr/coordinator.go`, `main/mrsequential.go`). The worker's batching,
  text format, buffered line reader, run detection and merge (`MrText`, `MrReader`, `MrReduce`,
  `MrMerge`, `MrJob`) are proved to produce what the sequential program produces.
  `Coordinator.Coordinator` is the scheduler, with its doubly linked lists (`TaskList`), node pool,
  phase switch, reports and timeouts. `MrWhole` puts the two together.

`dafny verify dfyconfig.toml` checks everything.

## Reading guide

The main theorems are `ClusterSafety.StateMachineSafety`, `ShardSafety.StoreIsFold`,
`ClusterPaper.AppendsByRule`, `ClusterPaper.VotesByRule`, `SubmitSafety.SubmitsLinearize`, `SubmitPolicy.AlwaysRightIff`, `ShardSafety.SingleOwner`, `ShardTakeover.TakeoverKeepsIff`, `Clerks.Linearizable`,
`LateCopies.StaysConfinedIffReached`, `LockService.MutualExclusion`,
`MrJob.Distributed`, `MrWhole.FinishedJobIsSequential`, `MrWorkers.RunJob`,
`Coordinator.Coordinator.Conservation` and `Balance.RebalanceBalances`.
`hide` statements keep proofs small; big invariants end in `== true` so that the verifier proves them
as one fact.

## Results about the code

- The comment at `src/raft1/raft.go:97` bounds `nextIndex` below by `lastIncludeIndex`. From every reachable
  state where the bound holds, every step keeps it except for exactly two: a local snapshot that reaches
  beyond the peer's `nextIndex`, and a confirmation of the peer that comes so late that the leader's log
  is compacted beyond it (`ClusterSafety.NextIndexBoundIff`). Both happen in clusters of three
  (`ClusterExample.SnapshotOvertakesPeer`, `ClusterExample.ConfirmationTooLate`: runs from the start).
  What does hold in every reachable state, and suffices for all accesses to the log, is in
  `ClusterSafety.NeverOutOfBounds`.
- `m[len(m)/2]` is held by a strict majority for all match indexes if and only if the number of
  servers is odd (`Median.MiddleIsMajorityIffOdd`). It is always held by half of them, and since
  elections take a strict majority, safety holds for every size: no theorem assumes an odd one.
- A rejected AppendEntries lowers `nextIndex` if and only if the log has not meanwhile been compacted
  beyond the rejected round (`ClusterSafety.RejectionLowersNextIndex`).
- The sequential specification rejects exactly one answer that the store gives: `ErrNoKey` for a Put
  (`Clerks.PointAccepted`, both directions).
- A lost copy of a Put may be executed after the call has returned `ErrMaybe` or `ErrNoKey`, and write
  then, outside the call's interval (`LateCopies.ToldMaybeThenWritten`, `ToldNoKeyThenWritten`: runs from
  the start). That is possible if and only if the key has not reached the version of the Put: however a
  run goes on from a state, the copies of an open Put stay confined to the call exactly if the version
  has been reached (`LateCopies.StaysConfinedIffReached`), which a client can make sure of before the
  call (`ConfinedIffReachedAtStart`), as any version from a Get has been reached. A completed call is
  linearized if and only if its copies were confined (`Clerks.Linearizable`). Copies outlive a call with
  replicated servers, which may answer `ErrWrongLeader` and still execute; where every copy is
  executed before its call returns, all calls are confined (`LateCopies.InTimeIsConfined`).
- `InitController` reads the two configurations one after the other, and they need not belong together.
  `ShardTakeover.SkewedTakeoverLosesData` is a run from the start, with a single Put, after which the
  store is not what the executed requests make of it. A takeover keeps the contents and the placement of
  all shards, however the run goes on, if and only if it takes each shard from where the predecessor of
  the new configuration places it, or finds it already where the new one wants it
  (`ShardTakeover.TakeoverKeepsIff`); before any group has seen the change, this says that the two
  configurations place all shards alike (`UnbegunKeepsIff`). A controller can make sure of it by
  checking that the second number follows the first (`NextNumberKeeps`). The "only if" direction
  leaves out one coincidence: a shard in transit whose contents happen to equal what an uninvolved
  group has left of it, while no request on its way changes what is left.
- The comment at `src/kvraft1/rsm/rsm.go:22-23` takes (Me, Id) for unique, but ids start at 0 again after a
  restart. An answered Submit is about its own operation if, when it started, no operation of the same
  server under the same id had been put at the same index (`SubmitSafety.SubmitsLinearize`). For every
  cluster size n and every rule `resume` for where ids go on after a restart: this is so in all runs if
  and only if n <= 2, or ids never go on below those used (`SubmitPolicy.AlwaysRightIff`). With
  the program's rule it therefore fails from three servers on: `SubmitExample.WrongAnswer` is the run, from
  the start, in which a Put is answered OK for what an earlier Put of another value did. (A Submit looks
  at its term every 10 ms; the run's last messages come in between.)
- A reduce is done for the coordinator only if the execution whose output was linked first reports, and
  its report arrives while the task is out (`MrWorkers.DoReportReduce`). Later executions find the
  output in place and do not report. So if that report comes when the task has timed out and waits, the job
  is never done, whatever happens (`MrWorkers.RunOn`); `MrWorkers.LateReport` is such a run. When a
  job does end, its outputs are those of the sequential program (`MrWorkers.RunJob`).

## Model

| member | source | states |
|---|---|---|
| ClusterSafety.StateMachineSafety | src/raft1/raft.go:307-434 | For every number of servers and every run with lost, delayed, reordered and repeated messages, compaction and crashes, one single log explains, at all times, every server's committed entries, every command ever executed and its index, every service state and every snapshot. |
| ClusterSafety.SameCommandsSameStates | src/raft1/raft.go:401-434 | No two servers ever execute different commands at the same index, and services that have got equally far are in the same state, at whatever times of the run. |
| ClusterSafety.LeadersHaveCommitted | src/raft1/raft.go:703-718 | Leader Completeness: what a server knew to be committed is in the log, or under the snapshot, of every later leader of at least its term. |
| ClusterSafety.LogsMatch | src/raft1/raft.go:338-376 | Log Matching over compacted logs: equal terms at an index mean equal entries up to it; terms never decrease along a log; log[0] has the term lastIncludeTerm. |
| ClusterSafety.OneLeaderPerTerm | src/raft1/raft.go:777-832 | Over a whole run a term has at most one leader. |
| ClusterSafety.NeverOutOfBounds | src/raft1/raft.go:477-511 | In every reachable state no step indexes outside a log; lastIncludeIndex <= applyIndex <= commitIndex <= lastIndex() always, and 1 <= nextIndex <= lastIndex()+1 and matchIndex <= lastIndex() for a leader. |
| ClusterSafety.CommittedStays | src/raft1/raft.go:355-395 | Neither conflict truncation nor a snapshot removes or changes an entry at or below the commit index, and the commit index falls only by a restart, to lastIncludeIndex. |
| ClusterSafety.RestartKeeps | src/raft1/raft.go:150-196 | Whenever a server crashes, it restarts with the term, vote, log and snapshot of that moment. |
| ClusterSafety.ApplyOrder | src/raft1/raft.go:401-434 | The next message for the service is the command after its position, or a snapshot strictly ahead and alone in flight, however InstallSnapshot interleaves with the applier; nothing else moves the service. |
| ClusterSafety.AnswersDecided | src/kvraft1/rsm/rsm.go:85-131 | When a service executes a command, the log that explains the cluster has that command at that index, and the service is in the state after all earlier entries. |
| ClusterSafety.RejectionLowersNextIndex | src/raft1/raft.go:618-670 | A fresh rejection strictly lowers that peer's nextIndex if and only if no snapshot has overtaken the round. |
| ClusterSafety.NextIndexBoundIff | src/raft1/raft.go:601-699 | From every reachable state where lastIncludeIndex <= nextIndex of a peer, every step keeps it if and only if it is neither a local snapshot beyond nextIndex nor a counted success reply whose index, and all that the peer confirmed before, lies more than one below lastIncludeIndex. |
| ClusterExample.SnapshotOvertakesPeer | src/raft1/raft.go:91-99 | A run of three servers (elect, start two commands, replicate to one peer, commit, apply) at whose end a local snapshot breaks the documented lower bound. |
| ClusterExample.ConfirmationTooLate | src/raft1/raft.go:618-631 | A run of three servers (two probes refused, entries accepted but confirmed late, two more committed and compacted, the second refusal lifts nextIndex) at whose end the late confirmation takes nextIndex below lastIncludeIndex. |
| ClusterSafety.Simulate | src/raft1/raft.go:270-717 | Every step of the compacting, crashing cluster is matched by a history of uncompacted logs that only grows and keeps the protocol invariant. |
| ClusterSafety.RunHistory | src/raft1/raft.go:859-903 | Every state of every run has such a history, and the last one includes all earlier ones. |
| LogHistory.LeaderCompleteness | src/raft1/raft.go:289-302 | An entry of a leader's own term that half of the servers confirmed is in the log of every later leader (section 5.4 of the Raft paper). |
| LogHistory.SealedAgree | src/raft1/raft.go:711-715 | Two prefixes fixed by commitments never differ. |
| LogHistory.LogMatching | src/raft1/raft.go:351-370 | Logs whose entries all come from leaders agree up to an index where their terms agree. |
| LogHistory.UpToDateHolds | src/raft1/raft.go:289-302 | A candidate log that passes the up-to-date check of a voter holds everything the voter confirmed and no later leader lacks. |
| Median.MiddleIsHalf | src/raft1/raft.go:706-711 | Whatever the match indexes are, at least half of the servers match the middle element, and a strict majority if their number is odd. |
| Median.MiddleIsLast | src/raft1/raft.go:706-711 | The middle element is the largest index that at least half of the servers match. |
| Median.CommitMeetsElection | src/raft1/raft.go:706-717 | Every election quorum contains a server that matches the committed index, for every size of cluster. |
| Median.MiddleIsMajorityIffOdd | src/raft1/raft.go:711 | The middle element is matched by a strict majority for all match indexes if and only if the number of servers is odd. |
| ClusterPaper.VotesByRule | src/raft1/raft.go:270-303 | In every reachable state, compacted or not: a vote is granted if and only if the term is at least the server's, it has no other vote in that term, and (lastLogTerm, lastLogIndex) is lexicographically at least that of the end of its whole log; term, vote and role become what the paper says and nothing else changes. |
| ClusterPaper.AppendsByRule | src/raft1/raft.go:307-396 | AppendEntries succeeds if and only if the term is at least the server's and its whole log has prevTerm at prevIndex; then the whole log is kept if it has the entries, and else ends with them, and the commit index is the larger of the old one and min(leaderCommit, index of the last entry); a refusal describes the log. |
| ClusterPaper.InstallsByRule | src/raft1/raft.go:540-597 | A snapshot is taken if and only if it reaches beyond the commit index; the whole log stays if it has the snapshot's last entry, and else ends there; the service gets it, and it is committed. |
| ClusterPaper.StandsByRule | src/raft1/raft.go:777-800 | A candidacy is in the next term, with the own vote, and asks all others with the end of the whole log. |
| ClusterPaper.CountsByRule | src/raft1/raft.go:800-832 | A vote counts if and only if it is granted in the candidate's present term; exactly the one that makes a strict majority makes a leader, which expects everybody at the end of its whole log. |
| ClusterPaper.SendsByRule | src/raft1/raft.go:455-511 | A round carries the entries of the whole log from nextIndex on, up to the batch size, with the term before them and the commit index; the snapshot is sent if and only if nextIndex is covered by it. |
| ClusterPaper.AppendRepliesByRule | src/raft1/raft.go:601-718 | A success raises matchIndex, never lowers it, and puts nextIndex behind it; the leader then commits exactly up to the last entry of its own term that at least half of the servers have; a refusal takes nextIndex behind the leader's last entry of the follower's term, or to that term's start there, or to the follower's end. |
| ClusterPaper.InstallRepliesByRule | src/raft1/raft.go:675-718 | The same for a confirmed snapshot. |
| ClusterPaper.StartsByRule | src/raft1/raft.go:731-749 | Start appends one entry of the leader's term to the whole log and changes nothing else. |
| ClusterPaper.SavesByRule | src/raft1/raft.go:207-233 | A local snapshot is accepted if and only if its index is applied and not yet covered; the whole log, the commit index and the leader's bookkeeping stay. |
| ClusterPaper.WorksByRule | src/raft1/raft.go:401-430 | The applier takes the pending snapshot, or else exactly the committed entries of the whole log that are not applied. |
| ClusterPaper.RestsWhenDone | src/raft1/raft.go:401-430 | When applier and reader have nothing to do, the service has executed everything that its server knows to be committed. |
| ClusterPaper.RestartsByRule | src/raft1/raft.go:859-903 | A crashed server starts as a follower with its whole log, term and vote, committed and executed up to its snapshot. |
| RaftServer.Server.Make | src/raft1/raft.go:859-903 | A server that starts has the state of Boot: what it persisted, or that of a new server. |
| RaftServer.Server.RequestVote | src/raft1/raft.go:270-303 | State and reply are those of OnRequestVote, whose meaning ClusterPaper.VotesByRule states on whole logs. |
| RaftServer.Server.AppendEntries | src/raft1/raft.go:307-396 | State and reply are those of OnAppendEntries, with its consistency check, conflict scan, truncation and fast-backup hints; ClusterPaper.AppendsByRule states what they come to. |
| RaftServer.Server.FindConflict | src/raft1/raft.go:355-370 | The scan finds the first entry behind the snapshot whose term differs, or none. |
| RaftServer.Server.FirstOfRun | src/raft1/raft.go:338-349 | The scan back finds the first index of the run of equal terms. |
| RaftServer.Server.InstallSnapshot | src/raft1/raft.go:540-597 | State and reply are those of OnInstallSnapshot, which keeps the log behind a matching entry. |
| RaftServer.Server.Snapshot | src/raft1/raft.go:207-233 | The state is that of OnSnapshot: the log is cut exactly at the index. |
| RaftServer.Server.StartElection | src/raft1/raft.go:777-800 | A server that is not a leader becomes a candidate of the next term and asks with its log's end. |
| RaftServer.Server.HandleVoteReply | src/raft1/raft.go:800-832 | The state is that of OnVoteReply: votes of older terms do not count and a majority makes a leader once. |
| RaftServer.Server.Start | src/raft1/raft.go:731-749 | Only a leader appends, in its own term, and returns the new last index. |
| RaftServer.Server.AdvanceCommitIndex | src/raft1/raft.go:703-718 | The state is that of AdvanceCommit: the sorted middle, only for entries of the present term. |
| RaftServer.Server.HandleAppendReply | src/raft1/raft.go:601-671 | The state is that of OnAppendReply, including the fast backup; another round follows at once exactly if the reply counts and the peer was rejected or is still behind. |
| RaftServer.Server.HandleInstallReply | src/raft1/raft.go:675-699 | The state is that of OnInstallReply; another round follows at once exactly if the reply counts and says success. |
| RaftServer.Server.BuildRound | src/raft1/raft.go:477-511 | What the replicator sends: a snapshot if the peer is behind it, else at most one batch of entries. |
| RaftServer.Server.TakeWork | src/raft1/raft.go:401-430 | One locked turn of the applier, a pending snapshot before any command. |
| Rsm.RSM.Register | src/kvraft1/rsm/rsm.go:259-285 | A proposed operation gets a fresh id and a waiter on an empty channel of its own at its index; a later one at the same index takes its place. |
| Rsm.RSM.Apply | src/kvraft1/rsm/rsm.go:85-131 | Each command is executed once; the waiter at its index finds {OK, the command's result} in its channel if and only if the command has its server and id, and else the lost-leader answer; nobody else is answered, except that waiters that a snapshot covers find the lost-leader answer. |
| Rsm.RSM.Send | src/kvraft1/rsm/rsm.go:111-127 | A result is only sent into an empty channel that never held one, so the reader never blocks. |
| Rsm.RSM.ApplySnapshot | src/kvraft1/rsm/rsm.go:142-165 | A newer snapshot replaces the state, and exactly the waiters it covers find the lost-leader answer in their channels; an older one does nothing. |
| Rsm.RSM.Receive | src/kvraft1/rsm/rsm.go:285-303 | Submit returns OK only if a command with its server and id was executed at the index it was proposed at, with the result it returned; of this incarnation's operations only this one has that id. |
| Rsm.RSM.Discard | src/kvraft1/rsm/rsm.go:249-255 | A Submit that gives up removes its own registration only. |
| Rsm.RSM.Close | src/kvraft1/rsm/rsm.go:128-131 | When Raft closes the channel, every waiter finds the lost-leader answer in its channel. |
| SubmitSafety.SubmitsLinearize | src/kvraft1/rsm/rsm.go:85-303 | For every number of servers, every rule for ids after a restart and every run: one log explains the cluster at all times, and in it every answered Submit that had no twin when it started (same server, id and index) has its own entry at its index, its answer is what its operation gives there, and everything answered before it started lies before it; no Submit is answered twice. |
| SubmitSafety.ExecutedIsTold | src/kvraft1/rsm/rsm.go:102-124 | In every run: when a server executes a command and a call with its server and id waits at its index, that call is told the command's result on the decided log; in every other case nobody is told anything. |
| SubmitPolicy.AlwaysRightIff | src/kvraft1/rsm/rsm.go:22-28 | That holds for all answers of all runs, without the condition, if and only if the cluster has at most two servers or ids after a restart never go on below those used. |
| SubmitExample.WrongAnswer | src/kvraft1/rsm/rsm.go:206-221 | For every size from three on and every rule that goes on below some count r: a run in which the Submit of one Put is answered OK with the result of an earlier Put of the same server, which is what was executed at its index. |
| SubmitPolicy.NoTwins | src/kvraft1/rsm/rsm.go:269-273 | With at most two servers no two operations are ever put at the same index, whatever their ids. |
| KvServer.KVServer.Put | src/kvsrv1/server.go:67-91 | The map and the answer are those of DoOp. |
| KvServer.KVServer.Get | src/kvsrv1/server.go:45-61 | The answer is that of DoOp. |
| KvStore.ReadThenWrite | src/kvsrv1/server.go:45-91 | For every store, and for present and absent keys: a Put with the version that a Get returns is accepted, the next Get gives its value at the next version, and other keys read as before. |
| Clerks.AtMostOnce | src/kvsrv1/server.go:67-91 | All copies of a Put together write at most once. |
| Clerks.AnswersMean | src/kvsrv1/client.go:72-97 | OK: written exactly once, by the answered copy; ErrVersion: never; ErrNoKey: never, and ErrMaybe: at most once, before the answered copy, unless a copy was executed after the call returned, and then only after it. |
| Clerks.GetsMean | src/kvsrv1/server.go:45-61 | A completed Get was answered the value and the version of its key at the answered execution, OK if and only if the key existed, and else ErrNoKey with version 0. |
| Clerks.GetReaches | src/kvsrv1/client.go:35-53 | A Put with a version that a Get of its key returned has a reached version, whenever it is called. |
| Clerks.PointAccepted | src/models1/kv.go:49-67 | A completed call has a point in its interval where the specification makes the store's step if and only if its copies are confined to the call, as those of a reached version are; it accepts the answer there if and only if the call is not a Put with a nonzero version of a missing key. |
| Clerks.Linearizable | src/models1/kv.go:44-67 | The same for every run; the executions form one sequence of states, and nothing but points and open calls changes the store. |
| LateCopies.StaysConfinedIffReached | src/kvraft1/client.go:62-92 | However a run goes on, no copy of an open Put writes after the call has returned, if and only if the key has reached the version of the Put. |
| LateCopies.ConfinedIffReachedAtStart | src/kvsrv1/client.go:72-97 | The same at the moment the call begins, as a condition that the client can check. |
| LateCopies.AfterGetConfined | src/kvraft1/client.go:62-92 | So its copies stay confined to the call however the run goes on. |
| LateCopies.LateWrites | src/kvraft1/client.go:62-92 | For any other open Put there is a continuation in which the client is told ErrMaybe, or ErrNoKey if the key is missing, and a copy writes after that. |
| LateCopies.ToldNoKeyThenWritten | src/kvsrv1/client.go:72-97 | A run from the start in which a Put that was answered ErrNoKey writes later. |
| LateCopies.ToldMaybeThenWritten | src/kvsrv1/client.go:72-97 | A run from the start in which a Put that was answered ErrMaybe writes only later. |
| LateCopies.InTimeIsConfined | src/kvsrv1/client.go:72-97 | In runs where no copy is executed after its call has returned, all calls are confined and linearized, and a Put that was answered ErrNoKey is never written. |
| ClerkLoops.PutOne | src/kvsrv1/client.go:72-97 | The answer is that of the first reply, and ErrVersion becomes ErrMaybe exactly if an attempt came before it. |
| ClerkLoops.GetOne | src/kvsrv1/client.go:35-53 | The first reply there is decides, whatever it says. |
| ClerkLoops.RaftClerk.Put | src/kvraft1/client.go:62-92 | The same over rounds of servers, and the leader that is remembered is the one that answered. |
| ClerkLoops.RaftClerk.Get | src/kvraft1/client.go:35-52 | The first definite answer, and its server as leader. |
| ClerkLoops.GroupClerk.Put | src/shardkv1/shardgrp/client.go:79-144 | Ends with the first definite answer as above, or with ErrWrongGroup, which means that a server said so or that this was the first round without any reply; the server that answered is remembered as leader. |
| ClerkLoops.GroupRound | src/shardkv1/shardgrp/client.go:79-144 | What the group's clerk returns is what the sharded clerk's loop expects of a round. |
| ClerkLoops.GroupClerk.Ask | src/shardkv1/shardgrp/client.go:152-222 | The loop of Get, Freeze, Install and Delete: the first definite answer, whose server is remembered as leader, or the error for an unreachable group after the first round without any reply. |
| ClerkLoops.PutSharded | src/shardkv1/client.go:107-128 | Over all groups together the answer is as for one server: the first definite one, ambiguous exactly if an attempt at any group came before it. |
| ClerkLoops.GetSharded | src/shardkv1/client.go:74-93 | The first group that does not refuse decides; an unreachable one counts as refusing. |
| LockService.MutualExclusion | src/kvsrv1/lock/lock.go:69-150 | For any number of clients with distinct ids, and any loss, delay or repetition: at most one client is between Acquire and Release, and meanwhile the server stores its id at the version it remembers. |
| LockService.ReleaseFrees | src/kvsrv1/lock/lock.go:129-150 | Release returns only when the key no longer holds the client's id, and no copy still on its way can bring it back. |
| LockLoops.Lock.Acquire | src/kvsrv1/lock/lock.go:69-125 | Over calls and answers alone: a key that was never written is claimed at version 0 and a free one at the version read, right after the read; anything else is read again; it ends exactly with an OK claim or with a read of its own id, and remembers the version at which the key holds it. |
| LockLoops.Lock.Release | src/kvsrv1/lock/lock.go:129-150 | The key is freed at the version at which it is held; after any other answer than OK it is read, and freed again at the version read exactly if it still holds the id. |
| ShardGroup.KVServer.Execute | src/shardkv1/shardgrp/server.go:82-174 | The named shard and the answer are those of Exec, with the guards by number and by served; all other shards stay as they are. |
| ShardGroup.ServesByHistory | src/shardkv1/shardgrp/server.go:120-174 | After any sequence of operations: a group's number for a shard is the largest it was asked with, it serves the shard exactly if the last operation that was not stale is an Install (or there was none and it is the first group), and after a Delete it holds nothing. |
| ShardGroup.AnswersByHistory | src/shardkv1/shardgrp/server.go:82-174 | An operation is answered ErrStale, and changes nothing, if and only if an earlier one had a larger number; ErrWrongGroup if and only if the shard is not served; a Freeze that is not stale hands out the contents, and an Install that is not a repetition puts in its own. |
| ShardGroup.KVServer.Restore | src/shardkv1/shardgrp/server.go:193-211 | A snapshot replaces the state of all shards; empty data changes nothing. |
| ShardSafety.SingleOwner | src/shardkv1/shardgrp/server.go:120-171 | In every reachable state at most one group serves a shard, with any number of controllers and any delay or repetition of messages. |
| ShardSafety.NumNeverDecreases | src/shardkv1/shardgrp/server.go:120-171 | A group's number for a shard never decreases. |
| ShardSafety.OnlyClientsWrite | src/shardkv1/shardctrler/shardctrler.go:204-271 | Nothing but a client's request changes a shard's contents; a late Install with an old or empty state never replaces newer data. |
| ShardSafety.StoreRefinesMap | src/shardkv1/shardgrp/server.go:82-119 | The sharded store refines one map: a request at any group is refused without effect or answered and executed as on the one map. |
| ShardSafety.StoreIsFold | src/shardkv1/shardctrler/shardctrler.go:204-297 | Over a whole run with any number of reconfigurations the store is the fold of the requests that were not refused, each once and in order. |
| ShardSafety.StepConfigs | src/shardkv1/shardctrler/shardctrler.go:122-163 | config_next only goes on to the number after the one in force; config only to what config_next holds, with every shard served by its new group. |
| ShardSafety.OneConfigPerNum | src/shardkv1/shardctrler/shardctrler.go:122-163 | Over a whole run every number has one content, in config_next and in force. |
| ShardSafety.StaleNeverPublishes | src/shardkv1/shardctrler/shardctrler.go:236-241 | A controller that is told ErrStale publishes nothing. |
| ShardTakeover.TakeoverKeepsIff | src/shardkv1/shardctrler/shardctrler.go:64-81 | In every reachable state: a takeover keeps one server for each shard and the contents of the store, however the run goes on, if and only if the configuration read first places each shard as the predecessor of the one read second does, or the shard has already arrived. |
| ShardTakeover.UnbegunKeepsIff | src/shardkv1/shardctrler/shardctrler.go:64-81 | Before any group has seen the change: if and only if the two configurations place all shards alike. |
| ShardTakeover.NextNumberKeeps | src/shardkv1/shardctrler/shardctrler.go:64-81 | What a caller can check: it is kept if the number read second is the number read first plus one. |
| ShardTakeover.SkewedTakeoverLosesData | src/shardkv1/shardctrler/shardctrler.go:64-81 | A run from the first configuration, with the two reads apart and one Put, after which the store differs from the fold of the executed requests. |
| Controller.ShardCtrler.ChangeConfigTo | src/shardkv1/shardctrler/shardctrler.go:122-194 | Whatever the answers are, its calls are those of a process of ShardMove, and over calls and answers alone: it ends before moving only if config or config_next is absent or not older than n, or its claim was refused, or was in doubt and config_next does not hold n; after a claim that landed it reads config, passes over all shards until no group is missing, and publishes. |
| Controller.ShardCtrler.InitController | src/shardkv1/shardctrler/shardctrler.go:64-81 | The same for a controller that takes over: it ends early only if config is absent, or config_next is absent or not newer. |
| Controller.ShardCtrler.MoveTo | src/shardkv1/shardctrler/shardctrler.go:204-271 | The per-shard loop freezes, installs and deletes in the order of the model; true means ready to publish, false means recheck. |
| Controller.ShardCtrler.PublishConfig | src/shardkv1/shardctrler/shardctrler.go:305-316 | Reads and writes alternate, each write at the version just read; it ends exactly when a write is answered OK, or config is read absent or not older than n. |
| Balance.RebalanceBalances | src/shardkv1/shardcfg/shardcfg.go:122-154 | From any configuration and with any nonempty set of groups, every shard ends on a member and loads differ by at most one. |
| Balance.BalancedStays | src/shardkv1/shardcfg/shardcfg.go:122-154 | Rebalancing a balanced configuration changes nothing. |
| Balance.PairsMove | src/shardkv1/shardcfg/shardcfg.go:135-153 | By how much a move changes the number of pairs of shards on one group, the measure that makes the loop end. |
| Balance.JoinMovesOnlyOntoJoined | src/shardkv1/shardcfg/shardcfg.go:207-213 | From a balanced configuration, a Join moves shards only onto groups that joined. |
| Balance.LeaveMovesOnlyDeparted | src/shardkv1/shardcfg/shardcfg.go:215-221 | From a balanced configuration, a Leave moves only the shards of groups that left. |
| ShardCfg.Extremes | src/shardkv1/shardcfg/shardcfg.go:80-111 | The scan finds the smallest id with the largest load and the smallest id with the smallest load. |
| ShardCfg.ShardConfig.Rebalance | src/shardkv1/shardcfg/shardcfg.go:122-154 | In place, the shards become Rebalanced of what they were, for up to 256 shards. |
| ShardCfg.ShardConfig.JoinBalance | src/shardkv1/shardcfg/shardcfg.go:207-213 | Succeeds exactly if no group was a member; the result is balanced and moves little. |
| ShardCfg.ShardConfig.LeaveBalance | src/shardkv1/shardcfg/shardcfg.go:215-221 | The result is balanced and shards of groups that stay do not move. |
| ShardCfg.ShardConfig.Join | src/shardkv1/shardcfg/shardcfg.go:156-183 | Adds exactly the new groups, or refuses. |
| ShardCfg.ShardConfig.Leave | src/shardkv1/shardcfg/shardcfg.go:185-205 | Removes exactly the named groups, or refuses at the first that is not a member, having removed those before it. |
| MrText.PrintParses | src/mr/worker.go:358-364 | Reading a printed file back gives the printed records, for keys without newlines and values without spaces and newlines. |
| MrReader.LineReader.ReadLine | src/mr/worker.go:320-354 | The buffered reader returns the lines of the byte range, whatever their length and wherever blocks end. |
| MrReader.LineReader.Next | src/mr/worker.go:301-316 | The next record, skipping lines that are none, and where it starts. |
| MrReduce.FindRuns | src/mr/worker.go:182-217 | Cutting where the key falls, and only there, yields sorted runs that partition the file. |
| MrMerge.Merge | src/mr/worker.go:219-266 | The merge emits strictly increasing keys, each with exactly its values over all runs. |
| MrMerge.DoReduce | src/mr/worker.go:167-279 | The output of a reduce task is that of its files' records. |
| MrOutput.PartitionsAreWhole | src/mr/worker.go:101-159 | The outputs of all partitions together are the output for all records, for a Reduce that ignores the order of values. |
| MrJob.DoMap | src/mr/worker.go:101-159 | What is read back from each partition's file is exactly the records that hash to it, however they were batched. |
| MrJob.Flush | src/mr/worker.go:131-143 | A full batch is sorted and appended, and nothing else changes. |
| MrJob.Sequential | src/main/mrsequential.go:59-84 | The sequential program writes one record for each key, in order, with the reduction of its values. |
| MrJob.Distributed | src/mr/worker.go:101-279 | For every input, number of partitions, hash and buffer size, the union of all partitions' outputs is what the sequential program writes. |
| MrWhole.FinishedJobIsSequential | src/mr/coordinator.go:120-206 | When the coordinator is done, however often tasks were executed and requeued: if each accepted report came from some execution of its map, and each output from some execution of its reduce over the files that the coordinator hands out, then all outputs together are those of the sequential program. |
| MrWhole.PartitionRead | src/mr/coordinator.go:178-189 | The files of the accepted reports for a partition hold exactly its share of all emitted records, in whatever order the reports came. |
| MrWorkers.RunJob | src/mr/worker.go:50-93 | A job from its start, with any interleaving of workers that ask, execute, report late or die: if the coordinator says that it is done, each partition has an output in place and together they are those of the sequential program. |
| MrWorkers.RunOn | src/mr/worker.go:267-279 | Whatever happens from any state on, a partition whose first execution has reported in vain is never accepted, and the job is never done. |
| MrWorkers.LateReport | src/mr/worker.go:83-90 | A run of one map and one reduce that takes as long as the timeout and ends in such a state. |
| MrWorkers.DoReportReduce | src/mr/coordinator.go:194-206 | The only report that an execution of a reduce makes counts if and only if the task is out when it arrives. |
| TaskList.NodeList.PushBack | src/mr/coordinator.go:98-104 | The list stays well-linked and gets the node at its end. |
| TaskList.NodeList.Remove | src/mr/coordinator.go:106-112 | The list stays well-linked and loses just that node. |
| Coordinator.Coordinator.constructor | src/mr/coordinator.go:315-336 | All maps wait, in order, and nothing is out. |
| Coordinator.Coordinator.Conservation | src/mr/coordinator.go:40-82 | The two lists together hold every unfinished task exactly once and nothing else. |
| Coordinator.Coordinator.OneNodePerTask | src/mr/coordinator.go:37-54 | A task owns one node, in one of the lists. |
| Coordinator.Coordinator.DoneMeansAll | src/mr/coordinator.go:129-134 | If the job is done, every map report and every reduce report was accepted. |
| Coordinator.BookOne | src/mr/coordinator.go:178-189 | Accepting a report keeps the books: each map once, its files once in their partitions. |
| Coordinator.Coordinator.GetTask | src/mr/coordinator.go:120-159 | Exit if and only if everything was accepted; else the task that waits longest, a reduce only after all maps and with all their files; else wait. |
| Coordinator.Coordinator.ReportMap | src/mr/coordinator.go:162-191 | A report is accepted if and only if its task is out; otherwise nothing changes. |
| Coordinator.Coordinator.ReportReduce | src/mr/coordinator.go:194-206 | The same for reduces, each accepted at most once. |
| Coordinator.Coordinator.StartReducePhase | src/mr/coordinator.go:210-223 | All reduces wait, in order, and nothing is out. |
| Coordinator.Coordinator.Alloc | src/mr/coordinator.go:227-251 | A node that is nowhere else, in the next generation of its task. |
| Coordinator.Coordinator.Recycle | src/mr/coordinator.go:255-259 | A detached node goes to the pool and changes nothing else. |
| Coordinator.Coordinator.CheckTimeout | src/mr/coordinator.go:263-287 | Exactly the expired tasks are requeued, in order, although the scan stops at the first one that is not expired. |
| Coordinator.Coordinator.MapsCounted | src/mr/coordinator.go:124-127 | The number of finished maps equals that of inputs exactly if all maps are finished. |

## Left out

- Transport, gob and JSON encoding, process control, the test harness and its visualisation: messages are values in a set, and a snapshot's bytes are the state they encode.
- Timers, random timeouts, sleeps, notify channels and round pacing: steps happen at any time, and nothing is claimed about liveness that depends on time.
- Goroutines and locks: a critical section is one atomic step; what runs outside the lock (the applier's sends, the reader, calls between servers) interleaves freely.
- Integer widths: terms, indexes, versions and numbers are unbounded.
- Snapshot bytes are not empty: the applier treats a nil snapshot as none, and the model's `NoSnap` is that nil.
- Duplicate vote replies: each call of RequestVote returns at most once, as in the program.
- When the reader takes a snapshot (`maybeSnapshot`'s size test): the model lets it do so, or not, after every command.
- Rsm.RSM.Apply: requires that messages come in the order that ClusterSafety.ApplyOrder proves; claiming the waiter, executing the command and sending the result are one step, while the program releases its lock in between.
- SubmitSafety.SubmitsLinearize: what it says of a Submit that had a twin is only that the entry decided at its index is its own or the twin's; which one depends on later elections. A Submit may give up at any time, while the program does so only after its server has lost the term.
- Rsm: `stale` and the polling loop around it only decide when `Discard` is called; commands are requests of the key/value service.
- Clerks: one map stands for the server; that the replicated and the sharded store are such a map is what SubmitSafety and ShardSafety state.
- ClerkLoops: what calls return is given as a sequence that contains a definite answer; the cache of group clerks and the waiting for a configuration that places the shard are not modelled.
- LockLoops and Controller: what calls return is given as a sequence that fits the calls and leads to the end; a Get of a key that does not exist is version 0.
- ShardMove: groups are reached by id, without server lists; configurations place every shard on a member group, as Rebalance does with at least one group; callers derive a configuration from one that was in force.
- ShardMove: each group is one atomic state machine, which is what ClusterSafety proves of replicated ones; in the runs of ShardSafety every takeover is one that ShardTakeover proves harmless.
- ShardTakeover.TakeoverKeepsIff: the "only if" direction requires that every shard has some key, and, for a shard in transit, that what the group that the takeover would freeze has left of it differs from its contents or that a request already on its way changes it; else it depends on whether some old controller still gets to send such a request.
- Controller.ShardCtrler.MoveTo: the map of clerks by group is not modelled; InitConfig and Query, one Put and one Get of config, are left out.
- ShardCfg.ShardConfig: Join and Leave of no groups, which end the program, are preconditions; more than 256 shards would make the running minimum start too low.
- MrMerge.Merge: container/heap is modelled by picking a smallest element, and sort by a stable insertion sort, of which only the sorted permutation is used.
- MrJob, MrWhole and MrWorkers: files are texts under names that no two executions share, and not operating-system files; temporary names, deletion, process exit and plugin loading are left out, and the hash is any function of the key.
- MrWorkers: a worker is told apart by its executions, an execution reads all its files or none, and linking its output is one step with computing it; a report arrives at most once, as the program sends it once.
- MrReader: the read buffer that all readers share is modelled by a fresh block for each read.
- Coordinator.Coordinator: the number of partitions that every node and reply repeats and the input index that a map node carries are not modelled; reports of reduces carry nonnegative ids, and input file names are distinct.
