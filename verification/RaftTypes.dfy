/** Log entries, RPC arguments and replies of the Raft servers. */
module RaftTypes {
  import opened KvStore

  /** A command the service proposes; `Nil` is the command of the sentinel entry. */
  datatype Command = Nil | Op(me: nat, id: nat, req: Request)

  datatype Entry = Entry(term: nat, cmd: Command)

  type Log = seq<Entry>

  const SENTINEL := Entry(0, Nil)

  /** Snapshot bytes; `NoSnap` is the nil slice. */
  datatype Snap = NoSnap | Snap(state: Store)

  datatype VoteArgs = VoteArgs(term: nat, candidate: nat, lastLogIndex: nat, lastLogTerm: nat)
  datatype VoteReply = VoteReply(term: nat, granted: bool)

  datatype AppendArgs = AppendArgs(term: nat, leader: nat, prevIndex: nat, prevTerm: nat,
                                   entries: seq<Entry>, leaderCommit: nat)
  datatype AppendReply = AppendReply(term: nat, success: bool, xTerm: int, xIndex: int, xLen: int)

  datatype InstallArgs = InstallArgs(term: nat, leader: nat, lastIndex: nat, lastTerm: nat, data: Snap)
  datatype InstallReply = InstallReply(term: nat, success: bool)

  /** What the applier sends to the service. */
  datatype ApplyMsg =
    | CommandMsg(index: nat, cmd: Command)
    | SnapshotMsg(index: nat, term: nat, data: Snap)

  function Max(a: int, b: int): int { if a < b then b else a }

  function Min(a: int, b: int): int { if a < b then a else b }

  /** The service state after the first k entries of a log. */
  function Replay(log: Log, k: nat): Store
    requires k <= |log|
  {
    if k == 0 then map[]
    else
      var m := Replay(log, k - 1);
      match log[k - 1].cmd
      case Nil => m
      case Op(_, _, req) => DoOp(m, req).0
  }

  /** Two logs that agree on their first k entries replay to the same state. */
  lemma {:induction false} ReplayAgrees(x: Log, y: Log, k: nat)
    requires k <= |x| && k <= |y|
    requires forall i :: 0 <= i < k ==> x[i].cmd == y[i].cmd
    ensures Replay(x, k) == Replay(y, k)
  {
    if k > 0 {
      ReplayAgrees(x, y, k - 1);
    }
  }
}
