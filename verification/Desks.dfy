/** What the service layer of one server keeps for its waiting `Submit` calls, as values. */
module Desks {
  import opened KvStore
  import opened RaftTypes

  /** What the reader tells a waiting Submit; `rep` has a meaning only if err is OK. */
  datatype OpResult = OpResult(err: Err, rep: Reply)

  const LOST := OpResult(ErrWrongLeader, PutReply(ErrWrongLeader))

  datatype Waiter = Waiter(ch: nat, me: nat, id: nat)

  /** Whether the command at a waiter's index is the one it waits for. */
  function Verdict(w: Waiter, cmd: Command, rep: Reply): OpResult {
    if cmd.Op? && cmd.me == w.me && cmd.id == w.id then OpResult(OK, rep) else LOST
  }

  /** The last id used, and who waits for which index. */
  datatype Desk = Desk(reqNum: nat, pending: map<nat, Waiter>)
  {
    /** An operation gets its id before `Start` says whether the server leads. */
    function Numbered(): Desk {
      this.(reqNum := reqNum + 1)
    }

    function Registered(me: nat, ch: nat, index: nat): Desk {
      this.(pending := pending[index := Waiter(ch, me, reqNum)])
    }

    /** Who still waits after a message from Raft: a command takes the waiter at its index, a newer
        snapshot those that it covers. */
    function Served(m: ApplyMsg, lastApplied: nat): Desk {
      match m
      case CommandMsg(index, cmd) => if cmd.Op? then this.(pending := pending - {index}) else this
      case SnapshotMsg(index, _, _) =>
        if index <= lastApplied then this else this.(pending := map i | i in pending && i > index :: pending[i])
    }

    function Discarded(index: nat, ch: nat): Desk {
      if index in pending && pending[index].ch == ch then this.(pending := pending - {index}) else this
    }
  }
}
