/**
 The replicated state machine layer of one server incarnation: the reader executes what Raft
 delivers and hands results to the waiting `Submit` calls through channels of capacity one.
 */
module Rsm {
  import opened KvStore
  import opened RaftTypes
  import opened RaftState
  import opened Cluster
  import opened Desks

  /** What a channel was made for: the operation a Submit proposed, and its index. */
  datatype Ticket = Ticket(index: nat, id: nat, req: Request)

  class RSM {
    const me: nat
    var reqNum: nat
    var pending: map<nat, Waiter>
    var down: bool
    var sm: Store
    var lastApplied: nat
    var saving: Option<(nat, Snap)>
    var chans: seq<seq<OpResult>>          // what is in each channel

    ghost var pos: nat                     // index up to which the state has been built
    ghost var sent: seq<seq<OpResult>>     // all that was ever sent on each channel
    ghost var tickets: seq<Ticket>
    ghost var executed: map<nat, (Command, Reply)>   // by this incarnation, by index

    ghost function View(): Service
      reads this
    {
      Service(sm, lastApplied, saving, pos)
    }

    ghost function AsDesk(): Desk
      reads this
    {
      Desk(reqNum, pending)
    }

    /** The result that was sent is that of a command with the id the channel was made for, at its
        index. */
    ghost predicate ResultOk(c: nat)
      requires c < |sent| && c < |tickets|
      reads `sent, `tickets, `executed
    {
      && |sent[c]| <= 1
      && forall r :: r in sent[c] && r.err == OK ==>
           tickets[c].index in executed && Answers(executed[tickets[c].index], tickets[c], r.rep)
    }

    ghost predicate Answers(done: (Command, Reply), t: Ticket, rep: Reply) {
      done.0.Op? && done.0.me == me && done.0.id == t.id && done.1 == rep
    }

    /** The waiter's channel is empty and was made for its own operation at this index. */
    ghost predicate Waiting(w: Waiter, index: nat)
      reads `chans, `sent, `tickets
    {
      && w.ch < |chans| == |sent| == |tickets| && sent[w.ch] == [] && chans[w.ch] == []
      && tickets[w.ch].index == index && w.me == me && w.id == tickets[w.ch].id
    }

    ghost predicate ChansOk()
      reads `chans, `sent, `tickets, `executed
    {
      && |chans| == |sent| == |tickets|
      && forall c :: 0 <= c < |chans| ==> ResultOk(c) && (chans[c] == [] || chans[c] == sent[c])
    }

    ghost predicate PendingOk()
      reads `pending, `chans, `sent, `tickets
    {
      forall i :: i in pending ==> Waiting(pending[i], i)
    }

    /** Ids are used once. */
    ghost predicate IdsOk()
      reads `tickets, `reqNum
    {
      && (forall c :: 0 <= c < |tickets| ==> 1 <= tickets[c].id <= reqNum)
      && (forall c, d :: 0 <= c < d < |tickets| ==> tickets[c].id < tickets[d].id)
    }

    ghost predicate Valid()
      reads `pending, `chans, `sent, `tickets, `executed, `reqNum, `pos
    {
      ChansOk() && PendingOk() && IdsOk() && forall i :: i in executed ==> i <= pos
    }

    /** An id stands for one operation of this incarnation. */
    lemma IdOnce(ch: nat)
      requires Valid() && ch < |tickets|
      ensures forall c :: 0 <= c < |tickets| && tickets[c].id == tickets[ch].id ==> c == ch
    {
    }

    /** `MakeRSM` after Raft has started with its snapshot. */
    constructor (me: nat, r: Raft)
      ensures Valid() && View() == BootService(r) && this.me == me && pending == map[] && chans == [] && !down
    {
      this.me := me;
      reqNum, pending, down, lastApplied, saving, chans := 0, map[], false, 0, None, [];
      sm := if r.snapshot.NoSnap? then map[] else r.snapshot.state;
      pos, sent, tickets, executed := r.lastIncludeIndex, [], [], map[];
    }

    /** The first half of `Submit`, under the lock; index and isLeader are the results of `Start`. */
    method Register(req: Request, index: nat, isLeader: bool) returns (ok: bool, cmd: Command, ch: nat)
      requires Valid()
      modifies this`reqNum, this`pending, this`chans, this`sent, this`tickets
      ensures Valid() && ok == (!down && isLeader)
      ensures AsDesk() == if down then old(AsDesk()) else if ok then old(AsDesk()).Numbered().Registered(me, ch, index)
                          else old(AsDesk()).Numbered()
      ensures !down ==> cmd == Op(me, reqNum, req) && reqNum == old(reqNum) + 1
      ensures ok ==> ch == |old(chans)| && chans == old(chans) + [[]]
                     && tickets == old(tickets) + [Ticket(index, reqNum, req)]
                     && pending == old(pending)[index := Waiter(ch, me, reqNum)]
      ensures !ok ==> chans == old(chans) && pending == old(pending) && tickets == old(tickets)
    {
      if down {
        return false, Nil, 0;
      }
      reqNum := reqNum + 1;
      cmd := Op(me, reqNum, req);
      if !isLeader {
        return false, cmd, 0;
      }
      ch := |chans|;
      chans := chans + [[]];
      sent := sent + [[]];
      tickets := tickets + [Ticket(index, reqNum, req)];
      pending := pending[index := Waiter(ch, me, reqNum)];
      ok := true;
    }

    /** `w.ch <- r`. It would block if the channel were not empty, which it always is. */
    method Send(w: Waiter, index: nat, r: OpResult)
      requires ChansOk() && PendingOk() && Waiting(w, index) && index !in pending
      requires r.err == OK ==> index in executed && Answers(executed[index], tickets[w.ch], r.rep)
      modifies this`chans, this`sent
      ensures ChansOk() && PendingOk()
      ensures chans == old(chans)[w.ch := [r]] && sent == old(sent)[w.ch := [r]]
    {
      chans := chans[w.ch := [r]];
      sent := sent[w.ch := [r]];
    }

    /** The reader's turn with one message from Raft. Raft sends commands in order and snapshots
        only ahead of them (`ClusterSafety.ApplyOrder`). */
    method Apply(msg: ApplyMsg, save: bool)
      requires Valid() && saving.None? && if msg.CommandMsg? then msg.index == pos + 1 else msg.index > pos
      modifies this`pending, this`sm, this`lastApplied, this`saving, this`chans, this`sent, this`pos, this`executed
      ensures Valid() && View() == OnApply(old(View()), msg, save)
      ensures AsDesk() == old(AsDesk()).Served(msg, old(lastApplied))
      ensures forall i :: i in old(executed) ==> i in executed && executed[i] == old(executed)[i]
      ensures msg.CommandMsg? && msg.cmd.Op? ==>
                && msg.index in executed && executed[msg.index] == (msg.cmd, DoOp(old(sm), msg.cmd.req).1)
                && (sm, lastApplied) == (DoOp(old(sm), msg.cmd.req).0, msg.index)
                && saving == (if save then Some((msg.index, Snap(sm))) else None)
                && pending == old(pending) - {msg.index}
                && if msg.index !in old(pending) then chans == old(chans)
                   else
                     var w := old(pending)[msg.index];
                     if msg.cmd.me == w.me && msg.cmd.id == w.id
                     then chans == old(chans)[w.ch := [OpResult(OK, executed[msg.index].1)]]
                     else chans == old(chans)[w.ch := [OpResult(ErrWrongLeader, PutReply(ErrWrongLeader))]]
      ensures msg.SnapshotMsg? && msg.index > old(lastApplied) ==>
                && pending == (map i | i in old(pending) && i > msg.index :: old(pending)[i])
                && forall i :: i in old(pending) && i <= msg.index ==> chans[old(pending)[i].ch] == [LOST]
    {
      hide ChansOk, PendingOk, IdsOk;
      match msg {
        case SnapshotMsg(index, _, data) =>
          ApplySnapshot(index, data);
        case CommandMsg(index, cmd) =>
          if cmd.Op? {
            var rep := Execute(index, cmd);
            if index in pending {
              Answer(index, cmd, rep);
            }
            lastApplied := index;
            saving := if save then Some((index, Snap(sm))) else None;
          } else {
            pos := index;
          }
      }
    }

    /** `DoOp`, once for every committed command. */
    method Execute(index: nat, cmd: Command) returns (rep: Reply)
      requires Valid() && index == pos + 1 && cmd.Op?
      modifies this`sm, this`pos, this`executed
      ensures Valid() && (sm, rep) == DoOp(old(sm), cmd.req) && pos == index
      ensures executed == old(executed)[index := (cmd, rep)] && index !in old(executed)
    {
      var (m, reply) := DoOp(sm, cmd.req);
      sm, rep := m, reply;
      pos := index;
      executed := executed[index := (cmd, rep)];
    }

    /** The waiter of this index learns its result, or that another command took its place. */
    method Answer(index: nat, cmd: Command, rep: Reply)
      requires Valid() && index in pending && index in executed && executed[index] == (cmd, rep)
      requires cmd.Op?
      modifies this`pending, this`chans, this`sent
      ensures Valid() && |chans| == |old(chans)| && pending == old(pending) - {index}
      ensures var w := old(pending)[index]; chans == old(chans)[w.ch := [Verdict(w, cmd, rep)]]
    {
      var w := pending[index];
      pending := pending - {index};
      Send(w, index, Verdict(w, cmd, rep));
    }

    method ApplySnapshot(index: nat, data: Snap)
      requires Valid() && index > pos
      modifies this`pending, this`sm, this`lastApplied, this`chans, this`sent, this`pos
      ensures Valid() && |chans| == |old(chans)|
      ensures index <= old(lastApplied) ==> View() == old(View()) && pending == old(pending)
      ensures index > old(lastApplied) ==>
                && View() == Service(if data.NoSnap? then map[] else data.state, index, saving, index)
                && pending == (map i | i in old(pending) && i > index :: old(pending)[i])
                && forall i :: i in old(pending) && i <= index ==> chans[old(pending)[i].ch] == [LOST]
    {
      hide ChansOk, PendingOk, IdsOk;
      if index <= lastApplied {
        return;
      }
      sm := if data.NoSnap? then map[] else data.state;
      lastApplied := index;
      pos := index;
      ghost var was := pending;
      DropUpTo(index);
      assert was == old(pending);
    }

    /** Wakes the Submits whose index the snapshot covers: they would wait for ever. */
    method DropUpTo(index: nat)
      requires Valid()
      modifies this`pending, this`chans, this`sent
      ensures Valid() && |chans| == |old(chans)|
      ensures pending == map i | i in old(pending) && i > index :: old(pending)[i]
      ensures forall i :: i in old(pending) && i <= index ==> chans[old(pending)[i].ch] == [LOST]
    {
      hide ChansOk, PendingOk, IdsOk, Valid;
      OwnChannels();
      var todo: set<nat> := set i: nat | i in pending && i <= index;
      while todo != {}
        invariant Valid() && |chans| == |old(chans)|
        invariant forall i :: i in todo ==> i <= index && i in pending
        invariant forall i :: i in pending <==> i in old(pending) && (i > index || i in todo)
        invariant forall i :: i in old(pending) && i <= index && i !in todo ==> chans[old(pending)[i].ch] == [LOST]
        invariant forall i :: i in pending ==> pending[i] == old(pending)[i]
        decreases |todo|
      {
        var i :| i in todo;
        Drop(i);
        todo := todo - {i};
      }
    }

    /** No two waiters share a channel. */
    lemma OwnChannels()
      requires Valid()
      ensures forall i, j :: i in pending && j in pending && i != j ==> pending[i].ch != pending[j].ch
      ensures forall i :: i in pending ==> pending[i].ch < |chans|
    {
      forall i | i in pending ensures Waiting(pending[i], i) {
      }
    }

    method Drop(i: nat)
      requires Valid() && i in pending
      modifies this`pending, this`chans, this`sent
      ensures Valid() && |chans| == |old(chans)| && pending == old(pending) - {i}
      ensures chans == old(chans)[old(pending)[i].ch := [LOST]]
    {
      var w := pending[i];
      pending := pending - {i};
      Send(w, i, LOST);
    }

    /** Raft closed `applyCh`: every waiter is told. */
    method Close()
      requires Valid()
      modifies this`down, this`pending, this`chans, this`sent
      ensures Valid() && down && pending == map[]
      ensures |chans| == |old(chans)| && forall i :: i in old(pending) ==> chans[old(pending)[i].ch] == [LOST]
    {
      hide ChansOk, PendingOk, IdsOk;
      OwnChannels();
      down := true;
      while pending != map[]
        invariant Valid() && down && |chans| == |old(chans)|
        invariant forall i :: i in pending ==> i in old(pending) && pending[i] == old(pending)[i]
        invariant forall i :: i in old(pending) && i !in pending ==> chans[old(pending)[i].ch] == [LOST]
        decreases |pending|
      {
        var i :| i in pending;
        Drop(i);
      }
    }

    /** The second half of `Submit`: a result has arrived. OK means that a command with this
        operation's id was executed at the index it was proposed at, and rep is what it returned. When
        that is this very operation is what `Submits` proves about runs of the cluster. */
    method Receive(ch: nat) returns (r: OpResult)
      requires Valid() && ch < |chans| && chans[ch] != []
      modifies this`chans
      ensures Valid() && chans == old(chans)[ch := []] && r == old(chans)[ch][0]
      ensures r.err == OK ==>
                && tickets[ch].index in executed
                && var (cmd, rep) := executed[tickets[ch].index];
                && cmd.Op? && cmd.me == me && cmd.id == tickets[ch].id && r.rep == rep
                && forall c :: 0 <= c < |tickets| && tickets[c].id == cmd.id ==> c == ch
    {
      IdOnce(ch);
      r := chans[ch][0];
      assert ResultOk(ch) && r in sent[ch];
      chans := chans[ch := []];
    }

    /** `discard`: a Submit that gives up removes its own registration, not that of a later one. */
    method Discard(index: nat, ch: nat)
      requires Valid()
      modifies this`pending
      ensures Valid()
      ensures AsDesk() == old(AsDesk()).Discarded(index, ch)
      ensures pending == if index in old(pending) && old(pending)[index].ch == ch then old(pending) - {index} else old(pending)
    {
      if index in pending && pending[index].ch == ch {
        pending := pending - {index};
      }
    }
  }
}
