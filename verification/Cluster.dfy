/**
 A cluster of Raft servers with the service on top of each: every run of it is an interleaving
 of the critical sections of `RaftState`, the applier's and the reader's turns, and crashes.
 The network is the set of all messages ever sent: a message may be lost, delayed, reordered
 and, for requests, delivered any number of times.
 */
module Cluster {
  import opened KvStore
  import opened RaftTypes
  import opened RaftState

  /** Requests carry their destination; replies carry the arguments of the call they answer. */
  datatype Msg =
    | VoteReq(to: nat, va: VoteArgs)
    | VoteResp(from: nat, va: VoteArgs, vr: VoteReply)
    | AppendReq(to: nat, aa: AppendArgs)
    | AppendResp(from: nat, aa: AppendArgs, ar: AppendReply)
    | InstallReq(to: nat, ia: InstallArgs)
    | InstallResp(from: nat, ia: InstallArgs, ir: InstallReply)

  /** The replicated service of one server: the `rsm` reader and the key/value state machine.
      `pos` is not a program variable: it is the index up to which the state has been built. */
  datatype Service = Service(
    sm: Store,
    lastApplied: nat,
    saving: Option<(nat, Snap)>,   // a snapshot taken but not yet handed to Raft
    pos: nat)

  datatype Node = Node(
    raft: Raft,
    calls: set<nat>,               // RequestVote calls of the current candidacy still open
    outbox: seq<ApplyMsg>,         // what the applier took and has not sent yet
    svc: Service)

  /** A command that some server's service has executed at some index, ever. */
  datatype Applied = Applied(server: nat, index: nat, cmd: Command)

  datatype Sys = Sys(nodes: seq<Node>, net: set<Msg>, applied: set<Applied>)

  datatype Step =
    | Timeout(i: nat)                  // startElection
    | Receive(m: Msg)                  // a handler, or the code after a Call returned
    | Replicate(i: nat, peer: nat)     // one turn of the replicator of a peer
    | Propose(i: nat, cmd: Command)    // Start
    | Work(i: nat)                     // the applier's locked half
    | Consume(i: nat, save: bool)      // the reader takes the applier's next message
    | Save(i: nat)                     // the reader's call of Snapshot
    | Restart(i: nat)                  // crash, then Make and MakeRSM

  // ---------- The service ----------

  /** The reader after a restart: it only has what the snapshot says. */
  function BootService(r: Raft): Service {
    Service(match r.snapshot case NoSnap => map[] case Snap(m) => m, 0, None, r.lastIncludeIndex)
  }

  /** One message from `applyCh`; `save` says whether the Raft state has grown too large. */
  function OnApply(s: Service, m: ApplyMsg, save: bool): Service {
    match m
    case SnapshotMsg(index, _, data) =>
      if index <= s.lastApplied then s
      else Service(match data case NoSnap => map[] case Snap(x) => x, index, s.saving, index)
    case CommandMsg(index, cmd) =>
      match cmd
      case Nil => s.(pos := index)
      case Op(_, _, req) =>
        var sm := DoOp(s.sm, req).0;
        Service(sm, index, if save then Some((index, Snap(sm))) else None, index)
  }

  // ---------- Steps ----------

  function Peers(n: nat): (ps: set<nat>)
    ensures forall p :: p in ps <==> 0 <= p < n
  {
    if n == 0 then {} else Peers(n - 1) + {n - 1}
  }

  function Others(n: nat, i: nat): set<nat> {
    Peers(n) - {i}
  }

  function VoteReqs(n: nat, i: nat, va: VoteArgs): set<Msg> {
    set p | p in Others(n, i) :: VoteReq(p, va)
  }

  /** Who runs the code that a message triggers: replies return to the caller. */
  function Receiver(m: Msg): nat {
    match m
    case VoteReq(to, _) => to
    case AppendReq(to, _) => to
    case InstallReq(to, _) => to
    case VoteResp(_, va, _) => va.candidate
    case AppendResp(_, aa, _) => aa.leader
    case InstallResp(_, ia, _) => ia.leader
  }

  /** Which steps the program can take. Each vote reply is delivered at most once per call. */
  predicate Offered(s: Sys, step: Step) {
    match step
    case Timeout(i) => i < |s.nodes| && s.nodes[i].raft.role != Leader
    case Receive(m) =>
      && m in s.net
      && (m.VoteResp? && Receiver(m) < |s.nodes| ==>
            var node := s.nodes[Receiver(m)];
            m.va.term == node.raft.currentTerm && node.raft.role == Candidate ==> m.from in node.calls)
    case Replicate(i, peer) => i < |s.nodes| && s.nodes[i].raft.role == Leader && peer < |s.nodes| && peer != i
    case Propose(i, _) => i < |s.nodes| && s.nodes[i].raft.role == Leader
    case Work(i) => i < |s.nodes| && HasWork(s.nodes[i].raft) && s.nodes[i].outbox == []
    case Consume(i, _) => i < |s.nodes| && s.nodes[i].outbox != [] && s.nodes[i].svc.saving.None?
    case Save(i) => i < |s.nodes| && s.nodes[i].svc.saving.Some?
    case Restart(i) => i < |s.nodes|
  }

  /** The step addresses existing servers and does not index outside a log. The program does not
      check this: `ClusterSafety.NeverOutOfBounds` proves that it holds of every offered step. */
  predicate InBounds(s: Sys, step: Step)
    requires Offered(s, step)
  {
    match step
    case Timeout(i) => |s.nodes[i].raft.log| >= 1
    case Receive(m) =>
      && Receiver(m) < |s.nodes|
      && var r := s.nodes[Receiver(m)].raft;
      && r.InRange() && ReplyFits(r, m) && (m.AppendResp? || m.InstallResp? ==> m.from < |r.nextIndex|)
    case Replicate(i, peer) => s.nodes[i].raft.InRange() && peer < |s.nodes[i].raft.nextIndex|
    case Work(i) => s.nodes[i].raft.InRange()
    case Save(i) => |s.nodes[i].raft.log| >= 1
    case _ => true
  }

  predicate Enabled(s: Sys, step: Step) {
    Offered(s, step) && InBounds(s, step)
  }

  /** A reply to a call of the current leader does not speak of entries the leader lacks. */
  predicate ReplyFits(r: Raft, m: Msg) {
    match m
    case AppendResp(_, aa, _) =>
      aa.prevIndex + |aa.entries| <= r.LastIndex() || r.role != Leader || r.currentTerm != aa.term
    case InstallResp(_, ia, _) =>
      ia.lastIndex <= r.LastIndex() || r.role != Leader || r.currentTerm != ia.term
    case _ => true
  }

  function Update(s: Sys, i: nat, node: Node, sent: set<Msg>): Sys
    requires i < |s.nodes|
  {
    s.(nodes := s.nodes[i := node], net := s.net + sent)
  }

  function Handle(node: Node, m: Msg): (Node, set<Msg>)
    requires node.raft.InRange() && ReplyFits(node.raft, m)
    requires m.AppendResp? || m.InstallResp? ==> m.from < |node.raft.nextIndex|
  {
    var r := node.raft;
    match m
    case VoteReq(to, va) =>
      var (r', reply) := OnRequestVote(r, va);
      (node.(raft := r'), {VoteResp(to, va, reply)})
    case AppendReq(to, aa) =>
      var (r', reply) := OnAppendEntries(r, aa);
      (node.(raft := r'), {AppendResp(to, aa, reply)})
    case InstallReq(to, ia) =>
      var (r', reply) := OnInstallSnapshot(r, ia);
      (node.(raft := r'), {InstallResp(to, ia, reply)})
    case VoteResp(from, va, vr) =>
      (node.(raft := OnVoteReply(r, va, vr),
             calls := if va.term == r.currentTerm && r.role == Candidate then node.calls - {from} else node.calls), {})
    case AppendResp(from, aa, ar) => (node.(raft := OnAppendReply(r, from, aa, ar)), {})
    case InstallResp(from, ia, ir) => (node.(raft := OnInstallReply(r, from, ia, ir)), {})
  }

  function Apply(s: Sys, step: Step): Sys
    requires Enabled(s, step)
  {
    match step
    case Timeout(i) =>
      var node := s.nodes[i];
      Update(s, i, node.(raft := OnTimeout(node.raft), calls := Others(|s.nodes|, i)),
          VoteReqs(|s.nodes|, i, Candidacy(node.raft)))
    case Receive(m) =>
      var (node, sent) := Handle(s.nodes[Receiver(m)], m);
      Update(s, Receiver(m), node, sent)
    case Replicate(i, peer) =>
      Update(s, i, s.nodes[i],
          match NextRound(s.nodes[i].raft, peer)
          case SendAppend(aa) => {AppendReq(peer, aa)}
          case SendInstall(ia) => {InstallReq(peer, ia)})
    case Propose(i, cmd) => Update(s, i, s.nodes[i].(raft := OnStart(s.nodes[i].raft, cmd)), {})
    case Work(i) =>
      var (r, batch) := TakeBatch(s.nodes[i].raft);
      Update(s, i, s.nodes[i].(raft := r, outbox := batch), {})
    case Consume(i, save) =>
      var m := s.nodes[i].outbox[0];
      var node := s.nodes[i].(outbox := s.nodes[i].outbox[1..], svc := OnApply(s.nodes[i].svc, m, save));
      Update(s, i, node, {}).(applied := s.applied + if m.CommandMsg? then {Applied(i, m.index, m.cmd)} else {})
    case Save(i) =>
      var (index, data) := s.nodes[i].svc.saving.value;
      var node := s.nodes[i];
      Update(s, i, node.(raft := OnSnapshot(node.raft, index, data), svc := node.svc.(saving := None)), {})
    case Restart(i) =>
      var r := Boot(s.nodes[i].raft.me, |s.nodes|, s.nodes[i].raft.disk);
      Update(s, i, Node(r, {}, [], BootService(r)), {})
  }

  // ---------- Runs ----------

  function Initial(n: nat): Sys {
    Sys(seq(n, i requires 0 <= i => var r := Boot(i, n, None); Node(r, {}, [], BootService(r))), {}, {})
  }

  /** `run[k + 1]` is what some step makes of `run[k]`. */
  ghost predicate IsRun(n: nat, run: seq<Sys>) {
    && |run| >= 1 && run[0] == Initial(n)
    && forall k :: 0 <= k < |run| - 1 ==> Follows(run[k], run[k + 1])
  }

  ghost predicate Follows(s: Sys, s': Sys) {
    exists step :: Enabled(s, step) && s' == Apply(s, step)
  }
}
