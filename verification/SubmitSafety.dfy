/** What answered `Submit` calls have to do with the log that the cluster agrees on, over all runs. */
module SubmitSafety {
  import opened KvStore
  import opened RaftTypes
  import opened RaftState
  import opened Cluster
  import opened ClusterSafety
  import opened Desks
  import opened Submits

  // ---------- Invariants ----------

  /** No later call of the server has the same id. */
  ghost predicate Latest(calls: seq<Call>, k: nat) {
    k < |calls| && forall j :: k < j < |calls| && calls[j].server == calls[k].server ==> calls[j].id != calls[k].id
  }

  /** Who waits at a server called it since it started, for this index, and has not been answered. */
  ghost predicate WaiterOk(f: Front, i: nat, index: nat, w: Waiter, reqNum: nat) {
    && Latest(f.calls, w.ch)
    && var c := f.calls[w.ch];
    && c.server == i == w.me && c.index == index && c.id == w.id <= reqNum
    && forall x :: 0 <= x < |f.told| ==> f.told[x].call != w.ch
  }

  ghost predicate DeskOk(f: Front, i: nat, desk: Desk) {
    forall index :: index in desk.pending ==> WaiterOk(f, i, index, desk.pending[index], desk.reqNum)
  }

  ghost predicate DesksOk(f: Front) {
    |f.desks| == |f.c.nodes| && forall i :: 0 <= i < |f.desks| ==> DeskOk(f, i, f.desks[i])
  }

  /** An answer is the result of what was decided at the call's index; that is an entry of the call
      or of a twin. */
  ghost predicate AnswerOk(calls: seq<Call>, d: Log, a: Answer) {
    && a.call < |calls|
    && var c := calls[a.call];
    && 1 <= c.index < |d| && d[c.index].cmd == a.cmd && a.cmd.Op? && a.cmd.me == c.server && a.cmd.id == c.id
    && a.rep == DoOp(Replay(d, c.index), a.cmd.req).1
    && Known(calls, d, c.index)
    && (d[c.index] == EntryOf(c) || exists j :: Twin(calls, j, a.call))
  }

  ghost predicate ToldOk(f: Front, d: Log) {
    && (forall x :: 0 <= x < |f.told| ==> AnswerOk(f.calls, d, f.told[x]))
    && (forall x, y :: 0 <= x < y < |f.told| ==> f.told[x].call != f.told[y].call)
  }

  /** When a call started, what had been answered lay behind entries of earlier calls. */
  ghost predicate SeenOk(f: Front, d: Log, k: nat)
    requires k < |f.calls|
  {
    && f.calls[k].seen <= |f.told|
    && forall x :: 0 <= x < f.calls[k].seen ==>
         f.told[x].call < |f.calls| && Known(f.calls[..k], d, f.calls[f.told[x].call].index)
  }

  ghost predicate FrontOk(f: Front, d: Log) {
    && AllBorn(f.calls, f.c) && AllKnown(f.calls, d, f.c)
    && DesksOk(f) && ToldOk(f, d)
    && forall k :: 0 <= k < |f.calls| ==> SeenOk(f, d, k)
  }

  // ---------- One more call ----------

  lemma MoreBorn(calls: seq<Call>, c: Call, s: Sys)
    requires AllBorn(calls, s)
    ensures AllBorn(calls + [c], s)
  {
    hide Born;
    forall i | 0 <= i < |s.nodes| ensures LogBorn(calls + [c], s.nodes[i].raft) {
      var r := s.nodes[i].raft;
      assert LogBorn(calls, r);
      forall p | 1 <= p < |r.log| ensures Born(calls + [c], r.lastIncludeIndex + p, r.log[p]) {
        BornLater(calls, c, r.lastIncludeIndex + p, r.log[p]);
      }
    }
    forall m | m in s.net ensures MsgBorn(calls + [c], m) {
      assert MsgBorn(calls, m);
      if m.AppendReq? {
        forall p | 0 <= p < |m.aa.entries| ensures Born(calls + [c], m.aa.prevIndex + 1 + p, m.aa.entries[p]) {
          BornLater(calls, c, m.aa.prevIndex + 1 + p, m.aa.entries[p]);
        }
      }
    }
  }

  lemma KnownLater(calls: seq<Call>, c: Call, d: Log, upTo: nat)
    requires Known(calls, d, upTo)
    ensures Known(calls + [c], d, upTo)
  {
    hide Born;
    forall m | 1 <= m <= upTo && m < |d| ensures Born(calls + [c], m, d[m]) {
      BornLater(calls, c, m, d[m]);
    }
  }

  lemma MoreKnown(calls: seq<Call>, c: Call, d: Log, s: Sys)
    requires AllKnown(calls, d, s)
    ensures AllKnown(calls + [c], d, s)
  {
    hide Known;
    forall i | 0 <= i < |s.nodes| ensures Known(calls + [c], d, s.nodes[i].raft.commitIndex) {
      KnownLater(calls, c, d, s.nodes[i].raft.commitIndex);
    }
    forall m | m in s.net && m.InstallReq? ensures Known(calls + [c], d, m.ia.lastIndex) {
      KnownLater(calls, c, d, m.ia.lastIndex);
    }
  }

  lemma AnswerLater(calls: seq<Call>, c: Call, d: Log, a: Answer)
    requires AnswerOk(calls, d, a)
    ensures AnswerOk(calls + [c], d, a)
  {
    hide Known;
    KnownLater(calls, c, d, calls[a.call].index);
    if d[calls[a.call].index] != EntryOf(calls[a.call]) {
      var j :| Twin(calls, j, a.call);
      assert Twin(calls + [c], j, a.call);
    }
  }

  // ---------- The moves ----------

  /** What every reachable state offers. */
  ghost predicate Sound(s: Sys) {
    forall i :: 0 <= i < |s.nodes| ==>
      var r := s.nodes[i].raft;
      && r.InRange()
      && var r' := Boot(r.me, |s.nodes|, r.disk);
      r'.log == r.log && r'.lastIncludeIndex == r.lastIncludeIndex
  }

  lemma ReachableSound(n: nat, s: Sys)
    requires Reachable(n, s)
    ensures Sound(s)
  {
    hide Reachable;
    NeverOutOfBounds(n, s);
    forall i | 0 <= i < |s.nodes|
      ensures var r := s.nodes[i].raft; var r' := Boot(r.me, |s.nodes|, r.disk);
              r'.log == r.log && r'.lastIncludeIndex == r.lastIncludeIndex
    {
      RestartKeeps(n, s, i);
    }
  }

  lemma SystemKeeps(calls: seq<Call>, d: Log, s: Sys, step: Step)
    requires Sound(s) && AllBorn(calls, s) && AllKnown(calls, d, s) && Enabled(s, step)
    requires Explains(Apply(s, step), d)
    requires step.Propose? ==> var r := s.nodes[step.i].raft; Born(calls, r.LastIndex() + 1, Entry(r.currentTerm, step.cmd))
    ensures AllBorn(calls, Apply(s, step)) && AllKnown(calls, d, Apply(s, step))
  {
    hide Born, LogBorn, MsgBorn, Known, Explains, Apply, Boot;
    StepBorn(calls, s, step);
    StepKnown(calls, d, s, step);
  }

  lemma InnerKeeps(f: Front, step: Step, d: Log, f': Front)
    requires FrontOk(f, d) && Sound(f.c) && CanMove(f, Inner(step)) && f' == f.(c := Apply(f.c, step))
    requires Explains(f'.c, d)
    ensures FrontOk(f', d)
  {
    hide AllBorn, AllKnown, Explains, Sound, AnswerOk, Known;
    SystemKeeps(f.calls, d, f.c, step);
    StepSizes(f.c, step);
    SameFront(f, f', d);
  }

  /** The calls and answers are the same, and no new ones wait. */
  lemma SameFront(f: Front, f': Front, d: Log)
    requires FrontOk(f, d) && f'.calls == f.calls && f'.told == f.told && |f'.desks| == |f'.c.nodes| == |f.desks|
    requires AllBorn(f.calls, f'.c) && AllKnown(f.calls, d, f'.c)
    requires forall i, index :: 0 <= i < |f'.desks| && index in f'.desks[i].pending ==>
               && index in f.desks[i].pending && f'.desks[i].pending[index] == f.desks[i].pending[index]
               && f.desks[i].reqNum <= f'.desks[i].reqNum
    ensures FrontOk(f', d)
  {
    hide AllBorn, AllKnown, AnswerOk, Known;
    forall i | 0 <= i < |f'.desks| ensures DeskOk(f', i, f'.desks[i]) {
      forall index | index in f'.desks[i].pending
        ensures WaiterOk(f', i, index, f'.desks[i].pending[index], f'.desks[i].reqNum)
      {
        assert DeskOk(f, i, f.desks[i]);
        assert WaiterOk(f, i, index, f.desks[i].pending[index], f.desks[i].reqNum);
      }
    }
    forall k | 0 <= k < |f'.calls| ensures SeenOk(f', d, k) {
      assert SeenOk(f, d, k);
    }
  }

  lemma CrashKeeps(resume: nat -> nat, f: Front, i: nat, d: Log, f': Front)
    requires FrontOk(f, d) && Sound(f.c) && CanMove(f, Crash(i)) && f' == Moved(resume, f, Crash(i))
    requires Explains(f'.c, d)
    ensures FrontOk(f', d)
  {
    hide AllBorn, AllKnown, Explains, AnswerOk, Known, Boot;
    SystemKeeps(f.calls, d, f.c, Restart(i));
    StepSizes(f.c, Restart(i));
    SameFront(f, f', d);
  }

  lemma SubmitKeeps(f: Front, i: nat, req: Request, d: Log, f': Front)
    requires FrontOk(f, d) && Sound(f.c) && i < |f.c.nodes| && f' == OnSubmit(f, i, req)
    requires Explains(f'.c, d)
    ensures FrontOk(f', d)
  {
    hide AllBorn, AllKnown, Explains, AnswerOk, Known, Sound;
    if f.c.nodes[i].raft.role != Leader {
      SameFront(f, f', d);
    } else {
      CallMade(f, i, req);
      var c := f'.calls[|f.calls|];
      MoreBorn(f.calls, c, f.c);
      MoreKnown(f.calls, c, d, f.c);
      SystemKeeps(f'.calls, d, f.c, Propose(i, Op(i, c.id, req)));
      CallDesks(f, f', i, d);
      CallTold(f, f', c, d);
    }
  }

  /** The new entry is that of the new call. */
  lemma CallMade(f: Front, i: nat, req: Request)
    requires Sound(f.c) && |f.desks| == |f.c.nodes| && i < |f.c.nodes| && f.c.nodes[i].raft.role == Leader
    ensures var f' := OnSubmit(f, i, req); var r := f.c.nodes[i].raft; var id := f.desks[i].reqNum + 1;
            && f'.calls == f.calls + [Call(i, r.LastIndex() + 1, r.currentTerm, id, req, |f.told|)]
            && Enabled(f.c, Propose(i, Op(i, id, req))) && f'.c == Apply(f.c, Propose(i, Op(i, id, req)))
            && Born(f'.calls, r.LastIndex() + 1, Entry(r.currentTerm, Op(i, id, req)))
  {
    var f' := OnSubmit(f, i, req);
    assert f'.calls[|f.calls|].server == i;
  }

  /** The new call waits at its server; its number and its id there are new. */
  lemma CallDesks(f: Front, f': Front, i: nat, d: Log)
    requires DesksOk(f) && ToldOk(f, d) && i < |f.desks| && f'.told == f.told && |f'.calls| == |f.calls| + 1
    requires |f'.c.nodes| == |f.c.nodes|
    requires var c := f'.calls[|f.calls|];
             && f'.calls == f.calls + [c] && c.server == i && c.id == f.desks[i].reqNum + 1
             && f'.desks == f.desks[i := f.desks[i].Numbered().Registered(i, |f.calls|, c.index)]
    ensures DesksOk(f')
  {
    hide AnswerOk;
    var c := f'.calls[|f.calls|];
    assert forall x :: 0 <= x < |f.told| ==> f.told[x].call < |f.calls| by { ToldCalls(f, d); }
    forall j | 0 <= j < |f'.desks| ensures DeskOk(f', j, f'.desks[j]) {
      assert DeskOk(f, j, f.desks[j]);
      forall index | index in f'.desks[j].pending
        ensures WaiterOk(f', j, index, f'.desks[j].pending[index], f'.desks[j].reqNum)
      {
        if j != i || index != c.index {
          assert WaiterOk(f, j, index, f.desks[j].pending[index], f.desks[j].reqNum);
        }
      }
    }
  }

  lemma ToldCalls(f: Front, d: Log)
    requires ToldOk(f, d)
    ensures forall x :: 0 <= x < |f.told| ==> AnswerOk(f.calls, d, f.told[x]) && f.told[x].call < |f.calls|
  {
  }

  lemma CallTold(f: Front, f': Front, c: Call, d: Log)
    requires ToldOk(f, d) && f'.calls == f.calls + [c] && f'.told == f.told && c.seen == |f.told|
    requires forall k :: 0 <= k < |f.calls| ==> SeenOk(f, d, k)
    ensures ToldOk(f', d) && forall k :: 0 <= k < |f'.calls| ==> SeenOk(f', d, k)
  {
    hide Known, AnswerOk;
    ToldCalls(f, d);
    forall x | 0 <= x < |f.told| ensures AnswerOk(f'.calls, d, f.told[x]) {
      AnswerLater(f.calls, c, d, f.told[x]);
    }
    forall k | 0 <= k < |f'.calls| ensures SeenOk(f', d, k) {
      if k < |f.calls| {
        assert SeenOk(f, d, k);
        assert f'.calls[..k] == f.calls[..k];
      } else {
        assert f'.calls[..k] == f.calls;
        forall x | 0 <= x < |f.told| ensures Known(f.calls, d, f.calls[f.told[x].call].index) {
          AnswerKnown(f.calls, d, f.told[x]);
        }
      }
    }
  }

  lemma AnswerKnown(calls: seq<Call>, d: Log, a: Answer)
    requires AnswerOk(calls, d, a)
    ensures a.call < |calls| && Known(calls, d, calls[a.call].index)
  {
  }

  lemma ServeKeeps(n: nat, f: Front, i: nat, save: bool, d: Log, f': Front)
    requires FrontOk(f, d) && Reachable(n, f.c) && CanMove(f, Serve(i, save)) && f' == OnServe(f, i, save)
    requires Explains(f.c, d) && Explains(f'.c, d)
    ensures FrontOk(f', d)
  {
    hide AllBorn, AllKnown, Explains, Explained, AnswerOk, Known, Sound, Reachable, InOrder, SeenOk, FrontOk;
    FrontParts(f, d);
    ReachableSound(n, f.c);
    SystemKeeps(f.calls, d, f.c, Consume(i, save));
    StepSizes(f.c, Consume(i, save));
    var desk, m := f.desks[i], f.c.nodes[i].outbox[0];
    var g := f'.(told := f.told);
    assert DeskServed(f, g, i, m, f.c.nodes[i].svc.lastApplied);
    SameFront(f, g, d);
    if Told(desk, m, f.c.nodes[i].svc.sm) == [] {
      assert f'.told == f.told;
      assert f' == g;
    } else {
      var a := Told(desk, m, f.c.nodes[i].svc.sm)[0];
      ToldOne(desk, m, f.c.nodes[i].svc.sm);
      NewAnswer(n, f, i, save, d, a);
      AddAnswer(f, g, f', i, m.index, a, d);
    }
  }

  ghost predicate DeskServed(f: Front, g: Front, i: nat, m: ApplyMsg, lastApplied: nat) {
    i < |f.desks| && g.desks == f.desks[i := f.desks[i].Served(m, lastApplied)]
  }

  lemma FrontParts(f: Front, d: Log)
    requires FrontOk(f, d)
    ensures AllBorn(f.calls, f.c) && AllKnown(f.calls, d, f.c) && DesksOk(f) && ToldOk(f, d)
    ensures forall k :: 0 <= k < |f.calls| ==> SeenOk(f, d, k)
  {
  }

  lemma ToldOne(desk: Desk, m: ApplyMsg, sm: Store)
    requires Told(desk, m, sm) != []
    ensures m.CommandMsg? && m.cmd.Op? && m.index in desk.pending
    ensures var w := desk.pending[m.index];
            && Told(desk, m, sm) == [Answer(w.ch, m.cmd, DoOp(sm, m.cmd.req).1)]
            && m.cmd.me == w.me && m.cmd.id == w.id
  {
  }

  /** The reader answers with what the agreed log says. */
  lemma NewAnswer(n: nat, f: Front, i: nat, save: bool, d: Log, a: Answer)
    requires FrontOk(f, d) && Reachable(n, f.c) && CanMove(f, Serve(i, save))
    requires Explains(f.c, d) && Explains(OnServe(f, i, save).c, d)
    requires Told(f.desks[i], f.c.nodes[i].outbox[0], f.c.nodes[i].svc.sm) == [a]
    ensures AnswerOk(f.calls, d, a)
  {
    hide AllBorn, Known, Reachable, Explained, SeenOk, Born, Twin, Replay, DoOp, Handle, NextRound;
    var node, m := f.c.nodes[i], f.c.nodes[i].outbox[0];
    ToldOne(f.desks[i], m, node.svc.sm);
    var w := f.desks[i].pending[m.index];
    assert DeskOk(f, i, f.desks[i]);
    assert WaiterOk(f, i, m.index, w, f.desks[i].reqNum);
    AppliedHere(n, f.c, i, save, d);
    KnownLess(f.calls, d, m.index, node.raft.commitIndex);
    KnownEntry(f.calls, d, m.index, w.ch);
  }

  lemma AppliedHere(n: nat, s: Sys, i: nat, save: bool, d: Log)
    requires Reachable(n, s) && Enabled(s, Consume(i, save)) && s.nodes[i].outbox[0].CommandMsg?
    requires Explains(s, d) && Explains(Apply(s, Consume(i, save)), d)
    ensures var (m, v) := (s.nodes[i].outbox[0], s.nodes[i].svc);
            && 1 <= m.index < |d| && d[m.index].cmd == m.cmd && v.sm == Replay(d, m.index)
            && m.index <= s.nodes[i].raft.commitIndex
  {
    hide Reachable, Explains, Apply, InOrder;
    ApplyOrder(n, s, i);
    var s' := Apply(s, Consume(i, save));
    var m := s.nodes[i].outbox[0];
    NextInOrder(s.nodes[i]);
    Consumed(s, i, save);
    ServiceExplained(s, d, i);
    ServiceExplained(s', d, i);
    WasApplied(s', d, Applied(i, m.index, m.cmd));
  }

  lemma NextInOrder(node: Node)
    requires InOrder(node) && node.outbox != [] && node.outbox[0].CommandMsg?
    ensures node.outbox[0].index == node.svc.pos + 1
  {
  }

  lemma Consumed(s: Sys, i: nat, save: bool)
    requires Enabled(s, Consume(i, save)) && s.nodes[i].outbox[0].CommandMsg?
    ensures var (s', m) := (Apply(s, Consume(i, save)), s.nodes[i].outbox[0]);
            && Applied(i, m.index, m.cmd) in s'.applied && |s'.nodes| == |s.nodes|
            && s'.nodes[i].raft == s.nodes[i].raft
  {
  }

  lemma ServiceExplained(s: Sys, d: Log, i: nat)
    requires Explains(s, d) && i < |s.nodes|
    ensures var node := s.nodes[i];
            && node.svc.pos <= node.raft.commitIndex < |d| && node.svc.sm == Replay(d, node.svc.pos + 1)
  {
    hide Replay;
    assert Explained(s.nodes[i], d);
  }

  /** The decided entry was made by this call or by an earlier one: no later one has its id. */
  lemma KnownEntry(calls: seq<Call>, d: Log, index: nat, k: nat)
    requires Known(calls, d, index) && 1 <= index < |d| && Latest(calls, k) && calls[k].index == index
    requires var cmd := d[index].cmd; cmd.Op? && cmd.me == calls[k].server && cmd.id == calls[k].id
    ensures d[index] == EntryOf(calls[k]) || exists j :: Twin(calls, j, k)
  {
    assert Born(calls, index, d[index]);
    var j :| 0 <= j < |calls| && calls[j].index == index && d[index] == EntryOf(calls[j]);
    assert j < k ==> Twin(calls, j, k);
  }

  lemma AddAnswer(f: Front, g: Front, f': Front, i: nat, index: nat, a: Answer, d: Log)
    requires FrontOk(f, d) && FrontOk(g, d) && g.calls == f.calls && g.told == f.told && f' == g.(told := g.told + [a])
    requires i < |f.desks| && index in f.desks[i].pending && f.desks[i].pending[index].ch == a.call
    requires |g.desks| == |f.desks| && g.desks == f.desks[i := g.desks[i]] && g.desks[i] == f.desks[i].(pending := f.desks[i].pending - {index})
    requires AnswerOk(f.calls, d, a)
    ensures FrontOk(f', d)
  {
    hide AllBorn, AllKnown, AnswerOk, Known;
    assert DeskOk(f, i, f.desks[i]);
    var w := f.desks[i].pending[index];
    assert WaiterOk(f, i, index, w, f.desks[i].reqNum);
    forall j | 0 <= j < |f'.desks| ensures DeskOk(f', j, f'.desks[j]) {
      assert DeskOk(g, j, g.desks[j]);
      forall k | k in f'.desks[j].pending ensures WaiterOk(f', j, k, f'.desks[j].pending[k], f'.desks[j].reqNum) {
        assert WaiterOk(g, j, k, g.desks[j].pending[k], g.desks[j].reqNum);
        assert j == i ==> k != index;
      }
    }
    forall k | 0 <= k < |f'.calls| ensures SeenOk(f', d, k) {
      assert SeenOk(g, d, k);
    }
  }

  // ---------- Runs ----------

  lemma MoveKeeps(n: nat, resume: nat -> nat, f: Front, f': Front, d: Log)
    requires FrontOk(f, d) && Reachable(n, f.c) && Goes(resume, f, f') && Explains(f.c, d) && Explains(f'.c, d)
    ensures FrontOk(f', d)
  {
    hide Explains, Sound, Reachable, FrontOk, OnSubmit, OnServe, Enabled, Apply, Known;
    var mv :| CanMove(f, mv) && f' == Moved(resume, f, mv);
    ReachableSound(n, f.c);
    match mv {
      case Inner(step) => InnerKeeps(f, step, d, f');
      case Submit(i, req) => SubmitKeeps(f, i, req, d, f');
      case Serve(i, save) => ServeKeeps(n, f, i, save, d, f');
      case GiveUp(i, index) =>
        FrontParts(f, d);
        SameFront(f, f', d);
      case Crash(i) => CrashKeeps(resume, f, i, d, f');
    }
  }

  lemma MoveFollows(resume: nat -> nat, f: Front, f': Front)
    requires Goes(resume, f, f')
    ensures f'.c == f.c || Follows(f.c, f'.c)
  {
    hide Apply;
    var mv :| CanMove(f, mv) && f' == Moved(resume, f, mv);
    match mv {
      case Inner(step) =>
      case Submit(i, req) =>
        if f.c.nodes[i].raft.role == Leader {
          var step := Propose(i, Op(i, f.desks[i].Numbered().reqNum, req));
          assert Enabled(f.c, step) && f'.c == Apply(f.c, step);
        }
      case Serve(i, save) => assert f'.c == Apply(f.c, Consume(i, save));
      case GiveUp(_, _) =>
      case Crash(i) => assert Enabled(f.c, Restart(i)) && f'.c == Apply(f.c, Restart(i));
    }
  }

  lemma Prefix(n: nat, resume: nat -> nat, run: seq<Front>, k: nat)
    requires IsHistory(n, resume, run) && 1 <= k <= |run|
    ensures IsHistory(n, resume, run[..k])
  {
    hide Goes, Opening;
    forall m | 0 <= m < k - 1 ensures Goes(resume, run[..k][m], run[..k][m + 1]) {
      assert Goes(resume, run[m], run[m + 1]);
    }
  }

  /** The cluster under a run takes a run itself. */
  lemma {:induction false} Underneath(n: nat, resume: nat -> nat, run: seq<Front>) returns (under: seq<Sys>)
    requires IsHistory(n, resume, run)
    ensures IsRun(n, under) && under[|under| - 1] == run[|run| - 1].c
    ensures forall k :: 0 <= k < |run| ==> run[k].c in under
  {
    hide Goes, Follows, Initial;
    if |run| == 1 {
      under := [run[0].c];
    } else {
      var last := |run| - 1;
      Prefix(n, resume, run, last);
      var before := Underneath(n, resume, run[..last]);
      assert Goes(resume, run[last - 1], run[last - 1 + 1]);
      MoveFollows(resume, run[last - 1], run[last]);
      under := if run[last].c == run[last - 1].c then before else before + [run[last].c];
      assert forall k :: 0 <= k < last ==> run[k].c == run[..last][k].c;
      forall k | 0 <= k < |under| - 1 ensures Follows(under[k], under[k + 1]) {
        if k < |before| - 1 {
          assert Follows(before[k], before[k + 1]);
        }
      }
    }
  }

  lemma {:induction false} AllSound(n: nat, resume: nat -> nat, run: seq<Front>, d: Log)
    requires IsHistory(n, resume, run) && forall k :: 0 <= k < |run| ==> Explains(run[k].c, d)
    ensures FrontOk(run[|run| - 1], d)
  {
    hide Goes, Explains, Opening, FrontOk, Reachable;
    if |run| == 1 {
      OpeningOk(n, d);
    } else {
      var last := |run| - 1;
      Prefix(n, resume, run, last);
      AllSound(n, resume, run[..last], d);
      var under := Underneath(n, resume, run[..last]);
      EndReachable(n, under);
      assert Goes(resume, run[last - 1], run[last - 1 + 1]);
      MoveKeeps(n, resume, run[last - 1], run[last], d);
    }
  }

  lemma EndReachable(n: nat, under: seq<Sys>)
    requires IsRun(n, under)
    ensures Reachable(n, under[|under| - 1])
  {
  }

  lemma OpeningOk(n: nat, d: Log)
    ensures FrontOk(Opening(n), d)
  {
  }

  // ---------- The theorems ----------

  ghost predicate AnswersRight(f: Front, d: Log) {
    forall a :: a in f.told && NoTwin(f.calls, a.call) ==> Right(f, d, a)
  }

  /** Exactly-once, in an order that respects real time. One log explains the cluster at all times, and
      in it every answered call whose (Me, Id) had not been put at this index before, when it started,
      has its own entry at its index and its answer from there, behind everything that had been
      answered before it started. With such a twin the decided entry may be the twin's (`AnswerOk`). No
      call is answered twice. */
  lemma SubmitsLinearize(n: nat, resume: nat -> nat, run: seq<Front>) returns (d: Log)
    requires IsHistory(n, resume, run)
    ensures forall k :: 0 <= k < |run| ==> Explains(run[k].c, d) && AnswersRight(run[k], d)
    ensures forall k :: 0 <= k < |run| ==> ToldOk(run[k], d)
  {
    hide Explains, Goes, Opening, FrontOk, Right;
    var under := Underneath(n, resume, run);
    d := StateMachineSafety(n, under);
    forall k | 0 <= k < |run| ensures Explains(run[k].c, d) {
      var j :| 0 <= j < |under| && under[j] == run[k].c;
      assert Explains(under[j], d);
    }
    forall k | 0 <= k < |run| ensures FrontOk(run[k], d) {
      Prefix(n, resume, run, k + 1);
      AllSound(n, resume, run[..k + 1], d);
    }
    forall k | 0 <= k < |run| ensures AnswersRight(run[k], d) && ToldOk(run[k], d) {
      FrontParts(run[k], d);
      forall a | a in run[k].told && NoTwin(run[k].calls, a.call) ensures Right(run[k], d, a) {
        OwnEntry(run[k], d, a);
      }
    }
  }

  lemma OwnEntry(f: Front, d: Log, a: Answer)
    requires FrontOk(f, d) && a in f.told && NoTwin(f.calls, a.call)
    ensures Right(f, d, a)
  {
    hide AllBorn, AllKnown, DesksOk, Replay, DoOp;
    assert AnswerOk(f.calls, d, a);
    var c := f.calls[a.call];
    assert SeenOk(f, d, a.call);
    OnlyTwins(f.calls, a.call);
    assert !Born(f.calls[..a.call], c.index, d[c.index]);
  }

  /** Without a twin, no earlier call has made the entry that this one makes. */
  lemma OnlyTwins(calls: seq<Call>, k: nat)
    requires k < |calls| && NoTwin(calls, k)
    ensures !Born(calls[..k], calls[k].index, EntryOf(calls[k]))
  {
    forall j | 0 <= j < k && calls[j].index == calls[k].index ensures EntryOf(calls[k]) != EntryOf(calls[j]) {
      assert !Twin(calls, j, k);
    }
  }

  /** Whoever waits for the command that its server executes is told its result, and nobody else is told
      anything: `told` gets this one answer, what the command gives after all decided entries before
      it, if the waiter at its index has its (Me, Id), and stays as it is if not. */
  lemma ExecutedIsTold(n: nat, resume: nat -> nat, run: seq<Front>, i: nat, save: bool) returns (d: Log)
    requires IsHistory(n, resume, run) && CanMove(run[|run| - 1], Serve(i, save))
    ensures var (f, f') := (run[|run| - 1], Moved(resume, run[|run| - 1], Serve(i, save)));
            var (m, desk) := (f.c.nodes[i].outbox[0], f.desks[i]);
            && Explains(f'.c, d)
            && if m.CommandMsg? && m.cmd.Op? && m.index in desk.pending
                  && desk.pending[m.index].me == m.cmd.me && desk.pending[m.index].id == m.cmd.id
               then
                 && 1 <= m.index < |d| && d[m.index].cmd == m.cmd
                 && desk.pending[m.index].ch < |f.calls| && f.calls[desk.pending[m.index].ch].index == m.index
                 && f'.told == f.told + [Answer(desk.pending[m.index].ch, m.cmd, DoOp(Replay(d, m.index), m.cmd.req).1)]
               else f'.told == f.told
  {
    hide Explains, Goes, Opening, FrontOk, Right, Replay, DoOp, Reachable;
    var f := run[|run| - 1];
    var f' := Moved(resume, f, Serve(i, save));
    var longer := run + [f'];
    assert IsHistory(n, resume, longer) by { OneMove(n, resume, run, Serve(i, save)); }
    var under := Underneath(n, resume, longer);
    d := StateMachineSafety(n, under);
    var before := Underneath(n, resume, run);
    EndReachable(n, before);
    forall k | 0 <= k < |longer| ensures Explains(longer[k].c, d) {
      var j :| 0 <= j < |under| && under[j] == longer[k].c;
      assert Explains(under[j], d);
    }
    assert longer[|run| - 1] == f && longer[|run|] == f';
    forall k | 0 <= k < |run| ensures Explains(run[k].c, d) {
      assert longer[k] == run[k];
    }
    AllSound(n, resume, run, d);
    FrontParts(f, d);
    if f.c.nodes[i].outbox[0].CommandMsg? {
      AppliedHere(n, f.c, i, save, d);
      var m := f.c.nodes[i].outbox[0];
      if m.index in f.desks[i].pending {
        assert DeskOk(f, i, f.desks[i]);
        assert WaiterOk(f, i, m.index, f.desks[i].pending[m.index], f.desks[i].reqNum);
      }
    }
  }

  lemma OneMove(n: nat, resume: nat -> nat, run: seq<Front>, mv: Move)
    requires IsHistory(n, resume, run) && CanMove(run[|run| - 1], mv)
    ensures IsHistory(n, resume, run + [Moved(resume, run[|run| - 1], mv)])
  {
    hide Opening, CanMove, Moved;
    var f' := Moved(resume, run[|run| - 1], mv);
    var longer := run + [f'];
    assert Goes(resume, run[|run| - 1], f') by { assert CanMove(run[|run| - 1], mv) && f' == Moved(resume, run[|run| - 1], mv); }
    forall k | 0 <= k < |longer| - 1 ensures Goes(resume, longer[k], longer[k + 1]) {
      if k < |run| - 1 {
        assert Goes(resume, run[k], run[k + 1]);
      }
    }
  }
}
