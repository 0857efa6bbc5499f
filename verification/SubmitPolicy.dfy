/** Exactly where ids have to go on after a restart for every answered Submit to be about its own operation. */
module SubmitPolicy {
  import opened KvStore
  import opened RaftTypes
  import opened RaftState
  import opened LogHistory
  import opened Quorum
  import opened Cluster
  import opened ClusterInv
  import opened ClusterSteps
  import opened ClusterLeader
  import opened ClusterSafety
  import opened Desks
  import opened Submits
  import opened SubmitSafety
  import opened SubmitScript
  import opened SubmitExample

  // ---------- Ids that go on ----------

  /** A server has used every id at most once, and none beyond its count. */
  ghost predicate IdsOnce(f: Front) {
    && (forall j :: 0 <= j < |f.calls| ==> f.calls[j].server < |f.desks| && f.calls[j].id <= f.desks[f.calls[j].server].reqNum)
    && (forall j, k :: 0 <= j < k < |f.calls| && f.calls[j].server == f.calls[k].server ==> f.calls[j].id != f.calls[k].id)
  }

  lemma IdsStep(resume: nat -> nat, f: Front, f': Front)
    requires IdsOnce(f) && Goes(resume, f, f') && forall r: nat :: r <= resume(r)
    ensures IdsOnce(f')
  {
    hide Apply, InBounds;
    var mv :| CanMove(f, mv) && f' == Moved(resume, f, mv);
    match mv {
      case Inner(_) =>
      case Submit(i, _) =>
        if f.c.nodes[i].raft.role == Leader {
          var c := f'.calls[|f.calls|];
          assert f'.calls == f.calls + [c] && c.server == i && c.id == f.desks[i].reqNum + 1 == f'.desks[i].reqNum;
          OneMoreId(f, f', i, c);
        }
      case Serve(i, _) => assert forall j :: 0 <= j < |f.desks| ==> f'.desks[j].reqNum == f.desks[j].reqNum;
      case GiveUp(i, _) => assert forall j :: 0 <= j < |f.desks| ==> f'.desks[j].reqNum == f.desks[j].reqNum;
      case Crash(i) => assert f.desks[i].reqNum <= f'.desks[i].reqNum;
    }
  }

  lemma OneMoreId(f: Front, f': Front, i: nat, c: Call)
    requires IdsOnce(f) && i < |f.desks| == |f'.desks| && f'.calls == f.calls + [c] && c.server == i
    requires c.id == f.desks[i].reqNum + 1 == f'.desks[i].reqNum
    requires forall j :: 0 <= j < |f.desks| && j != i ==> f'.desks[j] == f.desks[j]
    ensures IdsOnce(f')
  {
  }

  lemma {:induction false} IdsGoOn(n: nat, resume: nat -> nat, run: seq<Front>)
    requires IsHistory(n, resume, run) && forall r: nat :: r <= resume(r)
    ensures IdsOnce(run[|run| - 1])
  {
    hide Goes, IdsOnce;
    if |run| == 1 {
      assert IdsOnce(Opening(n)) by { NoCalls(n); }
    } else {
      var last := |run| - 1;
      Prefix(n, resume, run, last);
      IdsGoOn(n, resume, run[..last]);
      assert Goes(resume, run[last - 1], run[last - 1 + 1]);
      IdsStep(resume, run[last - 1], run[last]);
    }
  }

  lemma NoCalls(n: nat)
    ensures IdsOnce(Opening(n)) && Opening(n).calls == []
  {
  }

  // ---------- At most two servers ----------

  /** Every call's entry is in the log of the leader that took it, at a place of its own. */
  ghost predicate CallsLed(calls: seq<Call>, h: History) {
    && (forall j {:trigger calls[j]} :: 0 <= j < |calls| ==> InLed(calls[j], h))
    && (forall j, k {:trigger calls[j], calls[k]} :: 0 <= j < k < |calls| ==> calls[j].term != calls[k].term || calls[j].index != calls[k].index)
  }

  ghost predicate InLed(c: Call, h: History) {
    c.term in h.led && 1 <= c.index < |h.led[c.term].log| && h.led[c.term].log[c.index] == EntryOf(c)
  }

  lemma InLedGrows(c: Call, h: History, h': History)
    requires InLed(c, h) && Grows(h, h')
    ensures InLed(c, h')
  {
    assert ReignGrows(h.led[c.term], h'.led[c.term], c.term);
  }

  /** A leader's log is its own. */
  lemma LeaderLog(s: Sys, h: History, i: nat)
    requires Ok(s, h) && i < |s.nodes| && s.nodes[i].raft.role == Leader
    ensures var r := s.nodes[i].raft;
            && r.InRange() && r.currentTerm in h.led && |h.led[r.currentTerm].log| == r.LastIndex() + 1
            && forall k :: r.lastIncludeIndex < k <= r.LastIndex() ==> h.led[r.currentTerm].log[k] == r.EntryAt(k)
  {
    hide Inv, RaftOk, NodeOk, ServiceOk, Ok;
    InvOf(s, h);
    NodeFact(s, h, i);
    OwnReign(h, i, s.nodes[i].raft);
    RaftLog(h, i, s.nodes[i].raft);
    forall k | s.nodes[i].raft.lastIncludeIndex < k <= s.nodes[i].raft.LastIndex()
      ensures h.led[s.nodes[i].raft.currentTerm].log[k] == s.nodes[i].raft.EntryAt(k)
    {
      EntryFact(s.nodes[i].raft, h.srv[i].log, k);
    }
  }

  lemma NewCall(f: Front, i: nat, req: Request, h: History) returns (h': History)
    requires Ok(f.c, h) && CallsLed(f.calls, h) && |f.desks| == |f.c.nodes| && i < |f.c.nodes| && f.c.nodes[i].raft.role == Leader
    ensures Ok(OnSubmit(f, i, req).c, h') && CallsLed(OnSubmit(f, i, req).calls, h') && Grows(h, h')
  {
    hide Ok, Grows, Inv;
    LeaderLog(f.c, h, i);
    var f' := OnSubmit(f, i, req);
    var step := Propose(i, Op(i, f.desks[i].reqNum + 1, req));
    h' := Simulate(f.c, h, step);
    assert f'.c == Apply(f.c, step);
    LeaderLog(f'.c, h', i);
    var c := f'.calls[|f.calls|];
    assert InLed(c, h') by {
      assert f'.c.nodes[i].raft.EntryAt(c.index) == EntryOf(c);
    }
    forall j | 0 <= j < |f.calls| ensures InLed(f'.calls[j], h') && (f'.calls[j].term != c.term || f'.calls[j].index != c.index) {
      assert f'.calls[j] == f.calls[j] && InLed(f.calls[j], h);
      InLedGrows(f.calls[j], h, h');
    }
  }

  lemma HistoryStep(resume: nat -> nat, f: Front, f': Front, h: History) returns (h': History)
    requires Ok(f.c, h) && CallsLed(f.calls, h) && Goes(resume, f, f')
    ensures Ok(f'.c, h') && CallsLed(f'.calls, h')
  {
    hide Ok, Grows, Inv, InLed, Apply, Enabled;
    var mv :| CanMove(f, mv) && f' == Moved(resume, f, mv);
    h' := h;
    match mv {
      case Submit(i, req) =>
        if f.c.nodes[i].raft.role == Leader {
          h' := NewCall(f, i, req, h);
        }
      case GiveUp(_, _) =>
      case Inner(step) => h' := SameCalls(f, h, step);
      case Serve(i, save) => h' := SameCalls(f, h, Consume(i, save));
      case Crash(i) =>
        assert Enabled(f.c, Restart(i)) by { CanCrash(f.c, i); }
        h' := SameCalls(f, h, Restart(i));
    }
  }

  lemma CanCrash(s: Sys, i: nat)
    requires i < |s.nodes|
    ensures Enabled(s, Restart(i))
  {
  }

  lemma SameCalls(f: Front, h: History, step: Step) returns (h': History)
    requires Ok(f.c, h) && CallsLed(f.calls, h) && Enabled(f.c, step)
    ensures Ok(Apply(f.c, step), h') && CallsLed(f.calls, h')
  {
    hide Ok, Grows, Inv, InLed, Apply, Enabled;
    h' := Simulate(f.c, h, step);
    forall j | 0 <= j < |f.calls| ensures InLed(f.calls[j], h') {
      InLedGrows(f.calls[j], h, h');
    }
  }

  lemma {:induction false} CallsHistory(n: nat, resume: nat -> nat, run: seq<Front>) returns (h: History)
    requires IsHistory(n, resume, run)
    ensures Ok(run[|run| - 1].c, h) && h.n == n && CallsLed(run[|run| - 1].calls, h)
  {
    hide Goes, Ok, Inv, CallsLed, Initial;
    if |run| == 1 {
      h := Birth(n);
      InitialOk(n);
      assert CallsLed([], h) by { NoneLed(h); }
    } else {
      var last := |run| - 1;
      Prefix(n, resume, run, last);
      var h0 := CallsHistory(n, resume, run[..last]);
      assert Goes(resume, run[last - 1], run[last - 1 + 1]);
      h := HistoryStep(resume, run[last - 1], run[last], h0);
      assert h.n == n by {
        InvOf(run[last].c, h);
        InvOf(run[last - 1].c, h0);
        MoveSize(resume, run[last - 1], run[last]);
      }
    }
  }

  lemma NoneLed(h: History)
    ensures CallsLed([], h)
  {
  }

  lemma MoveSize(resume: nat -> nat, f: Front, f': Front)
    requires Goes(resume, f, f')
    ensures |f'.c.nodes| == |f.c.nodes|
  {
    hide Goes, Follows;
    MoveFollows(resume, f, f');
    if f'.c != f.c {
      StepSize(f.c, f'.c);
    }
  }

  /** With at most two servers, everything that a leader has is in the log of every later leader. */
  lemma AloneConfirms(h: History, t: nat, k: nat)
    requires Inv(h) && h.n <= 2 && t in h.led && k < |h.led[t].log| && h.led[t].log[k].term == t
    ensures Committed(h, t, k)
  {
    assert ReignShape(h, t);
    assert Confirmed(h, {h.led[t].leader}, t, k);
  }

  lemma NoTwins(calls: seq<Call>, h: History, k: nat)
    requires Inv(h) && h.n <= 2 && CallsLed(calls, h) && k < |calls|
    ensures NoTwin(calls, k)
  {
    hide Inv, Committed;
    forall j: nat | Twin(calls, j, k) ensures false {
      var (t, u) := if calls[j].term < calls[k].term then (calls[j].term, calls[k].term) else (calls[k].term, calls[j].term);
      assert InLed(calls[j], h) && InLed(calls[k], h);
      AloneConfirms(h, t, calls[j].index);
      LeaderCompleteness(h, t, calls[j].index, u);
    }
  }

  // ---------- The exact condition ----------

  ghost predicate RunRight(run: seq<Front>) {
    exists d: Log :: ExplainsAnswers(run, d)
  }

  ghost predicate ExplainsAnswers(run: seq<Front>, d: Log) {
    forall k :: 0 <= k < |run| ==> Explains(run[k].c, d) && forall a :: a in run[k].told ==> Right(run[k], d, a)
  }

  /** Every answered Submit of every run is about its own operation. */
  ghost predicate AlwaysRight(n: nat, resume: nat -> nat) {
    forall run: seq<Front> :: IsHistory(n, resume, run) ==> RunRight(run)
  }

  ghost predicate Untwinned(calls: seq<Call>) {
    forall j: nat :: NoTwin(calls, j)
  }

  lemma NoneBeyond(calls: seq<Call>, j: nat)
    requires j >= |calls|
    ensures NoTwin(calls, j)
  {
  }

  /** The calls of a run have no twins, if ids go on or there are at most two servers. */
  lemma RunNoTwins(n: nat, resume: nat -> nat, run: seq<Front>)
    requires IsHistory(n, resume, run) && (n <= 2 || forall r: nat :: r <= resume(r))
    ensures Untwinned(run[|run| - 1].calls)
  {
    hide Goes, Opening, NoTwin, IdsOnce, Ok, CallsLed;
    var f := run[|run| - 1];
    if n <= 2 {
      var h := CallsHistory(n, resume, run);
      InvOf(f.c, h);
      forall j: nat ensures NoTwin(f.calls, j) {
        if j < |f.calls| { NoTwins(f.calls, h, j); } else { NoneBeyond(f.calls, j); }
      }
    } else {
      IdsGoOn(n, resume, run);
      OnceNoTwin(f);
    }
  }

  lemma OnceNoTwin(f: Front)
    requires IdsOnce(f)
    ensures Untwinned(f.calls)
  {
  }

  /** For every size of cluster and wherever ids go on after a restart (the program: at 0): every answered
      Submit of every run is about its own operation, in its place, if and only if the cluster has at most
      two servers, or ids never go on below those that the server has used. */
  lemma AlwaysRightIff(n: nat, resume: nat -> nat)
    ensures AlwaysRight(n, resume) <==> n <= 2 || forall r: nat :: r <= resume(r)
  {
    hide IsHistory, Explains, Right, NoTwin, AnswersRight, Occurs;
    if n <= 2 || forall r: nat :: r <= resume(r) {
      forall run: seq<Front> | IsHistory(n, resume, run) ensures RunRight(run) {
        AnswersExplained(n, resume, run);
      }
    } else {
      var r: nat :| resume(r) < r;
      SomeRunWrong(n, resume, r);
    }
  }

  lemma AnswersExplained(n: nat, resume: nat -> nat, run: seq<Front>)
    requires IsHistory(n, resume, run) && (n <= 2 || forall r: nat :: r <= resume(r))
    ensures RunRight(run)
  {
    hide Goes, Opening, Explains, Right, NoTwin;
    var d := SubmitsLinearize(n, resume, run);
    forall k | 0 <= k < |run| ensures forall a :: a in run[k].told ==> Right(run[k], d, a) {
      NonEmptyPrefix(n, resume, run, k);
      RunNoTwins(n, resume, run[..k + 1]);
      assert AnswersRight(run[k], d);
    }
    assert ExplainsAnswers(run, d);
  }

  lemma NonEmptyPrefix(n: nat, resume: nat -> nat, run: seq<Front>, k: nat)
    requires IsHistory(n, resume, run) && k < |run|
    ensures IsHistory(n, resume, run[..k + 1]) && run[..k + 1][k] == run[k]
  {
    Prefix(n, resume, run, k + 1);
  }

  lemma SomeRunWrong(n: nat, resume: nat -> nat, r: nat)
    requires n >= 3 && resume(r) < r
    ensures exists run: seq<Front> :: IsHistory(n, resume, run) && !RunRight(run)
  {
    hide Goes, Opening, Explains, Right;
    var f, a := WrongAnswer(n, resume, r);
    var run: seq<Front> :| IsHistory(n, resume, run) && run[|run| - 1] == f;
    forall d: Log ensures !ExplainsAnswers(run, d) {
      if ExplainsAnswers(run, d) {
        assert Explains(run[|run| - 1].c, d) && a in run[|run| - 1].told;
        WrongIsWrong(f, d, a);
      }
    }
  }

  lemma WrongIsWrong(f: Front, d: Log, a: Answer)
    requires a.call < |f.calls| && Applied(0, f.calls[a.call].index, a.cmd) in f.c.applied && a.cmd.Op? && a.cmd.req != f.calls[a.call].req
    requires Explains(f.c, d)
    ensures !Right(f, d, a)
  {
    WasApplied(f.c, d, Applied(0, f.calls[a.call].index, a.cmd));
  }
}
