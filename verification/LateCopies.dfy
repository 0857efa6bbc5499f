/**
 Copies of a Put that are executed after the call has returned: exactly when they can still write.
 */
module LateCopies {
  import opened KvStore
  import opened Clerks

  // ---------- Runs that go on ----------

  /** A later state of a run that goes on from `sys`, seen by a call that was open there. */
  ghost predicate Later(sys: Sys, sys': Sys, c: nat)
    requires c < |sys.calls|
  {
    && |sys.log| <= |sys'.log| && c < |sys'.calls| && sys'.calls[c].req == sys.calls[c].req
    && StoreAt(sys', |sys.log|) == sys.m
    && (sys'.calls[c].outcome.Returned? ==> |sys.log| <= sys'.calls[c].outcome.at)
  }

  lemma {:induction false} GoesOn(sys: Sys, run: seq<Sys>, k: nat, c: nat)
    requires Inv(sys) && Continues(sys, run) && k < |run| && c < |sys.calls| && sys.calls[c].outcome.Open?
    ensures Later(sys, run[k], c)
  {
    if k > 0 {
      GoesOn(sys, run, k - 1, c);
      assert Follows(run[k - 1], run[k - 1 + 1]);
    }
  }

  lemma Append(sys: Sys, a: seq<Sys>, b: seq<Sys>)
    requires Continues(sys, a) && Continues(a[|a| - 1], b)
    ensures Continues(sys, a + b[1..]) && (a + b[1..])[|a + b[1..]| - 1] == b[|b| - 1]
  {
    var run := a + b[1..];
    forall k | 0 <= k < |run| - 1 ensures Follows(run[k], run[k + 1]) {
      if k < |a| - 1 {
        assert Follows(a[k], a[k + 1]);
      } else {
        assert run[k] == b[k - (|a| - 1)] && run[k + 1] == b[k - (|a| - 1) + 1];
        assert Follows(b[k - (|a| - 1)], b[k - (|a| - 1) + 1]);
      }
    }
  }

  lemma One(sys: Sys, step: Step)
    requires Enabled(sys, step)
    ensures Continues(sys, [sys, Apply(sys, step)])
  {
  }

  // ---------- A version that is still to come ----------

  /** Other clients raise the version of the key to v. */
  lemma {:induction false} Raise(sys: Sys, key: string, v: nat) returns (run: seq<Sys>)
    requires KeyState(sys.m, key).version <= v
    ensures Continues(sys, run)
    ensures var last := run[|run| - 1];
            && KeyState(last.m, key).version == v && (v > KeyState(sys.m, key).version ==> key in last.m)
            && sys.calls <= last.calls && |sys.log| <= |last.log|
    decreases v - KeyState(sys.m, key).version
  {
    var now := KeyState(sys.m, key).version;
    if now == v {
      run := [sys];
    } else {
      var s1 := Apply(sys, Invoke(Put(key, "", now)));
      var s2 := Apply(s1, Answered(|sys.calls|));
      One(sys, Invoke(Put(key, "", now)));
      One(s1, Answered(|sys.calls|));
      Append(sys, [sys, s1], [s1, s2]);
      assert key in s2.m && KeyState(s2.m, key).version == now + 1;
      var more := Raise(s2, key, v);
      Append(sys, [sys, s1] + [s1, s2][1..], more);
      run := [sys, s1] + [s1, s2][1..] + more[1..];
    }
  }

  /** The client gives up on an answer that says nothing, and a lost copy writes all the same. */
  lemma LateWrites(sys: Sys, c: nat) returns (run: seq<Sys>, i: nat)
    requires c < |sys.calls| && sys.calls[c].outcome.Open? && sys.calls[c].req.Put?
    requires sys.calls[c].req.version > KeyState(sys.m, sys.calls[c].req.key).version
    ensures Continues(sys, run)
    ensures var last := run[|run| - 1];
            && c < |last.calls|
            && last.calls[c].outcome == Returned(PutReply(if sys.calls[c].req.key in sys.m then ErrMaybe else ErrNoKey), |sys.log|)
            && i > |sys.log| && Wrote(last, i) && last.log[i].call == c
  {
    var req := sys.calls[c].req;
    var s1 := Apply(sys, Fail(c, false));
    var s2 := Apply(s1, Answered(c));
    One(sys, Fail(c, false));
    One(s1, Answered(c));
    Append(sys, [sys, s1], [s1, s2]);
    var a := [sys, s1] + [s1, s2][1..];
    assert s2.m == sys.m;
    var b := Raise(s2, req.key, req.version);
    Append(sys, a, b);
    var s3 := b[|b| - 1];
    assert s3.calls[c] == s2.calls[c];
    var s4 := Apply(s3, Late(c));
    One(s3, Late(c));
    Append(sys, a + b[1..], [s3, s4]);
    run := a + b[1..] + [s3, s4][1..];
    i := |s3.log|;
  }

  // ---------- The theorem ----------

  /** However the run goes on, no copy of the call writes after the call has returned. */
  ghost predicate StaysConfined(sys: Sys, c: nat) {
    forall run: seq<Sys> :: Continues(sys, run) && c < |run[|run| - 1].calls| ==> Confined(run[|run| - 1], c)
  }

  lemma ReachedStaysConfined(sys: Sys, c: nat, run: seq<Sys>)
    requires Inv(sys) && c < |sys.calls| && sys.calls[c].outcome.Open? && sys.calls[c].req.Put?
    requires sys.calls[c].req.version <= KeyState(sys.m, sys.calls[c].req.key).version
    requires Continues(sys, run)
    ensures c < |run[|run| - 1].calls| && Confined(run[|run| - 1], c)
  {
    hide Inv;
    var last := run[|run| - 1];
    ContinuesOk(sys, run, |run| - 1);
    GoesOn(sys, run, |run| - 1, c);
    if last.calls[c].outcome.Returned? {
      forall i: nat | Wrote(last, i) && last.log[i].call == c ensures i <= last.calls[c].outcome.at {
        NoLateWrite(last, c, i, |sys.log|);
      }
    }
  }

  /** While a Put is open, all its copies are sure to be confined to the call, whatever happens,
      if and only if the key has reached its version. */
  lemma StaysConfinedIffReached(sys: Sys, c: nat)
    requires Reachable(sys) && c < |sys.calls| && sys.calls[c].outcome.Open? && sys.calls[c].req.Put?
    ensures StaysConfined(sys, c) <==> sys.calls[c].req.version <= KeyState(sys.m, sys.calls[c].req.key).version
  {
    hide Inv;
    ReachableOk(sys);
    if sys.calls[c].req.version <= KeyState(sys.m, sys.calls[c].req.key).version {
      forall run: seq<Sys> | Continues(sys, run) && c < |run[|run| - 1].calls| ensures Confined(run[|run| - 1], c) {
        ReachedStaysConfined(sys, c, run);
      }
    } else {
      var run, i := LateWrites(sys, c);
      assert !Confined(run[|run| - 1], c);
    }
  }

  /** What a client can check before it calls Put: its copies are sure to be confined if and only
      if the version is one that the key has reached, as any version that a Get returned has been. */
  lemma ConfinedIffReachedAtStart(sys: Sys, req: Request)
    requires Reachable(sys) && req.Put?
    ensures var (sys', c) := (Apply(sys, Invoke(req)), |sys.calls|);
            && StaysConfined(sys', c) <==> Reached(sys', c)
  {
    hide Inv;
    var sys' := Apply(sys, Invoke(req));
    var run :| IsRun(run) && run[|run| - 1] == sys;
    One(sys, Invoke(req));
    Append(INITIAL, run, [sys, sys']);
    assert IsRun(run + [sys, sys'][1..]);
    StaysConfinedIffReached(sys', |sys.calls|);
  }

  /** Whoever writes with the version that a Get has returned makes sure of it. */
  lemma AfterGetConfined(sys: Sys, c: nat, value: string)
    requires Reachable(sys) && c < |sys.calls| && sys.calls[c].outcome.Returned? && sys.calls[c].req.Get?
    ensures var out := sys.calls[c].outcome.out;
            && out.GetReply?
            && StaysConfined(Apply(sys, Invoke(Put(sys.calls[c].req.key, value, out.version))), |sys.calls|)
  {
    hide Inv, StaysConfined, Reached;
    GetReaches(sys, c, value);
    ConfinedIffReachedAtStart(sys, Put(sys.calls[c].req.key, value, sys.calls[c].outcome.out.version));
  }

  // ---------- Two runs from the start ----------

  /** A client is told that the key does not exist, and its Put takes effect later. */
  lemma ToldNoKeyThenWritten(key: string, value: string) returns (run: seq<Sys>, i: nat)
    ensures IsRun(run)
    ensures var last := run[|run| - 1];
            && |last.calls| > 0 && last.calls[0].req == Put(key, value, 1)
            && last.calls[0].outcome == Returned(PutReply(ErrNoKey), 0)
            && i > 0 && Wrote(last, i) && last.log[i].call == 0
  {
    var s1 := Apply(INITIAL, Invoke(Put(key, value, 1)));
    One(INITIAL, Invoke(Put(key, value, 1)));
    var late;
    late, i := LateWrites(s1, 0);
    GoesOn(s1, late, |late| - 1, 0) by {
      InitialOk();
      InvKept(INITIAL, Invoke(Put(key, value, 1)));
    }
    Append(INITIAL, [INITIAL, s1], late);
    run := [INITIAL, s1] + late[1..];
  }

  /** A client is told `ErrMaybe`, and its Put takes effect only after that. */
  lemma ToldMaybeThenWritten(key: string, value: string) returns (run: seq<Sys>, i: nat)
    ensures IsRun(run)
    ensures var last := run[|run| - 1];
            && |last.calls| > 1 && last.calls[1].req == Put(key, value, 2)
            && last.calls[1].outcome == Returned(PutReply(ErrMaybe), 1)
            && i > 1 && Wrote(last, i) && last.log[i].call == 1
  {
    var a := Apply(INITIAL, Invoke(Put(key, "", 0)));
    var b := Apply(a, Answered(0));
    var d := Apply(b, Invoke(Put(key, value, 2)));
    One(INITIAL, Invoke(Put(key, "", 0)));
    One(a, Answered(0));
    One(b, Invoke(Put(key, value, 2)));
    Append(INITIAL, [INITIAL, a], [a, b]);
    Append(INITIAL, [INITIAL, a] + [a, b][1..], [b, d]);
    var first := [INITIAL, a] + [a, b][1..] + [b, d][1..];
    var late;
    late, i := LateWrites(d, 1);
    GoesOn(d, late, |late| - 1, 1) by {
      InitialOk();
      ContinuesOk(INITIAL, first, |first| - 1);
    }
    Append(INITIAL, first, late);
    run := first + late[1..];
  }

  // ---------- A transport that executes a copy before the call returns ----------

  /** The step is not a late copy of a call that has returned. */
  ghost predicate FollowsInTime(sys: Sys, sys': Sys) {
    exists step :: Enabled(sys, step) && (step.Late? ==> sys.calls[step.c].outcome.Open?) && sys' == Apply(sys, step)
  }

  ghost predicate IsRunInTime(run: seq<Sys>) {
    && |run| >= 1 && run[0] == INITIAL
    && forall k :: 0 <= k < |run| - 1 ==> FollowsInTime(run[k], run[k + 1])
  }

  /** The last copy of every completed call is the one that it was answered from. */
  ghost predicate InTime(sys: Sys) {
    forall c, i :: 0 <= c < |sys.calls| && sys.calls[c].outcome.Returned? && 0 <= i < |sys.log| && sys.log[i].call == c ==>
      i <= sys.calls[c].outcome.at
  }

  lemma InTimeKept(sys: Sys, sys': Sys)
    requires Inv(sys) && InTime(sys) && FollowsInTime(sys, sys')
    ensures InTime(sys')
  {
    var step :| Enabled(sys, step) && (step.Late? ==> sys.calls[step.c].outcome.Open?) && sys' == Apply(sys, step);
    forall c, i | 0 <= c < |sys'.calls| && sys'.calls[c].outcome.Returned? && 0 <= i < |sys'.log| && sys'.log[i].call == c
      ensures i <= sys'.calls[c].outcome.at
    {
      if i < |sys.log| {
        assert EventOk(sys, i);
        assert CallOk(sys, c);
      }
    }
  }

  lemma {:induction false} RunInTime(run: seq<Sys>, k: nat)
    requires IsRunInTime(run) && k < |run|
    ensures Inv(run[k]) && InTime(run[k])
  {
    hide Inv, InTime;
    if k == 0 {
      InitialOk();
      assert InTime(INITIAL) by { NothingYet(); }
    } else {
      RunInTime(run, k - 1);
      assert FollowsInTime(run[k - 1], run[k - 1 + 1]);
      var step :| Enabled(run[k - 1], step) && (step.Late? ==> run[k - 1].calls[step.c].outcome.Open?)
                  && run[k] == Apply(run[k - 1], step);
      InvKept(run[k - 1], step);
      InTimeKept(run[k - 1], run[k]);
    }
  }

  lemma NothingYet()
    ensures InTime(INITIAL)
  {
  }

  /** If no copy is executed after its call has returned, as with one server behind a transport that
      executes a request before the call for it ends, then all calls of all runs are confined: every
      completed call is linearized, and ErrNoKey means that the Put is never written. */
  lemma InTimeIsConfined(run: seq<Sys>, k: nat)
    requires IsRunInTime(run) && k < |run|
    ensures forall c :: 0 <= c < |run[k].calls| ==> Confined(run[k], c)
    ensures forall c :: 0 <= c < |run[k].calls| && run[k].calls[c].outcome.Returned? ==> Linearized(run[k], c)
    ensures forall i: nat :: Wrote(run[k], i) && run[k].log[i].call < |run[k].calls| ==>
              run[k].calls[run[k].log[i].call].outcome.Open? || run[k].calls[run[k].log[i].call].outcome.out != PutReply(ErrNoKey)
  {
    hide Inv, Linearized;
    var sys := run[k];
    RunInTime(run, k);
    forall c | 0 <= c < |sys.calls| ensures Confined(sys, c) {
      if sys.calls[c].outcome.Returned? {
        LinearizedIff(sys, c);
      }
    }
    forall c | 0 <= c < |sys.calls| && sys.calls[c].outcome.Returned? ensures Linearized(sys, c) {
      LinearizedIff(sys, c);
    }
    forall i: nat | Wrote(sys, i) && sys.log[i].call < |sys.calls| && sys.calls[sys.log[i].call].outcome.Returned?
      ensures sys.calls[sys.log[i].call].outcome.out != PutReply(ErrNoKey)
    {
      WriterNotToldNoKey(sys, i);
    }
  }

  lemma WriterNotToldNoKey(sys: Sys, i: nat)
    requires Inv(sys) && InTime(sys) && Wrote(sys, i) && sys.log[i].call < |sys.calls| && sys.calls[sys.log[i].call].outcome.Returned?
    ensures sys.calls[sys.log[i].call].outcome.out != PutReply(ErrNoKey)
  {
    var c := sys.log[i].call;
    WroteFact(sys, i);
    AnswerMeant(sys, c);
  }
}
