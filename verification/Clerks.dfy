/**
 Clerks of the versioned key/value store over a network that loses requests and replies, and
 linearizability of what they answer. The store is the single `kvsrv`, or the one map that the
 replicated and the sharded services stand for (`SubmitSafety`, `ShardSafety`): either way a
 copy of a request is executed at one moment, or never.
 */
module Clerks {
  import opened KvStore

  // ---------- The sequential specification ----------

  datatype KvState = KvState(value: string, version: nat)

  /** `KvModel.Step` on one key: is the answer right, and what is the state afterwards? */
  function ModelStep(st: KvState, req: Request, out: Reply): (bool, KvState) {
    match req
    case Get(_) => (out.GetReply? && out.value == st.value, st)
    case Put(_, value, version) =>
      if st.version == version
      then (out.PutReply? && (out.err == OK || out.err == ErrMaybe), KvState(value, st.version + 1))
      else (out.PutReply? && (out.err == ErrVersion || out.err == ErrMaybe), st)
  }

  /** One key of the store as the specification sees it; an absent key is `KvModel.Init`. */
  function KeyState(m: Store, key: string): KvState {
    if key in m then KvState(m[key].value, m[key].version) else KvState("", 0)
  }

  // ---------- Clerks and the store ----------

  /** `start` and `at` are positions in the log of executed copies: how long it was when the call
      began, and the copy whose reply the call returned with. */
  datatype Outcome = Open | Returned(out: Reply, at: nat)

  /** `resent`: an attempt has ended without a definite answer (no reply, ErrWrongLeader or
      ErrWrongGroup), so a copy may have been executed. */
  datatype Call = Call(req: Request, start: nat, resent: bool, outcome: Outcome)

  /** One executed copy of a request. */
  datatype Event = Event(call: nat, before: Store, after: Store, reply: Reply)

  datatype Sys = Sys(m: Store, log: seq<Event>, calls: seq<Call>)

  datatype Step =
    | Invoke(req: Request)             // a client calls Get or Put
    | Fail(c: nat, executed: bool)     // an attempt fails; its copy was executed or not
    | Answered(c: nat)                 // a copy is executed and its reply arrives
    | Late(c: nat)                     // the copy of a failed attempt is executed only now

  /** What the clerk returns for the store's answer. */
  function ClerkAnswer(reply: Reply, resent: bool): Reply {
    if reply == PutReply(ErrVersion) && resent then PutReply(ErrMaybe) else reply
  }

  /** The store when the call began. */
  function StoreAt(sys: Sys, i: nat): Store {
    if i < |sys.log| then sys.log[i].before else sys.m
  }

  /** The version of the Put is one that its key had reached when the call began, as after a Get. */
  predicate Reached(sys: Sys, c: nat)
    requires c < |sys.calls|
  {
    match sys.calls[c].req
    case Get(_) => true
    case Put(key, _, version) => version <= KeyState(StoreAt(sys, sys.calls[c].start), key).version
  }

  /** A copy of a failed attempt may be executed at any time, even after its call has returned. */
  predicate Enabled(sys: Sys, step: Step) {
    match step
    case Invoke(_) => true
    case Fail(c, _) => c < |sys.calls| && sys.calls[c].outcome.Open?
    case Answered(c) => c < |sys.calls| && sys.calls[c].outcome.Open?
    case Late(c) => c < |sys.calls| && sys.calls[c].resent
  }

  function Execute(sys: Sys, c: nat): Sys
    requires c < |sys.calls|
  {
    var (m', reply) := DoOp(sys.m, sys.calls[c].req);
    sys.(m := m', log := sys.log + [Event(c, sys.m, m', reply)])
  }

  function Apply(sys: Sys, step: Step): Sys
    requires Enabled(sys, step)
  {
    match step
    case Invoke(req) => sys.(calls := sys.calls + [Call(req, |sys.log|, false, Open)])
    case Fail(c, executed) =>
      var sys1 := if executed then Execute(sys, c) else sys;
      sys1.(calls := sys.calls[c := sys.calls[c].(resent := true)])
    case Answered(c) =>
      var out := ClerkAnswer(DoOp(sys.m, sys.calls[c].req).1, sys.calls[c].resent);
      Execute(sys, c).(calls := sys.calls[c := sys.calls[c].(outcome := Returned(out, |sys.log|))])
    case Late(c) => Execute(sys, c)
  }

  const INITIAL := Sys(map[], [], [])

  ghost predicate Follows(sys: Sys, sys': Sys) {
    exists step :: Enabled(sys, step) && sys' == Apply(sys, step)
  }

  /** A run that goes on from a state. */
  ghost predicate Continues(sys: Sys, run: seq<Sys>) {
    && |run| >= 1 && run[0] == sys
    && forall k :: 0 <= k < |run| - 1 ==> Follows(run[k], run[k + 1])
  }

  ghost predicate IsRun(run: seq<Sys>) {
    Continues(INITIAL, run)
  }

  ghost predicate Reachable(sys: Sys) {
    exists run :: IsRun(run) && run[|run| - 1] == sys
  }

  // ---------- Invariant ----------

  /** Copy i of the log wrote. */
  ghost predicate Wrote(sys: Sys, i: nat) {
    i < |sys.log| && sys.log[i].reply == PutReply(OK)
  }

  ghost predicate EventOk(sys: Sys, i: nat)
    requires i < |sys.log|
  {
    var e := sys.log[i];
    && e.call < |sys.calls| && sys.calls[e.call].start <= i
    && (e.after, e.reply) == DoOp(e.before, sys.calls[e.call].req)
    && e.after == StoreAt(sys, i + 1)
  }

  /** What a call that returned knows. */
  ghost predicate ReturnedOk(sys: Sys, c: nat)
    requires c < |sys.calls| && sys.calls[c].outcome.Returned?
  {
    var call := sys.calls[c];
    var at := call.outcome.at;
    && call.start <= at < |sys.log| && sys.log[at].call == c
    && call.outcome.out == ClerkAnswer(sys.log[at].reply, call.resent)
  }

  ghost predicate CallOk(sys: Sys, c: nat)
    requires c < |sys.calls|
  {
    var call := sys.calls[c];
    && call.start <= |sys.log|
    && (call.outcome.Returned? ==> ReturnedOk(sys, c))
    && (!call.resent ==> forall i :: 0 <= i < |sys.log| && sys.log[i].call == c ==>
          call.outcome.Returned? && i == call.outcome.at)
  }

  ghost predicate Inv(sys: Sys) {
    && (|sys.log| > 0 ==> sys.log[0].before == map[]) && (|sys.log| == 0 ==> sys.m == map[])
    && (forall i :: 0 <= i < |sys.log| ==> EventOk(sys, i))
    && (forall c :: 0 <= c < |sys.calls| ==> CallOk(sys, c))
  }

  lemma ExecuteOk(sys: Sys, c: nat, sys': Sys)
    requires Inv(sys) && c < |sys.calls| && |sys'.calls| == |sys.calls|
    requires sys'.m == Execute(sys, c).m && sys'.log == Execute(sys, c).log
    requires forall d :: 0 <= d < |sys.calls| ==> sys'.calls[d].req == sys.calls[d].req && sys'.calls[d].start == sys.calls[d].start
    ensures forall i :: 0 <= i < |sys'.log| ==> EventOk(sys', i)
    ensures forall i :: 0 <= i <= |sys.log| ==> StoreAt(sys', i) == StoreAt(sys, i)
    ensures forall d :: 0 <= d < |sys.calls| ==> Reached(sys', d) == Reached(sys, d)
  {
    forall i | 0 <= i <= |sys.log| ensures StoreAt(sys', i) == StoreAt(sys, i) {}
    forall d | 0 <= d < |sys.calls| ensures Reached(sys', d) == Reached(sys, d) {
      assert CallOk(sys, d);
    }
    forall i | 0 <= i < |sys'.log| ensures EventOk(sys', i) {
      if i < |sys.log| {
        assert EventOk(sys, i);
      } else {
        assert CallOk(sys, c);
      }
    }
  }

  lemma OtherCall(sys: Sys, c: nat, sys': Sys, d: nat)
    requires Inv(sys) && c < |sys.calls| && |sys'.calls| == |sys.calls| && d < |sys.calls| && d != c
    requires sys'.log == sys.log || sys'.log == Execute(sys, c).log
    requires sys'.calls[d] == sys.calls[d] && Reached(sys', d) == Reached(sys, d)
    ensures CallOk(sys', d)
  {
    assert CallOk(sys, d);
  }

  lemma InvKept(sys: Sys, step: Step)
    requires Inv(sys) && Enabled(sys, step)
    ensures Inv(Apply(sys, step))
  {
    var sys' := Apply(sys, step);
    match step {
      case Invoke(_) => InvokeOk(sys, step);
      case Fail(c, executed) =>
        if executed {
          ExecuteOk(sys, c, sys');
        } else {
          FailOk(sys, c, sys');
        }
        forall d | 0 <= d < |sys'.calls| ensures CallOk(sys', d) {
          assert CallOk(sys, c);
          if d != c { OtherCall(sys, c, sys', d); }
        }
      case Answered(c) =>
        ExecuteOk(sys, c, sys');
        forall d | 0 <= d < |sys'.calls| ensures CallOk(sys', d) {
          assert CallOk(sys, c);
          if d != c { OtherCall(sys, c, sys', d); }
        }
      case Late(c) =>
        ExecuteOk(sys, c, sys');
        forall d | 0 <= d < |sys'.calls| ensures CallOk(sys', d) {
          assert CallOk(sys, c);
          if d != c { OtherCall(sys, c, sys', d); }
        }
    }
  }

  lemma FailOk(sys: Sys, c: nat, sys': Sys)
    requires Inv(sys) && Enabled(sys, Fail(c, false)) && sys' == Apply(sys, Fail(c, false))
    ensures forall i :: 0 <= i < |sys'.log| ==> EventOk(sys', i)
    ensures forall d :: 0 <= d < |sys.calls| ==> Reached(sys', d) == Reached(sys, d)
  {
    forall i | 0 <= i < |sys'.log| ensures EventOk(sys', i) {
      assert EventOk(sys, i);
    }
  }

  lemma InvokeOk(sys: Sys, step: Step)
    requires Inv(sys) && step.Invoke?
    ensures Inv(Apply(sys, step))
  {
    var sys' := Apply(sys, step);
    forall i | 0 <= i < |sys'.log| ensures EventOk(sys', i) {
      assert EventOk(sys, i);
    }
    forall c | 0 <= c < |sys'.calls| ensures CallOk(sys', c) {
      if c < |sys.calls| {
        assert CallOk(sys, c);
      } else {
        forall i | 0 <= i < |sys.log| ensures sys.log[i].call != c {
          assert EventOk(sys, i);
        }
      }
    }
  }

  lemma {:induction false} ContinuesOk(sys: Sys, run: seq<Sys>, k: nat)
    requires Inv(sys) && Continues(sys, run) && k < |run|
    ensures Inv(run[k])
  {
    hide Inv;
    if k > 0 {
      ContinuesOk(sys, run, k - 1);
      assert Follows(run[k - 1], run[k - 1 + 1]);
      var step :| Enabled(run[k - 1], step) && run[k] == Apply(run[k - 1], step);
      InvKept(run[k - 1], step);
    }
  }

  lemma RunOk(run: seq<Sys>, k: nat)
    requires IsRun(run) && k < |run|
    ensures Inv(run[k])
  {
    InitialOk();
    ContinuesOk(INITIAL, run, k);
  }

  lemma ReachableOk(sys: Sys)
    requires Reachable(sys)
    ensures Inv(sys)
  {
    var run :| IsRun(run) && run[|run| - 1] == sys;
    RunOk(run, |run| - 1);
  }

  lemma InitialOk()
    ensures Inv(INITIAL)
  {
  }

  // ---------- At most once ----------

  /** A key's version never decreases, and the write of a version takes it beyond that version. */
  lemma {:induction false} VersionsGrow(sys: Sys, i: nat, j: nat, key: string)
    requires Inv(sys) && i <= j <= |sys.log|
    ensures KeyState(StoreAt(sys, i), key).version <= KeyState(StoreAt(sys, j), key).version
    ensures key in StoreAt(sys, i) ==> key in StoreAt(sys, j)
    decreases j
  {
    if i < j {
      VersionsGrow(sys, i, j - 1, key);
      assert EventOk(sys, j - 1);
    }
  }

  /** What a copy that wrote found and left. */
  lemma WroteFact(sys: Sys, i: nat)
    requires Inv(sys) && Wrote(sys, i)
    ensures sys.log[i].call < |sys.calls|
    ensures var req := sys.calls[sys.log[i].call].req;
            && req.Put? && KeyState(StoreAt(sys, i), req.key).version == req.version
            && KeyState(StoreAt(sys, i + 1), req.key) == KvState(req.value, req.version + 1)
            && req.key in StoreAt(sys, i + 1)
  {
    assert EventOk(sys, i);
  }

  lemma OneWrite(sys: Sys, i: nat, j: nat)
    requires Inv(sys) && Wrote(sys, i) && Wrote(sys, j) && sys.log[i].call == sys.log[j].call
    ensures i == j
  {
    WroteFact(sys, i);
    WroteFact(sys, j);
    var key := sys.calls[sys.log[i].call].req.key;
    if i < j {
      VersionsGrow(sys, i + 1, j, key);
    } else if j < i {
      VersionsGrow(sys, j + 1, i, key);
    }
  }

  /** All copies of a request together write at most once. */
  lemma AtMostOnce(sys: Sys, i: nat, j: nat)
    requires Reachable(sys) && Wrote(sys, i) && Wrote(sys, j)
    requires sys.log[i].call == sys.log[j].call
    ensures i == j
  {
    ReachableOk(sys);
    OneWrite(sys, i, j);
  }

  /** No copy of a call that has returned writes after the one it was answered from. */
  ghost predicate Confined(sys: Sys, c: nat)
    requires c < |sys.calls|
  {
    sys.calls[c].outcome.Returned? ==>
      forall i: nat :: Wrote(sys, i) && sys.log[i].call == c ==> i <= sys.calls[c].outcome.at
  }

  /** A key has reached the version of a Put at position j of the log, and the call returned at j or
      later: no copy can write any more. */
  lemma NoLateWrite(sys: Sys, c: nat, i: nat, j: nat)
    requires Inv(sys) && c < |sys.calls| && sys.calls[c].outcome.Returned? && j <= sys.calls[c].outcome.at
    requires Wrote(sys, i) && sys.log[i].call == c
    requires sys.calls[c].req.Put? ==> sys.calls[c].req.version <= KeyState(StoreAt(sys, j), sys.calls[c].req.key).version
    ensures i <= sys.calls[c].outcome.at
  {
    var at := sys.calls[c].outcome.at;
    assert CallOk(sys, c);
    if i > at {
      var req := sys.calls[c].req;
      WroteFact(sys, i);
      assert EventOk(sys, at);
      VersionsGrow(sys, j, at, req.key);
      VersionsGrow(sys, at + 1, i, req.key);
    }
  }

  lemma ReachedConfined(sys: Sys, c: nat)
    requires Inv(sys) && c < |sys.calls| && Reached(sys, c)
    ensures Confined(sys, c)
  {
    if sys.calls[c].outcome.Returned? {
      assert CallOk(sys, c);
      forall i: nat | Wrote(sys, i) && sys.log[i].call == c ensures i <= sys.calls[c].outcome.at {
        NoLateWrite(sys, c, i, sys.calls[c].start);
      }
    }
  }

  /** The answer and the writes of a call. */
  ghost predicate Meant(sys: Sys, c: nat)
    requires c < |sys.calls| && sys.calls[c].outcome.Returned? && sys.calls[c].outcome.out.PutReply?
  {
    var (err, at) := (sys.calls[c].outcome.out.err, sys.calls[c].outcome.at);
    && err in {OK, ErrVersion, ErrNoKey, ErrMaybe}
    && (err == OK ==> forall i: nat :: Wrote(sys, i) && sys.log[i].call == c <==> i == at)
    && (err == ErrVersion ==> forall i: nat :: Wrote(sys, i) ==> sys.log[i].call != c)
    && (err == ErrNoKey ==> forall i: nat :: Wrote(sys, i) && sys.log[i].call == c ==> i > at)
    && (err == ErrMaybe ==> forall i: nat :: Wrote(sys, i) && sys.log[i].call == c ==> i != at)
  }

  lemma AnswerMeant(sys: Sys, c: nat)
    requires Inv(sys) && c < |sys.calls| && sys.calls[c].outcome.Returned? && sys.calls[c].req.Put?
    ensures sys.calls[c].outcome.out.PutReply? && Meant(sys, c)
  {
    assert CallOk(sys, c);
    var at := sys.calls[c].outcome.at;
    assert EventOk(sys, at);
    forall i: nat | Wrote(sys, i) && sys.log[i].call == c
      ensures sys.log[at].reply == PutReply(OK) ==> i == at
      ensures sys.log[at].reply == PutReply(ErrNoKey) ==> i > at
      ensures sys.calls[c].outcome.out.err != ErrVersion
    {
      if Wrote(sys, at) {
        OneWrite(sys, i, at);
      } else if i < at {
        WroteFact(sys, i);
        VersionsGrow(sys, i + 1, at, sys.calls[c].req.key);
      }
    }
  }

  /** OK means written exactly once, by the answered copy; ErrVersion means never written; ErrNoKey
      means not written before the call returned, ErrMaybe at most once, by another copy than the
      answered one. With confined copies: ErrNoKey means never written, ErrMaybe only before. */
  lemma AnswersMean(sys: Sys, c: nat)
    requires Reachable(sys) && c < |sys.calls| && sys.calls[c].outcome.Returned? && sys.calls[c].req.Put?
    ensures sys.calls[c].outcome.out.PutReply? && Meant(sys, c)
    ensures var (err, at) := (sys.calls[c].outcome.out.err, sys.calls[c].outcome.at);
            Confined(sys, c) ==>
              && (err == ErrNoKey ==> forall i: nat :: Wrote(sys, i) ==> sys.log[i].call != c)
              && (err == ErrMaybe ==> forall i: nat :: Wrote(sys, i) && sys.log[i].call == c ==> i < at)
  {
    ReachableOk(sys);
    AnswerMeant(sys, c);
  }

  /** What a Get was answered is what its key was where the answered copy was executed: the value and
      the version of the key, OK exactly if it existed, and else ErrNoKey. */
  lemma GetsMean(sys: Sys, c: nat)
    requires Reachable(sys) && c < |sys.calls| && sys.calls[c].outcome.Returned? && sys.calls[c].req.Get?
    ensures var (key, out, at) := (sys.calls[c].req.key, sys.calls[c].outcome.out, sys.calls[c].outcome.at);
            && sys.calls[c].start <= at < |sys.log| && sys.log[at].call == c && out.GetReply?
            && KeyState(sys.log[at].before, key) == KvState(out.value, out.version)
            && (if key in sys.log[at].before then out.err == OK && sys.log[at].before[key].version == out.version
                else out.err == ErrNoKey && out.version == 0)
  {
    ReachableOk(sys);
    assert CallOk(sys, c);
    assert EventOk(sys, sys.calls[c].outcome.at);
  }

  /** A version from a Get has been reached, by every Put of the key that is called from then on. */
  lemma GetReaches(sys: Sys, c: nat, value: string)
    requires Reachable(sys) && c < |sys.calls| && sys.calls[c].outcome.Returned? && sys.calls[c].req.Get?
    ensures var out := sys.calls[c].outcome.out;
            && out.GetReply?
            && Reached(Apply(sys, Invoke(Put(sys.calls[c].req.key, value, out.version))), |sys.calls|)
  {
    ReachableOk(sys);
    GetsMean(sys, c);
    var at := sys.calls[c].outcome.at;
    assert StoreAt(sys, at) == sys.log[at].before;
    VersionsGrow(sys, at, |sys.log|, sys.calls[c].req.key);
  }

  // ---------- Linearizability ----------

  /** The moment at which a call takes effect: its write, else the execution it was answered from. */
  ghost function Point(sys: Sys, c: nat): nat
    requires c < |sys.calls| && sys.calls[c].outcome.Returned?
  {
    if w: nat :| Wrote(sys, w) && sys.log[w].call == c then w
    else sys.calls[c].outcome.at
  }

  /** The only answer that the specification rejects: a Put told that its key does not exist. */
  ghost predicate KeyMissing(m: Store, req: Request) {
    req.Put? && req.key !in m && req.version != 0
  }

  /** The call has a point in its interval at which the specification makes the store's step; it
      accepts the answer there unless it was about a missing key. */
  ghost predicate Linearized(sys: Sys, c: nat)
    requires c < |sys.calls| && sys.calls[c].outcome.Returned?
  {
    var (call, p) := (sys.calls[c], Point(sys, c));
    && call.start <= p <= call.outcome.at < |sys.log| && sys.log[p].call == c
    && var (accepted, st) := ModelStep(KeyState(sys.log[p].before, call.req.key), call.req, call.outcome.out);
    && (accepted <==> !KeyMissing(sys.log[p].before, call.req))
    && st == KeyState(sys.log[p].after, call.req.key)
  }

  /** A completed call is linearized if and only if its copies are confined, as they are if its
      version was reached. The answer to a Put of a missing key with a nonzero version is exactly
      what the specification rejects. */
  lemma PointAccepted(sys: Sys, c: nat)
    requires Reachable(sys) && c < |sys.calls| && sys.calls[c].outcome.Returned?
    ensures Linearized(sys, c) <==> Confined(sys, c)
    ensures Reached(sys, c) ==> Linearized(sys, c)
  {
    ReachableOk(sys);
    LinearizedIff(sys, c);
  }

  lemma LinearizedIff(sys: Sys, c: nat)
    requires Inv(sys) && c < |sys.calls| && sys.calls[c].outcome.Returned?
    ensures Linearized(sys, c) <==> Confined(sys, c)
    ensures Reached(sys, c) ==> Confined(sys, c)
  {
    assert CallOk(sys, c);
    var p := Point(sys, c);
    if sys.calls[c].req.Put? {
      AnswerMeant(sys, c);
    }
    if Wrote(sys, p) && sys.log[p].call == c {
      WroteFact(sys, p);
      forall i: nat | Wrote(sys, i) && sys.log[i].call == c ensures i == p {
        OneWrite(sys, i, p);
      }
    }
    assert EventOk(sys, p);
    if Reached(sys, c) {
      ReachedConfined(sys, c);
    }
  }

  /** Nothing else changes the store: an execution that is not the point of a completed call
      changes nothing, or is the write of a call that has not returned. */
  lemma OnlyPointsWrite(sys: Sys, i: nat)
    requires Inv(sys) && i < |sys.log|
    ensures var (e, c) := (sys.log[i], sys.log[i].call);
            && c < |sys.calls|
            && (e.after != e.before ==> sys.calls[c].outcome.Open? || i == Point(sys, c))
            && (forall key :: key != sys.calls[c].req.key ==> KeyState(e.after, key) == KeyState(e.before, key))
  {
    assert EventOk(sys, i);
    var c := sys.log[i].call;
    if sys.log[i].after != sys.log[i].before && sys.calls[c].outcome.Returned? {
      assert Wrote(sys, i);
      var p := Point(sys, c);
      OneWrite(sys, i, p);
    }
  }

  /** Linearizability of every run: the executions form one sequence of states from the empty store
      on, only points and open calls change them, and a completed call has its point in its
      interval if and only if its copies are confined, as all copies of a reached version are. */
  lemma Linearizable(run: seq<Sys>, k: nat)
    requires IsRun(run) && k < |run|
    ensures var sys := run[k];
            && (forall i :: 0 <= i < |sys.log| ==>
                  && sys.log[i].call < |sys.calls| && sys.log[i].after == StoreAt(sys, i + 1)
                  && (i == 0 ==> sys.log[i].before == map[]))
            && (forall c :: 0 <= c < |sys.calls| && sys.calls[c].outcome.Returned? ==>
                  && (Linearized(sys, c) <==> Confined(sys, c)) && (Reached(sys, c) ==> Linearized(sys, c)))
            && (forall i :: 0 <= i < |sys.log| && sys.log[i].after != sys.log[i].before ==>
                  sys.calls[sys.log[i].call].outcome.Open? || i == Point(sys, sys.log[i].call))
  {
    var sys := run[k];
    RunOk(run, k);
    forall i | 0 <= i < |sys.log|
      ensures sys.log[i].call < |sys.calls| && sys.log[i].after == StoreAt(sys, i + 1)
      ensures sys.log[i].after != sys.log[i].before ==>
                sys.calls[sys.log[i].call].outcome.Open? || i == Point(sys, sys.log[i].call)
    {
      assert EventOk(sys, i);
      OnlyPointsWrite(sys, i);
    }
    forall c | 0 <= c < |sys.calls| && sys.calls[c].outcome.Returned?
      ensures (Linearized(sys, c) <==> Confined(sys, c)) && (Reached(sys, c) ==> Linearized(sys, c))
    {
      LinearizedIff(sys, c);
    }
  }
}
