/**
 The lock built from conditional Puts (`lock.go`): clients with distinct ids share one key of
 the store. Every copy of a Put ever sent may be executed at any later time, any number of
 times, and any call may fail; reads return what was stored at some moment.
 */
module LockService {

  /** Where a client is in `Acquire` and `Release`. The program variable `lk.version` is the
      version in Held, Freeing, Verifying and Verified. */
  datatype Pc =
    | Idle
    | Reading                                            // Acquire: Get
    | Read(value: string, version: nat)                  // Acquire: after Get
    | Claiming(version: nat)                             // Acquire: Put(id)
    | Held(version: nat)
    | Freeing(version: nat)                              // Release: Put("")
    | Verifying(version: nat)                            // Release: Get after a failed Put
    | Verified(version: nat, value: string, seen: nat)   // Release: after that Get

  datatype Client = Client(id: string, pc: Pc)

  /** Put(name, value, version) of one client. */
  datatype PutMsg = PutMsg(client: nat, value: string, version: nat)

  /** `history[v]` is what the key held at version v; version 0 is the absent key. */
  datatype Sys = Sys(history: seq<string>, clients: seq<Client>, puts: set<PutMsg>, wrote: set<PutMsg>)

  function Version(s: Sys): int { |s.history| - 1 }

  function Value(s: Sys): string
    requires |s.history| >= 1
  {
    s.history[|s.history| - 1]
  }

  datatype Step =
    | Acquire(i: nat)
    | Get(i: nat)             // the server answers a Get
    | Act(i: nat)             // the client acts on it
    | Execute(m: PutMsg)      // the server executes a copy
    | Done(i: nat)            // Put returned OK
    | Retry(i: nat)           // Put returned ErrMaybe or ErrVersion
    | Release(i: nat)

  predicate Enabled(s: Sys, step: Step) {
    && |s.history| >= 1
    && match step
       case Execute(m) => m in s.puts
       case Acquire(i) => i < |s.clients| && s.clients[i].pc.Idle?
       case Get(i) => i < |s.clients| && (s.clients[i].pc.Reading? || s.clients[i].pc.Verifying?)
       case Act(i) => i < |s.clients| && (s.clients[i].pc.Read? || s.clients[i].pc.Verified?)
       case Done(i) =>
         && i < |s.clients|
         && exists m :: m in Pending(i, s.clients[i].id, s.clients[i].pc) && m in s.wrote
       case Retry(i) => i < |s.clients| && (s.clients[i].pc.Claiming? || s.clients[i].pc.Freeing?)
       case Release(i) => i < |s.clients| && s.clients[i].pc.Held?
  }

  function Goto(s: Sys, i: nat, pc: Pc, sent: set<PutMsg>): Sys
    requires i < |s.clients|
  {
    s.(clients := s.clients[i := s.clients[i].(pc := pc)], puts := s.puts + sent)
  }

  /** A Get has returned. */
  function Looked(pc: Pc, value: string, version: nat): Pc {
    match pc
    case Reading => Read(value, version)
    case Verifying(v) => Verified(v, value, version)
    case _ => pc
  }

  /** What `Acquire` or `Release` does with the value and version it read. */
  function Decided(id: string, pc: Pc): Pc {
    match pc
    case Read(value, version) =>
      if value == id then Held(version) else if value != "" then Reading else Claiming(version)
    case Verified(_, value, seen) => if value != id then Idle else Freeing(seen)
    case _ => pc
  }

  /** A Put has returned OK, or another error. */
  function Answered(pc: Pc, ok: bool): Pc {
    match pc
    case Claiming(v) => if ok then Held(v + 1) else Reading
    case Freeing(v) => if ok then Idle else Verifying(v)
    case _ => pc
  }

  /** The Put that a client waits for. */
  function Pending(i: nat, id: string, pc: Pc): set<PutMsg> {
    match pc
    case Claiming(v) => {PutMsg(i, id, v)}
    case Freeing(v) => {PutMsg(i, "", v)}
    case _ => {}
  }

  function Apply(s: Sys, step: Step): Sys
    requires Enabled(s, step)
  {
    match step
    case Acquire(i) => Goto(s, i, Reading, {})
    case Get(i) =>
      Goto(s, i, Looked(s.clients[i].pc, Value(s), Version(s)), {})
    case Act(i) =>
      var pc := Decided(s.clients[i].id, s.clients[i].pc);
      Goto(s, i, pc, Pending(i, s.clients[i].id, pc))
    case Execute(m) =>
      if m.version == Version(s) then s.(history := s.history + [m.value], wrote := s.wrote + {m}) else s
    case Done(i) => Goto(s, i, Answered(s.clients[i].pc, true), {})
    case Retry(i) => Goto(s, i, Answered(s.clients[i].pc, false), {})
    case Release(i) =>
      var v := s.clients[i].pc.version;
      Goto(s, i, Freeing(v), {PutMsg(i, "", v)})
  }

  predicate Distinct(ids: seq<string>) {
    && (forall i :: 0 <= i < |ids| ==> ids[i] != "")
    && forall i, j :: 0 <= i < j < |ids| ==> ids[i] != ids[j]
  }

  function Initial(ids: seq<string>): Sys {
    Sys([""], seq(|ids|, i requires 0 <= i < |ids| => Client(ids[i], Idle)), {}, {})
  }

  ghost predicate Follows(s: Sys, s': Sys) {
    exists step :: Enabled(s, step) && s' == Apply(s, step)
  }

  ghost predicate IsRun(ids: seq<string>, run: seq<Sys>) {
    && |run| >= 1 && run[0] == Initial(ids)
    && forall k :: 0 <= k < |run| - 1 ==> Follows(run[k], run[k + 1])
  }

  // ---------- Invariant ----------

  /** A Put replaces a value that its sender may replace: a claim the empty one, a release its
      own id. */
  ghost predicate PutOk(s: Sys, m: PutMsg) {
    && m.client < |s.clients| && m.version < |s.history|
    && (|| (m.value == s.clients[m.client].id && s.history[m.version] == "")
        || (m.value == "" && s.history[m.version] == s.clients[m.client].id))
  }

  /** Every version but the first was written by a Put that found the one before. */
  ghost predicate WrittenBy(s: Sys, v: nat)
    requires v + 1 < |s.history|
  {
    exists m :: m in s.wrote && m in s.puts && m.version == v && m.value == s.history[v + 1]
  }

  /** All Puts of client i that ask for `value` are older than version v. */
  ghost predicate Older(s: Sys, i: nat, value: string, v: int) {
    forall m :: m in s.puts && m.client == i && m.value == value ==> m.version < v
  }

  ghost predicate ClientOk(s: Sys, i: nat)
    requires i < |s.clients| && |s.history| >= 1
  {
    var id := s.clients[i].id;
    match s.clients[i].pc
    case Idle => Older(s, i, "", Version(s)) && Older(s, i, id, Version(s)) && Value(s) != id
    case Reading => Older(s, i, "", Version(s))
    case Read(value, version) =>
      version < |s.history| && s.history[version] == value && Older(s, i, "", version)
    case Claiming(version) =>
      version < |s.history| && s.history[version] == "" && Older(s, i, "", version)
    case Held(version) =>
      version == Version(s) && Value(s) == id && Older(s, i, "", version) && Older(s, i, id, version)
    case Freeing(version) =>
      version < |s.history| && s.history[version] == id && Older(s, i, id, version) && Older(s, i, "", version + 1)
    case Verifying(version) =>
      version < |s.history| && s.history[version] == id && Older(s, i, id, version) && Older(s, i, "", version + 1)
    case Verified(version, value, seen) =>
      && version <= seen < |s.history| && s.history[version] == id && s.history[seen] == value
      && Older(s, i, id, version) && Older(s, i, "", version + 1)
  }

  ghost predicate Inv(s: Sys) {
    && |s.history| >= 1 && s.history[0] == ""
    && (forall i :: 0 <= i < |s.clients| ==> s.clients[i].id != "")
    && (forall i, j :: 0 <= i < j < |s.clients| ==> s.clients[i].id != s.clients[j].id)
    && s.wrote <= s.puts
    && (forall m :: m in s.puts ==> PutOk(s, m))
    && (forall m :: m in s.wrote ==> m.version + 1 < |s.history| && s.history[m.version + 1] == m.value)
    && (forall v: nat {:trigger WrittenBy(s, v)} :: v + 1 < |s.history| ==> WrittenBy(s, v))
    && (forall i :: 0 <= i < |s.clients| ==> ClientOk(s, i))
  }

  lemma SameId(s: Sys, i: nat, j: nat)
    requires Inv(s) && i < |s.clients| && j < |s.clients| && s.clients[i].id == s.clients[j].id
    ensures i == j
  {
  }

  /** A version at which the key held client i's id was only ever replaced by a release of i. */
  lemma OnlyOwnerReplaces(s: Sys, i: nat, v: nat)
    requires Inv(s) && i < |s.clients| && v + 1 < |s.history| && s.history[v] == s.clients[i].id
    ensures PutMsg(i, "", v) in s.puts
  {
    assert WrittenBy(s, v);
    var m :| m in s.wrote && m in s.puts && m.version == v && m.value == s.history[v + 1];
    assert PutOk(s, m);
    var j := m.client;
    SameId(s, i, j);
    assert m == PutMsg(i, "", v);
  }

  /** A version at which the key holds client i's id was written by a claim of i. */
  lemma OnlyOwnerClaims(s: Sys, i: nat, v: nat)
    requires Inv(s) && i < |s.clients| && 1 <= v < |s.history| && s.history[v] == s.clients[i].id
    ensures PutMsg(i, s.clients[i].id, v - 1) in s.puts
  {
    assert WrittenBy(s, v - 1);
    var m :| m in s.wrote && m in s.puts && m.version == v - 1 && m.value == s.history[v - 1 + 1];
    assert PutOk(s, m);
    var j := m.client;
    SameId(s, i, j);
    assert m == PutMsg(i, s.clients[i].id, v - 1);
  }

  /** All releases of client i are older than v, so its id at v or later is still there. */
  lemma StillThere(s: Sys, i: nat, v: nat, w: nat)
    requires Inv(s) && i < |s.clients| && Older(s, i, "", v) && v <= w < |s.history|
    requires s.history[w] == s.clients[i].id
    ensures w == Version(s)
  {
    if w + 1 < |s.history| {
      OnlyOwnerReplaces(s, i, w);
    }
  }

  // ---------- Steps ----------

  /** The history and the other clients do not change. */
  lemma GotoOk(s: Sys, i: nat, pc: Pc, sent: set<PutMsg>)
    requires Inv(s) && i < |s.clients|
    requires forall m :: m in sent ==> m.client == i && PutOk(s, m)
    requires ClientOk(Goto(s, i, pc, sent), i)
    ensures Inv(Goto(s, i, pc, sent))
  {
    var s' := Goto(s, i, pc, sent);
    forall m | m in s'.puts ensures PutOk(s', m) {
      assert PutOk(s, m);
    }
    forall v: nat | v + 1 < |s'.history| ensures WrittenBy(s', v) {
      assert WrittenBy(s, v);
    }
    forall j | 0 <= j < |s'.clients| ensures ClientOk(s', j) {
      if j != i { assert ClientOk(s, j); }
    }
  }

  lemma ActOk(s: Sys, i: nat)
    requires Inv(s) && Enabled(s, Act(i))
    ensures Inv(Apply(s, Act(i)))
  {
    assert ClientOk(s, i);
    var id := s.clients[i].id;
    match s.clients[i].pc
    case Read(value, version) =>
      if value == id {
        StillThere(s, i, version, version);
        ClaimsOlder(s, i);
        GotoOk(s, i, Held(version), {});
      } else if value != "" {
        assert version <= Version(s);
        GotoOk(s, i, Reading, {});
      } else {
        assert PutOk(s, PutMsg(i, id, version));
        GotoOk(s, i, Claiming(version), {PutMsg(i, id, version)});
      }
    case Verified(version, value, seen) =>
      if value != id {
        Freed(s, i, version, seen);
        GotoOk(s, i, Idle, {});
      } else {
        assert PutOk(s, PutMsg(i, "", seen));
        SameHold(s, i, version, seen);
        GotoOk(s, i, Freeing(seen), {PutMsg(i, "", seen)});
      }
  }

  /** While the key holds an id, that client's claims all belong to earlier versions. */
  lemma ClaimsOlder(s: Sys, i: nat)
    requires Inv(s) && i < |s.clients| && Value(s) == s.clients[i].id
    ensures Older(s, i, s.clients[i].id, Version(s))
  {
    forall m | m in s.puts && m.client == i && m.value == s.clients[i].id ensures m.version < Version(s) {
      assert PutOk(s, m);
    }
  }

  /** The key held the id at `version` and was written since: the id is gone for good. */
  lemma Freed(s: Sys, i: nat, version: nat, later: nat)
    requires Inv(s) && i < |s.clients| && version < later < |s.history|
    requires s.history[version] == s.clients[i].id
    requires Older(s, i, s.clients[i].id, version) && Older(s, i, "", version + 1)
    ensures Value(s) != s.clients[i].id && version < Version(s)
    ensures Older(s, i, "", Version(s)) && Older(s, i, s.clients[i].id, Version(s))
  {
    if Value(s) == s.clients[i].id {
      OnlyOwnerClaims(s, i, |s.history| - 1);
    }
  }

  /** If the key still holds the id, it is by the same claim. */
  lemma SameHold(s: Sys, i: nat, version: nat, seen: nat)
    requires Inv(s) && i < |s.clients| && version <= seen < |s.history|
    requires s.history[version] == s.clients[i].id == s.history[seen] && Older(s, i, s.clients[i].id, version)
    ensures seen == version
  {
    if seen > version {
      OnlyOwnerClaims(s, i, seen);
    }
  }

  lemma DoneOk(s: Sys, i: nat)
    requires Inv(s) && Enabled(s, Done(i))
    ensures Inv(Apply(s, Done(i)))
  {
    assert ClientOk(s, i);
    match s.clients[i].pc
    case Claiming(version) =>
      StillThere(s, i, version, version + 1);
      ClaimsOlder(s, i);
      GotoOk(s, i, Held(version + 1), {});
    case Freeing(version) =>
      Freed(s, i, version, version + 1);
      GotoOk(s, i, Idle, {});
  }

  lemma ExecuteOk(s: Sys, m: PutMsg)
    requires Inv(s) && m in s.puts
    ensures Inv(Apply(s, Execute(m)))
  {
    if m.version == Version(s) {
      var s' := Apply(s, Execute(m));
      assert PutOk(s, m);
      forall k | k in s'.puts ensures PutOk(s', k) {
        assert PutOk(s, k);
      }
      forall v: nat | v + 1 < |s'.history| ensures WrittenBy(s', v) {
        if v + 1 < |s.history| {
          WrittenStays(s, s', v);
        } else {
          assert m in s'.wrote && m in s'.puts && m.version == v && m.value == s'.history[v + 1];
        }
      }
      forall j | 0 <= j < |s'.clients| ensures ClientOk(s', j) {
        assert ClientOk(s, j);
        OthersStay(s, m, j);
      }
    }
  }

  lemma WrittenStays(s: Sys, s': Sys, v: nat)
    requires v + 1 < |s.history| && |s.history| <= |s'.history| && s'.history[v + 1] == s.history[v + 1]
    requires WrittenBy(s, v) && s.wrote <= s'.wrote && s.puts <= s'.puts
    ensures WrittenBy(s', v)
  {
    var m :| m in s.wrote && m in s.puts && m.version == v && m.value == s.history[v + 1];
    assert m in s'.wrote && m in s'.puts;
  }

  /** A Put that takes effect disturbs no holder and revives no idle client. */
  lemma OthersStay(s: Sys, m: PutMsg, j: nat)
    requires Inv(s) && m in s.puts && m.version == Version(s) && j < |s.clients| && ClientOk(s, j)
    ensures ClientOk(Apply(s, Execute(m)), j)
  {
    assert PutOk(s, m);
    var c := m.client;
    if c != j {
      assert s.clients[c].id != s.clients[j].id by {
        if c < j { assert s.clients[c].id != s.clients[j].id; } else { assert s.clients[j].id != s.clients[c].id; }
      }
    }
  }

  lemma InvKept(s: Sys, step: Step)
    requires Inv(s) && Enabled(s, step)
    ensures Inv(Apply(s, step))
  {
    match step
    case Execute(m) => ExecuteOk(s, m);
    case Act(i) => ActOk(s, i);
    case Done(i) => DoneOk(s, i);
    case Acquire(i) =>
      assert ClientOk(s, i);
      GotoOk(s, i, Reading, {});
    case Get(i) =>
      assert ClientOk(s, i);
      GotoOk(s, i, Apply(s, step).clients[i].pc, {});
    case Retry(i) =>
      assert ClientOk(s, i);
      GotoOk(s, i, Apply(s, step).clients[i].pc, {});
    case Release(i) =>
      assert ClientOk(s, i);
      var v := s.clients[i].pc.version;
      assert PutOk(s, PutMsg(i, "", v));
      GotoOk(s, i, Freeing(v), {PutMsg(i, "", v)});
  }

  lemma {:induction false} RunOk(ids: seq<string>, run: seq<Sys>, k: nat)
    requires Distinct(ids) && IsRun(ids, run) && k < |run|
    ensures Inv(run[k])
  {
    hide Inv;
    if k == 0 {
      InitialOk(ids);
    } else {
      RunOk(ids, run, k - 1);
      assert Follows(run[k - 1], run[k - 1 + 1]);
      var step :| Enabled(run[k - 1], step) && run[k] == Apply(run[k - 1], step);
      InvKept(run[k - 1], step);
    }
  }

  lemma InitialOk(ids: seq<string>)
    requires Distinct(ids)
    ensures Inv(Initial(ids))
  {
  }

  // ---------- Theorems ----------

  ghost predicate Holds(s: Sys, i: nat) {
    i < |s.clients| && s.clients[i].pc.Held?
  }

  /** At most one client is between Acquire's return and the call of Release, and while it is
      there the server stores its id at exactly the version it remembers. */
  lemma MutualExclusion(ids: seq<string>, run: seq<Sys>, k: nat)
    requires Distinct(ids) && IsRun(ids, run) && k < |run|
    ensures |run[k].history| >= 1
    ensures forall i :: 0 <= i < |run[k].clients| && run[k].clients[i].pc.Held? ==>
              Value(run[k]) == run[k].clients[i].id && Version(run[k]) == run[k].clients[i].pc.version
    ensures forall i: nat, j: nat :: Holds(run[k], i) && Holds(run[k], j) ==> i == j
  {
    RunOk(ids, run, k);
    forall i | 0 <= i < |run[k].clients| && run[k].clients[i].pc.Held?
      ensures Value(run[k]) == run[k].clients[i].id && Version(run[k]) == run[k].clients[i].pc.version
    {
      assert ClientOk(run[k], i);
    }
    forall i: nat, j: nat | Holds(run[k], i) && Holds(run[k], j) ensures i == j {
      SameId(run[k], i, j);
    }
  }

  /** Release returns only when the key no longer holds the client's id, and no copy of a claim
      that is still on its way can put it back. */
  lemma ReleaseFrees(ids: seq<string>, run: seq<Sys>, k: nat, i: nat)
    requires Distinct(ids) && IsRun(ids, run) && k < |run| && i < |run[k].clients|
    requires run[k].clients[i].pc.Idle?
    ensures |run[k].history| >= 1 && Value(run[k]) != run[k].clients[i].id
    ensures forall m :: Enabled(run[k], Execute(m)) && m.client == i ==> Apply(run[k], Execute(m)) == run[k]
  {
    RunOk(ids, run, k);
    assert ClientOk(run[k], i);
    forall m | Enabled(run[k], Execute(m)) && m.client == i ensures Apply(run[k], Execute(m)) == run[k] {
      assert PutOk(run[k], m);
    }
  }
}
