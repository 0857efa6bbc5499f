/**
 A run, for every cluster of at least three servers, in which a Submit is answered with the result of
 another operation: whenever a server that restarts after r ids resumes below r. Server 0 puts X at
 index 2 under id r, restarts and puts Y at index 2 under id r. X is at server 2 as well, and wins.
 */
module SubmitExample {
  import opened KvStore
  import opened RaftTypes
  import opened RaftState
  import opened Cluster
  import opened ClusterInv
  import opened ClusterSafety
  import opened Desks
  import opened Submits
  import opened SubmitSafety
  import opened SubmitScript
  import Median

  const NOTHING := Get("")
  const WRITE_X := Put("k", "x", 0)
  const WRITE_Y := Put("k", "y", 0)

  /** The logs of servers 0, 1 and 2; the others' stay empty. */
  function Logs(n: nat, a: Log, v: Log, h: Log): seq<Log> {
    seq(n, i => if i == 0 then a else if i == 1 then v else if i == 2 then h else [SENTINEL])
  }

  lemma LogsChange(n: nat, a: Log, v: Log, h: Log, z: Log)
    requires n >= 3
    ensures Logs(n, a, v, h)[0 := z] == Logs(n, z, v, h)
    ensures Logs(n, a, v, h)[1 := z] == Logs(n, a, z, h)
    ensures Logs(n, a, v, h)[2 := z] == Logs(n, a, v, z)
  {
  }

  /** Where the run is: the term, the logs, who may lead, and server 0's ids and waiters. */
  ghost predicate Stage(n: nat, resume: nat -> nat, t: nat, a: Log, v: Log, h: Log, lead: nat, desk: Desk, f: Front) {
    n >= 3 && Occurs(n, resume, f) && Scene(n, t, Logs(n, a, v, h), f, lead) && f.desks[0] == desk && f.told == []
  }

  ghost predicate Leading(f: Front, i: nat, next: int) {
    i < |f.c.nodes| && f.c.nodes[i].raft.role == Leader
    && |f.c.nodes[i].raft.nextIndex| == |f.c.nodes[i].raft.matchIndex| == |f.c.nodes|
    && forall p :: 0 <= p < |f.c.nodes| && p != i ==> f.c.nodes[i].raft.nextIndex[p] == next && f.c.nodes[i].raft.matchIndex[p] == 0
  }

  lemma Wins(n: nat, resume: nat -> nat, t: nat, a: Log, v: Log, h: Log, lead: nat, desk: Desk, f: Front, i: nat, x: nat) returns (f': Front)
    requires Stage(n, resume, t, a, v, h, lead, desk, f) && i < 3 && x < 3 && i != x && i != lead
    requires var c := [a, v, h][i]; UpToDate(c, [a, v, h][3 - i - x]) && UpToDate(c, [SENTINEL])
    ensures Stage(n, resume, t + 1, a, v, h, i, desk, f') && Leading(f', i, |[a, v, h][i]|)
    ensures |f'.c.nodes| == n && f'.calls == f.calls
  {
    hide Occurs, Young, UpToDate;
    f' := Elected(n, resume, f, t, Logs(n, a, v, h), lead, i, x);
    YoungFacts(n, i, t + 1, Logs(n, a, v, h)[i], f'.c.nodes[i]);
  }

  /** Server 0 crashes and uses up ids until r is next. */
  lemma Restarts(n: nat, resume: nat -> nat, t: nat, a: Log, v: Log, h: Log, lead: nat, desk: Desk, f: Front, r: nat) returns (f': Front)
    requires Stage(n, resume, t, a, v, h, lead, desk, f) && lead == 0
    requires resume(desk.reqNum) < r
    ensures Stage(n, resume, t, a, v, h, n, Desk(r - 1, map[]), f')
  {
    hide Occurs;
    var g := Crashed(n, resume, f, t, Logs(n, a, v, h), 0);
    f' := UseUp(n, resume, g, 0, r - 1);
  }

  function Log1(r: nat): Log { [SENTINEL, Entry(1, Op(0, r, NOTHING))] }

  function Log2(r: nat): Log { Log1(r) + [Entry(2, Op(0, r, WRITE_X))] }

  /** X is at index 2 of server 0 only, and server 0 has restarted. */
  lemma PutX(n: nat, resume: nat -> nat, r: nat) returns (f: Front)
    requires n >= 3 && resume(r) < r
    ensures Stage(n, resume, 2, Log2(r), [SENTINEL], [SENTINEL], n, Desk(r - 1, map[]), f)
  {
    hide Occurs, Young, Leading;
    var e := [SENTINEL];
    var f0 := Begin(n, resume);
    OpeningScene(n, f0);
    assert seq(n, i => [SENTINEL]) == Logs(n, e, e, e);
    var f1 := UseUp(n, resume, f0, 0, r - 1);
    var f2 := Wins(n, resume, 0, e, e, e, n, Desk(r - 1, map[]), f1, 0, 1);
    var f3 := Takes0(n, resume, 1, e, e, e, Desk(r - 1, map[]), f2, NOTHING);
    assert e + [Entry(1, Op(0, r, NOTHING))] == Log1(r);
    var f4 := Restarts(n, resume, 1, Log1(r), e, e, 0, f3.desks[0], f3, r);
    var f5 := Wins(n, resume, 1, Log1(r), e, e, n, Desk(r - 1, map[]), f4, 0, 1);
    var f6 := Takes0(n, resume, 2, Log1(r), e, e, Desk(r - 1, map[]), f5, WRITE_X);
    f := Restarts(n, resume, 2, Log2(r), e, e, 0, f6.desks[0], f6, r);
  }

  lemma Takes0(n: nat, resume: nat -> nat, t: nat, a: Log, v: Log, h: Log, desk: Desk, f: Front, req: Request) returns (f': Front)
    requires Stage(n, resume, t, a, v, h, 0, desk, f) && Leading(f, 0, |a|)
    ensures var desk' := desk.Numbered().Registered(0, |f.calls|, |a|);
            Stage(n, resume, t, a + [Entry(t, Op(0, desk.reqNum + 1, req))], v, h, 0, desk', f')
    ensures f'.calls == f.calls + [Call(0, |a|, t, desk.reqNum + 1, req, 0)]
  {
    hide Occurs;
    var e;
    f', e := Taken(n, resume, f, t, Logs(n, a, v, h), 0, req);
    LogsChange(n, a, v, h, a + [e]);
  }

  /** Server i, not server 0, takes some operation. */
  lemma Takes(n: nat, resume: nat -> nat, t: nat, a: Log, v: Log, h: Log, desk: Desk, f: Front, i: nat) returns (f': Front, e: Entry)
    requires Stage(n, resume, t, a, v, h, i, desk, f) && (i == 1 || i == 2)
    requires f.c.nodes[i].raft.role == Leader
    ensures e.term == t && |f.calls| < |f'.calls| && f'.calls[..|f.calls|] == f.calls
    ensures Stage(n, resume, t, a, if i == 1 then v + [e] else v, if i == 2 then h + [e] else h, i, desk, f')
    ensures |f'.c.nodes| == n && f'.c.nodes[i].raft.role == Leader
    ensures f'.c.nodes[i].raft.nextIndex == f.c.nodes[i].raft.nextIndex && f'.c.nodes[i].raft.matchIndex == f.c.nodes[i].raft.matchIndex
  {
    hide Occurs, Young;
    f', e := Taken(n, resume, f, t, Logs(n, a, v, h), i, NOTHING);
    LogsChange(n, a, v, h, Logs(n, a, v, h)[i] + [e]);
  }

  /** Server p refuses, which takes the leader back. */
  lemma GoesBack(n: nat, resume: nat -> nat, t: nat, a: Log, v: Log, h: Log, desk: Desk, f: Front, i: nat, p: nat, next': int) returns (f': Front)
    requires Stage(n, resume, t, a, v, h, i, desk, f) && i < 3 && p < 3 && p != i && f.c.nodes[i].raft.role == Leader
    requires |f.c.nodes[i].raft.nextIndex| == n
    requires var logs := [a, v, h]; |logs[i]| <= MAX_BATCH && Refuses(logs[i], logs[p], f.c.nodes[i].raft.nextIndex[p], next')
    ensures Stage(n, resume, t, a, v, h, i, desk, f') && |f'.c.nodes| == n && f'.calls == f.calls
    ensures var r := f.c.nodes[i].raft; f'.c.nodes[i].raft == r.(nextIndex := r.nextIndex[p := next'])
  {
    hide Occurs, Young, Refuses;
    f' := Refused(n, resume, f, t, Logs(n, a, v, h), i, p, next');
  }

  /** Server p takes over the leader's log. */
  lemma Copies(n: nat, resume: nat -> nat, t: nat, a: Log, v: Log, h: Log, desk: Desk, f: Front, i: nat, p: nat) returns (f': Front)
    requires Stage(n, resume, t, a, v, h, i, desk, f) && i < 3 && p < 3 && p != i && f.c.nodes[i].raft.role == Leader
    requires |f.c.nodes[i].raft.nextIndex| == n
    requires var logs := [a, v, h];
             && 2 <= |logs[i]| <= MAX_BATCH && f.c.nodes[i].raft.nextIndex[p] == 1
             && |logs[p]| >= 1 && logs[p][0] == logs[i][0] && (|logs[p]| >= 2 ==> logs[p][1].term != logs[i][1].term)
    ensures var logs := [a, v, h][p := [a, v, h][i]];
            Stage(n, resume, t, logs[0], logs[1], logs[2], i, desk, f') && f'.c.nodes[i] == f.c.nodes[i] && f'.calls == f.calls
    ensures AnswerSent(f', t, i, [a, v, h][i], p)
  {
    hide Occurs, Young;
    var reply;
    f', reply := Copied(n, resume, f, t, Logs(n, a, v, h), i, p);
    LogsChange(n, a, v, h, [a, v, h][i]);
    assert AnswerFrom(f', t, i, [a, v, h][i], p, reply);
  }

  /** The answer of p, that it has this log, is on its way. */
  ghost predicate AnswerSent(f: Front, t: nat, i: nat, log: Log, p: nat) {
    exists reply :: AnswerFrom(f, t, i, log, p, reply)
  }

  ghost predicate AnswerFrom(f: Front, t: nat, i: nat, log: Log, p: nat, reply: AppendReply) {
    |log| >= 1 && reply.success && reply.term == t && AppendResp(p, AppendArgs(t, i, 0, log[0].term, log[1..], 0), reply) in f.c.net
  }

  /** Server 1, which does not know of X, leads and puts another entry at index 1; server 0 leads again
      and gives X to server 2, which leads then and makes the newest entry. */
  lemma SpreadX(n: nat, resume: nat -> nat, r: nat) returns (f: Front, z: Entry, w: Entry)
    requires n >= 3 && resume(r) < r
    ensures z.term == 3 && w.term == 5
    ensures Stage(n, resume, 5, Log2(r), [SENTINEL, z], Log2(r) + [w], 2, Desk(r - 1, map[]), f)
  {
    hide Occurs, Scene;
    var desk := Desk(r - 1, map[]);
    var e := [SENTINEL];
    var f0 := PutX(n, resume, r);
    var f1 := Wins(n, resume, 2, Log2(r), e, e, n, desk, f0, 1, 0);
    var f2;
    f2, z := Takes(n, resume, 3, Log2(r), e, e, desk, f1, 1);
    var v := [SENTINEL, z];
    assert e + [z] == v;
    var f3 := Wins(n, resume, 3, Log2(r), v, e, 1, desk, f2, 0, 1);
    var f4 := GoesBack(n, resume, 4, Log2(r), v, e, desk, f3, 0, 2, 1);
    var f5 := Copies(n, resume, 4, Log2(r), v, e, desk, f4, 0, 2);
    var f6 := Wins(n, resume, 4, Log2(r), v, Log2(r), 0, desk, f5, 2, 1);
    f, w := Takes(n, resume, 5, Log2(r), v, Log2(r), desk, f6, 2);
  }

  /** Server 1 leads again and overwrites X at server 0, which puts Y at its index, under its id. */
  lemma PutY(n: nat, resume: nat -> nat, r: nat) returns (f: Front, z: Entry, w: Entry, y: Entry, ch: nat)
    requires n >= 3 && resume(r) < r
    ensures z.term == 3 && w.term == 5 && y.term == 7
    ensures Stage(n, resume, 7, [SENTINEL, z, y], [SENTINEL, z], Log2(r) + [w], 0, Desk(r, map[2 := Waiter(ch, 0, r)]), f)
    ensures ch < |f.calls| && f.calls[ch].req == WRITE_Y && f.calls[ch].server == 0 && f.calls[ch].index == 2
  {
    hide Occurs, Scene;
    var desk := Desk(r - 1, map[]);
    var f0;
    f0, z, w := SpreadX(n, resume, r);
    var v, h := [SENTINEL, z], Log2(r) + [w];
    var f1 := Wins(n, resume, 5, Log2(r), v, h, 2, desk, f0, 1, 2);
    var f2 := GoesBack(n, resume, 6, Log2(r), v, h, desk, f1, 1, 0, 1);
    var f3 := Copies(n, resume, 6, Log2(r), v, h, desk, f2, 1, 0);
    var f4 := Wins(n, resume, 6, v, v, h, 1, desk, f3, 0, 2);
    ch := |f4.calls|;
    f := Takes0(n, resume, 7, v, v, h, desk, f4, WRITE_Y);
    y := Entry(7, Op(0, r, WRITE_Y));
    assert v + [y] == [SENTINEL, z, y];
    assert map[][2 := Waiter(ch, 0, r)] == map[2 := Waiter(ch, 0, r)];
  }

  // ---------- X is committed ----------

  /** Server 2 has told the servers below k, but for server 1, and knows where the others are. */
  ghost predicate Telling(n: nat, resume: nat -> nat, v: Log, log: Log, k: nat, desk: Desk, f: Front) {
    && n >= 3 && 3 <= k <= n && Occurs(n, resume, f) && Scene(n, 8, seq(n, i => if i == 1 then v else if i < k then log else [SENTINEL]), f, 2)
    && f.desks[0] == desk && f.told == []
    && f.c.nodes[2].raft.role == Leader
    && (forall p :: 0 <= p < n && p != 2 ==> f.c.nodes[2].raft.matchIndex[p] == 0)
    && (forall p :: k <= p < n ==> f.c.nodes[2].raft.nextIndex[p] == 4)
    && (forall p :: 0 <= p < k && p != 1 && p != 2 ==> AnswerSent(f, 8, 2, log, p))
  }

  lemma {:induction false} TellsAll(n: nat, resume: nat -> nat, v: Log, log: Log, k: nat, desk: Desk, f: Front) returns (f': Front)
    requires Telling(n, resume, v, log, k, desk, f) && |log| == 5 && log[0] == SENTINEL
    ensures Telling(n, resume, v, log, n, desk, f') && f'.calls == f.calls
    decreases n - k
  {
    hide Occurs, Telling, AnswerSent;
    f' := f;
    if k < n {
      var g := Tells(n, resume, v, log, k, desk, f);
      f' := TellsAll(n, resume, v, log, k + 1, desk, g);
    } else {
      assert k == n by { TellingBound(n, resume, v, log, k, desk, f); }
    }
  }

  lemma TellingBound(n: nat, resume: nat -> nat, v: Log, log: Log, k: nat, desk: Desk, f: Front)
    requires Telling(n, resume, v, log, k, desk, f)
    ensures k <= n
  {
  }

  lemma Tells(n: nat, resume: nat -> nat, v: Log, log: Log, k: nat, desk: Desk, f: Front) returns (f': Front)
    requires Telling(n, resume, v, log, k, desk, f) && k < n && |log| == 5 && log[0] == SENTINEL
    ensures Telling(n, resume, v, log, k + 1, desk, f') && f'.calls == f.calls
  {
    hide Occurs, Young;
    var logs := seq(n, i => if i == 1 then v else if i < k then log else [SENTINEL]);
    YoungFacts(n, 2, 8, log, f.c.nodes[2]);
    var g := Refused(n, resume, f, 8, logs, 2, k, 1);
    var reply;
    f', reply := Copied(n, resume, g, 8, logs, 2, k);
    assert logs[k := log] == seq(n, i => if i == 1 then v else if i < k + 1 then log else [SENTINEL]);
    assert AnswerFrom(f', 8, 2, log, k, reply);
    forall p | 0 <= p < k && p != 1 && p != 2 ensures AnswerSent(f', 8, 2, log, p) {
      assert AnswerSent(f, 8, 2, log, p);
      var before :| AnswerFrom(f, 8, 2, log, p, before);
      assert AnswerFrom(f', 8, 2, log, p, before);
    }
  }

  /** Server 2 has heard of the servers below k, but for server 1. */
  ghost predicate Counted(r: Raft, n: nat, log: Log, k: nat) {
    && r.role == Leader && r.currentTerm == 8 && r.me == 2 && r.log == log && r.lastIncludeIndex == 0 && r.InRange()
    && n == |r.nextIndex| == |r.matchIndex| && n >= 3
    && (forall p :: 0 <= p < n && p != 2 ==> r.matchIndex[p] == if p < k && p != 1 then 4 else 0)
    && (k >= 1 ==> r.nextIndex[0] == 5)
    && (r.commitIndex == 0 || r.commitIndex == 4)
    && (MajorityIndex(r.matchIndex[2 := 4]) == 4 ==> r.commitIndex == 4 || k == 0)
  }

  lemma CountsOne(r: Raft, n: nat, log: Log, k: nat, reply: AppendReply)
    requires Counted(r, n, log, k) && k < n && |log| == 5 && log[4].term == 8 && reply.success && reply.term == 8
    ensures k == 1 || k == 2 ==> Counted(r, n, log, k + 1)
    ensures k != 1 && k != 2 ==> Counted(OnAppendReply(r, k, AppendArgs(8, 2, 0, log[0].term, log[1..], 0), reply), n, log, k + 1)
  {
    hide MajorityIndex;
    if k != 1 && k != 2 {
      var r' := OnAppendReply(r, k, AppendArgs(8, 2, 0, log[0].term, log[1..], 0), reply);
      var m := r.matchIndex[k := 4][2 := 4];
      var top := MajorityIndex(m);
      assert top in m;
      assert top == 0 || top == 4;
      assert r'.matchIndex == r.matchIndex[k := 4];
    }
  }

  /** All but one match 4. */
  lemma AllButOne(n: nat, m: seq<int>)
    requires n >= 3 && |m| == n && m[1] == 0 && forall p :: 0 <= p < n && p != 1 ==> m[p] == 4
    ensures MajorityIndex(m) == 4
  {
    var t := SortInts(m);
    Median.SortAscending(m);
    Median.SortAtLeast(m, 4);
    assert m[2..] == seq(n - 2, i => 4);
    Fours(m[2..]);
    assert Median.AtLeast(m, 4) == n - 1 by {
      assert m[1..][1..] == m[2..] && m[1..][0] == 0;
    }
    if t[n / 2] != 4 {
      assert t[n / 2] in m by { SortMembers(m, t[n / 2]); }
      Median.LowerHalf(t, n / 2 + 1, 4) by {
        forall i | 0 <= i < n / 2 + 1 ensures t[i] < 4 {
          assert t[i] <= t[n / 2];
        }
      }
    }
  }

  lemma {:induction false} Fours(m: seq<int>)
    requires forall p :: 0 <= p < |m| ==> m[p] == 4
    ensures Median.AtLeast(m, 4) == |m|
  {
    if m != [] {
      Fours(m[1..]);
    }
  }

  /** The confirmations arrive, one after the other; nothing else changes. */
  lemma {:induction false} HearsAll(n: nat, resume: nat -> nat, log: Log, k: nat, f: Front) returns (f': Front)
    requires Occurs(n, resume, f) && |f.c.nodes| == |f.desks| == n && n >= 3 && k <= n && Counted(f.c.nodes[2].raft, n, log, k)
    requires |log| == 5 && log[4].term == 8
    requires forall p :: 0 <= p < n && p != 1 && p != 2 ==> AnswerSent(f, 8, 2, log, p)
    ensures Occurs(n, resume, f') && f' == f.(c := f'.c) && |f'.c.nodes| == n && Counted(f'.c.nodes[2].raft, n, log, n)
    ensures f'.c.nodes == f.c.nodes[2 := f.c.nodes[2].(raft := f'.c.nodes[2].raft)]
    decreases n - k
  {
    hide Occurs, Counted, OnAppendReply;
    if k == n {
      f' := f;
      assert f.c.nodes == f.c.nodes[2 := f.c.nodes[2].(raft := f'.c.nodes[2].raft)];
    } else if k == 1 || k == 2 {
      CountsOne(f.c.nodes[2].raft, n, log, k, AppendReply(8, true, -1, -1, 0));
      f' := HearsAll(n, resume, log, k + 1, f);
    } else {
      assert AnswerSent(f, 8, 2, log, k);
      var reply :| AnswerFrom(f, 8, 2, log, k, reply);
      CountedFacts(f.c.nodes[2].raft, n, log, k);
      var g := Returns(n, resume, f, 2, k, AppendArgs(8, 2, 0, log[0].term, log[1..], 0), reply);
      CountsOne(f.c.nodes[2].raft, n, log, k, reply);
      forall p | 0 <= p < n && p != 1 && p != 2 ensures AnswerSent(g, 8, 2, log, p) {
        assert AnswerSent(f, 8, 2, log, p);
        var before :| AnswerFrom(f, 8, 2, log, p, before);
        assert AnswerFrom(g, 8, 2, log, p, before);
      }
      f' := HearsAll(n, resume, log, k + 1, g);
    }
  }

  lemma CountedFacts(r: Raft, n: nat, log: Log, k: nat)
    requires Counted(r, n, log, k)
    ensures r.InRange() && |r.nextIndex| == |r.matchIndex| == n && r.log == log && r.LastIndex() == |log| - 1
  {
  }

  lemma AllCommitted(r: Raft, n: nat, log: Log)
    requires Counted(r, n, log, n) && |log| == 5
    ensures r.commitIndex == 4 && r.nextIndex[0] == 5 && r.InRange() && r.role == Leader && |r.nextIndex| == n && r.lastIncludeIndex == 0
    ensures Batch(r, 0) == AppendArgs(8, 2, 4, log[4].term, [], 4)
  {
    AllButOne(n, r.matchIndex[2 := 4]);
  }

  /** Server 0 has the log, and hears that all of it is committed. */
  lemma Hears(n: nat, node: Node, log: Log)
    requires Young(n, 0, 8, log, node) && |log| == 5 && log[4].term == 8 && node.raft.role == Follower
    ensures var r' := OnAppendEntries(node.raft, AppendArgs(8, 2, 4, 8, [], 4)).0; r' == node.raft.(commitIndex := 4)
  {
  }

  /** X and what is around it is committed everywhere but at server 1. */
  lemma CommitX(n: nat, resume: nat -> nat, r: nat) returns (f: Front, log: Log, ch: nat)
    requires n >= 3 && resume(r) < r
    ensures Occurs(n, resume, f) && |f.c.nodes| == |f.desks| == n && f.told == [] && f.desks[0] == Desk(r, map[2 := Waiter(ch, 0, r)])
    ensures ch < |f.calls| && f.calls[ch].req == WRITE_Y && f.calls[ch].server == 0 && f.calls[ch].index == 2
    ensures |log| == 5 && log[..3] == Log2(r)
    ensures exists node :: Young(n, 0, 8, log, node) && f.c.nodes[0] == node.(raft := node.raft.(commitIndex := 4))
  {
    hide Occurs, OnAppendEntries, Batch, Counted;
    var f0, z, w, y;
    f0, z, w, y, ch := PutY(n, resume, r);
    var desk := Desk(r, map[2 := Waiter(ch, 0, r)]);
    var f1;
    f1, log := TellFirst(n, resume, r, z, w, y, desk, f0);
    var f2 := TellsAll(n, resume, [SENTINEL, z], log, 3, desk, f1);
    StartsCounting(n, resume, [SENTINEL, z], log, desk, f2);
    var f3 := HearsAll(n, resume, log, 0, f2);
    AllCommitted(f3.c.nodes[2].raft, n, log);
    Hears(n, f3.c.nodes[0], log);
    f := Arrives(n, resume, f3, 2, 0);
  }

  /** Server 2 leads, makes one more entry, and finds out where server 0 differs. */
  lemma TellFirst(n: nat, resume: nat -> nat, r: nat, z: Entry, w: Entry, y: Entry, desk: Desk, f: Front) returns (f': Front, log: Log)
    requires z.term == 3 && w.term == 5 && y.term == 7
    requires Stage(n, resume, 7, [SENTINEL, z, y], [SENTINEL, z], Log2(r) + [w], 0, desk, f)
    ensures |log| == 5 && log[..3] == Log2(r) && log[4].term == 8 && log[0] == SENTINEL
    ensures Telling(n, resume, [SENTINEL, z], log, 3, desk, f')
    ensures |f.calls| <= |f'.calls| && f'.calls[..|f.calls|] == f.calls
  {
    hide Occurs, Young;
    var (a, v, h) := ([SENTINEL, z, y], [SENTINEL, z], Log2(r) + [w]);
    var f1 := Wins(n, resume, 7, a, v, h, 0, desk, f, 2, 0);
    var f2, u := Takes(n, resume, 8, a, v, h, desk, f1, 2);
    log := h + [u];
    var f3 := GoesBack(n, resume, 8, a, v, log, desk, f2, 2, 0, 3);
    var f4 := GoesBack(n, resume, 8, a, v, log, desk, f3, 2, 0, 2);
    var f5 := GoesBack(n, resume, 8, a, v, log, desk, f4, 2, 0, 1);
    f' := Copies(n, resume, 8, a, v, log, desk, f5, 2, 0);
    assert Logs(n, log, v, log) == seq(n, i => if i == 1 then v else if i < 3 then log else [SENTINEL]);
  }

  lemma StartsCounting(n: nat, resume: nat -> nat, v: Log, log: Log, desk: Desk, f: Front)
    requires Telling(n, resume, v, log, n, desk, f) && |log| == 5
    ensures Counted(f.c.nodes[2].raft, n, log, 0) && |f.c.nodes| == |f.desks| == n && Occurs(n, resume, f)
    ensures forall p :: 0 <= p < n && p != 1 && p != 2 ==> AnswerSent(f, 8, 2, log, p)
    ensures Young(n, 0, 8, log, f.c.nodes[0]) && f.c.nodes[0].raft.role == Follower && f.told == [] && f.desks[0] == desk
  {
    hide Occurs, AnswerSent;
  }

  // ---------- The wrong answer ----------

  lemma Batch4(n: nat, r: nat, log: Log, young: Node, node: Node)
    requires Young(n, 0, 8, log, young) && node == young.(raft := young.raft.(commitIndex := 4)) && |log| == 5 && log[..3] == Log2(r)
    ensures var v := node.raft;
            && v.InRange() && HasWork(v) && node.outbox == [] && node.svc == Service(map[], 0, None, 0)
            && |TakeBatch(v).1| == 4
            && TakeBatch(v).1[0] == CommandMsg(1, Op(0, r, NOTHING)) && TakeBatch(v).1[1] == CommandMsg(2, Op(0, r, WRITE_X))
  {
    assert log[1] == log[..3][1] && log[2] == log[..3][2];
  }

  /** Server 0 has executed the first entry and is about to execute X. */
  lemma BeforeX(n: nat, resume: nat -> nat, r: nat) returns (f: Front, ch: nat)
    requires n >= 3 && resume(r) < r
    ensures Occurs(n, resume, f) && |f.c.nodes| == |f.desks| == n && f.told == [] && f.desks[0] == Desk(r, map[2 := Waiter(ch, 0, r)])
    ensures ch < |f.calls| && f.calls[ch].req == WRITE_Y && f.calls[ch].server == 0 && f.calls[ch].index == 2
    ensures f.c.nodes[0].outbox != [] && f.c.nodes[0].outbox[0] == CommandMsg(2, Op(0, r, WRITE_X))
    ensures f.c.nodes[0].svc.sm == map[] && f.c.nodes[0].svc.saving.None?
  {
    hide Occurs, Young, TakeBatch, HasWork;
    var f0, log;
    f0, log, ch := CommitX(n, resume, r);
    var young :| Young(n, 0, 8, log, young) && f0.c.nodes[0] == young.(raft := young.raft.(commitIndex := 4));
    Batch4(n, r, log, young, f0.c.nodes[0]);
    var f1 := GoOn(n, resume, f0, Inner(Work(0)));
    f := GoOn(n, resume, f1, Serve(0, false));
  }

  /** Whatever the size of the cluster, from three servers on: if some restart resumes below the ids that
      were used, there is a run at whose end the Submit of Y has been answered OK, with the result of X,
      and the operation that has been executed at its index is X. */
  lemma WrongAnswer(n: nat, resume: nat -> nat, r: nat) returns (f: Front, a: Answer)
    requires n >= 3 && resume(r) < r
    ensures Occurs(n, resume, f) && f.told == [a] && a.call < |f.calls| && f.calls[a.call].req == WRITE_Y
    ensures a.cmd == Op(0, r, WRITE_X) && a.rep == PutReply(OK)
    ensures Applied(0, f.calls[a.call].index, a.cmd) in f.c.applied
  {
    hide Occurs;
    var f0, ch := BeforeX(n, resume, r);
    f := GoOn(n, resume, f0, Serve(0, false));
    a := Answer(ch, Op(0, r, WRITE_X), PutReply(OK));
  }
}
