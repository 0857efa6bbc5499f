/**
 The protocol-level history of a Raft cluster: which full (uncompacted) log every leader
 had, who voted for whom, and up to where each server confirmed each leader's log.
 The six steps below are the only ways in which that history changes; `Inv` is kept by all
 of them and implies leader completeness (section 5.4 of the extended Raft paper).
 Compaction does not appear here: `Cluster` shows that the compacting servers refine this.

 (The big invariants end in `== true`: the verifier then proves each of them as one fact
 instead of splitting it into its conjuncts wherever it is used.)
 */
module LogHistory {
  import opened RaftTypes
  import opened Quorum

  datatype Key = At(srv: nat, term: nat)

  datatype Srv = Srv(term: nat, log: Log)

  /** The leader of one term: its log (so far) and the voters that elected it. */
  datatype Reign = Reign(leader: nat, log: Log, voters: set<nat>)

  datatype History = History(
    n: nat,
    srv: seq<Srv>,
    led: map<nat, Reign>,
    cand: map<Key, Log>,     // a candidate's log when it asked for votes
    vote: map<Key, nat>,     // the candidate a server voted for in a term
    ack: map<Key, nat>)      // last index a server confirmed to a term's leader

  /** The first k entries of two logs are the same. */
  ghost predicate Agree(x: Log, y: Log, k: nat) {
    && k <= |x| && k <= |y|
    && forall i :: 0 <= i < k ==> x[i] == y[i]
  }

  ghost function AckOf(h: History, s: nat, t: nat): nat {
    if At(s, t) in h.ack then h.ack[At(s, t)] else 0
  }

  // ---------- Invariants ----------

  ghost predicate Shape(h: History) {
    |h.srv| == h.n && CandShape(h) && VoteShape(h) && AckShape(h) && LedShape(h)
  }

  ghost predicate CandShape(h: History) {
    forall k :: k in h.cand ==> k.srv < |h.srv| && 1 <= k.term <= h.srv[k.srv].term
  }

  ghost predicate VoteShape(h: History) {
    forall k :: k in h.vote ==>
      k.srv < |h.srv| && 1 <= k.term <= h.srv[k.srv].term && At(h.vote[k], k.term) in h.cand
  }

  ghost predicate AckShape(h: History) {
    forall k :: k in h.ack ==>
      && k.srv < |h.srv| && k.term <= h.srv[k.srv].term
      && k.term in h.led && h.ack[k] < |h.led[k.term].log|
  }

  ghost predicate LedShape(h: History) {
    forall t {:trigger ReignShape(h, t)} :: t in h.led ==> ReignShape(h, t)
  }

  ghost predicate ReignShape(h: History, t: nat)
    requires t in h.led
  {
    var r := h.led[t];
    (&& 1 <= t && r.leader < |h.srv| && t <= h.srv[r.leader].term && |r.log| >= 1
     && Majority(h.n, r.voters)
     && (forall v :: v in r.voters ==> At(v, t) in h.vote && h.vote[At(v, t)] == r.leader)
     && At(r.leader, t) in h.ack && h.ack[At(r.leader, t)] == |r.log| - 1
     && (h.srv[r.leader].term == t ==> h.srv[r.leader].log == r.log)) == true
  }

  /** Every entry was created by the leader of its term, and so was everything below it. */
  ghost predicate Rooted(h: History, x: Log, hi: int) {
    && |x| >= 1 && x[0] == SENTINEL
    && forall i {:trigger RootedAt(h, x, i, hi)} :: 1 <= i < |x| ==> RootedAt(h, x, i, hi)
  }

  ghost predicate RootedAt(h: History, x: Log, i: nat, hi: int)
    requires 1 <= i < |x|
  {
    && 1 <= x[i].term <= hi && x[i].term in h.led
    && Agree(x, h.led[x[i].term].log, i + 1)
  }

  ghost predicate AllRooted(h: History) {
    SrvRooted(h) && CandRooted(h) && LedRooted(h)
  }

  ghost predicate SrvRooted(h: History) {
    forall s :: 0 <= s < |h.srv| ==> Rooted(h, h.srv[s].log, h.srv[s].term)
  }

  ghost predicate CandRooted(h: History) {
    forall k :: k in h.cand ==> Rooted(h, h.cand[k], k.term - 1)
  }

  ghost predicate LedRooted(h: History) {
    forall t :: t in h.led ==> Rooted(h, h.led[t].log, t)
  }

  /** Some leader of a term strictly between t and hi does not have t's first n+1 entries. */
  ghost predicate Lost(h: History, t: nat, n: nat, hi: nat)
    requires t in h.led
  {
    exists u :: t < u < hi && u in h.led && !Agree(h.led[t].log, h.led[u].log, n + 1)
  }

  /** An entry of its own term that the server confirmed to the leader of that term. */
  ghost predicate Acked(h: History, s: nat, t: nat, n: nat) {
    && t in h.led && n <= AckOf(h, s, t) && n < |h.led[t].log|
    && h.led[t].log[n].term == t
  }

  ghost predicate Held(h: History, t: nat, n: nat, x: Log, hi: nat)
    requires t in h.led
  {
    Agree(h.led[t].log, x, n + 1) || Lost(h, t, n, hi)
  }

  /** What a server confirmed is in its log, unless a later leader already lacks it. */
  ghost predicate LogsHold(h: History) {
    forall s: nat, t: nat, n: nat :: 0 <= s < |h.srv| && Acked(h, s, t, n) ==>
      Held(h, t, n, h.srv[s].log, h.srv[s].term + 1)
  }

  /** The same for the log of any candidate the server voted for later. */
  ghost predicate VotesHold(h: History) {
    forall k :: k in h.vote && At(h.vote[k], k.term) in h.cand ==> VoteHolds(h, k)
  }

  ghost predicate VoteHolds(h: History, k: Key)
    requires k in h.vote && At(h.vote[k], k.term) in h.cand
  {
    forall t: nat, n: nat :: t < k.term && Acked(h, k.srv, t, n) ==>
      Held(h, t, n, h.cand[At(h.vote[k], k.term)], k.term + 1)
  }

  /** The same for the log of any leader elected with the server's vote. */
  ghost predicate ElectionsHold(h: History) {
    forall u: nat, v: nat, t: nat, n: nat :: u in h.led && v in h.led[u].voters && t < u && Acked(h, v, t, n) ==>
      Held(h, t, n, h.led[u].log, u)
  }

  ghost predicate Inv(h: History) {
    (Shape(h) && AllRooted(h) && LogsHold(h) && VotesHold(h) && ElectionsHold(h)) == true
  }

  // ---------- Consequences ----------

  /** Terms never decrease along a rooted log. */
  lemma TermsGrow(h: History, x: Log, hi: int, i: nat, j: nat)
    requires AllRooted(h) && Rooted(h, x, hi) && i <= j < |x|
    ensures x[i].term <= x[j].term
  {
    if 1 <= i {
      assert RootedAt(h, x, j, hi);
      var y := h.led[x[j].term].log;
      assert RootedAt(h, y, i, x[j].term);
    }
  }

  /** Log Matching: equal terms at an index mean equal logs up to that index. */
  lemma LogMatching(h: History, x: Log, y: Log, hx: int, hy: int, i: nat)
    requires Rooted(h, x, hx) && Rooted(h, y, hy)
    requires i < |x| && i < |y| && x[i].term == y[i].term
    ensures Agree(x, y, i + 1)
  {
    if 1 <= i {
      assert RootedAt(h, x, i, hx) && RootedAt(h, y, i, hy);
    }
  }

  /** Term t's leader found entry n, of its own term, on at least half of the servers. */
  ghost predicate Committed(h: History, t: nat, n: nat) {
    && t in h.led && n < |h.led[t].log| && h.led[t].log[n].term == t
    && exists q :: Confirmed(h, q, t, n)
  }

  ghost predicate Confirmed(h: History, q: set<nat>, t: nat, n: nat) {
    && 2 * |q| >= h.n
    && forall s :: s in q ==> s < h.n && n <= AckOf(h, s, t)
  }

  /** Leader Completeness: every later leader has all entries up to a committed one. */
  lemma {:induction false} LeaderCompleteness(h: History, t: nat, n: nat, u: nat)
    requires Inv(h) && Committed(h, t, n) && u in h.led && t <= u
    ensures Agree(h.led[t].log, h.led[u].log, n + 1)
  {
    if t < u {
      var q :| Confirmed(h, q, t, n);
      assert ReignShape(h, u);
      var v := HalfMeetsMajority(h.n, q, h.led[u].voters);
      assert Acked(h, v, t, n);
      if Lost(h, t, n, u) {
        var w :| t < w < u && w in h.led && !Agree(h.led[t].log, h.led[w].log, n + 1);
        LeaderCompleteness(h, t, n, w);
      }
    }
  }

  /** The first k entries of x are fixed for ever by a commitment of a term up to hi. */
  ghost predicate Sealed(h: History, x: Log, k: nat, hi: nat) {
    (|| (k <= 1 && k <= |x|)
     || exists t: nat, n: nat :: t <= hi && k <= n + 1 && Committed(h, t, n) && Agree(x, h.led[t].log, k)) == true
  }

  /** A sealed prefix is in the log of every leader of its term or later. */
  lemma SealedInLeader(h: History, x: Log, k: nat, hi: nat, u: nat)
    requires Inv(h) && Sealed(h, x, k, hi) && |x| >= 1 && x[0] == SENTINEL && u in h.led && hi <= u
    ensures Agree(x, h.led[u].log, k)
  {
    assert Rooted(h, h.led[u].log, u);
    if k > 1 {
      var t: nat, n: nat :| t <= hi && k <= n + 1 && Committed(h, t, n) && Agree(x, h.led[t].log, k);
      LeaderCompleteness(h, t, n, u);
    }
  }

  /** Two sealed prefixes never differ: this is State Machine Safety. */
  lemma SealedAgree(h: History, x: Log, k: nat, hx: nat, y: Log, m: nat, hy: nat)
    requires Inv(h) && Sealed(h, x, k, hx) && Sealed(h, y, m, hy)
    requires |x| >= 1 && |y| >= 1 && x[0] == y[0] == SENTINEL
    ensures forall i :: 0 <= i < k && i < m ==> x[i] == y[i]
  {
    if k > 1 && m > 1 {
      var t: nat, n: nat :| t <= hx && k <= n + 1 && Committed(h, t, n) && Agree(x, h.led[t].log, k);
      var t': nat, n': nat :| t' <= hy && m <= n' + 1 && Committed(h, t', n') && Agree(y, h.led[t'].log, m);
      var u := if t <= t' then t' else t;
      SealedInLeader(h, x, k, t, u);
      SealedInLeader(h, y, m, t', u);
    }
  }

  // ---------- History only grows ----------

  /** What the past keeps: leaders, votes and candidacies stay, leader logs only get entries of
      their own term appended, confirmations only rise. */
  ghost predicate Grows(h: History, h': History) {
    (&& h'.n == h.n && |h'.srv| == |h.srv| && LedGrows(h, h')
     && (forall s :: 0 <= s < |h.srv| ==> h.srv[s].term <= h'.srv[s].term)
     && (forall k :: k in h.cand ==> k in h'.cand && h'.cand[k] == h.cand[k])
     && (forall k :: k in h.vote ==> k in h'.vote && h'.vote[k] == h.vote[k])
     && (forall k :: k in h.ack ==> k in h'.ack && h.ack[k] <= h'.ack[k])) == true
  }

  ghost predicate LedGrows(h: History, h': History) {
    forall t {:trigger t in h'.led} {:trigger ReignGrows(h.led[t], h'.led[t], t)} :: t in h.led ==> t in h'.led && ReignGrows(h.led[t], h'.led[t], t)
  }

  ghost predicate ReignGrows(r: Reign, r': Reign, t: nat) {
    && r'.leader == r.leader && r'.voters == r.voters
    && Agree(r.log, r'.log, |r.log|)
    && forall i :: |r.log| <= i < |r'.log| ==> r'.log[i].term == t
  }

  lemma RootedGrows(h: History, h': History, x: Log, hi: int, hi': int)
    requires Rooted(h, x, hi) && Grows(h, h') && hi <= hi'
    ensures Rooted(h', x, hi')
  {
    forall i | 1 <= i < |x| ensures RootedAt(h', x, i, hi') {
      assert RootedAt(h, x, i, hi);
      assert ReignGrows(h.led[x[i].term], h'.led[x[i].term], x[i].term);
    }
  }

  lemma LostGrows(h: History, h': History, t: nat, n: nat, hi: nat, hi': nat)
    requires AllRooted(h) && Grows(h, h') && t in h.led && n < |h.led[t].log| && hi <= hi'
    requires Lost(h, t, n, hi)
    ensures Lost(h', t, n, hi')
  {
    var u: nat :| t < u < hi && u in h.led && !Agree(h.led[t].log, h.led[u].log, n + 1);
    var x, y := h.led[t].log, h.led[u].log;
    assert ReignGrows(h.led[t], h'.led[t], t) && ReignGrows(h.led[u], h'.led[u], u);
    if |y| <= n {
      assert RootedAt(h, x, |y|, t);
    }
    assert !Agree(h'.led[t].log, h'.led[u].log, n + 1);
  }

  lemma HeldGrows(h: History, h': History, t: nat, n: nat, x: Log, hi: nat, hi': nat)
    requires AllRooted(h) && Grows(h, h') && t in h.led && n < |h.led[t].log| && hi <= hi'
    requires Held(h, t, n, x, hi)
    ensures Held(h', t, n, x, hi')
  {
    assert ReignGrows(h.led[t], h'.led[t], t);
    if Lost(h, t, n, hi) {
      LostGrows(h, h', t, n, hi, hi');
    }
  }

  lemma CommittedGrows(h: History, h': History, t: nat, n: nat)
    requires Grows(h, h') && Committed(h, t, n)
    ensures Committed(h', t, n)
  {
    assert ReignGrows(h.led[t], h'.led[t], t);
    var q :| Confirmed(h, q, t, n);
    assert Confirmed(h', q, t, n);
  }

  lemma SealedGrows(h: History, h': History, x: Log, k: nat, hi: nat, x': Log, hi': nat)
    requires Grows(h, h') && Sealed(h, x, k, hi) && Agree(x, x', k) && hi <= hi'
    ensures Sealed(h', x', k, hi')
  {
    if k > 1 {
      var t: nat, n: nat :| t <= hi && k <= n + 1 && Committed(h, t, n) && Agree(x, h.led[t].log, k);
      CommittedGrows(h, h', t, n);
      assert ReignGrows(h.led[t], h'.led[t], t);
      assert Agree(x', h'.led[t].log, k);
    }
  }

  // All logs that were there before stay rooted.

  lemma SrvRootedGrows(h: History, h': History)
    requires SrvRooted(h) && Grows(h, h')
    ensures forall s :: 0 <= s < |h.srv| ==> Rooted(h', h.srv[s].log, h'.srv[s].term)
  {
    forall s | 0 <= s < |h.srv| ensures Rooted(h', h.srv[s].log, h'.srv[s].term) {
      RootedGrows(h, h', h.srv[s].log, h.srv[s].term, h'.srv[s].term);
    }
  }

  lemma CandRootedGrows(h: History, h': History)
    requires CandRooted(h) && Grows(h, h')
    requires forall k :: k in h'.cand && k !in h.cand ==> Rooted(h, h'.cand[k], k.term - 1)
    ensures CandRooted(h')
  {
    forall k | k in h'.cand ensures Rooted(h', h'.cand[k], k.term - 1) {
      RootedGrows(h, h', h'.cand[k], k.term - 1, k.term - 1);
    }
  }

  lemma LedRootedGrows(h: History, h': History)
    requires LedRooted(h) && Grows(h, h')
    ensures forall t :: t in h.led ==> Rooted(h', h.led[t].log, t)
  {
    forall t | t in h.led ensures Rooted(h', h.led[t].log, t) {
      RootedGrows(h, h', h.led[t].log, t, t);
    }
  }

  // ---------- Steps that only raise terms, start candidacies and cast votes ----------

  ghost predicate Polls(h: History, h': History) {
    (&& Grows(h, h') && h'.led == h.led && h'.ack == h.ack
     && forall s :: 0 <= s < |h.srv| ==> h'.srv[s].log == h.srv[s].log) == true
  }

  lemma PollKeeps(h: History, h': History)
    requires Inv(h) && Polls(h, h') && CandShape(h') && VoteShape(h')
    requires forall k :: k in h'.cand && k !in h.cand ==> Rooted(h, h'.cand[k], k.term - 1)
    requires forall k :: k in h'.vote && k !in h.vote ==> VoteHolds(h', k)
    ensures Inv(h')
  {
    PollShape(h, h');
    SrvRootedGrows(h, h');
    CandRootedGrows(h, h');
    LedRootedGrows(h, h');
    PollHolds(h, h');
  }

  lemma PollShape(h: History, h': History)
    requires Shape(h) && Polls(h, h') && CandShape(h') && VoteShape(h')
    ensures Shape(h')
  {
    forall t | t in h'.led ensures ReignShape(h', t) {
      assert ReignShape(h, t);
    }
  }

  lemma PollHolds(h: History, h': History)
    requires Shape(h) && AllRooted(h) && LogsHold(h) && VotesHold(h) && ElectionsHold(h) && Polls(h, h')
    requires forall k :: k in h'.vote && k !in h.vote ==> At(h'.vote[k], k.term) in h'.cand ==> VoteHolds(h', k)
    ensures LogsHold(h') && VotesHold(h') && ElectionsHold(h')
  {
    forall s: nat, t: nat, n: nat | s < |h.srv| && Acked(h', s, t, n)
      ensures Held(h', t, n, h'.srv[s].log, h'.srv[s].term + 1)
    {
      assert Acked(h, s, t, n);
      HeldGrows(h, h', t, n, h.srv[s].log, h.srv[s].term + 1, h'.srv[s].term + 1);
    }
    forall k | k in h.vote
      ensures VoteHolds(h', k)
    {
      var c := At(h.vote[k], k.term);
      forall t: nat, n: nat | t < k.term && Acked(h', k.srv, t, n)
        ensures Held(h', t, n, h'.cand[c], k.term + 1)
      {
        assert Acked(h, k.srv, t, n);
        assert VoteHolds(h, k);
        HeldGrows(h, h', t, n, h.cand[c], k.term + 1, k.term + 1);
      }
    }
    forall u: nat, v: nat, t: nat, n: nat | u in h.led && v in h.led[u].voters && t < u && Acked(h', v, t, n)
      ensures Held(h', t, n, h'.led[u].log, u)
    {
      assert Acked(h, v, t, n);
      HeldGrows(h, h', t, n, h.led[u].log, u, u);
    }
  }

  /** A server hears of a newer term. */
  function Bump(h: History, s: nat, t: nat): History
    requires s < |h.srv|
  {
    h.(srv := h.srv[s := h.srv[s].(term := t)])
  }

  lemma BumpKeeps(h: History, s: nat, t: nat)
    requires Inv(h) && s < |h.srv| && h.srv[s].term <= t
    ensures Inv(Bump(h, s, t)) && Polls(h, Bump(h, s, t))
  {
    PollKeeps(h, Bump(h, s, t));
  }

  /** A server starts an election in the next term, voting for itself. */
  function Stand(h: History, s: nat): History
    requires s < |h.srv|
  {
    var k := At(s, h.srv[s].term + 1);
    h.(srv := h.srv[s := h.srv[s].(term := k.term)],
       cand := h.cand[k := h.srv[s].log],
       vote := h.vote[k := s])
  }

  lemma StandKeeps(h: History, s: nat)
    requires Inv(h) && s < |h.srv|
    ensures Inv(Stand(h, s)) && Polls(h, Stand(h, s))
  {
    var h' := Stand(h, s);
    var k := At(s, h.srv[s].term + 1);
    StandPolls(h, s);
    forall t: nat, n: nat | t < k.term && Acked(h', s, t, n)
      ensures Held(h', t, n, h.srv[s].log, k.term + 1)
    {
      StandHolds(h, s, t, n);
    }
    assert VoteHolds(h', k);
    PollKeeps(h, h');
  }

  lemma StandPolls(h: History, s: nat)
    requires CandShape(h) && VoteShape(h) && s < |h.srv|
    ensures var h' := Stand(h, s); Polls(h, h') && CandShape(h') && VoteShape(h')
  {
    hide Grows;
    StandGrows(h, s);
  }

  lemma StandGrows(h: History, s: nat)
    requires CandShape(h) && VoteShape(h) && s < |h.srv|
    ensures Grows(h, Stand(h, s))
  {
  }

  lemma StandHolds(h: History, s: nat, t: nat, n: nat)
    requires AllRooted(h) && LogsHold(h) && s < |h.srv| && Grows(h, Stand(h, s)) && Acked(Stand(h, s), s, t, n)
    ensures Held(Stand(h, s), t, n, h.srv[s].log, h.srv[s].term + 2)
  {
    assert Acked(h, s, t, n);
    HeldGrows(h, Stand(h, s), t, n, h.srv[s].log, h.srv[s].term + 1, h.srv[s].term + 2);
  }

  /** Section 5.4.1: the log with the later last term, or else the longer one. */
  ghost predicate UpToDate(c: Log, x: Log)
    requires |c| >= 1 && |x| >= 1
  {
    || c[|c| - 1].term > x[|x| - 1].term
    || (c[|c| - 1].term == x[|x| - 1].term && |c| >= |x|)
  }

  /** A server votes, in its current term. */
  function Grant(h: History, v: nat, c: nat): History
    requires v < |h.srv|
  {
    h.(vote := h.vote[At(v, h.srv[v].term) := c])
  }

  ghost predicate MayGrant(h: History, v: nat, c: nat)
  {
    && v < |h.srv| && At(c, h.srv[v].term) in h.cand
    && (At(v, h.srv[v].term) in h.vote ==> h.vote[At(v, h.srv[v].term)] == c)
    && |h.srv[v].log| >= 1 && |h.cand[At(c, h.srv[v].term)]| >= 1
    && UpToDate(h.cand[At(c, h.srv[v].term)], h.srv[v].log)
  }

  /** The election restriction: an up-to-date candidate has what the voter confirmed. */
  lemma UpToDateHolds(h: History, x: Log, hx: int, c: Log, u: nat, t: nat, n: nat)
    requires AllRooted(h) && Rooted(h, x, hx) && Rooted(h, c, u - 1) && UpToDate(c, x)
    requires 1 <= t < u && t in h.led && n < |h.led[t].log| && h.led[t].log[n].term == t
    requires Agree(h.led[t].log, x, n + 1)
    ensures Held(h, t, n, c, u)
  {
    TermsGrow(h, x, hx, n, |x| - 1);
    var w := c[|c| - 1].term;
    assert RootedAt(h, x, |x| - 1, hx);
    assert RootedAt(h, c, |c| - 1, u - 1);
    if w > x[|x| - 1].term && |c| <= n < |h.led[w].log| {
      TermsGrow(h, h.led[w].log, w, |c| - 1, n);
    }
  }

  lemma GrantKeeps(h: History, v: nat, c: nat)
    requires Inv(h) && MayGrant(h, v, c)
    ensures Inv(Grant(h, v, c)) && Polls(h, Grant(h, v, c))
  {
    hide LogsHold, VotesHold, ElectionsHold, Rooted;
    var h' := Grant(h, v, c);
    assert Polls(h, h');
    forall t: nat, n: nat | t < h.srv[v].term && Acked(h', v, t, n)
      ensures Held(h', t, n, h.cand[At(c, h.srv[v].term)], h.srv[v].term + 1)
    {
      GrantHolds(h, v, c, t, n);
    }
    assert VoteHolds(h', At(v, h.srv[v].term));
    PollKeeps(h, h');
  }

  lemma GrantHolds(h: History, v: nat, c: nat, t: nat, n: nat)
    requires Shape(h) && AllRooted(h) && LogsHold(h) && MayGrant(h, v, c) && Grows(h, Grant(h, v, c))
    requires t < h.srv[v].term && Acked(h, v, t, n)
    ensures Held(Grant(h, v, c), t, n, h.cand[At(c, h.srv[v].term)], h.srv[v].term + 1)
  {
    var u := h.srv[v].term;
    var x := h.cand[At(c, u)];
    assert ReignShape(h, t);
    if Agree(h.led[t].log, h.srv[v].log, n + 1) {
      UpToDateHolds(h, h.srv[v].log, u, x, u, t, n);
      HeldGrows(h, Grant(h, v, c), t, n, x, u, u + 1);
    } else {
      assert Held(h, t, n, x, u + 1);
      HeldGrows(h, Grant(h, v, c), t, n, x, u + 1, u + 1);
    }
  }

  // ---------- Steps of leaders and their followers ----------

  /** One server acts in its current term: nothing changes but its log, its confirmation to
      that term's leader, and that leader's log. */
  ghost predicate Acts(h: History, h': History, s: nat) {
    (&& Grows(h, h') && s < |h.srv| && h'.cand == h.cand && h'.vote == h.vote
     && (forall r :: 0 <= r < |h.srv| && r != s ==> h'.srv[r] == h.srv[r])
     && h'.srv[s].term == h.srv[s].term
     && (forall k :: k in h'.ack && k != At(s, h.srv[s].term) ==> k in h.ack && h'.ack[k] == h.ack[k])
     && (forall t :: t in h'.led && t != h.srv[s].term ==> t in h.led && h'.led[t] == h.led[t])
     && (h.srv[s].term in h'.led ==> Rooted(h', h'.led[h.srv[s].term].log, h.srv[s].term))) == true
  }

  lemma OldAck(h: History, h': History, s: nat, v: nat, t: nat, n: nat)
    requires Shape(h) && Acts(h, h', s) && Acked(h', v, t, n) && 1 <= t
    requires v != s || t != h.srv[s].term
    ensures Acked(h, v, t, n)
  {
    if At(v, t) in h.ack {
      assert ReignGrows(h.led[t], h'.led[t], t);
    }
  }

  lemma LogsHoldAfter(h: History, h': History, s: nat)
    requires Shape(h) && AllRooted(h) && LogsHold(h) && Shape(h') && Acts(h, h', s)
    requires forall t: nat, n: nat :: Acked(h', s, t, n) ==> Held(h', t, n, h'.srv[s].log, h'.srv[s].term + 1)
    ensures LogsHold(h')
  {
    forall v: nat, t: nat, n: nat | v < |h'.srv| && Acked(h', v, t, n)
      ensures Held(h', t, n, h'.srv[v].log, h'.srv[v].term + 1)
    {
      if v != s {
        assert ReignShape(h', t);
        OldAck(h, h', s, v, t, n);
        HeldGrows(h, h', t, n, h.srv[v].log, h.srv[v].term + 1, h'.srv[v].term + 1);
      }
    }
  }

  lemma VotesHoldAfter(h: History, h': History, s: nat)
    requires Shape(h) && AllRooted(h) && VotesHold(h) && Shape(h') && Acts(h, h', s)
    ensures VotesHold(h')
  {
    forall k | k in h.vote && At(h.vote[k], k.term) in h.cand
      ensures VoteHolds(h', k)
    {
      var x := h.cand[At(h.vote[k], k.term)];
      forall t: nat, n: nat | t < k.term && Acked(h', k.srv, t, n)
        ensures Held(h', t, n, x, k.term + 1)
      {
        assert ReignShape(h', t);
        OldAck(h, h', s, k.srv, t, n);
        assert VoteHolds(h, k);
        HeldGrows(h, h', t, n, x, k.term + 1, k.term + 1);
      }
    }
  }

  lemma ElectionsHoldAfter(h: History, h': History, s: nat)
    requires Shape(h) && AllRooted(h) && VotesHold(h) && ElectionsHold(h) && Shape(h') && Acts(h, h', s)
    requires h.srv[s].term in h'.led && h.srv[s].term !in h.led ==>
               MayElect(h, s, h'.led[h.srv[s].term].voters) && h'.led[h.srv[s].term].log == h.srv[s].log
    ensures ElectionsHold(h')
  {
    forall u: nat, v: nat, t: nat, n: nat |
      u in h'.led && v in h'.led[u].voters && t < u && Acked(h', v, t, n)
      ensures Held(h', t, n, h'.led[u].log, u)
    {
      if u in h.led {
        OldElectionHolds(h, h', s, u, v, t, n);
      } else {
        NewElectionHolds(h, h', s, v, t, n);
      }
    }
  }

  lemma OldElectionHolds(h: History, h': History, s: nat, u: nat, v: nat, t: nat, n: nat)
    requires Shape(h) && AllRooted(h) && ElectionsHold(h) && Shape(h') && Acts(h, h', s)
    requires u in h.led && u in h'.led && v in h'.led[u].voters && t < u && Acked(h', v, t, n)
    ensures Held(h', t, n, h'.led[u].log, u)
  {
    hide Rooted;
    assert ReignShape(h', t) && ReignShape(h', u) && ReignGrows(h.led[u], h'.led[u], u);
    OldAck(h, h', s, v, t, n);
    assert Held(h, t, n, h.led[u].log, u);
    HeldGrows(h, h', t, n, h.led[u].log, u, u);
    HeldLonger(h', t, n, h.led[u].log, h'.led[u].log, u);
  }

  /** The new leader has what its voters confirmed, because they voted for its log. */
  lemma NewElectionHolds(h: History, h': History, s: nat, v: nat, t: nat, n: nat)
    requires Shape(h) && AllRooted(h) && VotesHold(h) && Shape(h') && Acts(h, h', s)
    requires var u := h.srv[s].term;
             && u in h'.led && u !in h.led && MayElect(h, s, h'.led[u].voters) && h'.led[u].log == h.srv[s].log
             && v in h'.led[u].voters && t < u && Acked(h', v, t, n)
    ensures Held(h', t, n, h.srv[s].log, h.srv[s].term)
  {
    hide Rooted;
    var u := h.srv[s].term;
    assert ReignShape(h', t) && ReignShape(h', u);
    OldAck(h, h', s, v, t, n);
    assert VoteHolds(h, At(v, u));
    assert Lost(h, t, n, u + 1) ==> Lost(h, t, n, u);
    HeldGrows(h, h', t, n, h.srv[s].log, u, u);
  }

  lemma HeldLonger(h: History, t: nat, n: nat, x: Log, y: Log, hi: nat)
    requires t in h.led && Held(h, t, n, x, hi) && Agree(x, y, |x|)
    ensures Held(h, t, n, y, hi)
  {
  }

  /** A candidate with a majority of votes becomes its term's leader. */
  function Elect(h: History, c: nat, q: set<nat>): History
    requires c < |h.srv|
  {
    var t, x := h.srv[c].term, h.srv[c].log;
    h.(led := h.led[t := Reign(c, x, q)], ack := h.ack[At(c, t) := if |x| == 0 then 0 else |x| - 1])
  }

  ghost predicate MayElect(h: History, c: nat, q: set<nat>) {
    && c < |h.srv| && h.srv[c].term !in h.led
    && At(c, h.srv[c].term) in h.cand && h.cand[At(c, h.srv[c].term)] == h.srv[c].log
    && Majority(h.n, q)
    && forall v :: v in q ==> At(v, h.srv[c].term) in h.vote && h.vote[At(v, h.srv[c].term)] == c
  }

  lemma ElectKeeps(h: History, c: nat, q: set<nat>)
    requires Inv(h) && MayElect(h, c, q)
    ensures Inv(Elect(h, c, q)) && Grows(h, Elect(h, c, q))
  {
    hide Rooted, VotesHold, ElectionsHold;
    var h' := Elect(h, c, q);
    var t := h.srv[c].term;
    ElectShape(h, c, q);
    SrvRootedGrows(h, h');
    CandRootedGrows(h, h');
    LedRootedGrows(h, h');
    RootedGrows(h, h', h.srv[c].log, t, t);
    LogsHoldAfter(h, h', c) by {
      forall t': nat, n: nat | Acked(h', c, t', n)
        ensures Held(h', t', n, h'.srv[c].log, t + 1)
      {
        if t' != t {
          assert ReignShape(h', t');
          OldAck(h, h', c, c, t', n);
          HeldGrows(h, h', t', n, h.srv[c].log, t + 1, t + 1);
        }
      }
    }
    VotesHoldAfter(h, h', c);
    ElectionsHoldAfter(h, h', c);
  }

  lemma ElectLedShape(h: History, c: nat, q: set<nat>)
    requires Shape(h) && SrvRooted(h) && MayElect(h, c, q)
    ensures LedShape(Elect(h, c, q))
  {
    var h' := Elect(h, c, q);
    forall u | u in h'.led ensures ReignShape(h', u) {
      if u != h.srv[c].term { assert ReignShape(h, u); }
    }
  }

  lemma ElectShape(h: History, c: nat, q: set<nat>)
    requires Shape(h) && SrvRooted(h) && MayElect(h, c, q)
    ensures Shape(Elect(h, c, q)) && Acts(h, Elect(h, c, q), c)
  {
    hide Rooted, RootedAt;
    var h' := Elect(h, c, q);
    ElectGrows(h, c, q);
    RootedGrows(h, h', h.srv[c].log, h.srv[c].term, h.srv[c].term);
    ElectLedShape(h, c, q);
  }

  lemma ElectGrows(h: History, c: nat, q: set<nat>)
    requires MayElect(h, c, q) && AckShape(h)
    ensures Grows(h, Elect(h, c, q))
  {
  }

  /** A leader appends a command of its own term. */
  function Append(h: History, s: nat, cmd: Command): History
    requires s < |h.srv| && h.srv[s].term in h.led
  {
    var t := h.srv[s].term;
    var x := h.led[t].log + [Entry(t, cmd)];
    h.(srv := h.srv[s := Srv(t, x)],
       led := h.led[t := h.led[t].(log := x)],
       ack := h.ack[At(s, t) := |x| - 1])
  }

  ghost predicate MayAppend(h: History, s: nat) {
    s < |h.srv| && h.srv[s].term in h.led && h.led[h.srv[s].term].leader == s
  }

  lemma AppendKeeps(h: History, s: nat, cmd: Command)
    requires Inv(h) && MayAppend(h, s)
    ensures Inv(Append(h, s, cmd)) && Grows(h, Append(h, s, cmd))
  {
    hide Rooted, VotesHold, ElectionsHold;
    var h' := Append(h, s, cmd);
    var t := h.srv[s].term;
    AppendShape(h, s, cmd);
    SrvRootedGrows(h, h');
    CandRootedGrows(h, h');
    LedRootedGrows(h, h');
    LogsHoldAfter(h, h', s) by {
      forall t': nat, n: nat | Acked(h', s, t', n)
        ensures Held(h', t', n, h'.srv[s].log, t + 1)
      {
        if t' != t {
          assert ReignShape(h', t') && ReignShape(h, t);
          OldAck(h, h', s, s, t', n);
          HeldGrows(h, h', t', n, h.srv[s].log, t + 1, t + 1);
          HeldLonger(h', t', n, h.srv[s].log, h'.srv[s].log, t + 1);
        }
      }
    }
    VotesHoldAfter(h, h', s);
    ElectionsHoldAfter(h, h', s);
  }

  lemma AppendLedShape(h: History, s: nat, cmd: Command)
    requires Shape(h) && MayAppend(h, s)
    ensures LedShape(Append(h, s, cmd))
  {
    var h' := Append(h, s, cmd);
    forall u | u in h'.led ensures ReignShape(h', u) {
      assert ReignShape(h, u);
    }
  }

  lemma AppendShape(h: History, s: nat, cmd: Command)
    requires Shape(h) && AllRooted(h) && MayAppend(h, s)
    ensures Shape(Append(h, s, cmd)) && Acts(h, Append(h, s, cmd), s)
  {
    hide Rooted, LedShape, Grows;
    ReignOf(h, h.srv[s].term);
    AppendGrows(h, s, cmd);
    AppendRooted(h, s, cmd);
    AppendLedShape(h, s, cmd);
  }

  lemma ReignOf(h: History, t: nat)
    requires LedShape(h) && t in h.led
    ensures ReignShape(h, t) && |h.led[t].log| >= 1
  {
    assert ReignShape(h, t);
  }

  lemma AppendGrows(h: History, s: nat, cmd: Command)
    requires MayAppend(h, s) && LedShape(h)
    ensures Grows(h, Append(h, s, cmd))
  {
    assert ReignShape(h, h.srv[s].term);
  }

  lemma AppendRooted(h: History, s: nat, cmd: Command)
    requires LedShape(h) && LedRooted(h) && MayAppend(h, s) && Grows(h, Append(h, s, cmd))
    ensures Rooted(Append(h, s, cmd), Append(h, s, cmd).srv[s].log, h.srv[s].term)
  {
    var h' := Append(h, s, cmd);
    var t := h.srv[s].term;
    var x, x' := h.led[t].log, h'.led[t].log;
    assert ReignShape(h, t);
    RootedGrows(h, h', x, t, t);
    forall i | 1 <= i < |x'| ensures RootedAt(h', x', i, t) {
      if i < |x| { assert RootedAt(h', x, i, t); }
    }
  }

  /** A follower takes over the first k entries of its leader's log: it keeps its own log if
      that already contains them, and otherwise replaces it. */
  function Accept(h: History, s: nat, k: nat): History
    requires s < |h.srv| && h.srv[s].term in h.led && k <= |h.led[h.srv[s].term].log|
  {
    var t := h.srv[s].term;
    var x := h.led[t].log[..k];
    var before := if At(s, t) in h.ack then h.ack[At(s, t)] else 0;
    h.(srv := h.srv[s := Srv(t, if x <= h.srv[s].log then h.srv[s].log else x)],
       ack := h.ack[At(s, t) := Max(before, k - 1)])
  }

  ghost predicate MayAccept(h: History, s: nat, k: nat) {
    (&& s < |h.srv| && h.srv[s].term in h.led && h.led[h.srv[s].term].leader != s
     && 1 <= k <= |h.led[h.srv[s].term].log|) == true
  }

  lemma AcceptKeeps(h: History, s: nat, k: nat)
    requires Inv(h) && MayAccept(h, s, k)
    ensures Inv(Accept(h, s, k)) && Grows(h, Accept(h, s, k))
  {
    var h' := Accept(h, s, k);
    AcceptShape(h, s, k);
    SrvRootedGrows(h, h');
    CandRootedGrows(h, h');
    LedRootedGrows(h, h');
    LogsHoldAfter(h, h', s) by {
      forall t: nat, n: nat | Acked(h', s, t, n)
        ensures Held(h', t, n, h'.srv[s].log, h.srv[s].term + 1)
      {
        AcceptHolds(h, s, k, t, n);
      }
    }
    VotesHoldAfter(h, h', s);
    ElectionsHoldAfter(h, h', s);
  }

  lemma AcceptLedShape(h: History, s: nat, k: nat)
    requires Shape(h) && MayAccept(h, s, k)
    ensures LedShape(Accept(h, s, k))
  {
    var h' := Accept(h, s, k);
    forall u | u in h'.led ensures ReignShape(h', u) {
      assert ReignShape(h, u);
    }
  }

  lemma AcceptShape(h: History, s: nat, k: nat)
    requires Shape(h) && AllRooted(h) && MayAccept(h, s, k)
    ensures Shape(Accept(h, s, k)) && Acts(h, Accept(h, s, k), s)
    ensures Rooted(Accept(h, s, k), Accept(h, s, k).srv[s].log, h.srv[s].term)
  {
    hide Rooted, RootedAt;
    var h' := Accept(h, s, k);
    AcceptGrows(h, s, k);
    AcceptRooted(h, s, k);
    AcceptLedShape(h, s, k);
  }

  lemma AcceptGrows(h: History, s: nat, k: nat)
    requires MayAccept(h, s, k)
    ensures Grows(h, Accept(h, s, k))
  {
  }

  lemma AcceptRooted(h: History, s: nat, k: nat)
    requires SrvRooted(h) && LedRooted(h) && MayAccept(h, s, k) && Grows(h, Accept(h, s, k))
    ensures Rooted(Accept(h, s, k), Accept(h, s, k).srv[s].log, h.srv[s].term)
    ensures Rooted(Accept(h, s, k), h.led[h.srv[s].term].log, h.srv[s].term)
  {
    var h' := Accept(h, s, k);
    var t := h.srv[s].term;
    var x := h.led[t].log;
    RootedGrows(h, h', h.srv[s].log, t, t);
    RootedGrows(h, h', x, t, t);
    forall i | 1 <= i < k ensures RootedAt(h', x[..k], i, t) {
      assert RootedAt(h', x, i, t);
    }
  }

  lemma HeldNow(h: History, s: nat, t: nat, n: nat)
    requires Inv(h) && s < |h.srv| && Acked(h, s, t, n)
    ensures Held(h, t, n, h.srv[s].log, h.srv[s].term + 1)
  {
  }

  lemma AcceptHolds(h: History, s: nat, k: nat, t: nat, n: nat)
    requires Inv(h) && MayAccept(h, s, k) && Acts(h, Accept(h, s, k), s)
    requires Acked(Accept(h, s, k), s, t, n)
    ensures Held(Accept(h, s, k), t, n, Accept(h, s, k).srv[s].log, h.srv[s].term + 1)
  {
    hide LogsHold, VotesHold, ElectionsHold;
    var h' := Accept(h, s, k);
    var u := h.srv[s].term;
    assert ReignShape(h, t);
    if t == u && n < k {
      assert Agree(h.led[u].log, h'.srv[s].log, n + 1);
    } else {
      assert Acked(h, s, t, n);
      HeldNow(h, s, t, n);
      TakenOverHolds(h, s, k, t, n);
      HeldGrows(h, h', t, n, h'.srv[s].log, u + 1, u + 1);
    }
  }

  /** Replacing a log by its leader's loses nothing that the leader has. */
  lemma TakenOverHolds(h: History, s: nat, k: nat, t: nat, n: nat)
    requires MayAccept(h, s, k) && t in h.led && t <= h.srv[s].term
    requires Held(h, t, n, h.srv[s].log, h.srv[s].term + 1)
    requires t == h.srv[s].term ==> k <= n
    ensures Held(h, t, n, Accept(h, s, k).srv[s].log, h.srv[s].term + 1)
  {
    var u := h.srv[s].term;
    var x, y, z := h.led[u].log, h.srv[s].log, Accept(h, s, k).srv[s].log;
    if Agree(h.led[t].log, y, n + 1) && !Agree(h.led[t].log, z, n + 1) {
      assert z == x[..k] && !(x[..k] <= y);
      assert t != u;
      assert !Agree(h.led[t].log, x, n + 1);
      assert Lost(h, t, n, u + 1);
    }
  }
}
