/**
 The controller's methods. They are proved to walk through the states of a process of `ShardMove`,
 and to make in each of them the call that a process in that state waits for.
 */
module Controller {
  import opened KvStore
  import opened ShardGroup
  import opened ShardMove
  import opened Scripts
  import Clerks

  datatype Request =
    | AskConfig
    | AskNext
    | AskPut(key: Key, cfg: Config, version: nat)
    | AskGroup(g: nat, s: ShardId, op: ShardOp)

  /** What a call returns: the two reads, the clerk's Put, and a group's answer or none. */
  datatype Event =
    | SawConfig(cur: Option<Config>, version: nat)
    | SawConfigNext(next: Option<Config>, version: nat)
    | PutDone(err: Err)
    | GroupSaid(reply: ShardReply)
    | NoAnswer

  function Wanted(p: Proc): Request {
    match p
    case Claim(_) => AskNext
    case ClaimCheck(_) => AskNext
    case InheritNext(_) => AskNext
    case ClaimPut(n, v, _) => AskPut(Key.Next, n, v)
    case PublishPut(n, v, _) => AskPut(Current, n, v)
    case Move(o, n, s, Freezing) => AskGroup(o.shards[s], s, Freeze(n.num))
    case Move(o, n, s, Installing(state)) => AskGroup(n.shards[s], s, Install(state, n.num))
    case Move(o, n, s, Deleting) => AskGroup(o.shards[s], s, Delete(n.num))
    case _ => AskConfig
  }

  /** What the process asks is what the model lets it wait for. */
  lemma WantedIsPending(id: nat, p: Proc)
    ensures Pending(id, p) == match Wanted(p)
                              case AskPut(key, cfg, v) => {PutAsk(id, key, cfg, v)}
                              case AskGroup(g, s, op) => {Ask(g, s, op)}
                              case _ => {}
  {
  }

  /** A group answers Freeze with a FreezeReply, and so on; a key that was never written has no
      version. */
  predicate Fits(p: Proc, e: Event) {
    match e
    case SawConfig(_, _) => !p.Stop? && Wanted(p) == AskConfig
    case SawConfigNext(next, version) => Wanted(p) == AskNext && (next.None? ==> version == 0)
    case PutDone(_) => Wanted(p).AskPut?
    case NoAnswer => Wanted(p).AskGroup?
    case GroupSaid(reply) =>
      p.Move? && match p.stage
                 case Freezing => reply.FreezeReply?
                 case Installing(_) => reply.InstallReply?
                 case Deleting => reply.DeleteReply?
  }

  function After(p: Proc, e: Event): Proc {
    match e
    case SawConfig(cur, version) => SawCurrent(p, cur, version)
    case SawConfigNext(next, version) => SawNext(p, next, version)
    case PutDone(err) => PutReturned(p, err)
    case GroupSaid(reply) => Replied(p, reply)
    case NoAnswer => Unreachable(p)
  }

  function Walk(p: Proc, es: seq<Event>): Proc {
    if es == [] then p else After(Walk(p, es[..|es| - 1]), es[|es| - 1])
  }

  /** Each reply answers the call that was made. */
  ghost predicate Script(p: Proc, es: seq<Event>) {
    forall k :: 0 <= k < |es| ==> Fits(Walk(p, es[..k]), es[k])
  }

  function Calls(p: Proc, es: seq<Event>): seq<Request> {
    seq(|es|, k requires 0 <= k < |es| => Wanted(Walk(p, es[..k])))
  }

  lemma OneMore(p: Proc, es: seq<Event>, k: nat)
    requires k < |es|
    ensures Walk(p, es[..k + 1]) == After(Walk(p, es[..k]), es[k])
    ensures Calls(p, es[..k + 1]) == Calls(p, es[..k]) + [Wanted(Walk(p, es[..k]))]
  {
    hide After, Wanted;
    assert es[..k + 1][..k] == es[..k];
    forall j | 0 <= j < k ensures es[..k + 1][..j] == es[..k][..j] {
    }
  }

  // ---------- What is asked, from the calls and their replies alone ----------

  /** `publish` from call k on: read config; end if it is there and not older than n, or absent; else write
      n at the version read; end if that is answered OK, and else begin again. */
  ghost predicate PublishFlow(n: Config, asked: seq<Request>, replies: seq<Event>, k: nat)
    decreases |replies| - k
  {
    && k < |asked| == |replies| && asked[k] == AskConfig && replies[k].SawConfig?
    && if replies[k].cur.None? || n.num <= replies[k].cur.value.num then |asked| == k + 1
       else
         && k + 1 < |asked| && asked[k + 1] == AskPut(Current, n, replies[k].version) && replies[k + 1].PutDone?
         && if replies[k + 1].err == OK then |asked| == k + 2 else PublishFlow(n, asked, replies, k + 2)
  }

  /** One call to a group in the course of a pass; it ends the pass if there is no answer, or if the group has
      seen a later change. */
  ghost predicate GroupFlow(w: Request, asked: seq<Request>, replies: seq<Event>, k: nat) {
    k < |asked| == |replies| && asked[k] == w && (replies[k].NoAnswer? || replies[k].GroupSaid?)
  }

  predicate EndsPass(e: Event) {
    e.NoAnswer? || (e.GroupSaid? && !e.reply.KvReply? && e.reply.err == ErrStale)
  }

  /** `moveTo` from shard s and call k on, until call `end`: every shard that the change moves is frozen at
      its source, installed at its destination with what the freeze gave (or empty, if it has no
      source) and deleted at its source, in this order. */
  ghost predicate PassFlow(o: Config, n: Config, s: nat, asked: seq<Request>, replies: seq<Event>, k: nat, end: nat)
    requires s <= NSHARDS
    decreases NSHARDS - s, 2
  {
    if s == NSHARDS then end == k
    else if o.shards[s] == n.shards[s] then PassFlow(o, n, s + 1, asked, replies, k, end)
    else if o.shards[s] !in o.groups then InstallFlow(o, n, s, map[], asked, replies, k, end)
    else
      && GroupFlow(AskGroup(o.shards[s], s, Freeze(n.num)), asked, replies, k)
      && if EndsPass(replies[k]) then end == k + 1
         else replies[k].GroupSaid? && replies[k].reply.FreezeReply?
              && InstallFlow(o, n, s, replies[k].reply.state, asked, replies, k + 1, end)
  }

  ghost predicate InstallFlow(o: Config, n: Config, s: ShardId, state: Store, asked: seq<Request>, replies: seq<Event>, k: nat, end: nat)
    decreases NSHARDS - s, 1
  {
    if n.shards[s] !in n.groups then DeleteFlow(o, n, s, asked, replies, k, end)
    else
      && GroupFlow(AskGroup(n.shards[s], s, Install(state, n.num)), asked, replies, k)
      && if EndsPass(replies[k]) then end == k + 1 else DeleteFlow(o, n, s, asked, replies, k + 1, end)
  }

  ghost predicate DeleteFlow(o: Config, n: Config, s: ShardId, asked: seq<Request>, replies: seq<Event>, k: nat, end: nat)
    decreases NSHARDS - s, 0
  {
    if o.shards[s] !in o.groups then PassFlow(o, n, s + 1, asked, replies, k, end)
    else
      && GroupFlow(AskGroup(o.shards[s], s, Delete(n.num)), asked, replies, k)
      && if EndsPass(replies[k]) then end == k + 1 else PassFlow(o, n, s + 1, asked, replies, k + 1, end)
  }

  /** `moveUntilDone` and `publish` from call k on: passes over all shards, until one is not broken off by a
      group that does not answer; after such a one config is read, and everything ends if n is in
      force, or a later one. */
  ghost predicate MoveFlow(o: Config, n: Config, asked: seq<Request>, replies: seq<Event>, k: nat)
    decreases |replies| - k
  {
    exists end: nat {:trigger PassFlow(o, n, 0, asked, replies, k, end)} ::
      && PassFlow(o, n, 0, asked, replies, k, end) && k <= end <= |asked| == |replies|
      && if end == k || !replies[end - 1].NoAnswer? then PublishFlow(n, asked, replies, end)
         else
           && end < |asked| && asked[end] == AskConfig && replies[end].SawConfig?
           && if replies[end].cur.Some? && n.num <= replies[end].cur.value.num then |asked| == end + 1
              else MoveFlow(o, n, asked, replies, end + 1)
  }

  /** The claim has landed: config is read again from call k on, and the change begins unless it is over. */
  ghost predicate ClaimedFlow(n: Config, asked: seq<Request>, replies: seq<Event>, k: nat) {
    && k < |asked| == |replies| && asked[k] == AskConfig && replies[k].SawConfig?
    && if replies[k].cur.None? || n.num <= replies[k].cur.value.num then |asked| == k + 1
       else MoveFlow(replies[k].cur.value, n, asked, replies, k + 1)
  }

  /** `ChangeConfigTo`. It ends early only if config or config_next is absent or not older than n, as the case
      may be, or the claim is lost: refused, or in doubt and not what is then found in config_next. */
  ghost predicate ChangeFlow(n: Config, asked: seq<Request>, replies: seq<Event>) {
    && 0 < |asked| == |replies| && asked[0] == AskConfig && replies[0].SawConfig?
    && if replies[0].cur.None? || n.num <= replies[0].cur.value.num then |asked| == 1
       else
         && 1 < |asked| && asked[1] == AskNext && replies[1].SawConfigNext?
         && if replies[1].next.Some? && n.num <= replies[1].next.value.num then |asked| == 2
            else
              && 2 < |asked| && replies[2].PutDone?
              && asked[2] == AskPut(Key.Next, n, if replies[1].next.None? then 0 else replies[1].version)
              && if replies[2].err == OK then ClaimedFlow(n, asked, replies, 3)
                 else if replies[2].err != ErrMaybe then |asked| == 3
                 else
                   && 3 < |asked| && asked[3] == AskNext && replies[3].SawConfigNext?
                   && if replies[3].next == Some(n) then ClaimedFlow(n, asked, replies, 4) else |asked| == 4
  }

  /** `InitController`: it ends early only if nothing is there to finish. */
  ghost predicate InheritFlow(asked: seq<Request>, replies: seq<Event>) {
    && 0 < |asked| == |replies| && asked[0] == AskConfig && replies[0].SawConfig?
    && if replies[0].cur.None? then |asked| == 1
       else
         && 1 < |asked| && asked[1] == AskNext && replies[1].SawConfigNext?
         && if replies[1].next.None? || replies[1].next.value.num <= replies[0].cur.value.num then |asked| == 2
            else MoveFlow(replies[0].cur.value, replies[1].next.value, asked, replies, 2)
  }

  // ---------- A process makes just these calls ----------

  /** After k replies the process is at p: if it has not stopped there is one more call, the one it wants. */
  ghost predicate Reaches(from: Proc, es: seq<Event>, k: nat, p: Proc) {
    k <= |es| && Script(from, es) && Walk(from, es) == Stop && Walk(from, es[..k]) == p
  }

  lemma NextCall(from: Proc, es: seq<Event>, k: nat, p: Proc)
    requires Reaches(from, es, k, p)
    ensures p == Stop ==> k == |es|
    ensures p != Stop ==> k < |es| && Calls(from, es)[k] == Wanted(p) && Fits(p, es[k]) && Reaches(from, es, k + 1, After(p, es[k]))
    ensures |Calls(from, es)| == |es|
  {
    hide After, Walk;
    assert es[..|es|] == es;
    if k < |es| {
      OneMore(from, es, k);
      assert Fits(p, es[k]);
    }
  }

  lemma {:induction false} Publishes(from: Proc, es: seq<Event>, k: nat, n: Config)
    requires Reaches(from, es, k, Publish(n))
    ensures PublishFlow(n, Calls(from, es), es, k)
    decreases |es| - k
  {
    hide Reaches, Calls;
    var p: Proc := Publish(n);
    NextCall(from, es, k, p);
    p := After(p, es[k]);
    NextCall(from, es, k + 1, p);
    if p != Stop {
      p := After(p, es[k + 1]);
      NextCall(from, es, k + 2, p);
      if p != Stop {
        Publishes(from, es, k + 2, n);
      }
    }
  }

  /** Where a pass that began at call k has led: to the end of the moves, or to a group without answer. */
  ghost predicate PassLed(from: Proc, es: seq<Event>, o: Config, n: Config, k: nat, end: nat) {
    k <= end <= |es| && Reaches(from, es, end, if end == k || !es[end - 1].NoAnswer? then Publish(n) else Recheck(o, n))
  }

  lemma {:induction false} Passes(from: Proc, es: seq<Event>, o: Config, n: Config, s: nat, k: nat) returns (end: nat)
    requires s <= NSHARDS && Reaches(from, es, k, NextShard(o, n, s))
    ensures PassFlow(o, n, s, Calls(from, es), es, k, end) && PassLed(from, es, o, n, k, end)
    decreases NSHARDS - s, 2
  {
    hide Reaches, Calls, GroupFlow;
    InLength(from, es, k, NextShard(o, n, s));
    end := k;
    if s < NSHARDS {
      if o.shards[s] == n.shards[s] {
        end := Passes(from, es, o, n, s + 1, k);
      } else if o.shards[s] !in o.groups {
        end := Installs(from, es, o, n, s, map[], k);
      } else {
        NextCall(from, es, k, Move(o, n, s, Freezing));
        assert GroupFlow(AskGroup(o.shards[s], s, Freeze(n.num)), Calls(from, es), es, k) by { AGroupCall(from, es, k); }
        end := k + 1;
        if !EndsPass(es[k]) {
          end := Installs(from, es, o, n, s, es[k].reply.state, k + 1);
        } else {
          InLength(from, es, k + 1, After(Move(o, n, s, Freezing), es[k]));
        }
      }
    }
  }

  lemma InLength(from: Proc, es: seq<Event>, k: nat, p: Proc)
    requires Reaches(from, es, k, p)
    ensures k <= |es|
  {
  }

  lemma AGroupCall(from: Proc, es: seq<Event>, k: nat)
    requires k < |es| && (es[k].NoAnswer? || es[k].GroupSaid?)
    ensures GroupFlow(Calls(from, es)[k], Calls(from, es), es, k)
  {
  }

  lemma {:induction false} Installs(from: Proc, es: seq<Event>, o: Config, n: Config, s: ShardId, state: Store, k: nat) returns (end: nat)
    requires o.shards[s] != n.shards[s] && Reaches(from, es, k, AfterFreeze(o, n, s, state))
    ensures InstallFlow(o, n, s, state, Calls(from, es), es, k, end) && PassLed(from, es, o, n, k, end)
    decreases NSHARDS - s, 1
  {
    hide Reaches, Calls, GroupFlow;
    if n.shards[s] !in n.groups {
      end := Deletes(from, es, o, n, s, k);
    } else {
      NextCall(from, es, k, Move(o, n, s, Installing(state)));
      assert GroupFlow(AskGroup(n.shards[s], s, Install(state, n.num)), Calls(from, es), es, k) by { AGroupCall(from, es, k); }
      end := k + 1;
      if !EndsPass(es[k]) {
        end := Deletes(from, es, o, n, s, k + 1);
      } else {
        InLength(from, es, k + 1, After(Move(o, n, s, Installing(state)), es[k]));
      }
    }
  }

  lemma {:induction false} Deletes(from: Proc, es: seq<Event>, o: Config, n: Config, s: ShardId, k: nat) returns (end: nat)
    requires o.shards[s] != n.shards[s] && Reaches(from, es, k, AfterInstall(o, n, s))
    ensures DeleteFlow(o, n, s, Calls(from, es), es, k, end) && PassLed(from, es, o, n, k, end)
    decreases NSHARDS - s, 0
  {
    hide Reaches, Calls, GroupFlow;
    if o.shards[s] !in o.groups {
      end := Passes(from, es, o, n, s + 1, k);
    } else {
      NextCall(from, es, k, Move(o, n, s, Deleting));
      assert GroupFlow(AskGroup(o.shards[s], s, Delete(n.num)), Calls(from, es), es, k) by { AGroupCall(from, es, k); }
      end := k + 1;
      if !EndsPass(es[k]) {
        end := Passes(from, es, o, n, s + 1, k + 1);
      } else {
        InLength(from, es, k + 1, After(Move(o, n, s, Deleting), es[k]));
      }
    }
  }

  lemma {:induction false} MovesAll(from: Proc, es: seq<Event>, o: Config, n: Config, k: nat)
    requires Reaches(from, es, k, NextShard(o, n, 0))
    ensures MoveFlow(o, n, Calls(from, es), es, k)
    decreases |es| - k
  {
    hide Reaches, Calls, NextShard;
    var end := Passes(from, es, o, n, 0, k);
    assert PassFlow(o, n, 0, Calls(from, es), es, k, end);
    if end == k || !es[end - 1].NoAnswer? {
      NextCall(from, es, end, Publish(n));
      Publishes(from, es, end, n);
    } else {
      NextCall(from, es, end, Recheck(o, n));
      if es[end].cur.Some? && n.num <= es[end].cur.value.num {
        NextCall(from, es, end + 1, Stop);
      } else {
        MovesAll(from, es, o, n, end + 1);
      }
    }
  }

  lemma Claimed(from: Proc, es: seq<Event>, n: Config, k: nat)
    requires Reaches(from, es, k, Reread(n))
    ensures ClaimedFlow(n, Calls(from, es), es, k)
  {
    hide Reaches, Calls, NextShard, MoveFlow;
    NextCall(from, es, k, Reread(n));
    var p := After(Reread(n), es[k]);
    NextCall(from, es, k + 1, p);
    if es[k].cur.Some? && es[k].cur.value.num < n.num {
      MovesAll(from, es, es[k].cur.value, n, k + 1);
    }
  }

  lemma Changes(es: seq<Event>, n: Config)
    requires Script(Begin(n), es) && Walk(Begin(n), es) == Stop
    ensures ChangeFlow(n, Calls(Begin(n), es), es)
  {
    hide Reaches, Calls, NextShard, ClaimedFlow, Script, Walk;
    var from: Proc := Begin(n);
    Starting(from, es);
    NextCall(from, es, 0, from);
    if es[0].cur.None? || n.num <= es[0].cur.value.num {
      NextCall(from, es, 1, Stop);
    } else {
      NextCall(from, es, 1, Claim(n));
      if es[1].next.Some? && n.num <= es[1].next.value.num {
        NextCall(from, es, 2, Stop);
      } else {
        Claims(from, es, n);
      }
    }
  }

  lemma Claims(from: Proc, es: seq<Event>, n: Config)
    requires 1 < |es| && es[1].SawConfigNext? && (es[1].next.None? ==> es[1].version == 0)
    requires Reaches(from, es, 2, ClaimPut(n, es[1].version, false))
    ensures var asked := Calls(from, es);
            && 2 < |asked| == |es| && es[2].PutDone?
            && asked[2] == AskPut(Key.Next, n, if es[1].next.None? then 0 else es[1].version)
            && if es[2].err == OK then ClaimedFlow(n, asked, es, 3)
               else if es[2].err != ErrMaybe then |asked| == 3
               else
                 && 3 < |asked| && asked[3] == AskNext && es[3].SawConfigNext?
                 && if es[3].next == Some(n) then ClaimedFlow(n, asked, es, 4) else |asked| == 4
  {
    hide Reaches, Calls, NextShard, ClaimedFlow, Script, Walk;
    NextCall(from, es, 2, ClaimPut(n, es[1].version, false));
    if es[2].err == OK {
      Claimed(from, es, n, 3);
    } else if es[2].err != ErrMaybe {
      NextCall(from, es, 3, Stop);
    } else {
      NextCall(from, es, 3, ClaimCheck(n));
      if es[3].next == Some(n) {
        Claimed(from, es, n, 4);
      } else {
        NextCall(from, es, 4, Stop);
      }
    }
  }

  lemma Inherits(es: seq<Event>)
    requires Script(Inherit, es) && Walk(Inherit, es) == Stop
    ensures InheritFlow(Calls(Inherit, es), es)
  {
    hide Reaches, Calls, NextShard, MoveFlow, Script, Walk;
    Starting(Inherit, es);
    NextCall(Inherit, es, 0, Inherit);
    if es[0].cur.None? {
      NextCall(Inherit, es, 1, Stop);
    } else {
      var cur := es[0].cur.value;
      NextCall(Inherit, es, 1, InheritNext(cur));
      if es[1].next.None? || es[1].next.value.num <= cur.num {
        NextCall(Inherit, es, 2, Stop);
      } else {
        MovesAll(Inherit, es, cur, es[1].next.value, 2);
      }
    }
  }

  lemma Starting(from: Proc, es: seq<Event>)
    requires Script(from, es) && Walk(from, es) == Stop
    ensures Reaches(from, es, 0, from)
  {
    assert es[..0] == [];
  }

  /** What a process of the model makes of a Put's answer is what the controller makes of what its clerk returns:
      an `ErrVersion` after a lost reply has become `ErrMaybe`. */
  lemma HearsItsClerk(id: nat, p: Proc, m: Msg)
    requires m.PutAnswer? && Answers(id, p, m)
    ensures p.ClaimPut? || p.PublishPut?
    ensures var out := Clerks.ClerkAnswer(PutReply(m.err), p.resent); out.PutReply? && Heard(p, m) == After(p, PutDone(out.err))
  {
  }

  class ShardCtrler {
    const link: Link<Request, Event>

    constructor (link: Link<Request, Event>)
      ensures this.link == link
    {
      this.link := link;
    }

    /** From `from` on, the calls so far were the right ones and have led to `p`; the replies there
        are take the process to its end. */
    ghost predicate At(from: Proc, p: Proc)
      reads link
    {
      (&& |link.asked| <= |link.replies| && Script(from, link.replies) && Walk(from, link.replies) == Stop
       && link.asked == Calls(from, link.replies[..|link.asked|])
       && Walk(from, link.replies[..|link.asked|]) == p) == true
    }

    ghost function Left(): int
      reads link
    {
      |link.replies| - |link.asked|
    }

    method Call(w: Request, ghost from: Proc, ghost p: Proc) returns (e: Event)
      requires At(from, p) && p != Stop && w == Wanted(p)
      modifies link
      ensures Fits(p, e) && At(from, After(p, e)) && 0 <= Left() < old(Left())
    {
      hide Walk, Wanted, After, Fits;
      assert link.replies[..|link.replies|] == link.replies;
      OneMore(from, link.replies, |link.asked|);
      e := link.Call(w);
    }

    /** `moveTo`: freeze, install and delete, shard by shard; true if all is moved or another
        controller is ahead, false if a group does not answer. */
    method MoveTo(o: Config, n: Config, ghost from: Proc) returns (done: bool)
      requires At(from, NextShard(o, n, 0))
      modifies link
      ensures done ==> At(from, Publish(n)) && Left() <= old(Left())
      ensures !done ==> At(from, Recheck(o, n)) && Left() < old(Left())
    {
      hide At, Walk;
      for s := 0 to NSHARDS
        invariant At(from, NextShard(o, n, s)) && Left() <= old(Left())
      {
        if o.shards[s] == n.shards[s] {
          continue;
        }
        var srcOK, dstOK := o.shards[s] in o.groups, n.shards[s] in n.groups;
        var state: Store := map[];
        if srcOK {
          var e := Call(AskGroup(o.shards[s], s, Freeze(n.num)), from, Move(o, n, s, Freezing));
          if e.NoAnswer? {
            return false;
          }
          if e.reply.err == ErrStale {
            return true;
          }
          state := e.reply.state;
        }
        assert At(from, AfterFreeze(o, n, s, state));
        if dstOK {
          var e := Call(AskGroup(n.shards[s], s, Install(state, n.num)), from, Move(o, n, s, Installing(state)));
          if e.NoAnswer? {
            return false;
          }
          if e.reply.err == ErrStale {
            return true;
          }
        }
        assert At(from, AfterInstall(o, n, s));
        if srcOK {
          var e := Call(AskGroup(o.shards[s], s, Delete(n.num)), from, Move(o, n, s, Deleting));
          if e.NoAnswer? {
            return false;
          }
          if e.reply.err == ErrStale {
            return true;
          }
        }
      }
      done := true;
    }

    /** `moveUntilDone`: false if another controller has finished the change. */
    method MoveUntilDone(o: Config, n: Config, ghost from: Proc) returns (done: bool)
      requires At(from, NextShard(o, n, 0))
      modifies link
      ensures At(from, if done then Publish(n) else Stop)
    {
      hide At, NextShard;
      while true
        invariant At(from, NextShard(o, n, 0))
        decreases Left()
      {
        done := MoveTo(o, n, from);
        if done {
          return;
        }
        var e := Call(AskConfig, from, Recheck(o, n));
        if e.cur.Some? && e.cur.value.num >= n.num {
          return;
        }
      }
    }

    /** `publish`: compare-and-swap of the configuration in force, until it is this one or later. */
    method PublishConfig(n: Config, ghost from: Proc)
      requires At(from, Publish(n))
      modifies link
      ensures At(from, Stop) && PublishFlow(n, link.asked, link.replies, |old(link.asked)|)
    {
      hide At, PublishFlow;
      ghost var k := |link.asked|;
      assert Reaches(from, link.replies, k, Publish(n)) by { IsAt(from, Publish(n)); }
      Publishes(from, link.replies, k, n);
      while true
        invariant At(from, Publish(n))
        decreases Left()
      {
        var e := Call(AskConfig, from, Publish(n));
        if e.cur.None? || e.cur.value.num >= n.num {
          AllAsked(from);
          return;
        }
        var put := Call(AskPut(Current, n, e.version), from, PublishPut(n, e.version, false));
        if put.err == OK {
          AllAsked(from);
          return;
        }
      }
    }

    /** `claim`: true if config_next now holds n because of this controller. */
    method ClaimConfig(n: Config, ghost from: Proc) returns (claimed: bool)
      requires At(from, Claim(n))
      modifies link
      ensures At(from, if claimed then Reread(n) else Stop)
    {
      hide At, NextShard;
      var e := Call(AskNext, from, Claim(n));
      if e.next.Some? && e.next.value.num >= n.num {
        return false;
      }
      var version := if e.next.None? then 0 else e.version;
      var put := Call(AskPut(Key.Next, n, version), from, ClaimPut(n, version, false));
      if put.err == OK {
        return true;
      }
      if put.err == ErrMaybe {
        var check := Call(AskNext, from, ClaimCheck(n));
        return check.next == Some(n);
      }
      claimed := false;
    }

    lemma IsAt(from: Proc, p: Proc)
      requires At(from, p)
      ensures Reaches(from, link.replies, |link.asked|, p)
    {
    }

    lemma Start(p: Proc)
      requires link.asked == [] && Script(p, link.replies) && Walk(p, link.replies) == Stop
      ensures At(p, p)
    {
    }

    /** Nothing is asked after the end, so all replies have been used. */
    lemma AllAsked(from: Proc)
      requires At(from, Stop)
      ensures link.asked == Calls(from, link.replies)
    {
      assert link.replies[..|link.replies|] == link.replies;
      if |link.asked| < |link.replies| {
        assert false;
      }
    }

    /** `ChangeConfigTo`: its calls are those of a process of the model that begins here. */
    method ChangeConfigTo(n: Config)
      requires link.asked == [] && Script(Begin(n), link.replies) && Walk(Begin(n), link.replies) == Stop
      modifies link
      ensures link.asked == Calls(Begin(n), link.replies)
      ensures ChangeFlow(n, link.asked, link.replies)
    {
      hide At, NextShard, Calls, Script, Walk, ChangeFlow;
      ghost var from := Begin(n);
      Start(from);
      Change(n, from);
      AllAsked(from);
      Changes(link.replies, n);
    }

    method Change(n: Config, ghost from: Proc)
      requires At(from, Begin(n))
      modifies link
      ensures At(from, Stop)
    {
      hide At, NextShard;
      var e := Call(AskConfig, from, Begin(n));
      if e.cur.None? || n.num <= e.cur.value.num {
        return;
      }
      var claimed := ClaimConfig(n, from);
      if !claimed {
        return;
      }
      e := Call(AskConfig, from, Reread(n));
      if e.cur.None? || n.num <= e.cur.value.num {
        return;
      }
      var done := MoveUntilDone(e.cur.value, n, from);
      if done {
        PublishConfig(n, from);
      }
    }

    /** `InitController`: finishes what another controller has claimed. */
    method InitController()
      requires link.asked == [] && Script(Inherit, link.replies) && Walk(Inherit, link.replies) == Stop
      modifies link
      ensures link.asked == Calls(Inherit, link.replies)
      ensures InheritFlow(link.asked, link.replies)
    {
      hide At, NextShard, Calls, Script, Walk, InheritFlow;
      Start(Inherit);
      TakeOver(Inherit);
      AllAsked(Inherit);
      Inherits(link.replies);
    }

    method TakeOver(ghost from: Proc)
      requires At(from, Inherit)
      modifies link
      ensures At(from, Stop)
    {
      hide At, NextShard;
      var e := Call(AskConfig, from, Inherit);
      if e.cur.None? {
        return;
      }
      var cur := e.cur.value;
      e := Call(AskNext, from, InheritNext(cur));
      if e.next.None? || e.next.value.num <= cur.num {
        return;
      }
      var n := e.next.value;
      var done := MoveUntilDone(cur, n, from);
      if done {
        PublishConfig(n, from);
      }
    }
  }
}
