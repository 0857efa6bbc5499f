/**
 `Lock` with its retry loops. The loops are proved to walk through the states of `LockService`,
 and to make in each of them the call that a client in that state waits for.
 */
module LockLoops {
  import opened KvStore
  import opened LockService
  import opened Scripts

  datatype Ask = AskGet | AskPut(value: string, version: nat)

  /** What a call returns. */
  datatype Event = NoKey | Saw(value: string, version: nat) | Wrote(err: Err)

  /** The call that is made in a state, except in those where the client only computes. */
  function Wanted(id: string, pc: Pc): Ask {
    match pc
    case Claiming(v) => AskPut(id, v)
    case Freeing(v) => AskPut("", v)
    case _ => AskGet
  }

  predicate Fits(pc: Pc, e: Event) {
    match e
    case Wrote(_) => pc.Claiming? || pc.Freeing?
    case _ => pc.Reading? || pc.Verifying?
  }

  function After(id: string, pc: Pc, e: Event): Pc {
    match e
    case NoKey => Decided(id, Looked(pc, "", 0))
    case Saw(value, version) => Decided(id, Looked(pc, value, version))
    case Wrote(err) => Answered(pc, err == OK)
  }

  function Walk(id: string, pc: Pc, es: seq<Event>): Pc {
    if es == [] then pc else After(id, Walk(id, pc, es[..|es| - 1]), es[|es| - 1])
  }

  /** Each reply answers the call that was made. */
  ghost predicate Script(id: string, pc: Pc, es: seq<Event>) {
    forall k :: 0 <= k < |es| ==> Fits(Walk(id, pc, es[..k]), es[k])
  }

  function Calls(id: string, pc: Pc, es: seq<Event>): seq<Ask> {
    seq(|es|, k requires 0 <= k < |es| => Wanted(id, Walk(id, pc, es[..k])))
  }

  lemma OneMore(id: string, pc: Pc, es: seq<Event>, k: nat)
    requires k < |es|
    ensures Walk(id, pc, es[..k + 1]) == After(id, Walk(id, pc, es[..k]), es[k])
    ensures Calls(id, pc, es[..k + 1]) == Calls(id, pc, es[..k]) + [Wanted(id, Walk(id, pc, es[..k]))]
  {
    assert es[..k + 1][..k] == es[..k];
    forall j | 0 <= j < k ensures es[..k + 1][..j] == es[..k][..j] {
    }
  }

  // ---------- What is asked, from the calls and their replies alone ----------

  /** `Acquire` from call k on: read; claim a free key at the version read (0 if it was never written); read again
      after a failed claim, or while somebody else holds it; end, with the version at which the key holds
      the id. */
  ghost predicate AcquireFlow(id: string, asked: seq<Ask>, replies: seq<Event>, k: nat, version: nat)
    decreases |replies| - k
  {
    && k < |asked| == |replies| && asked[k] == AskGet
    && match replies[k]
       case NoKey => ClaimFlow(id, 0, asked, replies, k + 1, version)
       case Saw(value, v) =>
         if value == id then |asked| == k + 1 && version == v
         else if value == "" then ClaimFlow(id, v, asked, replies, k + 1, version)
         else AcquireFlow(id, asked, replies, k + 1, version)
       case Wrote(_) => false
  }

  ghost predicate ClaimFlow(id: string, v: nat, asked: seq<Ask>, replies: seq<Event>, k: nat, version: nat)
    decreases |replies| - k
  {
    && k < |asked| == |replies| && asked[k] == AskPut(id, v) && replies[k].Wrote?
    && if replies[k].err == OK then |asked| == k + 1 && version == v + 1 else AcquireFlow(id, asked, replies, k + 1, version)
  }

  /** `Release` from call k on: free the key at the version at which it was held; end if that is answered OK; else
      read, end unless the key still holds the id, and begin again at the version read. */
  ghost predicate ReleaseFlow(id: string, v: nat, asked: seq<Ask>, replies: seq<Event>, k: nat)
    decreases |replies| - k
  {
    && k < |asked| == |replies| && asked[k] == AskPut("", v) && replies[k].Wrote?
    && if replies[k].err == OK then |asked| == k + 1
       else
         && k + 1 < |asked| && asked[k + 1] == AskGet && (replies[k + 1].NoKey? || replies[k + 1].Saw?)
         && if replies[k + 1].NoKey? || replies[k + 1].value != id then |asked| == k + 2
            else ReleaseFlow(id, replies[k + 1].version, asked, replies, k + 2)
  }

  /** After k replies the client is at pc, and in the end at `last`, where it asks nothing. */
  ghost predicate Reaches(id: string, from: Pc, es: seq<Event>, k: nat, pc: Pc, last: Pc) {
    k <= |es| && Script(id, from, es) && Walk(id, from, es) == last && (last.Held? || last.Idle?) && Walk(id, from, es[..k]) == pc
  }

  lemma NextCall(id: string, from: Pc, es: seq<Event>, k: nat, pc: Pc, last: Pc)
    requires Reaches(id, from, es, k, pc, last)
    ensures pc.Held? || pc.Idle? ==> k == |es| && pc == last
    ensures !pc.Held? && !pc.Idle? ==>
              && k < |es| && Calls(id, from, es)[k] == Wanted(id, pc) && Fits(pc, es[k])
              && Reaches(id, from, es, k + 1, After(id, pc, es[k]), last)
    ensures |Calls(id, from, es)| == |es|
  {
    hide After, Walk;
    assert es[..|es|] == es;
    if k < |es| {
      OneMore(id, from, es, k);
      assert Fits(pc, es[k]);
    }
  }

  lemma {:induction false} Acquires(id: string, from: Pc, es: seq<Event>, k: nat, v: nat)
    requires id != "" && Reaches(id, from, es, k, Reading, Held(v))
    ensures AcquireFlow(id, Calls(id, from, es), es, k, v)
    decreases |es| - k
  {
    hide Reaches, Calls;
    NextCall(id, from, es, k, Reading, Held(v));
    match es[k] {
      case NoKey => Claims(id, from, es, k + 1, 0, v);
      case Saw(value, version) =>
        if value == id {
          NextCall(id, from, es, k + 1, Held(version), Held(v));
        } else if value == "" {
          Claims(id, from, es, k + 1, version, v);
        } else {
          NextCall(id, from, es, k + 1, Reading, Held(v));
          Acquires(id, from, es, k + 1, v);
        }
    }
  }

  lemma {:induction false} Claims(id: string, from: Pc, es: seq<Event>, k: nat, version: nat, v: nat)
    requires id != "" && Reaches(id, from, es, k, Claiming(version), Held(v))
    ensures ClaimFlow(id, version, Calls(id, from, es), es, k, v)
    decreases |es| - k
  {
    hide Reaches, Calls;
    NextCall(id, from, es, k, Claiming(version), Held(v));
    if es[k].err == OK {
      NextCall(id, from, es, k + 1, Held(version + 1), Held(v));
    } else {
      NextCall(id, from, es, k + 1, Reading, Held(v));
      Acquires(id, from, es, k + 1, v);
    }
  }

  lemma {:induction false} Releases(id: string, from: Pc, es: seq<Event>, k: nat, v: nat)
    requires id != "" && Reaches(id, from, es, k, Freeing(v), Idle)
    ensures ReleaseFlow(id, v, Calls(id, from, es), es, k)
    decreases |es| - k
  {
    hide Reaches, Calls;
    NextCall(id, from, es, k, Freeing(v), Idle);
    if es[k].err == OK {
      NextCall(id, from, es, k + 1, Idle, Idle);
    } else {
      NextCall(id, from, es, k + 1, Verifying(v), Idle);
      if es[k + 1].Saw? && es[k + 1].value == id {
        NextCall(id, from, es, k + 2, Freeing(es[k + 1].version), Idle);
        Releases(id, from, es, k + 2, es[k + 1].version);
      } else {
        NextCall(id, from, es, k + 2, Idle, Idle);
      }
    }
  }

  class Lock {
    const id: string
    const link: Link<Ask, Event>
    var version: nat

    constructor (id: string, link: Link<Ask, Event>)
      ensures this.id == id && this.link == link
    {
      this.id, this.link, this.version := id, link, 0;
    }

    /** From state `from` on, the calls so far were the right ones and have led to `pc`. */
    ghost predicate At(from: Pc, pc: Pc)
      reads link
    {
      && |link.asked| <= |link.replies| && Script(id, from, link.replies)
      && link.asked == Calls(id, from, link.replies[..|link.asked|])
      && Walk(id, from, link.replies[..|link.asked|]) == pc
    }

    method Call(w: Ask, ghost from: Pc, ghost pc: Pc) returns (e: Event)
      requires At(from, pc) && w == Wanted(id, pc) && |link.asked| < |link.replies|
      modifies link
      ensures Fits(pc, e) && At(from, After(id, pc, e)) && |link.asked| == |old(link.asked)| + 1
    {
      hide Walk;
      OneMore(id, from, link.replies, |link.asked|);
      e := link.Call(w);
    }

    lemma MoreReplies(from: Pc, pc: Pc)
      requires At(from, pc) && pc != Walk(id, from, link.replies)
      ensures |link.asked| < |link.replies|
    {
      assert link.replies[..|link.replies|] == link.replies;
    }

    /** Returns in state Held: the server has told the client that it stores its id, and the lock
        remembers the version at which it does. */
    method Acquire()
      requires id != "" && link.asked == []
      requires Script(id, Reading, link.replies) && Walk(id, Reading, link.replies).Held?
      modifies `version, link
      ensures At(Reading, Held(version))
      ensures AcquireFlow(id, link.asked, link.replies, 0, version)
    {
      hide Walk, Script, Calls, AcquireFlow;
      Begin(Reading);
      while true
        invariant At(Reading, Reading)
        decreases |link.replies| - |link.asked|
      {
        MoreReplies(Reading, Reading);
        var got := Call(AskGet, Reading, Reading);
        match got {
          case NoKey =>
            MoreReplies(Reading, Claiming(0));
            var put := Call(AskPut(id, 0), Reading, Claiming(0));
            if put.err == OK {
              version := 1;
              AcquireEnds();
              return;
            }
          case Saw(value, ver) =>
            if value == id {
              version := ver;
              AcquireEnds();
              return;
            }
            if value == "" {
              MoreReplies(Reading, Claiming(ver));
              var put := Call(AskPut(id, ver), Reading, Claiming(ver));
              if put.err == OK {
                version := ver + 1;
                AcquireEnds();
                return;
              }
            }
        }
      }
    }

    /** Returns in state Idle. */
    method Release()
      requires id != "" && link.asked == []
      requires Script(id, Freeing(version), link.replies) && Walk(id, Freeing(version), link.replies).Idle?
      modifies link
      ensures At(Freeing(version), Idle)
      ensures ReleaseFlow(id, version, link.asked, link.replies, 0)
    {
      hide Walk, Script, Calls, ReleaseFlow;
      Begin(Freeing(version));
      ghost var from := Freeing(version);
      MoreReplies(from, from);
      var put := Call(AskPut("", version), from, from);
      ghost var last := version;
      while put.err != OK
        invariant put.Wrote? && At(from, Answered(Freeing(last), put.err == OK))
        decreases |link.replies| - |link.asked|
      {
        MoreReplies(from, Verifying(last));
        var got := Call(AskGet, from, Verifying(last));
        if got.NoKey? || got.value != id {
          ReleaseEnds();
          return;
        }
        last := got.version;
        MoreReplies(from, Freeing(last));
        put := Call(AskPut("", got.version), from, Freeing(last));
      }
      ReleaseEnds();
    }

    /** Nothing is asked after the end, so all replies have been used. */
    lemma AllAsked(from: Pc, pc: Pc)
      requires At(from, pc) && (pc.Held? || pc.Idle?) && (Walk(id, from, link.replies).Held? || Walk(id, from, link.replies).Idle?)
      ensures link.asked == Calls(id, from, link.replies) && Walk(id, from, link.replies) == pc
    {
      assert link.replies[..|link.replies|] == link.replies;
      NextCall(id, from, link.replies, |link.asked|, pc, Walk(id, from, link.replies));
    }

    lemma AcquireEnds()
      requires id != "" && At(Reading, Held(version)) && Walk(id, Reading, link.replies).Held?
      ensures AcquireFlow(id, link.asked, link.replies, 0, version)
    {
      hide At, Walk, AcquireFlow;
      AllAsked(Reading, Held(version));
      StartsAt(Reading, Held(version));
      Acquires(id, Reading, link.replies, 0, version);
    }

    lemma ReleaseEnds()
      requires id != "" && At(Freeing(version), Idle) && Walk(id, Freeing(version), link.replies).Idle?
      ensures ReleaseFlow(id, version, link.asked, link.replies, 0)
    {
      hide At, Walk, ReleaseFlow;
      AllAsked(Freeing(version), Idle);
      StartsAt(Freeing(version), Idle);
      Releases(id, Freeing(version), link.replies, 0, version);
    }

    lemma StartsAt(from: Pc, last: Pc)
      requires At(from, last) && Walk(id, from, link.replies) == last && (last.Held? || last.Idle?)
      ensures Reaches(id, from, link.replies, 0, from, last)
    {
    }

    lemma Begin(pc: Pc)
      requires link.asked == [] && Script(id, pc, link.replies)
      ensures At(pc, pc)
    {
    }
  }
}
