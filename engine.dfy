/**
 * The simulation kernel (engine/model.go) as a serialized machine. Every
 * actor runs between two suspensions; what it does there is outside the
 * kernel, which sees only how the actor suspended: with a timed wait, which
 * schedules an event, or blocked on an empty in-queue. The channel handshake
 * that carries these suspensions is replaced by the parameters of the
 * kernel's methods.
 */
module Engine {
  import opened Wrappers
  import opened Heaps
  import opened Queues

  type ActorId = nat

  /** How an actor suspended: Wait(d), or ReadInQueue on an empty queue. */
  datatype Suspension = Waits(d: real) | Blocks

  /** An event: its due time and the actor that owns it (the toOwner channel). */
  datatype Event = Event(time: real, owner: ActorId)

  /** priorityQueue.Less compares due times. */
  function EventTime(e: Event): real
  {
    e.time
  }

  /** Actor.Wait(d) at clock value now: the event is due at d + now. */
  function WaitEvent(now: real, d: real, owner: ActorId): (e: Event)
    ensures e.time == now + d && e.owner == owner
    ensures 0.0 <= d ==> now <= EventTime(e)
  {
    Event(d + now, owner)
  }

  /** The readers that block again when the readers are signalled in order and answer with replies. */
  function Reblocked(readers: seq<ActorId>, replies: seq<Suspension>): seq<ActorId>
    requires |readers| == |replies|
  {
    if readers == [] then []
    else
      var n := |readers| - 1;
      Reblocked(readers[..n], replies[..n]) + (if replies[n].Blocks? then [readers[n]] else [])
  }

  /** The events the signalled readers schedule. */
  function WokenEvents(readers: seq<ActorId>, replies: seq<Suspension>, now: real): multiset<Event>
    requires |readers| == |replies|
  {
    if readers == [] then multiset{}
    else
      var n := |readers| - 1;
      WokenEvents(readers[..n], replies[..n], now) +
      (if replies[n].Waits? then multiset{WaitEvent(now, replies[n].d, readers[n])} else multiset{})
  }

  ghost predicate NonNegativeWaits(replies: seq<Suspension>)
  {
    forall i :: 0 <= i < |replies| && replies[i].Waits? ==> 0.0 <= replies[i].d
  }

  /**
   * Every signalled reader answers exactly once: it blocks again or schedules
   * one event.
   */
  lemma {:induction false} RetryConserves(readers: seq<ActorId>, replies: seq<Suspension>, now: real)
    requires |readers| == |replies|
    ensures |Reblocked(readers, replies)| + |WokenEvents(readers, replies, now)| == |readers|
  {
    if readers != [] {
      var n := |readers| - 1;
      RetryConserves(readers[..n], replies[..n], now);
    }
  }

  /** Readers that answer with non-negative waits schedule no event before now. */
  lemma {:induction false} WokenNotEarly(readers: seq<ActorId>, replies: seq<Suspension>, now: real)
    requires |readers| == |replies| && NonNegativeWaits(replies)
    ensures forall e :: e in WokenEvents(readers, replies, now) ==> now <= e.time
  {
    if readers != [] {
      var n := |readers| - 1;
      assert NonNegativeWaits(replies[..n]) by {
        forall i | 0 <= i < n && replies[..n][i].Waits? ensures 0.0 <= replies[..n][i].d {
          assert replies[..n][i] == replies[i];
        }
      }
      WokenNotEarly(readers[..n], replies[..n], now);
    }
  }

  /** Those readers that block again, do so in the order they were signalled. */
  lemma {:induction false} ReblockedSubsequence(readers: seq<ActorId>, replies: seq<Suspension>)
    requires |readers| == |replies|
    ensures forall a :: a in Reblocked(readers, replies) ==> a in readers
    ensures (forall i :: 0 <= i < |replies| ==> replies[i].Blocks?) ==> Reblocked(readers, replies) == readers
  {
    if readers != [] {
      var n := |readers| - 1;
      ReblockedSubsequence(readers[..n], replies[..n]);
      assert readers[..n] + [readers[n]] == readers;
    }
  }

  /** Why a run ended. */
  datatype Halt =
    | Reached          // the clock is at or past the threshold
    | EmptyEventQueue  // heap.Pop on an empty queue: Go faults
    | OutOfReplies     // the replies given to the model ran out

  /** The kernel: clock, event priority queue, blocked readers and actor count. */
  class Kernel {
    var time: real
    const pq: Heap<Event>
    /** blockedInQueues: the actors blocked on an empty in-queue, in the order they blocked. */
    var blocked: seq<ActorId>
    var actorCount: nat
    /** The events dispatched so far, in order. */
    ghost var dispatched: seq<Event>

    ghost predicate Valid()
      reads this, pq
    {
      pq.Valid() && pq.key == EventTime
    }

    /** No pending event is due before the clock. */
    ghost predicate NothingEarly()
      reads this, pq
    {
      forall e :: e in pq.elems ==> time <= e.time
    }

    /** newModel */
    constructor ()
      ensures Valid() && NothingEarly() && fresh(pq)
      ensures time == 0.0 && pq.elems == [] && blocked == [] && actorCount == 0 && dispatched == []
    {
      time := 0.0;
      pq := new Heap(EventTime);
      blocked := [];
      actorCount := 0;
      dispatched := [];
    }

    /** RegisterActor: one more actor to wait for at startup (the goroutine launch is left out). */
    method RegisterActor()
      modifies this
      ensures actorCount == old(actorCount) + 1
      ensures time == old(time) && blocked == old(blocked) && dispatched == old(dispatched)
    {
      actorCount := actorCount + 1;
    }

    /** waitActor: receive one suspension from actor a. */
    method WaitActor(a: ActorId, s: Suspension)
      requires Valid()
      modifies this, pq
      ensures Valid()
      ensures multiset(pq.elems) == old(multiset(pq.elems)) + (if s.Waits? then multiset{WaitEvent(time, s.d, a)} else multiset{})
      ensures blocked == old(blocked) + (if s.Blocks? then [a] else [])
      ensures s.Blocks? ==> pq.elems == old(pq.elems)
      ensures time == old(time) && actorCount == old(actorCount) && dispatched == old(dispatched)
    {
      match s
      case Waits(d) =>
        pq.Push(WaitEvent(time, d, a));
      case Blocks =>
        blocked := blocked + [a];
    }

    /**
     * One waitActor per entry of actors, in order, actor actors[k] answering
     * with replies[k].
     */
    method Collect(actors: seq<ActorId>, replies: seq<Suspension>)
      requires Valid() && |actors| == |replies|
      modifies this, pq
      ensures Valid()
      ensures blocked == old(blocked) + Reblocked(actors, replies)
      ensures multiset(pq.elems) == old(multiset(pq.elems)) + WokenEvents(actors, replies, time)
      ensures time == old(time) && actorCount == old(actorCount) && dispatched == old(dispatched)
    {
      var k := 0;
      while k < |actors|
        invariant 0 <= k <= |actors| && Valid()
        invariant blocked == old(blocked) + Reblocked(actors[..k], replies[..k])
        invariant multiset(pq.elems) == old(multiset(pq.elems)) + WokenEvents(actors[..k], replies[..k], time)
        invariant time == old(time) && actorCount == old(actorCount) && dispatched == old(dispatched)
      {
        ghost var b0, m0 := blocked, multiset(pq.elems);
        WaitActor(actors[k], replies[k]);
        CollectInvariant(old(blocked), b0, blocked, old(multiset(pq.elems)), m0, multiset(pq.elems), actors, replies, k, time);
        k := k + 1;
      }
      assert actors[..k] == actors && replies[..k] == replies;
    }

    /**
     * The startup loop: exactly actorCount suspensions, from the actors in
     * the order they first suspend, before the main loop begins.
     */
    method Startup(starters: seq<ActorId>, replies: seq<Suspension>)
      requires Valid() && |starters| == actorCount && |replies| == actorCount
      modifies this, pq
      ensures Valid()
      ensures blocked == old(blocked) + Reblocked(starters, replies)
      ensures multiset(pq.elems) == old(multiset(pq.elems)) + WokenEvents(starters, replies, time)
      ensures time == old(time) && actorCount == old(actorCount) && dispatched == old(dispatched)
    {
      Collect(starters, replies);
    }

    /**
     * Signal every blocked reader once, in FIFO order, each answering with
     * its reply. The list is replaced by an empty one first, so readers that
     * block again go to the new list.
     */
    method RetryBlocked(replies: seq<Suspension>) returns (signalled: seq<ActorId>)
      requires Valid() && |replies| == |blocked|
      modifies this, pq
      ensures Valid()
      ensures signalled == old(blocked)
      ensures blocked == Reblocked(old(blocked), replies)
      ensures multiset(pq.elems) == old(multiset(pq.elems)) + WokenEvents(old(blocked), replies, time)
      ensures time == old(time) && actorCount == old(actorCount) && dispatched == old(dispatched)
    {
      signalled := blocked;
      blocked := [];
      Collect(signalled, replies);
    }

    /** The earliest event is popped and the clock is set to its time; Go faults on an empty queue. */
    method Dispatch() returns (e: Option<Event>)
      requires Valid()
      modifies this, pq
      ensures Valid()
      ensures e.None? <==> old(|pq.elems|) == 0
      ensures e.None? ==> pq.elems == old(pq.elems) && time == old(time) && dispatched == old(dispatched)
      ensures e.Some? ==> e.value in old(pq.elems) && time == e.value.time
      ensures e.Some? ==> forall y :: y in old(pq.elems) ==> e.value.time <= y.time
      ensures e.Some? ==> multiset(pq.elems) + multiset{e.value} == old(multiset(pq.elems))
      ensures e.Some? ==> dispatched == old(dispatched) + [e.value]
      ensures blocked == old(blocked) && actorCount == old(actorCount)
    {
      if pq.Len() == 0 {
        return None;
      }
      var ev := pq.Pop();
      time := ev.time;
      dispatched := dispatched + [ev];
      return Some(ev);
    }

    /** Dispatched events came out in order of due time, none after the clock. */
    ghost predicate DispatchOrdered()
      reads this
    {
      Ordered(dispatched, time)
    }

    /**
     * The second half of a round: pop the earliest event and set the clock
     * to its time, then receive the suspension of its owner, reply.
     * Some(EmptyEventQueue) where Go faults on the pop.
     */
    method Advance(reply: Suspension) returns (r: Option<Halt>)
      requires Valid()
      modifies this, pq
      ensures Valid() && actorCount == old(actorCount)
      ensures r.None? || r == Some(EmptyEventQueue)
      ensures r.Some? <==> old(|pq.elems|) == 0
      ensures r.Some? ==> pq.elems == [] && time == old(time) && dispatched == old(dispatched) && blocked == old(blocked)
      ensures r.None? ==> |dispatched| == old(|dispatched|) + 1 && dispatched[..old(|dispatched|)] == old(dispatched)
      ensures r.None? ==>
        var e := dispatched[|dispatched| - 1];
        time == e.time && e in old(multiset(pq.elems)) &&
        (forall y :: y in old(multiset(pq.elems)) ==> e.time <= y.time) &&
        multiset(pq.elems) == old(multiset(pq.elems)) - multiset{e} +
          (if reply.Waits? then multiset{WaitEvent(time, reply.d, e.owner)} else multiset{}) &&
        blocked == old(blocked) + (if reply.Blocks? then [e.owner] else [])
      ensures (reply.Waits? ==> 0.0 <= reply.d) && old(NothingEarly()) && old(DispatchOrdered()) ==>
        NothingEarly() && DispatchOrdered() && old(time) <= time
    {
      ghost var nonneg := (reply.Waits? ==> 0.0 <= reply.d) && NothingEarly() && DispatchOrdered();
      ghost var mid := pq.elems;
      var e := Dispatch();
      if e.None? {
        return Some(EmptyEventQueue);
      }
      ghost var after := pq.elems;
      PopAccount(mid, after, multiset(mid), e.value);
      WaitActor(e.value.owner, reply);
      if nonneg {
        OrderedAppend(old(dispatched), old(time), e.value);
        BoundedAfterRemove(after, mid, e.value);
        var extra := if reply.Waits? then multiset{WaitEvent(time, reply.d, e.value.owner)} else multiset{};
        BoundedAfterAdd(pq.elems, after, extra, time);
      }
      return None;
    }

    /**
     * One round of run(threshold)'s loop: signal the blocked readers, who
     * answer with answers, then dispatch the earliest of the pending events
     * (those queued before and those the readers schedule), whose owner
     * answers with reply. Some(EmptyEventQueue) where Go faults on the pop,
     * which is exactly when no event is pending.
     */
    method Round(answers: seq<Suspension>, reply: Suspension) returns (r: Option<Halt>)
      requires Valid() && |answers| == |blocked|
      modifies this, pq
      ensures Valid() && actorCount == old(actorCount)
      ensures r.None? || r == Some(EmptyEventQueue)
      ensures r.Some? ==> pq.elems == [] && time == old(time) && dispatched == old(dispatched)
      ensures r.None? ==> |dispatched| == old(|dispatched|) + 1 && dispatched[..old(|dispatched|)] == old(dispatched)
      ensures r.None? ==> time == dispatched[|dispatched| - 1].time
      ensures var pending := old(multiset(pq.elems)) + WokenEvents(old(blocked), answers, old(time));
        (r.Some? <==> |pending| == 0) &&
        (r.None? ==>
          var e := dispatched[|dispatched| - 1];
          e in pending && (forall y :: y in pending ==> e.time <= y.time) &&
          multiset(pq.elems) == pending - multiset{e} +
            (if reply.Waits? then multiset{WaitEvent(time, reply.d, e.owner)} else multiset{}))
      ensures blocked == Reblocked(old(blocked), answers) +
        (if r.None? && reply.Blocks? then [dispatched[|dispatched| - 1].owner] else [])
      ensures NonNegativeWaits(answers + [reply]) && old(NothingEarly()) && old(DispatchOrdered()) ==>
        NothingEarly() && DispatchOrdered() && old(time) <= time
    {
      ghost var nonneg := NonNegativeWaits(answers + [reply]) && NothingEarly() && DispatchOrdered();
      ghost var readers, before := blocked, pq.elems;
      var _ := RetryBlocked(answers);
      if nonneg {
        NonNegativeSlice(answers + [reply], 0, |answers|);
        assert (answers + [reply])[0..|answers|] == answers;
        assert (answers + [reply])[|answers|] == reply;
        WokenNotEarly(readers, answers, time);
        BoundedAfterAdd(pq.elems, before, WokenEvents(readers, answers, time), time);
      }
      r := Advance(reply);
    }

    /**
     * run(threshold)'s main loop. replies holds the successive answers of
     * the actors the kernel resumes: in each round first those of the
     * blocked readers it signals, then that of the owner of the dispatched
     * event. `used` is how many were consumed.
     */
    method Run(threshold: real, replies: seq<Suspension>) returns (h: Halt, used: nat)
      requires Valid()
      modifies this, pq
      ensures Valid() && used <= |replies| && actorCount == old(actorCount)
      ensures h == Reached <==> threshold <= time
      ensures h == EmptyEventQueue ==> pq.elems == []
      ensures old(|dispatched|) <= |dispatched| && dispatched[..old(|dispatched|)] == old(dispatched)
      ensures time == old(time) || (|dispatched| > old(|dispatched|) && time == dispatched[|dispatched| - 1].time)
      ensures NonNegativeWaits(replies) && old(NothingEarly()) && old(DispatchOrdered()) ==>
        NothingEarly() && DispatchOrdered() && old(time) <= time
    {
      used := 0;
      ghost var d0 := |dispatched|;
      while time < threshold
        invariant Valid() && used <= |replies| && actorCount == old(actorCount)
        invariant d0 <= |dispatched| && dispatched[..d0] == old(dispatched)
        invariant time == old(time) || (|dispatched| > d0 && time == dispatched[|dispatched| - 1].time)
        invariant NonNegativeWaits(replies) && old(NothingEarly()) && old(DispatchOrdered()) ==>
          NothingEarly() && DispatchOrdered() && old(time) <= time
        decreases |replies| - used
      {
        if |replies| - used < |blocked| + 1 {
          return OutOfReplies, used;
        }
        var n := |blocked|;
        ghost var t0, ds := time, dispatched;
        if NonNegativeWaits(replies) {
          NonNegativeSlice(replies, used, used + n + 1);
          assert replies[used..used + n] + [replies[used + n]] == replies[used..used + n + 1];
        }
        var r := Round(replies[used..used + n], replies[used + n]);
        if r.Some? {
          return r.value, used + n;
        }
        assert dispatched[..d0] == ds[..d0];
        used := used + n + 1;
      }
      return Reached, used;
    }
  }

  /**
   * Actor.ReadInQueue, one attempt: the front of the in-queue when there is
   * one. On None the actor suspends with Blocks and tries again when it is
   * signalled.
   */
  method TryReadInQueue<T>(q: Queue<T>) returns (x: Option<T>)
    modifies q
    ensures x.Some? <==> old(|q.elems|) > 0
    ensures x.Some? ==> x.value == old(q.elems[0]) && q.elems == old(q.elems[1..])
    ensures x.None? ==> q.elems == old(q.elems)
  {
    if q.Len() > 0 {
      var v := q.Dequeue();
      return Some(v);
    }
    return None;
  }

  /**
   * A whole simulation: `starters` register, suspend once each at startup
   * with startReplies, then the main loop runs on replies. The run reaches
   * the threshold exactly when it halts with Reached, and with non-negative
   * waits the clock never goes below its start.
   */
  method Simulate(threshold: real, starters: seq<ActorId>, startReplies: seq<Suspension>,
                  replies: seq<Suspension>) returns (h: Halt, time: real)
    requires |starters| == |startReplies|
    ensures h == Reached <==> threshold <= time
    ensures NonNegativeWaits(startReplies) && NonNegativeWaits(replies) ==> 0.0 <= time
  {
    var k := new Kernel();
    var i := 0;
    while i < |starters|
      invariant 0 <= i <= |starters| && k.actorCount == i && k.Valid() && k.time == 0.0
      invariant k.pq.elems == [] && k.blocked == [] && k.dispatched == []
      modifies k
    {
      k.RegisterActor();
      i := i + 1;
    }
    ghost var before := k.pq.elems;
    k.Startup(starters, startReplies);
    if NonNegativeWaits(startReplies) {
      WokenNotEarly(starters, startReplies, k.time);
      BoundedAfterAdd(k.pq.elems, before, WokenEvents(starters, startReplies, k.time), k.time);
    }
    var used;
    h, used := k.Run(threshold, replies);
    time := k.time;
  }

  lemma NonNegativeSlice(replies: seq<Suspension>, i: nat, j: nat)
    requires NonNegativeWaits(replies) && i <= j <= |replies|
    ensures NonNegativeWaits(replies[i..j])
  {
    forall k | 0 <= k < j - i && replies[i..j][k].Waits? ensures 0.0 <= replies[i..j][k].d {
      assert replies[i..j][k] == replies[i + k];
    }
  }

  /** Adding events due no earlier than t to a queue whose events are all due no earlier than t. */
  lemma BoundedAfterAdd(s: seq<Event>, s0: seq<Event>, extra: multiset<Event>, t: real)
    requires multiset(s) == multiset(s0) + extra
    requires forall e :: e in s0 ==> t <= e.time
    requires forall e :: e in extra ==> t <= e.time
    ensures forall e :: e in s ==> t <= e.time
  {
    forall e | e in s ensures t <= e.time {
      assert e in multiset(s);
      if e !in extra {
        assert e in multiset(s0);
      }
    }
  }

  /** What stays in a queue after a pop was in it before. */
  lemma BoundedAfterRemove(s: seq<Event>, s0: seq<Event>, x: Event)
    requires multiset(s) + multiset{x} == multiset(s0)
    ensures forall e :: e in s ==> e in s0
  {
    forall e | e in s ensures e in s0 {
      assert e in multiset(s);
      assert e in multiset(s0);
    }
  }

  /** The event popped from a queue holding pending is in pending, is earliest there, and leaves the rest. */
  lemma PopAccount(s0: seq<Event>, s: seq<Event>, pending: multiset<Event>, x: Event)
    requires multiset(s0) == pending && x in s0 && (forall y :: y in s0 ==> x.time <= y.time)
    requires multiset(s) + multiset{x} == multiset(s0)
    ensures x in pending && (forall y :: y in pending ==> x.time <= y.time)
    ensures multiset(s) == pending - multiset{x}
  {
    forall y | y in pending ensures x.time <= y.time {
      assert y in multiset(s0);
    }
  }

  /** Reblocked and WokenEvents grow by one reader at a time. */
  lemma CollectStep(actors: seq<ActorId>, replies: seq<Suspension>, k: nat, now: real)
    requires |actors| == |replies| && k < |actors|
    ensures Reblocked(actors[..k + 1], replies[..k + 1]) ==
      Reblocked(actors[..k], replies[..k]) + (if replies[k].Blocks? then [actors[k]] else [])
    ensures WokenEvents(actors[..k + 1], replies[..k + 1], now) ==
      WokenEvents(actors[..k], replies[..k], now) +
      (if replies[k].Waits? then multiset{WaitEvent(now, replies[k].d, actors[k])} else multiset{})
  {
    assert actors[..k + 1][..k] == actors[..k] && replies[..k + 1][..k] == replies[..k];
  }

  /** One more waitActor keeps Collect's account of the blocked list and the new events. */
  lemma CollectInvariant(before: seq<ActorId>, b0: seq<ActorId>, b1: seq<ActorId>,
                         events: multiset<Event>, m0: multiset<Event>, m1: multiset<Event>,
                         actors: seq<ActorId>, replies: seq<Suspension>, k: nat, now: real)
    requires |actors| == |replies| && k < |actors|
    requires b0 == before + Reblocked(actors[..k], replies[..k])
    requires m0 == events + WokenEvents(actors[..k], replies[..k], now)
    requires b1 == b0 + (if replies[k].Blocks? then [actors[k]] else [])
    requires m1 == m0 + (if replies[k].Waits? then multiset{WaitEvent(now, replies[k].d, actors[k])} else multiset{})
    ensures b1 == before + Reblocked(actors[..k + 1], replies[..k + 1])
    ensures m1 == events + WokenEvents(actors[..k + 1], replies[..k + 1], now)
  {
    CollectStep(actors, replies, k, now);
  }

  /** Events in order of due time, none due after t. */
  ghost predicate Ordered(d: seq<Event>, t: real)
  {
    (forall i, j :: 0 <= i < j < |d| ==> d[i].time <= d[j].time) &&
    (forall i :: 0 <= i < |d| ==> d[i].time <= t)
  }

  /** Dispatching an event due no earlier than the clock keeps the dispatched events in order. */
  lemma OrderedAppend(d: seq<Event>, t: real, e: Event)
    requires Ordered(d, t) && t <= e.time
    ensures Ordered(d + [e], e.time)
  {
  }
}
