/**
 * The integer-time prototype of the kernel (model.go): the same serialized
 * loop as the engine, run until the clock reaches 10, with its two demo
 * actors wired to one FIFO of ints. The generator enqueues two 1s and waits
 * 5; the processor reads a value and waits that long, blocking when the
 * queue is empty. Which of the two suspends first at startup is left to the
 * goroutine scheduler in Go and is a parameter here.
 */
module Prototype {
  import opened Wrappers
  import opened Heaps

  type ActorId = nat

  const Generator: ActorId := 0
  const Processor: ActorId := 1
  /** The loop runs while the clock is below 10. */
  const Threshold: int := 10

  datatype ProtoEvent = ProtoEvent(time: int, owner: ActorId)

  /** priorityQueue.Less compares the integer due times. */
  function ProtoKey(e: ProtoEvent): real
  {
    e.time as real
  }

  /** queue: a linked list of ints used as a FIFO. */
  class IntQueue {
    var elems: seq<int>

    constructor ()
      ensures elems == []
    {
      elems := [];
    }

    method Enqueue(v: int)
      modifies this
      ensures elems == old(elems) + [v]
    {
      elems := elems + [v];
    }

    /** dequeue: the oldest value. Go faults on an empty list. */
    method Dequeue() returns (v: int)
      requires |elems| > 0
      modifies this
      ensures v == old(elems[0]) && elems == old(elems[1..])
    {
      v := elems[0];
      elems := elems[1..];
    }

    function Len(): (n: nat)
      reads this
      ensures n == |elems|
    {
      |elems|
    }
  }

  /** The oldest of the values enqueued after xs comes out first. */
  method DequeueOldest(xs: seq<int>, v: int, w: int) returns (first: int, second: int)
    ensures first == (if xs == [] then v else xs[0])
    ensures second == (if |xs| > 1 then xs[1] else if xs == [] then w else v)
  {
    var q := new IntQueue();
    var i := 0;
    while i < |xs|
      invariant 0 <= i <= |xs| && q.elems == xs[..i]
    {
      q.Enqueue(xs[i]);
      assert xs[..i + 1] == xs[..i] + [xs[i]];
      i := i + 1;
    }
    assert xs[..i] == xs;
    q.Enqueue(v);
    q.Enqueue(w);
    first := q.Dequeue();
    second := q.Dequeue();
  }

  datatype Halt = Reached | FuelExhausted

  /** What a retry of blocked readers leaves: the queue, the readers blocked again, the events added. */
  datatype Retry = Retry(queue: seq<int>, blocked: seq<ActorId>, events: multiset<ProtoEvent>)

  /**
   * The blocked readers, signalled in order at clock value now: a reader
   * finding a value takes the front one and waits that long; a reader
   * finding the queue empty blocks again.
   */
  function Retried(readers: seq<ActorId>, queue: seq<int>, now: int): Retry
    decreases |readers|
  {
    if readers == [] then Retry(queue, [], multiset{})
    else if queue == [] then
      var rest := Retried(readers[1..], queue, now);
      Retry(rest.queue, [readers[0]] + rest.blocked, rest.events)
    else
      var rest := Retried(readers[1..], queue[1..], now);
      Retry(rest.queue, rest.blocked, rest.events + multiset{ProtoEvent(now + queue[0], readers[0])})
  }

  /** One signalled reader: what it takes from the queue and what it adds is what Retried accounts for. */
  lemma RetryStep(rs: seq<ActorId>, qe: seq<int>, now: int, b: seq<ActorId>, pe: multiset<ProtoEvent>,
                  q2: seq<int>, b2: seq<ActorId>, pe2: multiset<ProtoEvent>)
    requires rs != []
    requires qe != [] ==> q2 == qe[1..] && b2 == b && pe2 == pe + multiset{ProtoEvent(now + qe[0], rs[0])}
    requires qe == [] ==> q2 == qe && b2 == b + [rs[0]] && pe2 == pe
    ensures var r, r2 := Retried(rs, qe, now), Retried(rs[1..], q2, now);
      r2.queue == r.queue && b2 + r2.blocked == b + r.blocked && pe2 + r2.events == pe + r.events
  {
    if qe == [] {
      assert b + [rs[0]] + Retried(rs[1..], q2, now).blocked == b + ([rs[0]] + Retried(rs[1..], q2, now).blocked);
    }
  }

  /**
   * Of the blocked readers, the first min(readers, values) each take one
   * value and schedule one event, and the rest block again, in the same order.
   */
  lemma {:induction false} RetriedSplits(readers: seq<ActorId>, queue: seq<int>, now: int)
    ensures var n := if |readers| < |queue| then |readers| else |queue|;
      var r := Retried(readers, queue, now);
      r.queue == queue[n..] && r.blocked == readers[n..] && |r.events| == n
    decreases |readers|
  {
    if readers != [] {
      if queue == [] {
        RetriedSplits(readers[1..], queue, now);
      } else {
        RetriedSplits(readers[1..], queue[1..], now);
      }
    }
  }

  /** The events of the first n readers, the k-th taking the k-th queued value. */
  function Takes(readers: seq<ActorId>, queue: seq<int>, now: int, n: nat): (es: seq<ProtoEvent>)
    requires n <= |readers| && n <= |queue|
    ensures |es| == n && forall k :: 0 <= k < n ==> es[k] == ProtoEvent(now + queue[k], readers[k])
  {
    seq(n, k requires 0 <= k < n => ProtoEvent(now + queue[k], readers[k]))
  }

  lemma TakesFirst(readers: seq<ActorId>, queue: seq<int>, now: int, n: nat)
    requires 0 < n <= |readers| && n <= |queue|
    ensures multiset(Takes(readers, queue, now, n)) ==
      multiset(Takes(readers[1..], queue[1..], now, n - 1)) + multiset{ProtoEvent(now + queue[0], readers[0])}
  {
    var e := ProtoEvent(now + queue[0], readers[0]);
    var all, rest := Takes(readers, queue, now, n), Takes(readers[1..], queue[1..], now, n - 1);
    assert all == [e] + rest by {
      forall k | 0 <= k < n ensures all[k] == ([e] + rest)[k] {
        if k > 0 {
          assert rest[k - 1] == ProtoEvent(now + queue[1..][k - 1], readers[1..][k - 1]);
        }
      }
    }
  }

  /** Reader k of the first min(readers, values) schedules its event at now plus the k-th value. */
  lemma {:induction false} RetriedEvents(readers: seq<ActorId>, queue: seq<int>, now: int)
    ensures var n := if |readers| < |queue| then |readers| else |queue|;
      Retried(readers, queue, now).events == multiset(Takes(readers, queue, now, n))
    decreases |readers|
  {
    var n := if |readers| < |queue| then |readers| else |queue|;
    if readers == [] || queue == [] {
      assert Takes(readers, queue, now, n) == [];
      if readers != [] {
        RetriedEvents(readers[1..], queue, now);
      }
    } else {
      RetriedEvents(readers[1..], queue[1..], now);
      TakesFirst(readers, queue, now, n);
    }
  }

  /** With positive values in the queue, no event a retry adds is due before the clock moves on. */
  lemma {:induction false} RetriedNotEarly(readers: seq<ActorId>, queue: seq<int>, now: int)
    requires forall i :: 0 <= i < |queue| ==> queue[i] > 0
    ensures forall e :: e in Retried(readers, queue, now).events ==> e.time > now
    decreases |readers|
  {
    if readers != [] {
      if queue == [] {
        RetriedNotEarly(readers[1..], queue, now);
      } else {
        assert forall i :: 0 <= i < |queue[1..]| ==> queue[1..][i] == queue[i + 1];
        RetriedNotEarly(readers[1..], queue[1..], now);
      }
    }
  }

  /** The prototype model with its two actors and their queue. */
  class ProtoModel {
    var time: int
    const pq: Heap<ProtoEvent>
    var blocked: seq<ActorId>
    var actorCount: nat
    /** The queue main wires from the generator to the processor. */
    const q: IntQueue
    /** The generator's pending event: it never blocks, so it always has one. */
    ghost var genEvent: ProtoEvent

    ghost predicate Valid()
      reads this, pq
    {
      pq.Valid() && pq.key == ProtoKey
    }

    /**
     * What the two demo actors keep true: the queue holds only 1s, no event
     * is due before the clock, the generator's event is pending, and only
     * the processor ever blocks.
     */
    ghost predicate Demo()
      reads this, pq, q
    {
      Calm() && genEvent in pq.elems && genEvent.owner == Generator
    }

    /** Demo without the generator's pending event, which is missing while the generator runs. */
    ghost predicate Calm()
      reads this, pq, q
    {
      (forall i :: 0 <= i < |q.elems| ==> q.elems[i] == 1) &&
      (forall e :: e in pq.elems ==> time <= e.time && (e.owner == Generator || e.owner == Processor)) &&
      (forall i :: 0 <= i < |blocked| ==> blocked[i] == Processor)
    }

    /** newModel plus main's queue. */
    constructor ()
      ensures Valid() && fresh(pq) && fresh(q)
      ensures time == 0 && pq.elems == [] && blocked == [] && actorCount == 0 && q.elems == []
    {
      time := 0;
      pq := new Heap(ProtoKey);
      blocked := [];
      actorCount := 0;
      q := new IntQueue();
    }

    /** registerActor (the goroutine launch is left out). */
    method RegisterActor()
      modifies this
      ensures actorCount == old(actorCount) + 1
      ensures time == old(time) && blocked == old(blocked) && genEvent == old(genEvent)
    {
      actorCount := actorCount + 1;
    }

    /** actor.wait(d): an event due at the integer time d + now. */
    method Wait(a: ActorId, d: int)
      requires Valid()
      modifies pq
      ensures Valid()
      ensures multiset(pq.elems) == old(multiset(pq.elems)) + multiset{ProtoEvent(d + time, a)}
    {
      pq.Push(ProtoEvent(d + time, a));
    }

    /** actor.readInQueue, one attempt: the front value, or None where the actor blocks. */
    method ReadInQueue() returns (v: Option<int>)
      modifies q
      ensures v.Some? <==> old(|q.elems|) > 0
      ensures v.Some? ==> v.value == old(q.elems[0]) && q.elems == old(q.elems[1..])
      ensures v.None? ==> q.elems == old(q.elems)
    {
      if q.Len() > 0 {
        var x := q.Dequeue();
        return Some(x);
      }
      return None;
    }

    /** The generator between two suspensions: enqueue 1 twice, then wait(5). */
    method ResumeGenerator()
      requires Valid()
      modifies q, pq
      ensures Valid()
      ensures q.elems == old(q.elems) + [1, 1]
      ensures multiset(pq.elems) == old(multiset(pq.elems)) + multiset{ProtoEvent(time + 5, Generator)}
    {
      q.Enqueue(1);
      q.Enqueue(1);
      Wait(Generator, 5);
    }

    /**
     * The processor between two suspensions: read a value and wait that
     * long, or block on the empty queue.
     */
    method ResumeProcessor()
      requires Valid()
      modifies this, q, pq
      ensures Valid() && time == old(time) && genEvent == old(genEvent) && actorCount == old(actorCount)
      ensures old(|q.elems|) > 0 ==>
        (q.elems == old(q.elems[1..]) && blocked == old(blocked) &&
         multiset(pq.elems) == old(multiset(pq.elems)) + multiset{ProtoEvent(time + old(q.elems[0]), Processor)})
      ensures old(|q.elems|) == 0 ==>
        (q.elems == old(q.elems) && pq.elems == old(pq.elems) && blocked == old(blocked) + [Processor])
    {
      var v := ReadInQueue();
      match v
      case Some(d) =>
        Wait(Processor, d);
      case None =>
        blocked := blocked + [Processor];
    }

    /** Resumes actor a: the generator or the processor. */
    method Resume(a: ActorId)
      requires Valid() && Calm() && (a == Generator || a == Processor)
      modifies this, q, pq
      ensures Valid() && Calm() && time == old(time) && actorCount == old(actorCount)
      ensures a == Generator ==> genEvent == ProtoEvent(time + 5, Generator) && genEvent in pq.elems
      ensures a == Processor ==> genEvent == old(genEvent) && (old(genEvent) in old(pq.elems) ==> genEvent in pq.elems)
      ensures a == Generator ==>
        q.elems == old(q.elems) + [1, 1] && blocked == old(blocked) &&
        multiset(pq.elems) == old(multiset(pq.elems)) + multiset{ProtoEvent(time + 5, Generator)}
      ensures a == Processor && old(|q.elems|) > 0 ==>
        q.elems == old(q.elems[1..]) && blocked == old(blocked) &&
        multiset(pq.elems) == old(multiset(pq.elems)) + multiset{ProtoEvent(time + old(q.elems[0]), Processor)}
      ensures a == Processor && old(|q.elems|) == 0 ==>
        q.elems == old(q.elems) && pq.elems == old(pq.elems) && blocked == old(blocked) + [Processor]
    {
      ghost var before := pq.elems;
      if a == Generator {
        ResumeGenerator();
        genEvent := ProtoEvent(time + 5, Generator);
        assert genEvent in multiset(pq.elems);
      } else {
        ResumeProcessor();
      }
      forall e | e in pq.elems ensures time <= e.time && (e.owner == Generator || e.owner == Processor) {
        assert e in multiset(pq.elems);
        if e in multiset(before) {
          assert e in before;
        }
      }
      if a == Processor && old(genEvent) in before {
        assert old(genEvent) in multiset(before);
        assert old(genEvent) in multiset(pq.elems);
      }
    }

    /**
     * The retry of the blocked readers before a clock advance: the list is
     * replaced by an empty one and each reader on it is signalled once, in
     * order, and reads again, as Retried describes.
     */
    method RetryBlocked() returns (signalled: seq<ActorId>)
      requires Valid() && Demo()
      modifies this, q, pq
      ensures Valid() && Demo() && time == old(time) && actorCount == old(actorCount)
      ensures signalled == old(blocked)
      ensures var r := Retried(old(blocked), old(q.elems), time);
        q.elems == r.queue && blocked == r.blocked && multiset(pq.elems) == old(multiset(pq.elems)) + r.events
    {
      signalled := blocked;
      blocked := [];
      ghost var all := Retried(signalled, q.elems, time);
      var k := 0;
      while k < |signalled|
        invariant 0 <= k <= |signalled| && Valid() && Demo()
        invariant time == old(time) && actorCount == old(actorCount) && signalled == old(blocked)
        invariant var r := Retried(signalled[k..], q.elems, time);
          r.queue == all.queue && blocked + r.blocked == all.blocked &&
          multiset(pq.elems) + r.events == old(multiset(pq.elems)) + all.events
      {
        RetryOne(signalled[k..]);
        assert signalled[k..][1..] == signalled[k + 1..];
        k := k + 1;
      }
    }

    /** Signals the first of the readers rs: one step of Retried. */
    method RetryOne(rs: seq<ActorId>)
      requires Valid() && Demo() && rs != [] && rs[0] == Processor
      modifies this, q, pq
      ensures Valid() && Demo() && time == old(time) && actorCount == old(actorCount)
      ensures var r, r2 := Retried(rs, old(q.elems), time), Retried(rs[1..], q.elems, time);
        r2.queue == r.queue && blocked + r2.blocked == old(blocked) + r.blocked &&
        multiset(pq.elems) + r2.events == old(multiset(pq.elems)) + r.events
    {
      Resume(rs[0]);
      RetryStep(rs, old(q.elems), time, old(blocked), old(multiset(pq.elems)), q.elems, blocked, multiset(pq.elems));
    }

    /** The startup loop for the two demo actors, in the order they first suspend. */
    method Startup(generatorFirst: bool)
      requires Valid() && actorCount == 2 && time == 0 && pq.elems == [] && blocked == [] && q.elems == []
      modifies this, q, pq
      ensures Valid() && Demo() && time == 0 && actorCount == 2
    {
      if generatorFirst {
        Resume(Generator);
        Resume(Processor);
      } else {
        Resume(Processor);
        Resume(Generator);
      }
    }

    /**
     * run()'s main loop, for at most fuel rounds. The event queue is never
     * empty when popped, because the generator always has an event pending.
     */
    method Run(fuel: nat) returns (h: Halt)
      requires Valid() && Demo()
      modifies this, q, pq
      ensures Valid() && Demo() && actorCount == old(actorCount)
      ensures h == Reached <==> Threshold <= time
      ensures old(time) <= time
    {
      var rounds := 0;
      while time < Threshold
        invariant Valid() && Demo() && old(time) <= time && actorCount == old(actorCount)
        invariant 0 <= rounds <= fuel
        decreases fuel - rounds
      {
        if rounds == fuel {
          return FuelExhausted;
        }
        if |blocked| > 0 {
          var _ := RetryBlocked();
        }
        assert genEvent in multiset(pq.elems);
        ghost var before := pq.elems;
        var e := pq.Pop();
        time := e.time;
        forall y | y in pq.elems ensures time <= y.time && (y.owner == Generator || y.owner == Processor) {
          assert y in multiset(pq.elems);
          assert y in multiset(before);
          assert y in before;
          assert pq.key(e) <= pq.key(y);
        }
        if e.owner == Processor {
          assert genEvent != e;
          assert genEvent in multiset(before);
          assert genEvent in multiset(pq.elems);
        }
        Resume(e.owner);
        rounds := rounds + 1;
      }
      return Reached;
    }
  }

  /**
   * main: register the generator and the processor, start them in the given
   * order and run. The run never faults on an empty event queue, the clock
   * never goes below zero, it stops once the clock reaches 10, and the queue
   * only ever holds 1s.
   */
  method Simulate(generatorFirst: bool, fuel: nat) returns (h: Halt, time: int, queued: seq<int>)
    ensures h == Reached <==> Threshold <= time
    ensures 0 <= time
    ensures forall i :: 0 <= i < |queued| ==> queued[i] == 1
  {
    var m := new ProtoModel();
    m.RegisterActor();
    m.RegisterActor();
    m.Startup(generatorFirst);
    h := m.Run(fuel);
    time, queued := m.time, m.q.elems;
  }
}
