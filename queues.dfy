/**
 * The holding structures between actors (blocks/queue.go): a FIFO queue
 * whose ids come from a process-wide counter, and a priority queue of
 * requests ordered by their comparison value (the arrival time).
 */
module Queues {
  import opened Requests
  import opened Heaps

  /** The package-level `count` that NewQueue reads and increments. */
  class QueueCounter {
    var count: int
    /** The ids handed out so far, in creation order. */
    ghost var issued: seq<int>

    ghost predicate Valid()
      reads this
    {
      (forall i, j :: 0 <= i < j < |issued| ==> issued[i] < issued[j]) &&
      (forall i :: 0 <= i < |issued| ==> issued[i] < count)
    }

    constructor ()
      ensures Valid() && count == 0 && issued == []
    {
      count := 0;
      issued := [];
    }
  }

  /** Queue: a linked list used as a FIFO. */
  class Queue<T> {
    /** The list, front first. */
    var elems: seq<T>
    const id: int

    /** NewQueue: an empty queue whose id is the counter's value, which is then incremented. */
    constructor (counter: QueueCounter)
      requires counter.Valid()
      modifies counter
      ensures elems == [] && id == old(counter.count)
      ensures counter.count == old(counter.count) + 1
      ensures counter.issued == old(counter.issued) + [id]
      ensures counter.Valid()
    {
      elems := [];
      id := counter.count;
      counter.count := counter.count + 1;
      counter.issued := counter.issued + [counter.count - 1];
    }

    /** Enqueue: PushBack. */
    method Enqueue(x: T)
      modifies this
      ensures elems == old(elems) + [x]
    {
      elems := elems + [x];
    }

    /** Dequeue: removes and returns the front. Go faults on an empty list (Front is nil). */
    method Dequeue() returns (x: T)
      requires |elems| > 0
      modifies this
      ensures x == old(elems[0]) && elems == old(elems[1..])
    {
      x := elems[0];
      elems := elems[1..];
    }

    function Len(): (n: nat)
      reads this
      ensures n == |elems|
    {
      |elems|
    }
  }

  /** Ids issued by one counter are pairwise distinct. */
  lemma IdsDistinct(counter: QueueCounter, i: int, j: int)
    requires counter.Valid() && 0 <= i < |counter.issued| && 0 <= j < |counter.issued| && i != j
    ensures counter.issued[i] != counter.issued[j]
  {
    if i > j {
      assert counter.issued[j] < counter.issued[i];
    }
  }

  /** Two queues made one after the other from the same counter get ids in increasing order. */
  method TwoQueues<T>() returns (q1: Queue<T>, q2: Queue<T>)
    ensures q1.id == 0 && q2.id == 1
  {
    var counter := new QueueCounter();
    q1 := new Queue(counter);
    q2 := new Queue(counter);
  }

  /** n Enqueues followed by n Dequeues on a new queue give the elements back in order. */
  method FifoOrder<T>(xs: seq<T>) returns (ys: seq<T>)
    ensures ys == xs
  {
    var counter := new QueueCounter();
    var q := new Queue<T>(counter);
    var i := 0;
    while i < |xs|
      invariant 0 <= i <= |xs| && q.elems == xs[..i]
    {
      q.Enqueue(xs[i]);
      assert xs[..i + 1] == xs[..i] + [xs[i]];
      i := i + 1;
    }
    ys := [];
    while q.Len() > 0
      invariant ys + q.elems == xs
      decreases |q.elems|
    {
      var x := q.Dequeue();
      ys := ys + [x];
    }
  }

  /** PQueue: a min-heap of requests by GetCmpVal (container/heap over pQueue). */
  class PQueue {
    const pq: Heap<Request>

    ghost predicate Valid()
      reads this, pq
    {
      pq.Valid() && pq.key == GetCmpVal
    }

    /** NewPQueue */
    constructor ()
      ensures Valid() && fresh(pq) && pq.elems == []
    {
      pq := new Heap(GetCmpVal);
    }

    /** Enqueue: heap.Push. */
    method Enqueue(r: Request)
      requires Valid()
      modifies pq
      ensures Valid()
      ensures multiset(pq.elems) == old(multiset(pq.elems)) + multiset{r}
      ensures Len() == old(Len()) + 1
    {
      pq.Push(r);
    }

    /** Dequeue: heap.Pop, a request of minimum comparison value. */
    method Dequeue() returns (r: Request)
      requires Valid() && Len() > 0
      modifies pq
      ensures Valid()
      ensures r in old(pq.elems)
      ensures forall y :: y in old(pq.elems) ==> GetCmpVal(r) <= GetCmpVal(y)
      ensures multiset(pq.elems) + multiset{r} == old(multiset(pq.elems))
      ensures Len() == old(Len()) - 1
    {
      r := pq.Pop();
    }

    function Len(): (n: nat)
      reads this, pq
      ensures n == |pq.elems|
    {
      pq.Len()
    }
  }

  ghost predicate SortedByCmpVal(s: seq<Request>)
  {
    forall i, j :: 0 <= i < j < |s| ==> GetCmpVal(s[i]) <= GetCmpVal(s[j])
  }

  /** Enqueues every request of xs, in order. */
  method EnqueueAll(q: PQueue, xs: seq<Request>)
    requires q.Valid()
    modifies q.pq
    ensures q.Valid() && multiset(q.pq.elems) == old(multiset(q.pq.elems)) + multiset(xs)
  {
    var i := 0;
    while i < |xs|
      invariant 0 <= i <= |xs| && q.Valid()
      invariant multiset(q.pq.elems) == old(multiset(q.pq.elems)) + multiset(xs[..i])
    {
      q.Enqueue(xs[i]);
      assert xs[..i + 1] == xs[..i] + [xs[i]];
      i := i + 1;
    }
    assert xs[..i] == xs;
  }

  /** Dequeues until the queue is empty: the requests come out in arrival order. */
  method DequeueAll(q: PQueue) returns (ys: seq<Request>)
    requires q.Valid()
    modifies q.pq
    ensures q.Valid() && q.pq.elems == []
    ensures multiset(ys) == old(multiset(q.pq.elems))
    ensures SortedByCmpVal(ys)
  {
    ys := [];
    while q.Len() > 0
      invariant q.Valid() && multiset(ys) + multiset(q.pq.elems) == old(multiset(q.pq.elems))
      invariant SortedByCmpVal(ys)
      invariant forall y :: y in q.pq.elems && |ys| > 0 ==> GetCmpVal(ys[|ys| - 1]) <= GetCmpVal(y)
      decreases |q.pq.elems|
    {
      ghost var before := q.pq.elems;
      var r := q.Dequeue();
      ys := ys + [r];
      forall y | y in q.pq.elems ensures GetCmpVal(r) <= GetCmpVal(y) {
        assert y in multiset(q.pq.elems);
        assert y in multiset(before);
      }
    }
  }

  /**
   * Enqueueing requests into a new PQueue and dequeueing them all yields the
   * same requests in arrival order.
   */
  method DrainInOrder(xs: seq<Request>) returns (ys: seq<Request>)
    ensures multiset(ys) == multiset(xs)
    ensures SortedByCmpVal(ys)
  {
    var q := new PQueue();
    EnqueueAll(q, xs);
    ys := DequeueAll(q);
  }
}
