/**
 * The processor sharing processor (PSProcessor in blocks/processor.go): all
 * requests in flight share workerCount workers; between two events each
 * advances by the elapsed time times its share, and the processor sleeps
 * until the request with the least remaining time would finish. The list
 * element `curr` is an index into reqList.
 */
module PS {
  import opened Wrappers
  import opened Requests

  /** getFactor: the share of a worker each of `count` requests gets. */
  function GetFactor(workerCount: int, count: int): (f: real)
    requires workerCount >= 1 && count >= 0
    ensures 0.0 < f <= 1.0
    ensures f == 1.0 <==> workerCount >= count
    ensures workerCount <= count ==> f * count as real == workerCount as real
  {
    if workerCount > count then 1.0 else workerCount as real / count as real
  }

  /** The element at i has the least remaining time, and no earlier element has as little. */
  ghost predicate IsFirstMin(l: seq<Request>, i: int)
  {
    0 <= i < |l| &&
    (forall j :: 0 <= j < |l| ==> GetServiceTime(l[i]) <= GetServiceTime(l[j])) &&
    (forall j :: 0 <= j < i ==> GetServiceTime(l[i]) < GetServiceTime(l[j]))
  }

  /** Every request of l served for the same amount d. */
  function Served(l: seq<Request>, d: real): (l': seq<Request>)
    ensures |l'| == |l|
    ensures forall i :: 0 <= i < |l| ==> l'[i] == SubServiceTime(l[i], d)
  {
    seq(|l|, i requires 0 <= i < |l| => SubServiceTime(l[i], d))
  }

  /** l without its element at i, the others in order. */
  function RemoveAt<T>(l: seq<T>, i: nat): (l': seq<T>)
    requires i < |l|
    ensures |l'| == |l| - 1
    ensures forall j :: 0 <= j < i ==> l'[j] == l[j]
    ensures forall j :: i <= j < |l'| ==> l'[j] == l[j + 1]
  {
    l[..i] + l[i + 1..]
  }

  /** The first minimum of a list is unique. */
  lemma FirstMinUnique(l: seq<Request>, i: int, j: int)
    requires IsFirstMin(l, i) && IsFirstMin(l, j)
    ensures i == j
  {
    assert GetServiceTime(l[i]) <= GetServiceTime(l[j]) && GetServiceTime(l[j]) <= GetServiceTime(l[i]);
  }

  /** Serving every request equally keeps the order of their remaining times, so the same one is first minimal. */
  lemma ServedKeepsFirstMin(l: seq<Request>, d: real, i: int)
    requires IsFirstMin(l, i)
    ensures IsFirstMin(Served(l, d), i)
  {
  }

  /**
   * The delay Run sets is exactly what curr needs at the current share: when
   * the timer fires after d, curr has nothing left and no other request has
   * run past zero.
   */
  lemma TimerFiresAtCompletion(l: seq<Request>, i: int, workerCount: int)
    requires IsFirstMin(l, i) && workerCount >= 1
    ensures
      var f := GetFactor(workerCount, |l|);
      var served := Served(l, GetServiceTime(l[i]) / f * f);
      GetServiceTime(served[i]) == 0.0 &&
      forall j :: 0 <= j < |l| ==> GetServiceTime(served[j]) >= 0.0
  {
    var f := GetFactor(workerCount, |l|);
    assert GetServiceTime(l[i]) / f * f == GetServiceTime(l[i]);
  }

  class PSProcessor {
    var workerCount: int
    /** How many requests are in flight. */
    var count: int
    var reqList: seq<Request>
    /** The element p.curr refers to: the request the processor waits on. */
    var curr: nat
    var prevTime: real
    /** The delay of the next WaitInterruptible; -1 means no timer. */
    var d: real

    /** count tracks the list, and there is at least one worker. */
    ghost predicate Counted()
      reads this
    {
      workerCount >= 1 && count == |reqList|
    }

    /** Between events: Counted, and curr is an element whenever the list is non-empty. */
    ghost predicate Valid()
      reads this
    {
      Counted() && (count > 0 ==> curr < count)
    }

    /** NewPSProcessor: one worker and an empty list. */
    constructor ()
      ensures Valid() && workerCount == 1 && count == 0 && reqList == [] && prevTime == 0.0 && d == -1.0
    {
      workerCount := 1;
      count := 0;
      reqList := [];
      curr := 0;
      prevTime := 0.0;
      d := -1.0;
    }

    /** SetWorkerCount. */
    method SetWorkerCount(n: int)
      requires Valid() && n >= 1
      modifies this
      ensures Valid() && workerCount == n
      ensures count == old(count) && reqList == old(reqList) && curr == old(curr) && prevTime == old(prevTime) && d == old(d)
    {
      workerCount := n;
    }

    /** getMinService: the first element of least remaining time. */
    method GetMinService() returns (m: nat)
      requires |reqList| > 0
      ensures IsFirstMin(reqList, m)
    {
      var minS := GetServiceTime(reqList[0]);
      m := 0;
      var i := 0;
      while i < |reqList|
        invariant 0 <= i <= |reqList| && m < |reqList| && (m < i || m == 0)
        invariant minS == GetServiceTime(reqList[m])
        invariant forall j :: 0 <= j < i ==> minS <= GetServiceTime(reqList[j])
        invariant forall j :: 0 <= j < m ==> minS < GetServiceTime(reqList[j])
      {
        var val := GetServiceTime(reqList[i]);
        if val < minS {
          minS := val;
          m := i;
        }
        i := i + 1;
      }
    }

    /**
     * updateServiceTimes: every request in flight advances by the elapsed
     * time times the share computed with the current count.
     */
    method UpdateServiceTimes(now: real)
      requires Valid()
      modifies this
      ensures Valid()
      ensures reqList == Served(old(reqList), (now - old(prevTime)) * GetFactor(old(workerCount), old(count)))
      ensures prevTime == now
      ensures workerCount == old(workerCount) && count == old(count) && curr == old(curr) && d == old(d)
    {
      var diff := (now - prevTime) * GetFactor(workerCount, count);
      prevTime := now;
      var i := 0;
      while i < |reqList|
        invariant 0 <= i <= |reqList| && |reqList| == |old(reqList)| && Valid()
        invariant forall j :: 0 <= j < i ==> reqList[j] == SubServiceTime(old(reqList)[j], diff)
        invariant forall j :: i <= j < |reqList| ==> reqList[j] == old(reqList)[j]
        invariant prevTime == now && workerCount == old(workerCount) && count == old(count)
        invariant curr == old(curr) && d == old(d)
      {
        reqList := reqList[i := SubServiceTime(reqList[i], diff)];
        i := i + 1;
      }
    }

    /** The timer fired: curr is finished, and is drained and removed from the list. */
    method Complete() returns (drained: Request)
      requires Valid() && count > 0
      modifies this
      ensures Counted() && drained == old(reqList[curr]) && reqList == RemoveAt(old(reqList), old(curr))
      ensures count == old(count) - 1
      ensures workerCount == old(workerCount) && prevTime == old(prevTime) && curr == old(curr) && d == old(d)
    {
      drained := reqList[curr];
      reqList := RemoveAt(reqList, curr);
      count := count - 1;
    }

    /** newReq arrived: it goes to the back of the list. */
    method Admit(newReq: Request)
      requires Counted()
      modifies this
      ensures Counted() && reqList == old(reqList) + [newReq] && count == old(count) + 1
      ensures workerCount == old(workerCount) && prevTime == old(prevTime) && curr == old(curr) && d == old(d)
    {
      count := count + 1;
      reqList := reqList + [newReq];
    }

    /**
     * curr becomes the first request of least remaining time and d the time
     * it needs at the current share; d is -1 when the list is empty.
     */
    method Retarget()
      requires Counted()
      modifies this
      ensures Valid() && reqList == old(reqList) && count == old(count)
      ensures workerCount == old(workerCount) && prevTime == old(prevTime)
      ensures count > 0 ==> IsFirstMin(reqList, curr) && d == GetServiceTime(reqList[curr]) / GetFactor(workerCount, count)
      ensures count == 0 ==> d == -1.0
    {
      if count > 0 {
        curr := GetMinService();
        d := GetServiceTime(reqList[curr]) / GetFactor(workerCount, count);
      } else {
        d := -1.0;
      }
    }

    /**
     * One return of WaitInterruptible at time now: the timer fired (intr) and
     * curr is drained, or newReq arrived. The share used to advance the
     * requests is the one from before the event. The timer can only have
     * fired while one was set, that is while a request was in flight.
     */
    method Step(now: real, intr: bool, newReq: Request) returns (drained: Option<Request>)
      requires Valid() && (intr ==> count > 0)
      modifies this
      ensures Valid() && workerCount == old(workerCount) && prevTime == now
      ensures
        var served := Served(old(reqList), (now - old(prevTime)) * GetFactor(old(workerCount), old(count)));
        if intr then drained == Some(served[old(curr)]) && reqList == RemoveAt(served, old(curr))
        else drained == None && reqList == served + [newReq]
      ensures count == old(count) + (if intr then -1 else 1)
      ensures count > 0 ==> IsFirstMin(reqList, curr) && d == GetServiceTime(reqList[curr]) / GetFactor(workerCount, count)
      ensures count == 0 ==> d == -1.0
    {
      ghost var diff := (now - prevTime) * GetFactor(workerCount, count);
      UpdateServiceTimes(now);
      ghost var served := reqList;
      assert served == Served(old(reqList), diff);
      if intr {
        var r := Complete();
        drained := Some(r);
      } else {
        drained := None;
        Admit(newReq);
        assert reqList == served + [newReq];
      }
      ghost var after := reqList;
      Retarget();
      assert reqList == after;
    }
  }

  /**
   * Processor sharing on one worker: requests of 2 and 4 time units that
   * both arrive at time 0 share it, so the first finishes at 4 and the
   * second at 6, each when the timer set at the previous event fires.
   */
  method ShareOneWorker(a: Request, b: Request) returns (first: real, second: real)
    requires GetServiceTime(a) == 2.0 && GetServiceTime(b) == 4.0
    ensures first == 4.0 && second == 6.0
  {
    var p := new PSProcessor();
    var x := p.Step(0.0, false, a);
    assert p.d == 2.0;
    x := p.Step(0.0, false, b);
    assert GetFactor(1, 2) == 0.5;
    assert p.reqList == [a, b];
    assert GetServiceTime(p.reqList[0]) == 2.0;
    assert IsFirstMin(p.reqList, 0);
    FirstMinUnique(p.reqList, p.curr, 0);
    assert p.d == 2.0 / 0.5;
    first := 0.0 + p.d;
    x := p.Step(first, true, a);
    assert x.Some? && GetServiceTime(x.value) == 0.0;
    assert GetServiceTime(p.reqList[0]) == 2.0;
    second := first + p.d;
    x := p.Step(second, true, a);
    assert x.Some? && GetServiceTime(x.value) == 0.0;
    assert p.count == 0;
  }
}
