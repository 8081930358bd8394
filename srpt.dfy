/**
 * The shortest-remaining-processing-time processor (SRPTProcessor in
 * blocks/processor.go): workerCount slots run requests in parallel, the
 * rest wait in a min-heap by remaining time (ReqHeap), and an arrival with
 * less to do than the longest running request takes that request's slot.
 * The request p.curr points to is the one in slot currIdx.
 */
module SRPT {
  import opened Wrappers
  import opened Requests
  import opened Heaps

  /** Run only waits on a slot whose remaining time is below this bound. */
  const TargetBound: real := 100000.0

  type Slots = seq<Option<Request>>

  /** The number of slots in use. */
  function Occupied(s: Slots): (n: nat)
    ensures n <= |s|
  {
    if s == [] then 0 else Occupied(s[..|s| - 1]) + (if s[|s| - 1].Some? then 1 else 0)
  }

  /** Writing v into slot i changes the number of used slots by what leaves and what comes. */
  lemma {:induction false} OccupiedUpdate(s: Slots, i: nat, v: Option<Request>)
    requires i < |s|
    ensures Occupied(s[i := v]) == Occupied(s) - (if s[i].Some? then 1 else 0) + (if v.Some? then 1 else 0)
  {
    var t := s[i := v];
    if i < |s| - 1 {
      assert t[..|t| - 1] == s[..|s| - 1][i := v];
      OccupiedUpdate(s[..|s| - 1], i, v);
    } else {
      assert t[..|t| - 1] == s[..|s| - 1];
    }
  }

  /** make([]ReqInterface, n): n nil slots. */
  function NilSlots(n: nat): (s: Slots)
    ensures |s| == n && forall i :: 0 <= i < n ==> s[i].None?
  {
    seq(n, _ => None)
  }

  lemma {:induction false} OccupiedNone(n: nat)
    ensures Occupied(NilSlots(n)) == 0
  {
    if n > 0 {
      assert NilSlots(n)[..n - 1] == NilSlots(n - 1);
      OccupiedNone(n - 1);
    }
  }

  /** Every running request served for diff; nil slots stay nil. */
  function Advanced(s: Slots, diff: real): (s': Slots)
    ensures |s'| == |s|
    ensures forall i :: 0 <= i < |s| ==> s'[i].Some? == s[i].Some?
    ensures forall i :: 0 <= i < |s| && s[i].Some? ==> s'[i].value == SubServiceTime(s[i].value, diff)
  {
    seq(|s|, i requires 0 <= i < |s| => if s[i].Some? then Some(SubServiceTime(s[i].value, diff)) else None)
  }

  lemma {:induction false} AdvancedOccupied(s: Slots, diff: real)
    ensures Occupied(Advanced(s, diff)) == Occupied(s)
  {
    if s != [] {
      assert Advanced(s, diff)[..|s| - 1] == Advanced(s[..|s| - 1], diff);
      AdvancedOccupied(s[..|s| - 1], diff);
    }
  }

  /** The outcome of an arrival. */
  datatype Choice =
    | FillNil(i: nat)   // the first free slot takes the new request
    | Evict(i: nat)     // the request in slot i goes to the heap, the new one takes its slot
    | ToHeap            // the new request waits in the heap

  /**
   * Slot j could give way to n: it has more left than n. The running
   * maximum in Run starts at 0.0, so a slot with no time left never does.
   */
  ghost predicate Preemptable(s: Slots, n: Request, j: int)
  {
    0 <= j < |s| && s[j].Some? && GetServiceTime(s[j].value) > GetServiceTime(n) && GetServiceTime(s[j].value) > 0.0
  }

  ghost predicate Full(s: Slots)
  {
    forall j :: 0 <= j < |s| ==> s[j].Some?
  }

  /**
   * The arrival rule: the first free slot; with no free slot, the first of
   * the preemptable slots with the most left; with none, the heap.
   */
  ghost predicate IsAdmission(s: Slots, n: Request, c: Choice)
  {
    match c
    case FillNil(i) => i < |s| && s[i].None? && forall j :: 0 <= j < i ==> s[j].Some?
    case Evict(i) =>
      Full(s) && Preemptable(s, n, i) &&
      (forall j :: Preemptable(s, n, j) ==> GetServiceTime(s[j].value) <= GetServiceTime(s[i].value)) &&
      (forall j :: 0 <= j < i && Preemptable(s, n, j) ==> GetServiceTime(s[j].value) < GetServiceTime(s[i].value))
    case ToHeap => Full(s) && forall j :: !Preemptable(s, n, j)
  }

  /** The arrival rule leaves no choice. */
  lemma AdmissionUnique(s: Slots, n: Request, c1: Choice, c2: Choice)
    requires IsAdmission(s, n, c1) && IsAdmission(s, n, c2)
    ensures c1 == c2
  {
    if c1.Evict? && c2.Evict? {
      assert Preemptable(s, n, c1.i) && Preemptable(s, n, c2.i);
    }
  }

  /**
   * The admission loop of Run, as a choice: it scans the slots in order,
   * stops at the first nil one, and otherwise keeps the preemptable slot
   * with the largest remaining time, the first on ties.
   */
  method ChooseSlot(s: Slots, n: Request) returns (c: Choice)
    ensures IsAdmission(s, n, c)
  {
    var subIdx := -1;
    var val := 0.0;
    var i := 0;
    while i < |s|
      invariant 0 <= i <= |s| && -1 <= subIdx < i
      invariant forall j :: 0 <= j < i ==> s[j].Some?
      invariant subIdx == -1 ==> val == 0.0 && forall j :: 0 <= j < i ==> !Preemptable(s, n, j)
      invariant subIdx >= 0 ==> Preemptable(s, n, subIdx) && val == GetServiceTime(s[subIdx].value)
      invariant subIdx >= 0 ==> forall j :: 0 <= j < i && Preemptable(s, n, j) ==> GetServiceTime(s[j].value) <= val
      invariant subIdx >= 0 ==> forall j :: 0 <= j < subIdx && Preemptable(s, n, j) ==> GetServiceTime(s[j].value) < val
    {
      if s[i].None? {
        return FillNil(i);
      }
      var r := s[i].value;
      if GetServiceTime(r) > GetServiceTime(n) && val < GetServiceTime(r) {
        val := GetServiceTime(r);
        subIdx := i;
      }
      i := i + 1;
    }
    if subIdx > -1 {
      c := Evict(subIdx);
    } else {
      c := ToHeap;
    }
  }

  /**
   * The next-target rule: the first running request of least remaining
   * time, if that time is below the bound; None when there is none.
   */
  ghost predicate IsNextTarget(s: Slots, t: Option<nat>)
  {
    match t
    case Some(i) =>
      i < |s| && s[i].Some? && GetServiceTime(s[i].value) < TargetBound &&
      (forall j :: 0 <= j < |s| && s[j].Some? ==> GetServiceTime(s[i].value) <= GetServiceTime(s[j].value)) &&
      (forall j :: 0 <= j < i && s[j].Some? ==> GetServiceTime(s[i].value) < GetServiceTime(s[j].value))
    case None => forall j :: 0 <= j < |s| && s[j].Some? ==> GetServiceTime(s[j].value) >= TargetBound
  }

  /** The next-target rule leaves no choice. */
  lemma NextTargetUnique(s: Slots, t1: Option<nat>, t2: Option<nat>)
    requires IsNextTarget(s, t1) && IsNextTarget(s, t2)
    ensures t1 == t2
  {
    if t1.Some? && t2.Some? {
      var i, j := t1.value, t2.value;
      assert GetServiceTime(s[i].value) <= GetServiceTime(s[j].value) && GetServiceTime(s[j].value) <= GetServiceTime(s[i].value);
    }
  }

  /** The search loop at the end of Run. */
  method NextTarget(s: Slots) returns (t: Option<nat>)
    ensures IsNextTarget(s, t)
  {
    var idx := -1;
    var val := TargetBound;
    var i := 0;
    while i < |s|
      invariant 0 <= i <= |s| && -1 <= idx < i
      invariant idx == -1 ==> val == TargetBound
      invariant idx >= 0 ==> s[idx].Some? && val == GetServiceTime(s[idx].value) < TargetBound
      invariant forall j :: 0 <= j < i && s[j].Some? ==> val <= GetServiceTime(s[j].value)
      invariant idx >= 0 ==> forall j :: 0 <= j < idx && s[j].Some? ==> val < GetServiceTime(s[j].value)
    {
      if s[i].Some? && GetServiceTime(s[i].value) < val {
        idx := i;
        val := GetServiceTime(s[i].value);
      }
      i := i + 1;
    }
    if idx > -1 {
      t := Some(idx);
    } else {
      t := None;
    }
  }

  /**
   * The slots and the heap after an event, given the slots advanced to the
   * event's time, the heap before it and the slot the timer was on.
   * Completion refills that slot from the heap minimum, or leaves it nil
   * when the heap is empty. An arrival follows the admission rule: it fills
   * a free slot, evicts the chosen request to the heap, or joins the heap.
   */
  ghost predicate Outcome(adv: Slots, h0: seq<Request>, idx: nat, intr: bool, newReq: Request,
                          choice: Option<Choice>, s: Slots, h: seq<Request>)
  {
    if intr then
      choice.None? && idx < |adv| &&
      if |h0| == 0 then s == adv[idx := None] && h == h0
      else
        s == adv[idx := Some(h0[0])] &&
        (forall y :: y in h0 ==> GetServiceTime(h0[0]) <= GetServiceTime(y)) &&
        multiset(h) + multiset{h0[0]} == multiset(h0)
    else
      choice.Some? && IsAdmission(adv, newReq, choice.value) &&
      match choice.value
      case FillNil(i) => i < |adv| && s == adv[i := Some(newReq)] && h == h0
      case Evict(i) => i < |adv| && adv[i].Some? && s == adv[i := Some(newReq)] && multiset(h) == multiset(h0) + multiset{adv[i].value}
      case ToHeap => s == adv && multiset(h) == multiset(h0) + multiset{newReq}
  }

  class SRPTProcessor {
    const workerCount: nat
    const reqHeap: Heap<Request>
    var activeList: Slots
    var currIdx: nat
    /** Whether the last search found a target: d is then a real timer, otherwise -1. */
    var targeted: bool
    var prevTime: real
    var d: real

    /**
     * What holds after every event: the heap is a heap by remaining time,
     * there are workerCount slots, and requests wait in the heap only while
     * every slot is busy.
     */
    ghost predicate Kept()
      reads this, reqHeap
    {
      reqHeap.Valid() && reqHeap.key == GetServiceTime && |activeList| == workerCount &&
      (|reqHeap.elems| > 0 ==> Full(activeList))
    }

    /** Kept, and the slot the timer waits on holds a request. */
    ghost predicate Valid()
      reads this, reqHeap
    {
      Kept() && (targeted ==> currIdx < |activeList| && activeList[currIdx].Some?)
    }

    /** Requests held: running plus waiting. */
    ghost function Load(): nat
      reads this, reqHeap
    {
      Occupied(activeList) + |reqHeap.elems|
    }

    /** NewSRPTProcessor: workerCount nil slots and an empty heap. */
    constructor (workerCount: nat)
      ensures Valid() && fresh(reqHeap) && this.workerCount == workerCount
      ensures activeList == NilSlots(workerCount) && reqHeap.elems == [] && Load() == 0
      ensures !targeted && prevTime == 0.0 && d == -1.0
    {
      this.workerCount := workerCount;
      reqHeap := new Heap(GetServiceTime);
      activeList := NilSlots(workerCount);
      currIdx := 0;
      targeted := false;
      prevTime := 0.0;
      d := -1.0;
      new;
      OccupiedNone(workerCount);
    }

    /** updateTimes: running requests advance by the elapsed time; waiting ones do not. */
    method UpdateTimes(now: real)
      requires Valid()
      modifies this
      ensures Valid() && activeList == Advanced(old(activeList), now - old(prevTime)) && prevTime == now
      ensures reqHeap.elems == old(reqHeap.elems) && Load() == old(Load())
      ensures currIdx == old(currIdx) && targeted == old(targeted) && d == old(d)
    {
      var diff := now - prevTime;
      prevTime := now;
      var i := 0;
      while i < |activeList|
        invariant 0 <= i <= |activeList| == |old(activeList)|
        invariant forall j :: 0 <= j < i ==> activeList[j] == Advanced(old(activeList), diff)[j]
        invariant forall j :: i <= j < |activeList| ==> activeList[j] == old(activeList)[j]
        invariant prevTime == now && currIdx == old(currIdx) && targeted == old(targeted) && d == old(d)
      {
        if activeList[i].Some? {
          activeList := activeList[i := Some(SubServiceTime(activeList[i].value, diff))];
        }
        i := i + 1;
      }
      assert activeList == Advanced(old(activeList), diff);
      AdvancedOccupied(old(activeList), diff);
    }

    /** The timer fired: curr is drained, and its slot is refilled from the heap or left nil. */
    method Complete() returns (drained: Request, refill: Option<Request>)
      requires Valid() && targeted
      modifies this, reqHeap
      ensures Kept() && drained == old(activeList[currIdx].value)
      ensures activeList == old(activeList)[old(currIdx) := refill]
      ensures refill.None? <==> old(|reqHeap.elems|) == 0
      ensures refill.None? ==> reqHeap.elems == old(reqHeap.elems)
      ensures refill.Some? ==> (refill.value == old(reqHeap.elems[0]) &&
        (forall y :: y in old(reqHeap.elems) ==> GetServiceTime(refill.value) <= GetServiceTime(y)) &&
        multiset(reqHeap.elems) + multiset{refill.value} == old(multiset(reqHeap.elems)))
      ensures Load() == old(Load()) - 1
      ensures prevTime == old(prevTime) && currIdx == old(currIdx) && targeted == old(targeted) && d == old(d)
    {
      drained := activeList[currIdx].value;
      if reqHeap.Len() == 0 {
        refill := None;
      } else {
        var x := reqHeap.Pop();
        refill := Some(x);
      }
      OccupiedUpdate(activeList, currIdx, refill);
      activeList := activeList[currIdx := refill];
    }

    /** newReq arrived: it takes a free slot, a longer request's slot, or a place in the heap. */
    method Admit(newReq: Request) returns (c: Choice)
      requires Kept()
      modifies this, reqHeap
      ensures Kept() && IsAdmission(old(activeList), newReq, c)
      ensures c.FillNil? ==> activeList == old(activeList)[c.i := Some(newReq)] && reqHeap.elems == old(reqHeap.elems)
      ensures c.Evict? ==> (activeList == old(activeList)[c.i := Some(newReq)] &&
        multiset(reqHeap.elems) == old(multiset(reqHeap.elems)) + multiset{old(activeList[c.i].value)})
      ensures c.ToHeap? ==> activeList == old(activeList) && multiset(reqHeap.elems) == old(multiset(reqHeap.elems)) + multiset{newReq}
      ensures Load() == old(Load()) + 1
      ensures prevTime == old(prevTime) && currIdx == old(currIdx) && targeted == old(targeted) && d == old(d)
    {
      c := ChooseSlot(activeList, newReq);
      match c
      case FillNil(i) =>
        OccupiedUpdate(activeList, i, Some(newReq));
        activeList := activeList[i := Some(newReq)];
      case Evict(i) =>
        reqHeap.Push(activeList[i].value);
        OccupiedUpdate(activeList, i, Some(newReq));
        activeList := activeList[i := Some(newReq)];
      case ToHeap =>
        reqHeap.Push(newReq);
    }

    /** The search for the next timer; curr and currIdx keep their old values when none is found. */
    method Retarget()
      requires Kept()
      modifies this
      ensures Valid() && activeList == old(activeList) && prevTime == old(prevTime)
      ensures IsNextTarget(activeList, if targeted then Some(currIdx) else None)
      ensures targeted ==> d == GetServiceTime(activeList[currIdx].value)
      ensures !targeted ==> d == -1.0 && currIdx == old(currIdx)
    {
      var t := NextTarget(activeList);
      if t.Some? {
        currIdx := t.value;
        targeted := true;
        d := GetServiceTime(activeList[currIdx].value);
      } else {
        targeted := false;
        d := -1.0;
      }
    }

    /**
     * One return of WaitInterruptible at time now: the running requests
     * advance, then the finished curr leaves (intr) or newReq is admitted,
     * then the next timer is chosen. The timer can only have fired while one
     * was set.
     */
    method Step(now: real, intr: bool, newReq: Request) returns (drained: Option<Request>, choice: Option<Choice>)
      requires Valid() && (intr ==> targeted)
      modifies this, reqHeap
      ensures Valid() && prevTime == now
      ensures Load() == old(Load()) + (if intr then -1 else 1)
      ensures intr ==> drained == Some(SubServiceTime(old(activeList[currIdx].value), now - old(prevTime)))
      ensures !intr ==> drained.None?
      ensures Outcome(Advanced(old(activeList), now - old(prevTime)), old(reqHeap.elems), old(currIdx), intr, newReq, choice,
                      activeList, reqHeap.elems)
      ensures IsNextTarget(activeList, if targeted then Some(currIdx) else None)
      ensures targeted ==> d == GetServiceTime(activeList[currIdx].value)
      ensures !targeted ==> d == -1.0
    {
      UpdateTimes(now);
      ghost var adv, h0, idx := activeList, reqHeap.elems, currIdx;
      if intr {
        var r, _ := Complete();
        drained, choice := Some(r), None;
        assert Outcome(adv, h0, idx, intr, newReq, choice, activeList, reqHeap.elems);
      } else {
        var c := Admit(newReq);
        drained, choice := None, Some(c);
        assert Outcome(adv, h0, idx, intr, newReq, choice, activeList, reqHeap.elems);
      }
      ghost var s1, h1 := activeList, reqHeap.elems;
      Retarget();
      assert activeList == s1 && reqHeap.elems == h1;
    }
  }

  /** One slot: the first request to arrive takes it, and the timer is set to its time. */
  method ArriveFirst(a: Request) returns (p: SRPTProcessor)
    requires GetServiceTime(a) == 5.0
    ensures fresh(p) && fresh(p.reqHeap) && p.Valid() && p.prevTime == 0.0
    ensures p.activeList == [Some(a)] && p.reqHeap.elems == []
  {
    p := new SRPTProcessor(1);
    var _, c := p.Step(0.0, false, a);
    assert Advanced(NilSlots(1), 0.0) == [None];
    assert IsAdmission([None], a, FillNil(0));
    AdmissionUnique([None], a, c.value, FillNil(0));
  }

  /** One slot: a request of 5 arrives at time 0, then one of 2, which takes its slot. */
  method ArriveLongThenShort(a: Request, b: Request) returns (p: SRPTProcessor)
    requires GetServiceTime(a) == 5.0 && GetServiceTime(b) == 2.0
    ensures fresh(p) && fresh(p.reqHeap) && p.Valid() && p.prevTime == 0.0
    ensures p.activeList == [Some(b)] && p.reqHeap.elems == [a]
    ensures p.targeted && p.currIdx == 0 && p.d == 2.0
  {
    p := ArriveFirst(a);
    var _, c2 := p.Step(0.0, false, b);
    ghost var adv := Advanced([Some(a)], 0.0);
    assert adv == [Some(a)];
    assert Preemptable(adv, b, 0);
    assert IsAdmission(adv, b, Evict(0));
    AdmissionUnique(adv, b, c2.value, Evict(0));
    assert p.activeList == [Some(b)];
    assert multiset(p.reqHeap.elems) == multiset{a};
    assert |p.reqHeap.elems| == 1 && p.reqHeap.elems[0] in multiset{a};
    assert GetServiceTime(p.activeList[0].value) == 2.0;
  }

  /**
   * The short request finishes at 2; the long one comes back from the heap
   * with its 5 untouched, since waiting requests do not advance, and
   * finishes at 7.
   */
  method PreemptShorter(a: Request, b: Request) returns (first: real, second: real, out: Request)
    requires GetServiceTime(a) == 5.0 && GetServiceTime(b) == 2.0
    ensures first == 2.0 && second == 7.0 && out.initTime == b.initTime && GetServiceTime(out) == 0.0
  {
    var p := ArriveLongThenShort(a, b);
    first := p.d;
    var x, _ := p.Step(first, true, b);
    out := x.value;
    assert p.activeList == [Some(a)];
    assert p.targeted && p.currIdx == 0;
    second := first + p.d;
  }
}
