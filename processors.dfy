/**
 * The stateless and nearly stateless processors (blocks/processor.go):
 * run-to-completion, time sharing with a quantum, and the two bounded
 * processors. One resumption of a processor's Run loop is one step: the
 * request it read, the wait it suspends for, and where the request goes.
 */
module Processors {
  import opened Wrappers
  import opened Requests

  /** Where a served request goes next. */
  datatype Action =
    | Terminate(r: Request)   // reqDrain.TerminateReq
    | Requeue(r: Request)     // WriteInQueue: the tail of the processor's own in-queue
    | Forward(r: Request)     // WriteOutQueue: out queue 0

  datatype Step = Step(wait: real, action: Action)

  /** RTCProcessor: wait the whole service time plus the context switch cost, then drain. */
  function RTCStep(r: Request, ctxCost: real): (s: Step)
    ensures s.wait - ctxCost == GetServiceTime(r)
    ensures s.action == Terminate(r)
  {
    Step(GetServiceTime(r) + ctxCost, Terminate(r))
  }

  /**
   * An RTC processor reading rs from its queue back to back, the first at
   * time start, one RTCStep each: the time each request is drained at.
   */
  function RTCDrainTimes(rs: seq<Request>, start: real, ctxCost: real): (fs: seq<real>)
    ensures |fs| == |rs|
    decreases |rs|
  {
    if rs == [] then []
    else
      var f := start + RTCStep(rs[0], ctxCost).wait;
      [f] + RTCDrainTimes(rs[1..], f, ctxCost)
  }

  /** The service times of rs, added up front to back. */
  function TotalService(rs: seq<Request>): real
  {
    if rs == [] then 0.0 else GetServiceTime(rs[0]) + TotalService(rs[1..])
  }

  /**
   * The k-th request is drained once the processor has spent, since start,
   * the service times of the first k + 1 requests and k + 1 context switches.
   */
  lemma {:induction false} RTCBusy(rs: seq<Request>, start: real, ctxCost: real, k: nat)
    requires k < |rs|
    ensures RTCDrainTimes(rs, start, ctxCost)[k] == start + TotalService(rs[..k + 1]) + Times(k + 1, ctxCost)
  {
    var f := start + GetServiceTime(rs[0]) + ctxCost;
    if k == 0 {
      assert rs[..1][1..] == [];
    } else {
      RTCBusy(rs[1..], f, ctxCost, k - 1);
      assert rs[..k + 1][1..] == rs[1..][..k];
      TimesFront(k, ctxCost);
    }
  }

  /** Each request leaves one service time and one context switch after the one before it. */
  lemma {:induction false} RTCInOrder(rs: seq<Request>, start: real, ctxCost: real, k: nat)
    requires k + 1 < |rs|
    ensures RTCDrainTimes(rs, start, ctxCost)[k + 1] == RTCDrainTimes(rs, start, ctxCost)[k] + GetServiceTime(rs[k + 1]) + ctxCost
  {
    if k > 0 {
      RTCInOrder(rs[1..], start + GetServiceTime(rs[0]) + ctxCost, ctxCost, k - 1);
    }
  }

  /** With no negative times, no request leaves before its own service and context switch have passed since start. */
  lemma {:induction false} RTCLeavesAfter(rs: seq<Request>, start: real, ctxCost: real, k: nat)
    requires ctxCost >= 0.0 && forall j :: 0 <= j < |rs| ==> GetServiceTime(rs[j]) >= 0.0
    requires k < |rs|
    ensures RTCDrainTimes(rs, start, ctxCost)[k] >= start + GetServiceTime(rs[k]) + ctxCost
  {
    if k > 0 {
      assert GetServiceTime(rs[0]) >= 0.0;
      RTCLeavesAfter(rs[1..], start + GetServiceTime(rs[0]) + ctxCost, ctxCost, k - 1);
    }
  }

  /**
   * Requests that were all queued by the time the processor started on
   * them each stay in the system at least their own service time and one
   * context switch, and they leave in queue order.
   */
  lemma RTCSojourn(rs: seq<Request>, start: real, ctxCost: real, k: nat)
    requires ctxCost >= 0.0
    requires forall j :: 0 <= j < |rs| ==> rs[j].initTime <= start && GetServiceTime(rs[j]) >= 0.0
    requires k < |rs|
    ensures RTCDrainTimes(rs, start, ctxCost)[k] - rs[k].initTime >= GetServiceTime(rs[k]) + ctxCost
    ensures k + 1 < |rs| ==> RTCDrainTimes(rs, start, ctxCost)[k] <= RTCDrainTimes(rs, start, ctxCost)[k + 1]
  {
    RTCLeavesAfter(rs, start, ctxCost, k);
    if k + 1 < |rs| {
      RTCInOrder(rs, start, ctxCost, k);
    }
  }

  /**
   * TSProcessor: a request that fits in the quantum runs to completion; any
   * other runs for one quantum and goes back to the tail of the queue with
   * a quantum less to do. Both waits include the context switch cost.
   */
  function TSStep(r: Request, quantum: real, ctxCost: real): (s: Step)
    ensures GetServiceTime(r) <= quantum <==> s.action.Terminate?
    ensures s.action.Terminate? ==> s.action.r == r && s.wait == GetServiceTime(r) + ctxCost
    ensures s.action.Requeue? ==> s.action.r == SubServiceTime(r, quantum) && s.wait == quantum + ctxCost
    ensures !s.action.Forward?
  {
    if GetServiceTime(r) <= quantum then Step(GetServiceTime(r) + ctxCost, Terminate(r))
    else Step(quantum + ctxCost, Requeue(SubServiceTime(r, quantum)))
  }

  /**
   * A request alone in a TS processor's queue, given k turns: the time the
   * processor waited in total, and the request if it is still queued.
   */
  function LoneTurns(r: Request, quantum: real, ctxCost: real, k: nat): (real, Option<Request>)
    decreases k
  {
    if k == 0 then (0.0, Some(r))
    else
      var s := TSStep(r, quantum, ctxCost);
      match s.action
      case Requeue(r') =>
        var rest := LoneTurns(r', quantum, ctxCost, k - 1);
        (s.wait + rest.0, rest.1)
      case _ => (s.wait, None)
  }

  /** k turns' worth of x, added up turn by turn: k·x (TimesIsMul). */
  function Times(k: nat, x: real): real
  {
    if k == 0 then 0.0 else Times(k - 1, x) + x
  }

  lemma {:induction false} TimesIsMul(k: nat, x: real)
    ensures Times(k, x) == k as real * x
  {
    if k > 0 {
      TimesIsMul(k - 1, x);
      assert (k - 1) as real * x + x == k as real * x;
    }
  }

  lemma {:induction false} TimesFront(k: nat, x: real)
    ensures Times(k + 1, x) == x + Times(k, x)
  {
    if k > 0 {
      TimesFront(k - 1, x);
    }
  }

  lemma {:induction false} TimesNonNegative(k: nat, x: real)
    requires x >= 0.0
    ensures Times(k, x) >= 0.0
  {
    if k > 0 {
      TimesNonNegative(k - 1, x);
    }
  }

  /**
   * Before its last slice, a lone request in a TS processor is still queued
   * with j quanta less to do, and each turn cost a quantum and a context switch.
   */
  lemma {:induction false} LoneTurnsPending(r: Request, quantum: real, ctxCost: real, j: nat)
    requires Times(j, quantum) < GetServiceTime(r)
    requires quantum >= 0.0
    decreases j
    ensures LoneTurns(r, quantum, ctxCost, j).1.Some?
    ensures GetServiceTime(LoneTurns(r, quantum, ctxCost, j).1.value) == GetServiceTime(r) - Times(j, quantum)
    ensures LoneTurns(r, quantum, ctxCost, j).0 == Times(j, quantum + ctxCost)
  {
    if j > 0 {
      TimesNonNegative(j - 1, quantum);
      var r' := SubServiceTime(r, quantum);
      assert TSStep(r, quantum, ctxCost).action == Requeue(r');
      LoneTurnsPending(r', quantum, ctxCost, j - 1);
    }
  }

  /**
   * A lone request of service time s with (k-1)·quantum < s <= k·quantum
   * leaves a TS processor after exactly k turns, which have taken its
   * service time plus k context switches.
   */
  lemma {:induction false} LoneTurnsDrain(r: Request, quantum: real, ctxCost: real, k: nat)
    requires k >= 1 && quantum > 0.0
    requires Times(k - 1, quantum) < GetServiceTime(r) <= Times(k, quantum)
    ensures LoneTurns(r, quantum, ctxCost, k) == (GetServiceTime(r) + Times(k, ctxCost), None)
    decreases k
  {
    if k > 1 {
      TimesNonNegative(k - 2, quantum);
      var r' := SubServiceTime(r, quantum);
      assert TSStep(r, quantum, ctxCost).action == Requeue(r');
      LoneTurnsDrain(r', quantum, ctxCost, k - 1);
    } else {
      assert TSStep(r, quantum, ctxCost).action == Terminate(r);
    }
  }

  /** The Go zero value of the loop-carried factor before any colored request. */
  const InitialFactor: real := 0.0

  /** The factor a ColoredReq sets in BoundedProcessor: color 1 is twice as slow. */
  function BoundedFactor(color: int): (f: real)
    ensures color == 1 <==> f == 2.0
    ensures color != 1 <==> f == 1.0
  {
    if color == 1 then 2.0 else 1.0
  }

  /** The factor a ColoredReq sets in BoundedProcessor2: color 0 is twice as slow. */
  function Bounded2Factor(color: int): (f: real)
    ensures color == 0 <==> f == 2.0
    ensures color != 0 <==> f == 1.0
  {
    if color == 0 then 2.0 else 1.0
  }

  /**
   * BoundedProcessor: the factor is a variable of the Run loop that only a
   * colored request changes; a plain request (color None) is served with
   * whatever factor the last colored one left.
   */
  class BoundedProcessor {
    const bufSize: int
    var factor: real

    ghost predicate Valid()
      reads this
    {
      factor == InitialFactor || factor == 1.0 || factor == 2.0
    }

    /** NewBoundedProcessor */
    constructor (bufSize: int)
      ensures Valid() && this.bufSize == bufSize && factor == InitialFactor
    {
      this.bufSize := bufSize;
      factor := InitialFactor;
    }

    /**
     * One request: wait factor times its service time, then forward it to
     * out queue 0 if that queue holds fewer than bufSize requests, else drain it.
     */
    method Serve(r: Request, color: Option<int>, outLen: int) returns (s: Step)
      requires Valid()
      modifies this
      ensures Valid()
      ensures factor == (if color.Some? then BoundedFactor(color.value) else old(factor))
      ensures s.wait == factor * GetServiceTime(r)
      ensures s.action == (if outLen < bufSize then Forward(r) else Terminate(r))
    {
      if color.Some? {
        factor := BoundedFactor(color.value);
      }
      var w := factor * GetServiceTime(r);
      if outLen < bufSize {
        s := Step(w, Forward(r));
      } else {
        s := Step(w, Terminate(r));
      }
    }
  }

  /** BoundedProcessor2: like BoundedProcessor with the colors swapped, and it always drains. */
  class BoundedProcessor2 {
    var factor: real

    ghost predicate Valid()
      reads this
    {
      factor == InitialFactor || factor == 1.0 || factor == 2.0
    }

    constructor ()
      ensures Valid() && factor == InitialFactor
    {
      factor := InitialFactor;
    }

    method Serve(r: Request, color: Option<int>) returns (s: Step)
      requires Valid()
      modifies this
      ensures Valid()
      ensures factor == (if color.Some? then Bounded2Factor(color.value) else old(factor))
      ensures s == Step(factor * GetServiceTime(r), Terminate(r))
    {
      if color.Some? {
        factor := Bounded2Factor(color.value);
      }
      s := Step(factor * GetServiceTime(r), Terminate(r));
    }
  }

  /**
   * A plain request served by a new bounded processor takes no time: the
   * factor still has its zero value.
   */
  method PlainFirstIsFree(r: Request, outLen: int, bufSize: int) returns (s: Step)
    ensures s.wait == 0.0
    ensures outLen < bufSize <==> s.action == Forward(r)
  {
    var p := new BoundedProcessor(bufSize);
    s := p.Serve(r, None, outLen);
  }

  /** After a colored request, a plain one is served at that request's factor. */
  method ColorSticks(c: Request, color: int, r: Request, outLen: int) returns (s: Step)
    ensures s.wait == BoundedFactor(color) * GetServiceTime(r)
  {
    var p := new BoundedProcessor(0);
    var _ := p.Serve(c, Some(color), outLen);
    s := p.Serve(r, None, outLen);
  }
}
