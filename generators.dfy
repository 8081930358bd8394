/**
 * The generators of blocks/adv_generators.go: the trace playback generator's
 * choice of server and sample, and the Verona generator, which feeds
 * requests to cowns (concurrent owners) and schedules a cown on a run
 * queue only when it is not scheduled already. Random draws are parameters:
 * rand.Intn(n) is modelled by a raw draw reduced modulo n.
 */
module Generators {
  import opened Wrappers
  import opened Requests

  /** rand.Intn(n): a value in [0, n); Go panics when n <= 0. */
  function Intn(n: int, raw: nat): (r: Option<nat>)
    ensures r.Some? <==> n > 0
    ensures r.Some? ==> r.value < n
  {
    if n <= 0 then None else Some(raw % n)
  }

  /** cSelRand.getRand: a cown index in [0, cownCount), as the float the selector returns. */
  function CSelRand(cownCount: int, raw: nat): (r: Option<real>)
    ensures r.Some? <==> cownCount > 0
    ensures r.Some? ==> 0.0 <= r.value < cownCount as real && r.value.Floor as real == r.value
  {
    match Intn(cownCount, raw)
    case None => None
    case Some(k) => Some(k as real)
  }

  /**
   * One PBGenerator round: a server i among the traces, a sample j of that
   * server's trace, and a request with that service time, for out queue i.
   * None where rand.Intn panics: no trace, or an empty one.
   */
  function PBPick(now: real, sTimes: seq<seq<int>>, rawI: nat, rawJ: nat): (r: Option<(nat, nat, Request)>)
    ensures r.Some? <==> |sTimes| > 0 && |sTimes[rawI % |sTimes|]| > 0
    ensures r.Some? ==> r.value.0 < |sTimes| && r.value.1 < |sTimes[r.value.0]|
    ensures r.Some? ==> r.value.2 == NewRequest(now, sTimes[r.value.0][r.value.1] as real)
  {
    match Intn(|sTimes|, rawI)
    case None => None
    case Some(i) =>
      match Intn(|sTimes[i]|, rawJ)
      case None => None
      case Some(j) => Some((i, j, NewRequest(now, sTimes[i][j] as real)))
  }

  /**
   * Cown: a queue of requests and whether the cown sits on (or is being
   * served from) a run queue. Its request methods all panic in Go; here a
   * cown and a request are different types, so a cown cannot be served as one.
   */
  class Cown {
    var isScheduled: bool
    var queue: seq<Request>

    constructor ()
      ensures !isScheduled && queue == []
    {
      isScheduled := false;
      queue := [];
    }
  }

  ghost predicate Distinct(cs: seq<Cown>)
  {
    forall i, j :: 0 <= i < |cs| && 0 <= j < |cs| && i != j ==> cs[i] != cs[j]
  }

  class VeronaGenerator {
    const cowns: seq<Cown>
    const outQueueCount: nat

    ghost predicate Valid()
    {
      Distinct(cowns)
    }

    /** newVeronaGenerator: cownCount new cowns, each unscheduled with an empty queue. */
    constructor (cownCount: nat, outQueueCount: nat)
      ensures Valid() && |cowns| == cownCount && this.outQueueCount == outQueueCount
      ensures forall i :: 0 <= i < cownCount ==> fresh(cowns[i]) && !cowns[i].isScheduled && cowns[i].queue == []
    {
      var cs: seq<Cown> := [];
      var i := 0;
      while i < cownCount
        invariant 0 <= i <= cownCount && |cs| == i && Distinct(cs)
        invariant forall k :: 0 <= k < i ==> fresh(cs[k]) && !cs[k].isScheduled && cs[k].queue == []
      {
        var c := new Cown();
        cs := cs + [c];
        i := i + 1;
      }
      cowns := cs;
      this.outQueueCount := outQueueCount;
    }

    /**
     * One round of Run: a request of the drawn service time joins the tail
     * of the chosen cown's queue; if the cown was not scheduled, it is
     * written to the out queue Intn(outQueueCount) picks, and in any case it
     * is scheduled afterwards. Go faults on a cown index out of range and
     * on Intn(0).
     */
    method Step(now: real, serviceTime: real, cownIdx: nat, qRaw: nat) returns (written: Option<(nat, Cown)>)
      requires Valid() && cownIdx < |cowns|
      requires !cowns[cownIdx].isScheduled ==> outQueueCount > 0
      modifies cowns[cownIdx]
      ensures cowns[cownIdx].queue == old(cowns[cownIdx].queue) + [NewRequest(now, serviceTime)]
      ensures cowns[cownIdx].isScheduled
      ensures written.Some? <==> !old(cowns[cownIdx].isScheduled)
      ensures written.Some? ==> written.value == (qRaw % outQueueCount, cowns[cownIdx])
    {
      var c := cowns[cownIdx];
      c.queue := c.queue + [NewRequest(now, serviceTime)];
      if !c.isScheduled {
        var q := Intn(outQueueCount, qRaw);
        written := Some((q.value, c));
        c.isScheduled := true;
      } else {
        written := None;
      }
    }
  }

  /**
   * Two requests for the same new cown: only the first schedules it, and
   * both wait in its queue in arrival order.
   */
  method ScheduledOnce(now: real, s1: real, s2: real, qRaw: nat) returns (w1: Option<(nat, Cown)>, w2: Option<(nat, Cown)>, queued: seq<Request>)
    ensures w1.Some? && w1.value.0 == qRaw % 2 && w2.None?
    ensures queued == [NewRequest(now, s1), NewRequest(now, s2)]
  {
    var g := new VeronaGenerator(1, 2);
    w1 := g.Step(now, s1, 0, qRaw);
    w2 := g.Step(now, s2, 0, qRaw);
    queued := g.cowns[0].queue;
  }
}
