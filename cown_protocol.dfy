/**
 * The cown protocol between the Verona generator and VeronaProcessor2
 * (blocks/adv_generators.go with blocks/processor.go): the generator puts a
 * cown on a run queue only when it is unscheduled, and a processor that
 * has read a cown puts it back on its own queue only while it is still
 * scheduled. Together they keep every cown in at most one place: on one
 * run queue once, or held by one processor, and then only when scheduled.
 * Run queue p is both the generator's out queue p and processor p's local
 * in-queue, as the Verona cown topology wires them.
 */
module CownProtocol {
  import opened Wrappers
  import opened Requests
  import opened Generators
  import Verona

  /** How often c sits on the run queues. */
  function InQueues(qs: seq<seq<Cown>>, c: Cown): nat
  {
    if qs == [] then 0 else InQueues(qs[..|qs| - 1], c) + multiset(qs[|qs| - 1])[c]
  }

  /** How many processors hold c. */
  function Held(sv: seq<Option<Cown>>, c: Cown): nat
  {
    if sv == [] then 0 else Held(sv[..|sv| - 1], c) + (if sv[|sv| - 1] == Some(c) then 1 else 0)
  }

  lemma {:induction false} InQueuesUpdate(qs: seq<seq<Cown>>, j: nat, q: seq<Cown>, c: Cown)
    requires j < |qs|
    ensures InQueues(qs[j := q], c) == InQueues(qs, c) - multiset(qs[j])[c] + multiset(q)[c]
  {
    var t := qs[j := q];
    if j < |qs| - 1 {
      assert t[..|t| - 1] == qs[..|qs| - 1][j := q];
      InQueuesUpdate(qs[..|qs| - 1], j, q, c);
    } else {
      assert t[..|t| - 1] == qs[..|qs| - 1];
    }
  }

  lemma {:induction false} InQueuesParts(qs: seq<seq<Cown>>, j: nat, k: nat, c: Cown)
    requires j < |qs| && k < |qs|
    ensures multiset(qs[j])[c] <= InQueues(qs, c)
    ensures j != k ==> multiset(qs[j])[c] + multiset(qs[k])[c] <= InQueues(qs, c)
  {
    var last := |qs| - 1;
    if j < last && k < last {
      InQueuesParts(qs[..last], j, k, c);
    } else if j < last {
      InQueuesParts(qs[..last], j, j, c);
    } else if k < last {
      InQueuesParts(qs[..last], k, k, c);
    }
  }

  lemma {:induction false} HeldUpdate(sv: seq<Option<Cown>>, p: nat, v: Option<Cown>, c: Cown)
    requires p < |sv|
    ensures Held(sv[p := v], c) == Held(sv, c) - (if sv[p] == Some(c) then 1 else 0) + (if v == Some(c) then 1 else 0)
  {
    var t := sv[p := v];
    if p < |sv| - 1 {
      assert t[..|t| - 1] == sv[..|sv| - 1][p := v];
      HeldUpdate(sv[..|sv| - 1], p, v, c);
    } else {
      assert t[..|t| - 1] == sv[..|sv| - 1];
    }
  }

  lemma {:induction false} HeldPart(sv: seq<Option<Cown>>, p: nat, c: Cown)
    requires p < |sv| && sv[p] == Some(c)
    ensures Held(sv, c) >= 1
  {
    if p < |sv| - 1 {
      HeldPart(sv[..|sv| - 1], p, c);
    }
  }

  function EmptyQueues(n: nat): (qs: seq<seq<Cown>>)
    ensures |qs| == n && forall j :: 0 <= j < n ==> qs[j] == []
  {
    seq(n, _ => [])
  }

  function Idle(n: nat): (sv: seq<Option<Cown>>)
    ensures |sv| == n && forall p :: 0 <= p < n ==> sv[p] == None
  {
    seq(n, _ => None)
  }

  lemma {:induction false} NothingAnywhere(n: nat, c: Cown)
    ensures InQueues(EmptyQueues(n), c) == 0 && Held(Idle(n), c) == 0
  {
    if n > 0 {
      assert EmptyQueues(n)[..n - 1] == EmptyQueues(n - 1);
      assert Idle(n)[..n - 1] == Idle(n - 1);
      NothingAnywhere(n - 1, c);
    }
  }

  class Scheduler {
    const gen: VeronaGenerator
    const bCount: int
    var runQueues: seq<seq<Cown>>
    /** The cown each processor has read and is serving, if any. */
    var serving: seq<Option<Cown>>
    /** How many requests of its current batch each processor has served. */
    var done: seq<nat>

    /** Run queues and processors only ever hold the generator's cowns. */
    ghost predicate Members()
      reads this, gen
    {
      (forall q, k :: 0 <= q < |runQueues| && 0 <= k < |runQueues[q]| ==> runQueues[q][k] in gen.cowns) &&
      (forall p :: 0 <= p < |serving| && serving[p].Some? ==> serving[p].value in gen.cowns)
    }

    /** A scheduled cown is in exactly one place; an unscheduled one is nowhere. */
    ghost predicate Exclusive()
      reads this, gen, gen.cowns
    {
      forall i :: 0 <= i < |gen.cowns| ==>
        InQueues(runQueues, gen.cowns[i]) + Held(serving, gen.cowns[i]) == (if gen.cowns[i].isScheduled then 1 else 0)
    }

    ghost predicate Valid()
      reads this, gen, gen.cowns
    {
      gen.Valid() && |runQueues| == gen.outQueueCount && |serving| == gen.outQueueCount &&
      |done| == gen.outQueueCount && Members() && Exclusive()
    }

    /**
     * The VeronaCown wiring: the generator's cowns, unscheduled and empty,
     * one empty run queue per core, and processors batching bCount requests.
     */
    constructor (cownCount: nat, cores: nat, bCount: int)
      ensures Valid() && fresh(gen) && |gen.cowns| == cownCount && gen.outQueueCount == cores && this.bCount == bCount
      ensures forall i :: 0 <= i < cownCount ==> fresh(gen.cowns[i]) && !gen.cowns[i].isScheduled && gen.cowns[i].queue == []
      ensures runQueues == EmptyQueues(cores) && serving == Idle(cores) && done == seq(cores, _ => 0)
    {
      gen := new VeronaGenerator(cownCount, cores);
      this.bCount := bCount;
      runQueues := EmptyQueues(cores);
      serving := Idle(cores);
      done := seq(cores, _ => 0);
      new;
      forall c | c in gen.cowns ensures InQueues(runQueues, c) == 0 && Held(serving, c) == 0 {
        NothingAnywhere(cores, c);
      }
    }

    /** A generator round: the request joins the cown; an unscheduled cown joins a run queue. */
    method Arrive(now: real, serviceTime: real, cownIdx: nat, qRaw: nat) returns (written: bool)
      requires Valid() && cownIdx < |gen.cowns| && gen.outQueueCount > 0
      modifies this, gen.cowns[cownIdx]
      ensures Valid() && serving == old(serving) && done == old(done)
      ensures gen.cowns[cownIdx].queue == old(gen.cowns[cownIdx].queue) + [NewRequest(now, serviceTime)]
      ensures gen.cowns[cownIdx].isScheduled && written == !old(gen.cowns[cownIdx].isScheduled)
      ensures written ==> runQueues == old(runQueues)[qRaw % gen.outQueueCount := old(runQueues[qRaw % gen.outQueueCount]) + [gen.cowns[cownIdx]]]
      ensures !written ==> runQueues == old(runQueues)
    {
      var c := gen.cowns[cownIdx];
      ghost var qs := runQueues;
      var w := gen.Step(now, serviceTime, cownIdx, qRaw);
      written := w.Some?;
      if written {
        var q := w.value.0;
        runQueues := runQueues[q := runQueues[q] + [c]];
      }
      forall i | 0 <= i < |gen.cowns|
        ensures InQueues(runQueues, gen.cowns[i]) + Held(serving, gen.cowns[i]) == (if gen.cowns[i].isScheduled then 1 else 0)
      {
        var x := gen.cowns[i];
        assert InQueues(qs, x) + Held(serving, x) == (if old(x.isScheduled) then 1 else 0);
        if written {
          var q := w.value.0;
          InQueuesUpdate(qs, q, qs[q] + [c], x);
          assert multiset(qs[q] + [c]) == multiset(qs[q]) + multiset{c};
        }
        if i != cownIdx {
          assert x != c && x.isScheduled == old(x.isScheduled);
        }
      }
    }

    /** Processor p reads the cown at the front of run queue j (its own, or a peer's when stealing). */
    method Take(p: nat, j: nat) returns (c: Cown)
      requires Valid() && p < |serving| && serving[p].None? && j < |runQueues| && |runQueues[j]| > 0
      modifies this
      ensures Valid() && c == old(runQueues[j][0])
      ensures runQueues == old(runQueues)[j := old(runQueues[j][1..])] && serving == old(serving)[p := Some(c)]
      ensures done == old(done)[p := 0]
    {
      c := runQueues[j][0];
      ghost var qs, sv := runQueues, serving;
      runQueues := runQueues[j := runQueues[j][1..]];
      serving := serving[p := Some(c)];
      done := done[p := 0];
      forall i | 0 <= i < |gen.cowns|
        ensures InQueues(runQueues, gen.cowns[i]) + Held(serving, gen.cowns[i]) == (if gen.cowns[i].isScheduled then 1 else 0)
      {
        var x := gen.cowns[i];
        assert InQueues(qs, x) + Held(sv, x) == (if x.isScheduled then 1 else 0);
        InQueuesUpdate(qs, j, qs[j][1..], x);
        assert qs[j] == [c] + qs[j][1..];
        assert multiset(qs[j]) == multiset{c} + multiset(qs[j][1..]);
        HeldUpdate(sv, p, Some(c), x);
      }
    }

    /**
     * One turn of processor p's batch on the cown it holds. A held cown is
     * always scheduled, so the batch ends either on an empty queue, which
     * unschedules the cown, or after bCount requests, which writes the cown
     * back to run queue p. Other processors and the generator may act
     * between two turns.
     */
    method Continue(p: nat) returns (t: Verona.BatchTurn)
      requires Valid() && p < |serving| && serving[p].Some?
      modifies this, serving[p].value
      ensures Valid()
      ensures var c := old(serving[p].value);
        old(done[p]) < bCount && old(c.queue) != [] ==>
          t == Verona.Serving(old(c.queue[0])) && c.queue == old(c.queue[1..]) && c.isScheduled &&
          runQueues == old(runQueues) && serving == old(serving) && done == old(done)[p := old(done[p]) + 1]
      ensures var c := old(serving[p].value);
        old(done[p]) < bCount && old(c.queue) == [] ==>
          t == Verona.Released && c.queue == [] && !c.isScheduled &&
          runQueues == old(runQueues) && serving == old(serving)[p := None] && done == old(done)[p := 0]
      ensures var c := old(serving[p].value);
        bCount <= old(done[p]) ==>
          t == Verona.WrittenBack && c.queue == old(c.queue) && c.isScheduled &&
          runQueues == old(runQueues)[p := old(runQueues[p]) + [c]] && serving == old(serving)[p := None] && done == old(done)[p := 0]
    {
      var c := serving[p].value;
      ghost var qs, sv := runQueues, serving;
      HeldScheduled(this, p);
      t := Verona.CownTurn(c, done[p], bCount);
      if t.Serving? {
        done := done[p := done[p] + 1];
        forall i | 0 <= i < |gen.cowns|
          ensures gen.cowns[i].isScheduled == old(gen.cowns[i].isScheduled)
        {
        }
        return;
      }
      done := done[p := 0];
      serving := serving[p := None];
      if t.WrittenBack? {
        runQueues := runQueues[p := runQueues[p] + [c]];
      }
      forall i | 0 <= i < |gen.cowns|
        ensures InQueues(runQueues, gen.cowns[i]) + Held(serving, gen.cowns[i]) == (if gen.cowns[i].isScheduled then 1 else 0)
      {
        var x := gen.cowns[i];
        assert InQueues(qs, x) + Held(sv, x) == (if old(x.isScheduled) then 1 else 0);
        Release(qs, sv, p, c, x, t.WrittenBack?);
        if x != c {
          assert x.isScheduled == old(x.isScheduled);
        }
      }
    }
  }

  /** A cown a processor holds is scheduled: only its holder may unschedule it. */
  lemma HeldScheduled(s: Scheduler, p: nat)
    requires s.Valid() && p < |s.serving| && s.serving[p].Some?
    ensures s.serving[p].value.isScheduled
  {
    var c := s.serving[p].value;
    HeldPart(s.serving, p, c);
    var i :| 0 <= i < |s.gen.cowns| && s.gen.cowns[i] == c;
  }

  /** Giving up c from processor p, and writing it back to run queue p or not, as counts. */
  lemma Release(qs: seq<seq<Cown>>, sv: seq<Option<Cown>>, p: nat, c: Cown, x: Cown, writeBack: bool)
    requires p < |qs| && p < |sv| && sv[p] == Some(c)
    ensures InQueues(if writeBack then qs[p := qs[p] + [c]] else qs, x) + Held(sv[p := None], x) ==
      InQueues(qs, x) + Held(sv, x) - (if x == c && !writeBack then 1 else 0)
  {
    HeldUpdate(sv, p, None, x);
    if writeBack {
      InQueuesUpdate(qs, p, qs[p] + [c], x);
      assert multiset(qs[p] + [c]) == multiset(qs[p]) + multiset{c};
    }
  }

  /**
   * What the protocol guarantees: a cown is on no run queue twice, and on
   * at most one of them, never while a processor holds it, and nowhere
   * while it is unscheduled.
   */
  lemma AtMostOneRunQueue(s: Scheduler, i: nat, j: nat, k: nat)
    requires s.Valid() && i < |s.gen.cowns| && j < |s.runQueues| && k < |s.runQueues|
    ensures multiset(s.runQueues[j])[s.gen.cowns[i]] <= 1
    ensures j != k ==> multiset(s.runQueues[j])[s.gen.cowns[i]] + multiset(s.runQueues[k])[s.gen.cowns[i]] <= 1
    ensures Held(s.serving, s.gen.cowns[i]) > 0 ==> multiset(s.runQueues[j])[s.gen.cowns[i]] == 0
    ensures !s.gen.cowns[i].isScheduled ==> multiset(s.runQueues[j])[s.gen.cowns[i]] == 0
  {
    InQueuesParts(s.runQueues, j, k, s.gen.cowns[i]);
  }

  /**
   * A request arriving for a cown in the middle of its batch is served in
   * that same batch: with bCount == 2, a processor takes the cown holding
   * one request, and a second request arrives while it waits out the first.
   * Both are served, and the cown, still scheduled, goes back on the run
   * queue, and the generator, finding it scheduled, never wrote it twice.
   */
  method ArrivalDuringBatch(s1: real, s2: real) returns (turns: seq<Verona.BatchTurn>, written: bool, c: Cown, final: seq<seq<Cown>>)
    ensures turns == [Verona.Serving(NewRequest(0.0, s1)), Verona.Serving(NewRequest(1.0, s2)), Verona.WrittenBack]
    ensures !written && final == [[c]]
  {
    var s := new Scheduler(1, 1, 2);
    assert !s.gen.cowns[0].isScheduled && s.runQueues == [[]];
    var w1 := s.Arrive(0.0, s1, 0, 0);
    assert w1 && 0 % s.gen.outQueueCount == 0;
    var x := s.gen.cowns[0];
    assert s.runQueues == [[]][0 := [] + [x]];
    assert [] + [x] == [x];
    assert [[]][0 := [x]] == [[x]];
    assert s.runQueues == [[x]];
    assert s.gen.cowns[0].queue == [NewRequest(0.0, s1)];
    c := s.Take(0, 0);
    assert c == s.gen.cowns[0];
    assert s.runQueues == [[]];
    assert s.serving == [Some(c)];
    assert s.done == [0];
    assert c.queue == [NewRequest(0.0, s1)];
    var t1 := s.Continue(0);
    assert s.serving == [Some(c)] && s.done == [1] && c.queue == [];
    written := s.Arrive(1.0, s2, 0, 0);
    assert s.serving == [Some(c)] && c.queue == [NewRequest(1.0, s2)];
    var t2 := s.Continue(0);
    assert s.serving == [Some(c)] && s.done == [2] && s.runQueues == [[]];
    var t3 := s.Continue(0);
    turns := [t1, t2, t3];
    final := s.runQueues;
  }
}
