/**
 * The Verona processors (blocks/processor.go): time sharing with work
 * stealing (VeronaProcessor) and cown batching (VeronaProcessor2). In-queue
 * 0 is the processor's own queue and the others are its peers', as the
 * topologies wire them. The queue lengths GetInQueueLen reports and the
 * draw rand.Intn(GetInQueueCount()) are parameters of a step; the read
 * itself happens in the environment.
 */
module Verona {
  import opened Wrappers
  import opened Requests
  import opened Processors
  import opened Generators

  /** Where a dispatch reads from. */
  datatype Source =
    | Stolen(q: nat)   // ReadInQueueI(q) on a queue other than the processor's own
    | Local            // ReadInQueueI(0)
    | Anywhere         // ReadInQueuesRandLocalPr: a blocking read, local queue first

  /** The queue the i-th probe of a scan starting at base looks at. */
  function Probe(base: nat, i: nat, n: nat): (q: nat)
    requires n > 0
    ensures q < n
  {
    (base + i) % n
  }

  lemma MulBounds(q: int, n: int)
    requires n > 0
    ensures q >= 2 ==> q * n >= 2 * n
    ensures q <= -1 ==> q * n <= -n
    ensures q == 1 ==> q * n == n
    ensures q == 0 ==> q * n == 0
  {
  }

  lemma ModSmall(x: nat, n: nat)
    requires x < 2 * n
    ensures x % n == (if x < n then x else x - n)
  {
    var q := x / n;
    assert x == q * n + x % n;
    MulBounds(q, n);
  }

  /** Every queue is probed at some offset below n: the scan misses none. */
  lemma ProbeCovers(base: nat, k: nat, n: nat)
    requires base < n && k < n
    ensures Probe(base, ProbeOffset(base, k, n), n) == k
  {
    ModSmall(base + ProbeOffset(base, k, n), n);
  }

  /** The offset at which a scan starting at base probes queue k. */
  function ProbeOffset(base: nat, k: nat, n: nat): (i: nat)
    requires base < n && k < n
    ensures i < n
  {
    if base <= k then k - base else k + n - base
  }

  /**
   * The steal scan as the source writes it: the loop skips the offset i
   * whose probe (base + i) % n is the local queue, but tests and reads
   * queue i rather than the probe. So it scans queues 0..n-1 in order,
   * including the processor's own queue 0, and never looks at queue
   * (n - base) % n.
   */
  method StealScanAsWritten(lens: seq<nat>, base: nat) returns (taken: Option<nat>)
    requires 0 < |lens| && base < |lens|
    ensures taken.Some? ==> taken.value < |lens| && lens[taken.value] > 0 && Probe(base, taken.value, |lens|) != 0
    ensures taken.Some? ==> forall j :: 0 <= j < taken.value && Probe(base, j, |lens|) != 0 ==> lens[j] == 0
    ensures taken.None? ==> forall j :: 0 <= j < |lens| && Probe(base, j, |lens|) != 0 ==> lens[j] == 0
  {
    var n := |lens|;
    var i := 0;
    while i < n
      invariant 0 <= i <= n
      invariant forall j :: 0 <= j < i && Probe(base, j, n) != 0 ==> lens[j] == 0
    {
      var idx := Probe(base, i, n);
      if idx != 0 {
        if lens[i] > 0 {
          return Some(i);
        }
      }
      i := i + 1;
    }
    return None;
  }

  /** Queue q comes up in the probe order from base before any other non-empty peer queue. */
  ghost predicate FirstPeer(lens: seq<nat>, base: nat, q: nat)
    requires 0 < |lens| && base < |lens|
  {
    exists i :: 0 <= i < |lens| && Probe(base, i, |lens|) == q &&
      forall j :: 0 <= j < i && Probe(base, j, |lens|) != 0 ==> lens[Probe(base, j, |lens|)] == 0
  }

  /**
   * The steal scan as evidently intended: probe the queues (base + i) % n
   * in turn, skip the local queue, and take the first non-empty peer queue.
   * It finds work whenever some peer queue has any.
   */
  method StealScan(lens: seq<nat>, base: nat) returns (taken: Option<nat>)
    requires 0 < |lens| && base < |lens|
    ensures taken.Some? ==> 0 < taken.value < |lens| && lens[taken.value] > 0
    ensures taken.Some? ==> FirstPeer(lens, base, taken.value)
    ensures taken.None? <==> forall k :: 0 < k < |lens| ==> lens[k] == 0
  {
    var n := |lens|;
    var i := 0;
    while i < n
      invariant 0 <= i <= n
      invariant forall j :: 0 <= j < i && Probe(base, j, n) != 0 ==> lens[Probe(base, j, n)] == 0
    {
      var idx := Probe(base, i, n);
      if idx != 0 && lens[idx] > 0 {
        return Some(idx);
      }
      i := i + 1;
    }
    forall k | 0 < k < n ensures lens[k] == 0 {
      ProbeCovers(base, k, n);
      assert Probe(base, ProbeOffset(base, k, n), n) == k;
    }
    return None;
  }

  /**
   * Three queues, work only on queue 2, base 1: the scan as written skips
   * queue 2 (offset 2 probes the local queue) and finds nothing, while the
   * intended scan steals from queue 2. With work on both queues of two and
   * base 1, the scan as written "steals" from the processor's own queue.
   */
  method StealScanCounterexample() returns (missed: Option<nat>, found: Option<nat>, own: Option<nat>)
    ensures missed == None && found == Some(2)
    ensures own == Some(0)
  {
    var lens := [0, 0, 5];
    missed := StealScanAsWritten(lens, 1);
    found := StealScan(lens, 1);
    assert lens[1] == 0 && lens[2] > 0;
    own := StealScanAsWritten([1, 1], 1);
    assert Probe(1, 0, 2) == 1;
  }

  function Max(a: int, b: int): int
  {
    if a < b then b else a
  }

  /** The local read when no steal happened: queue 0 if it has work, else the blocking read. */
  function LocalOrAnywhere(lens: seq<nat>): Source
    requires |lens| > 0
  {
    if lens[0] > 0 then Local else Anywhere
  }

  /**
   * The source selection both Verona processors begin a dispatch with. With
   * no steal budget left it scans the peers, then resets the budget to the
   * local queue's length, at least 1; otherwise it keeps the budget and
   * reads locally. A steal attempt finds work whenever a peer has any.
   */
  method ChooseSource(budget: int, lens: seq<nat>, base: nat) returns (src: Source, budget': int)
    requires 0 < |lens| && base < |lens|
    ensures budget == 0 ==> budget' == Max(1, lens[0])
    ensures budget != 0 ==> budget' == budget && src == LocalOrAnywhere(lens)
    ensures src.Stolen? ==> budget == 0 && 0 < src.q < |lens| && lens[src.q] > 0 && FirstPeer(lens, base, src.q)
    ensures budget == 0 && (exists k :: 0 < k < |lens| && lens[k] > 0) ==> src.Stolen?
    ensures budget == 0 && (forall k :: 0 < k < |lens| ==> lens[k] == 0) ==> src == LocalOrAnywhere(lens)
  {
    budget' := budget;
    var taken: Option<nat> := None;
    if budget == 0 {
      taken := StealScan(lens, base);
      budget' := Max(1, lens[0]);
    }
    if taken.Some? {
      src := Stolen(taken.value);
    } else {
      src := LocalOrAnywhere(lens);
    }
  }

  /** VeronaProcessor: time sharing without a context switch cost, plus stealing. */
  class VeronaProcessor {
    const quantum: real
    /** Dispatches left before the next steal attempt. */
    var nextSteal: int

    ghost predicate Valid()
      reads this
    {
      nextSteal >= 0
    }

    /** NewVeronaProcessor: the first dispatch attempts a steal. */
    constructor (q: real)
      ensures Valid() && quantum == q && nextSteal == 0
    {
      quantum := q;
      nextSteal := 0;
    }

    /** The first half of a dispatch: where to read. */
    method Pick(lens: seq<nat>, base: nat) returns (src: Source)
      requires Valid() && 0 < |lens| && base < |lens|
      modifies this
      ensures nextSteal >= 1
      ensures old(nextSteal) == 0 ==> nextSteal == Max(1, lens[0])
      ensures old(nextSteal) != 0 ==> nextSteal == old(nextSteal) && src == LocalOrAnywhere(lens)
      ensures src.Stolen? ==> old(nextSteal) == 0 && 0 < src.q < |lens| && lens[src.q] > 0 && FirstPeer(lens, base, src.q)
      ensures old(nextSteal) == 0 && (exists k :: 0 < k < |lens| && lens[k] > 0) ==> src.Stolen?
      ensures old(nextSteal) == 0 && (forall k :: 0 < k < |lens| ==> lens[k] == 0) ==> src == LocalOrAnywhere(lens)
    {
      src, nextSteal := ChooseSource(nextSteal, lens, base);
    }

    /**
     * The second half: serve the request read for one quantum at most, as
     * the TS processor does with no context switch cost, and spend one unit
     * of the steal budget.
     */
    method Serve(r: Request) returns (s: Processors.Step)
      requires nextSteal >= 1
      modifies this
      ensures Valid() && nextSteal == old(nextSteal) - 1
      ensures s == TSStep(r, quantum, 0.0)
    {
      s := TSStep(r, quantum, 0.0);
      nextSteal := nextSteal - 1;
    }
  }

  /** What one turn of a cown batch did. */
  datatype BatchTurn = Serving(req: Request) | Released | WrittenBack

  /**
   * One iteration of VeronaProcessor2's batch loop, after `done` requests
   * of the batch. Below bCount it pops the head of the cown's queue for
   * service or, finding the queue empty, unschedules the cown and ends the
   * batch without writing it back; at bCount the batch ends and the cown
   * is written back exactly when it is still scheduled. The processor waits
   * out each request's service time between two turns, and the generator
   * may add requests to the cown while it does.
   */
  method CownTurn(c: Cown, done: nat, bCount: int) returns (t: BatchTurn)
    modifies c
    ensures done < bCount && old(c.queue) != [] ==>
      t == Serving(old(c.queue[0])) && c.queue == old(c.queue[1..]) && c.isScheduled == old(c.isScheduled)
    ensures done < bCount && old(c.queue) == [] ==> t == Released && c.queue == [] && !c.isScheduled
    ensures bCount <= done ==>
      c.queue == old(c.queue) && c.isScheduled == old(c.isScheduled) && t == (if c.isScheduled then WrittenBack else Released)
  {
    if done < bCount {
      if |c.queue| == 0 {
        c.isScheduled := false;
        t := Released;
      } else {
        t := Serving(c.queue[0]);
        c.queue := c.queue[1..];
      }
    } else if c.isScheduled {
      t := WrittenBack;
    } else {
      t := Released;
    }
  }

  /** VeronaProcessor2: stealing plus cown batches of at most bCount requests. */
  class VeronaProcessor2 {
    const bCount: int
    const fair: bool
    var nextSteal: int
    /** The requests served so far in the current batch: Go's loop counter i. */
    var done: nat

    ghost predicate Valid()
      reads this
    {
      nextSteal >= 0
    }

    /** NewVeronaProcessor2 */
    constructor (bCount: int, fair: bool)
      ensures Valid() && this.bCount == bCount && this.fair == fair && nextSteal == 0 && done == 0
    {
      this.bCount := bCount;
      this.fair := fair;
      nextSteal := 0;
      done := 0;
    }

    method Pick(lens: seq<nat>, base: nat) returns (src: Source)
      requires Valid() && 0 < |lens| && base < |lens|
      modifies this
      ensures nextSteal >= 1 && done == old(done)
      ensures old(nextSteal) == 0 ==> nextSteal == Max(1, lens[0])
      ensures old(nextSteal) != 0 ==> nextSteal == old(nextSteal) && src == LocalOrAnywhere(lens)
      ensures src.Stolen? ==> old(nextSteal) == 0 && 0 < src.q < |lens| && lens[src.q] > 0 && FirstPeer(lens, base, src.q)
      ensures old(nextSteal) == 0 && (exists k :: 0 < k < |lens| && lens[k] > 0) ==> src.Stolen?
      ensures old(nextSteal) == 0 && (forall k :: 0 < k < |lens| ==> lens[k] == 0) ==> src == LocalOrAnywhere(lens)
    {
      src, nextSteal := ChooseSource(nextSteal, lens, base);
    }

    /**
     * The second half of a dispatch on the cown read, one turn at a time:
     * a turn that serves a request counts it in the batch; the turn that
     * ends the batch starts the count afresh and spends one unit of the
     * steal budget or, when not fair, sets it to 100 so that the processor
     * steals only on its first dispatch.
     */
    method Turn(c: Cown) returns (t: BatchTurn)
      requires nextSteal >= 1
      modifies this, c
      ensures old(done) < bCount && old(c.queue) != [] ==>
        t == Serving(old(c.queue[0])) && c.queue == old(c.queue[1..]) && c.isScheduled == old(c.isScheduled)
      ensures old(done) < bCount && old(c.queue) == [] ==> t == Released && c.queue == [] && !c.isScheduled
      ensures bCount <= old(done) ==>
        c.queue == old(c.queue) && c.isScheduled == old(c.isScheduled) && t == (if c.isScheduled then WrittenBack else Released)
      ensures t.Serving? ==> done == old(done) + 1 && nextSteal == old(nextSteal)
      ensures !t.Serving? ==> done == 0 && nextSteal == (if fair then old(nextSteal) - 1 else 100)
      ensures Valid()
    {
      t := CownTurn(c, done, bCount);
      if t.Serving? {
        done := done + 1;
      } else {
        done := 0;
        if fair {
          nextSteal := nextSteal - 1;
        } else {
          nextSteal := 100;
        }
      }
    }

    /**
     * A whole batch during which no request arrives for the cown: the
     * first min(bCount, queue length) requests are served in order, the
     * cown is unscheduled only when its queue ran out before the batch was
     * complete, and it is written back exactly when it is still scheduled.
     */
    method QuietBatch(c: Cown) returns (served: seq<Request>, requeued: bool)
      requires nextSteal >= 1 && done == 0
      modifies this, c
      ensures Valid() && done == 0 && nextSteal == (if fair then old(nextSteal) - 1 else 100)
      ensures var n := if bCount <= 0 then 0 else if bCount < |old(c.queue)| then bCount else |old(c.queue)|;
        served == old(c.queue)[..n] && c.queue == old(c.queue)[n..]
      ensures c.isScheduled == (old(c.isScheduled) && !(0 < bCount && |old(c.queue)| < bCount))
      ensures requeued == c.isScheduled
    {
      served := [];
      while true
        invariant done == |served| <= |old(c.queue)| && (bCount <= 0 ==> done == 0) && (0 < bCount ==> done <= bCount)
        invariant served == old(c.queue)[..done] && c.queue == old(c.queue)[done..]
        invariant c.isScheduled == old(c.isScheduled) && nextSteal == old(nextSteal)
        decreases |c.queue|
      {
        var t := Turn(c);
        if !t.Serving? {
          requeued := t.WrittenBack?;
          return;
        }
        served := served + [t.req];
      }
    }
  }

  /**
   * An unfair VeronaProcessor2 steals on its first dispatch and never
   * again: after a batch its budget is 100, so the next pick reads
   * locally even when a peer has work.
   */
  method UnfairStealsOnce(lens: seq<nat>, base: nat, c: Cown) returns (first: Source, second: Source)
    requires 1 < |lens| && base < |lens| && lens[1] > 0
    modifies c
    ensures first.Stolen? && second == LocalOrAnywhere(lens)
  {
    var p := new VeronaProcessor2(1, false);
    first := p.Pick(lens, base);
    var _, _ := p.QuietBatch(c);
    second := p.Pick(lens, base);
  }
}
