/**
 * The latency histogram and the drain that feeds it (blocks/request.go):
 * fixed-width buckets, running count, sum and sum of squares, and the
 * percentile estimate by linear interpolation inside a bucket.
 */
module Histograms {
  import opened Wrappers
  import opened Requests

  const BucketCount: nat := 100000
  const Granularity: real := 10.0
  /** The percentiles getPercentiles fills, in the order it fills them. */
  const Percentiles: seq<real> := [0.5, 0.9, 0.95, 0.99]

  /** Go's float-to-int conversion: truncation toward zero. */
  function Trunc(x: real): (r: int)
    ensures 0.0 <= x ==> r as real <= x < r as real + 1.0
    ensures x < 0.0 ==> r as real - 1.0 < x <= r as real
  {
    if x >= 0.0 then x.Floor else -((-x).Floor)
  }

  /** addSample's index: int(s / granularity), clamped into the last bucket. */
  function BucketIndex(s: real): (idx: int)
    ensures idx < BucketCount
    ensures 0 <= idx <==> -10.0 < s
    ensures 0.0 <= s < 1000000.0 ==> 10.0 * idx as real <= s < 10.0 * idx as real + 10.0
    ensures 1000000.0 <= s ==> idx == BucketCount - 1
    ensures -10.0 < s < 0.0 ==> idx == 0
  {
    var index := Trunc(s / Granularity);
    if index >= BucketCount then BucketCount - 1 else index
  }

  function SumSquares(ds: seq<real>): real
  {
    if ds == [] then 0.0 else SumSquares(ds[..|ds| - 1]) + ds[|ds| - 1] * ds[|ds| - 1]
  }

  lemma SumsAppend(ds: seq<real>, x: real)
    ensures Sum(ds + [x]) == Sum(ds) + x
    ensures SumSquares(ds + [x]) == SumSquares(ds) + x * x
  {
    assert (ds + [x])[..|ds|] == ds;
  }

  /** Sum of a sequence of bucket counts. */
  function Total(b: seq<int>): int
  {
    if b == [] then 0 else Total(b[..|b| - 1]) + b[|b| - 1]
  }

  /** How many of the samples fall into bucket i. */
  function Tally(samples: seq<real>, i: int): nat
  {
    if samples == [] then 0
    else Tally(samples[..|samples| - 1], i) + (if BucketIndex(samples[|samples| - 1]) == i then 1 else 0)
  }

  lemma {:induction false} TotalAppend(a: seq<int>, c: seq<int>)
    ensures Total(a + c) == Total(a) + Total(c)
    decreases |c|
  {
    if c == [] {
      assert a + c == a;
    } else {
      assert (a + c)[..|a + c| - 1] == a + c[..|c| - 1];
      TotalAppend(a, c[..|c| - 1]);
    }
  }

  lemma {:induction false} TotalZero(b: seq<int>)
    requires forall i :: 0 <= i < |b| ==> b[i] == 0
    ensures Total(b) == 0
  {
    if b != [] {
      TotalZero(b[..|b| - 1]);
    }
  }

  lemma {:induction false} TotalNonNegative(b: seq<int>)
    requires forall i :: 0 <= i < |b| ==> b[i] >= 0
    ensures Total(b) >= 0
  {
    if b != [] {
      TotalNonNegative(b[..|b| - 1]);
    }
  }

  /** Incrementing one bucket raises the total by one. */
  lemma {:induction false} TotalIncrement(b: seq<int>, k: nat)
    requires k < |b|
    ensures Total(b[k := b[k] + 1]) == Total(b) + 1
  {
    var b' := b[k := b[k] + 1];
    assert b == b[..k] + [b[k]] + b[k + 1..];
    assert b' == b[..k] + [b[k] + 1] + b[k + 1..];
    TotalAppend(b[..k] + [b[k]], b[k + 1..]);
    TotalAppend(b[..k] + [b[k] + 1], b[k + 1..]);
    TotalAppend(b[..k], [b[k]]);
    TotalAppend(b[..k], [b[k] + 1]);
    TotalSingleton(b[k]);
    TotalSingleton(b[k] + 1);
  }

  lemma TotalSingleton(x: int)
    ensures Total([x]) == x
  {
    assert [x][..0] == [];
  }

  /** The counts from bucket lo to bucket i inclusive. */
  function Cum(b: seq<int>, lo: int, i: int): int
    requires 0 <= lo <= i + 1 <= |b|
  {
    Total(b[lo..i + 1])
  }

  lemma CumStep(b: seq<int>, lo: int, i: int)
    requires 0 <= lo <= i < |b|
    ensures Cum(b, lo, i) == Cum(b, lo, i - 1) + b[i]
    ensures i == lo ==> Cum(b, lo, i) == b[i]
  {
    assert b[lo..i + 1][..|b[lo..i + 1]| - 1] == b[lo..i];
    assert b[lo..lo] == [];
  }

  lemma {:induction false} CumMonotone(b: seq<int>, lo: int, j: int, i: int)
    requires 0 <= lo <= j + 1 <= i + 1 <= |b|
    requires forall k :: 0 <= k < |b| ==> b[k] >= 0
    ensures Cum(b, lo, j) <= Cum(b, lo, i)
    decreases i - j
  {
    if j < i {
      CumStep(b, lo, i);
      CumMonotone(b, lo, j, i - 1);
    }
  }

  /** When the counts outside [lo, hi] are zero, [lo, hi] holds the whole total. */
  lemma CumCoversTotal(b: seq<int>, lo: int, hi: int)
    requires 0 <= lo <= hi < |b|
    requires forall k :: 0 <= k < |b| && (k < lo || k > hi) ==> b[k] == 0
    ensures Cum(b, lo, hi) == Total(b)
  {
    assert b == b[..lo] + b[lo..hi + 1] + b[hi + 1..];
    TotalAppend(b[..lo] + b[lo..hi + 1], b[hi + 1..]);
    TotalAppend(b[..lo], b[lo..hi + 1]);
    TotalZero(b[..lo]);
    TotalZero(b[hi + 1..]);
  }

  /** The first bucket j in [i, hi] whose cumulative count from lo exceeds t. */
  function FirstAbove(b: seq<int>, lo: int, i: int, hi: int, t: real): (r: Option<int>)
    requires 0 <= lo <= i && hi < |b|
    ensures r.Some? ==> i <= r.value <= hi && Cum(b, lo, r.value) as real > t
    ensures r.Some? ==> forall j :: i <= j < r.value ==> Cum(b, lo, j) as real <= t
    ensures r.None? ==> forall j :: i <= j <= hi ==> Cum(b, lo, j) as real <= t
    decreases hi - i
  {
    if i > hi then None
    else if Cum(b, lo, i) as real > t then Some(i)
    else FirstAbove(b, lo, i + 1, hi, t)
  }

  /** A bucket whose predecessors are all at or below t is the first one above it. */
  lemma {:induction false} FirstAboveAt(b: seq<int>, lo: int, s: int, hi: int, t: real, i: int)
    requires 0 <= lo <= s <= i <= hi < |b|
    requires forall k :: 0 <= k < |b| ==> b[k] >= 0
    requires Cum(b, lo, i) as real > t
    requires i == lo || Cum(b, lo, i - 1) as real <= t
    ensures FirstAbove(b, lo, s, hi, t) == Some(i)
    decreases i - s
  {
    if s < i {
      CumMonotone(b, lo, s, i - 1);
      FirstAboveAt(b, lo, s + 1, hi, t, i);
    }
  }

  /** The number of samples below percentile k: p * count in getPercentiles. */
  function Target(k: nat, count: nat): real
    requires k < |Percentiles|
  {
    Percentiles[k] * count as real
  }

  /**
   * getPercentiles' value for a target count t that falls into the minimum
   * bucket, which holds n samples: no offset for the bucket's own position.
   */
  function MinBucketValue(n: int, t: real): real
    requires n > 0
  {
    Granularity / n as real * t
  }

  /**
   * getPercentiles' value for a target count t that falls into bucket j of
   * the scan, which holds n samples with `below` samples before it: the offset
   * is that of bucket j - 1.
   */
  function ScanValue(j: int, n: int, t: real, below: int): real
    requires n > 0
  {
    Granularity * (j - 1) as real + Granularity / n as real * (t - below as real)
  }

  /** The interpolated latency of target count t inside bucket j (getPercentiles). */
  function Interpolate(b: seq<int>, lo: int, j: int, t: real): real
    requires 0 <= lo <= j < |b| && b[j] > 0
  {
    if j == lo then MinBucketValue(b[lo], t)
    else ScanValue(j, b[j], t, Cum(b, lo, j - 1))
  }

  /** The value getPercentiles is meant to give percentile p, if it finds a bucket for it. */
  ghost function PercentileValue(b: seq<int>, lo: int, hi: int, count: nat, k: nat): Option<real>
    requires 0 <= lo < |b| && hi < |b| && k < |Percentiles|
  {
    match FirstAbove(b, lo, lo, hi, Target(k, count))
    case None => None
    case Some(j) =>
      assert b[j] > 0 by {
        CumStep(b, lo, j);
        TargetsIncrease(count);
      }
      Some(Interpolate(b, lo, j, Target(k, count)))
  }

  /** The map of the first n percentiles that have a value. */
  ghost function Expected(b: seq<int>, lo: int, hi: int, count: nat, n: nat): map<real, real>
    requires 0 <= lo < |b| && hi < |b| && n <= |Percentiles|
  {
    if n == 0 then map[]
    else match PercentileValue(b, lo, hi, count, n - 1)
      case None => Expected(b, lo, hi, count, n - 1)
      case Some(v) => Expected(b, lo, hi, count, n - 1)[Percentiles[n - 1] := v]
  }

  /** A bucket whose predecessors stay at or below the target gets the percentile. */
  lemma PercentileValueAt(b: seq<int>, lo: int, hi: int, count: nat, k: nat, i: int)
    requires 0 <= lo <= i <= hi < |b| && k < |Percentiles|
    requires forall j :: 0 <= j < |b| ==> b[j] >= 0
    requires Cum(b, lo, i) as real > Target(k, count)
    requires i == lo || Cum(b, lo, i - 1) as real <= Target(k, count)
    ensures b[i] > 0
    ensures PercentileValue(b, lo, hi, count, k) == Some(Interpolate(b, lo, i, Target(k, count)))
  {
    CumStep(b, lo, i);
    TargetsIncrease(count);
    FirstAboveAt(b, lo, lo, hi, Target(k, count), i);
  }

  lemma TargetsIncrease(count: nat)
    ensures forall k, k' :: 0 <= k <= k' < |Percentiles| ==> Target(k, count) <= Target(k', count)
    ensures forall k :: 0 <= k < |Percentiles| ==> 0.0 <= Target(k, count) < count as real || count == 0
    ensures count == 0 ==> forall k :: 0 <= k < |Percentiles| ==> Target(k, count) == 0.0
  {
    var c := count as real;
    assert 0.0 <= 0.5 * c <= 0.9 * c <= 0.95 * c <= 0.99 * c;
    assert c > 0.0 ==> 0.99 * c < c;
  }

  /**
   * What the bucket array, the minimum and maximum bucket and the samples say
   * about each other: bucket i counts the samples whose index is i, and
   * [minBucket, maxBucket] is the tightest range holding every sample.
   */
  ghost predicate Consistent(b: seq<int>, samples: seq<real>, minBucket: int, maxBucket: int)
  {
    |b| == BucketCount &&
    (forall i :: 0 <= i < BucketCount ==> b[i] == Tally(samples, i)) &&
    Total(b) == |samples| &&
    0 <= minBucket < BucketCount && 0 <= maxBucket < BucketCount &&
    (|samples| == 0 ==> minBucket == BucketCount - 1 && maxBucket == 0) &&
    (|samples| > 0 ==> minBucket <= maxBucket && b[minBucket] > 0 && b[maxBucket] > 0) &&
    (forall i :: 0 <= i < BucketCount && (i < minBucket || i > maxBucket) ==> b[i] == 0)
  }

  /** A count, a sum and a sum of squares that describe the samples. */
  ghost predicate Tracks(samples: seq<real>, count: nat, sum: real, sumSquare: real)
  {
    count == |samples| && sum == Sum(samples) && sumSquare == SumSquares(samples)
  }

  /** addSample's running totals keep describing the samples. */
  lemma TracksAppend(samples: seq<real>, count: nat, sum: real, sumSquare: real, s: real)
    requires Tracks(samples, count, sum, sumSquare)
    ensures Tracks(samples + [s], count + 1, sum + s, sumSquare + s * s)
  {
    SumsAppend(samples, s);
  }

  /** addSample's bookkeeping keeps the buckets consistent with the samples. */
  lemma AddSampleConsistent(b: seq<int>, samples: seq<real>, minBucket: int, maxBucket: int, s: real)
    requires Consistent(b, samples, minBucket, maxBucket) && 0 <= BucketIndex(s)
    ensures Consistent(b[BucketIndex(s) := b[BucketIndex(s)] + 1], samples + [s],
      if BucketIndex(s) < minBucket then BucketIndex(s) else minBucket,
      if BucketIndex(s) > maxBucket then BucketIndex(s) else maxBucket)
  {
    var idx := BucketIndex(s);
    var samples' := samples + [s];
    assert samples'[..|samples'| - 1] == samples;
    TotalIncrement(b, idx);
    forall i | 0 <= i < BucketCount ensures b[idx := b[idx] + 1][i] == Tally(samples', i) {
    }
  }

  class Histogram {
    const granularity: real
    const buckets: array<int>
    var count: nat
    var minBucket: int
    var maxBucket: int
    var sum: real
    var sumSquare: real
    /** Every sample recorded so far, in order. */
    ghost var samples: seq<real>

    ghost predicate Valid()
      reads this, buckets
    {
      granularity == Granularity && buckets.Length == BucketCount &&
      Counters() && Consistent(buckets[..], samples, minBucket, maxBucket)
    }

    /** The running count, sum and sum of squares describe the samples. */
    ghost predicate Counters()
      reads this
    {
      Tracks(samples, count, sum, sumSquare)
    }

    /** newHistogram */
    constructor ()
      ensures Valid() && fresh(buckets)
      ensures samples == [] && count == 0 && sum == 0.0 && sumSquare == 0.0
      ensures minBucket == BucketCount - 1 && maxBucket == 0
      ensures forall i :: 0 <= i < BucketCount ==> buckets[i] == 0
    {
      granularity := Granularity;
      buckets := new int[BucketCount](_ => 0);
      count, sum, sumSquare := 0, 0.0, 0.0;
      minBucket, maxBucket := BucketCount - 1, 0;
      samples := [];
      new;
      TotalZero(buckets[..]);
    }

    /**
     * addSample. The Go code panics on a negative index; here `ok` is false
     * and nothing changes.
     */
    method AddSample(s: real) returns (ok: bool)
      requires Valid()
      modifies this, buckets
      ensures Valid()
      ensures ok <==> -10.0 < s
      ensures !ok ==> unchanged(this) && unchanged(buckets)
      ensures ok ==> samples == old(samples) + [s] && count == old(count) + 1
      ensures ok ==> sum == old(sum) + s && sumSquare == old(sumSquare) + s * s
      ensures ok ==> buckets[..] == old(buckets[..])[BucketIndex(s) := old(buckets[BucketIndex(s)]) + 1]
      ensures ok ==> minBucket == (if BucketIndex(s) < old(minBucket) then BucketIndex(s) else old(minBucket))
      ensures ok ==> maxBucket == (if BucketIndex(s) > old(maxBucket) then BucketIndex(s) else old(maxBucket))
    {
      var index := Trunc(s / granularity);
      if index >= BucketCount {
        index := BucketCount - 1;
      }
      if index < 0 || index >= BucketCount {
        return false;
      }
      assert index == BucketIndex(s);
      ghost var b0, s0 := buckets[..], samples;
      AddSampleConsistent(b0, s0, minBucket, maxBucket, s);
      TracksAppend(s0, count, sum, sumSquare, s);
      buckets[index] := buckets[index] + 1;
      assert buckets[..] == b0[index := b0[index] + 1];
      if index > maxBucket {
        maxBucket := index;
      }
      if index < minBucket {
        minBucket := index;
      }
      count := count + 1;
      sum := sum + s;
      sumSquare := sumSquare + s * s;
      samples := s0 + [s];
      ok := true;
    }

    /** avg: None where Go divides 0.0 by 0 (a NaN). */
    function Avg(): (m: Option<real>)
      reads this
      ensures m.Some? <==> count > 0
    {
      if count == 0 then None else Some(sum / count as real)
    }

    /**
     * stddev before its square root: the mean square minus the squared mean.
     * None where Go divides by a zero count. VarianceIsSpread shows it is
     * the mean squared deviation of the samples.
     */
    function Variance(): (v: Option<real>)
      reads this
      ensures v.Some? <==> count > 0
    {
      if count == 0 then None
      else
        var squareAvg := sumSquare / count as real;
        var mean := sum / count as real;
        Some(squareAvg - mean * mean)
    }

    /**
     * getPercentiles as the Go code reads. When all four percentiles fall into
     * the minimum bucket the first loop's guard indexes percentiles[4], a
     * fault; the result is then None.
     */
    method GetPercentilesAsWritten() returns (r: Option<map<real, real>>)
      requires Valid()
      ensures r.None? <==> buckets[minBucket] as real > Target(3, count)
      ensures r.Some? ==> r.value == Expected(buckets[..], minBucket, maxBucket, count, |Percentiles|)
    {
      ConsistentDrainable(buckets[..], samples, minBucket, maxBucket);
      TargetsIncrease(count);
      var accum := new int[BucketCount](_ => 0);
      var res, pi := MinBucketPhase(buckets, accum, minBucket, maxBucket, count);
      if pi >= |Percentiles| {
        return None;
      }
      res := ScanPhase(buckets, accum, buckets[..], minBucket, maxBucket, count, res, pi);
      return Some(res);
    }

    /**
     * getPercentiles with the first loop's guard bounded by the number of
     * percentiles: the same values, and no fault.
     */
    method GetPercentiles() returns (res: map<real, real>)
      requires Valid()
      ensures res == Expected(buckets[..], minBucket, maxBucket, count, |Percentiles|)
    {
      ConsistentDrainable(buckets[..], samples, minBucket, maxBucket);
      var accum := new int[BucketCount](_ => 0);
      var pi;
      res, pi := MinBucketPhase(buckets, accum, minBucket, maxBucket, count);
      if pi >= |Percentiles| {
        return;
      }
      res := ScanPhase(buckets, accum, buckets[..], minBucket, maxBucket, count, res, pi);
    }
  }

  /** The bucket facts getPercentiles relies on follow from the histogram's consistency. */
  lemma ConsistentDrainable(b: seq<int>, samples: seq<real>, lo: int, hi: int)
    requires Consistent(b, samples, lo, hi)
    ensures Drainable(b, lo, hi, |samples|)
  {
  }

  /** The facts about the buckets that getPercentiles relies on. */
  ghost predicate Drainable(b: seq<int>, lo: int, hi: int, count: nat)
  {
    0 <= lo < |b| && 0 <= hi < |b| &&
    (forall j :: 0 <= j < |b| ==> b[j] >= 0) &&
    (forall j :: 0 <= j < |b| && (j < lo || j > hi) ==> b[j] == 0) &&
    Total(b) == count &&
    (count > 0 <==> lo <= hi)
  }

  /** Placing percentile k in bucket i extends the expected map by its interpolated value. */
  lemma ExpectedStep(b: seq<int>, lo: int, hi: int, count: nat, k: nat, i: int)
    requires 0 <= lo <= i <= hi < |b| && k < |Percentiles|
    requires forall j :: 0 <= j < |b| ==> b[j] >= 0
    requires Cum(b, lo, i) as real > Target(k, count)
    requires i == lo || Cum(b, lo, i - 1) as real <= Target(k, count)
    ensures b[i] > 0
    ensures Expected(b, lo, hi, count, k + 1) == Expected(b, lo, hi, count, k)[Percentiles[k] := Interpolate(b, lo, i, Target(k, count))]
  {
    PercentileValueAt(b, lo, hi, count, k, i);
  }

  /** getPercentiles, first phase: the percentiles that fall into the minimum bucket. */
  method MinBucketPhase(buckets: array<int>, accum: array<int>, lo: int, hi: int, count: nat)
    returns (res: map<real, real>, pi: nat)
    requires accum.Length == buckets.Length && accum != buckets
    requires Drainable(buckets[..], lo, hi, count)
    modifies accum
    ensures pi <= |Percentiles| && res == Expected(buckets[..], lo, hi, count, pi)
    ensures accum[lo] == buckets[lo]
    ensures forall k :: 0 <= k < pi ==> Target(k, count) < buckets[lo] as real
    ensures pi < |Percentiles| ==> forall k :: pi <= k < |Percentiles| ==> buckets[lo] as real <= Target(k, count)
  {
    ghost var b := buckets[..];
    CumStep(b, lo, lo);
    res := map[];
    pi := 0;
    accum[lo] := buckets[lo];
    while pi < |Percentiles| && accum[lo] as real > Target(pi, count)
      invariant pi <= |Percentiles| && accum[lo] == b[lo] && b == buckets[..]
      invariant res == Expected(b, lo, hi, count, pi)
      invariant forall k :: 0 <= k < pi ==> Target(k, count) < b[lo] as real
    {
      var t := Target(pi, count);
      ExpectedStep(b, lo, hi, count, pi, lo);
      res := res[Percentiles[pi] := MinBucketValue(buckets[lo], t)];
      pi := pi + 1;
    }
    TargetsIncrease(count);
  }

  /**
   * getPercentiles, the inner loop of the scan: the percentiles that fall
   * into bucket i. b is the bucket array's contents, as in ScanPhase; bucket, cum and
   * cumBefore are the values the loop reads from buckets[i], accum[i] and
   * accum[i - 1].
   */
  method PlaceInBucket(ghost b: seq<int>, lo: int, hi: int, count: nat, i: int,
                       bucket: int, cum: int, cumBefore: int,
                       res0: map<real, real>, pi0: nat) returns (res: map<real, real>, pi: nat)
    requires Drainable(b, lo, hi, count) && lo < i <= hi && pi0 < |Percentiles|
    requires bucket == b[i] && cum == Cum(b, lo, i) && cumBefore == Cum(b, lo, i - 1)
    requires res0 == Expected(b, lo, hi, count, pi0)
    requires forall k :: 0 <= k < pi0 ==> Target(k, count) < Cum(b, lo, i - 1) as real
    requires forall k :: pi0 <= k < |Percentiles| ==> Cum(b, lo, i - 1) as real <= Target(k, count)
    ensures pi0 <= pi <= |Percentiles| && res == Expected(b, lo, hi, count, pi)
    ensures forall k :: 0 <= k < pi ==> Target(k, count) < Cum(b, lo, i) as real
    ensures pi < |Percentiles| ==> forall k :: pi <= k < |Percentiles| ==> Cum(b, lo, i) as real <= Target(k, count)
  {
    CumStep(b, lo, i);
    TargetsIncrease(count);
    res, pi := res0, pi0;
    while cum as real > Target(pi, count)
      invariant pi0 <= pi < |Percentiles|
      invariant res == Expected(b, lo, hi, count, pi)
      invariant forall k :: 0 <= k < pi ==> Target(k, count) < Cum(b, lo, i) as real
      invariant forall k :: pi <= k < |Percentiles| ==> Cum(b, lo, i - 1) as real <= Target(k, count)
      decreases |Percentiles| - pi
    {
      var t := Target(pi, count);
      ExpectedStep(b, lo, hi, count, pi, i);
      res := res[Percentiles[pi] := ScanValue(i, bucket, t, cumBefore)];
      pi := pi + 1;
      if pi >= |Percentiles| {
        return;
      }
    }
  }

  /** getPercentiles, second phase: the scan from minBucket+1 to maxBucket; b is the bucket array's contents. */
  method ScanPhase(buckets: array<int>, accum: array<int>, ghost b: seq<int>, lo: int, hi: int, count: nat,
                   res0: map<real, real>, pi0: nat) returns (res: map<real, real>)
    requires accum.Length == buckets.Length && accum != buckets && b == buckets[..]
    requires Drainable(b, lo, hi, count)
    requires pi0 < |Percentiles| && res0 == Expected(b, lo, hi, count, pi0)
    requires accum[lo] == b[lo]
    requires forall k :: 0 <= k < pi0 ==> Target(k, count) < b[lo] as real
    requires forall k :: pi0 <= k < |Percentiles| ==> b[lo] as real <= Target(k, count)
    modifies accum
    ensures res == Expected(b, lo, hi, count, |Percentiles|)
  {
    CumStep(b, lo, lo);
    res := res0;
    var pi: nat := pi0;
    var i := lo + 1;
    while i <= hi
      invariant lo + 1 <= i <= (if lo <= hi then hi + 1 else lo + 1)
      invariant pi < |Percentiles|
      invariant accum[i - 1] == Cum(b, lo, i - 1)
      invariant res == Expected(b, lo, hi, count, pi)
      invariant forall k :: 0 <= k < pi ==> Target(k, count) < Cum(b, lo, i - 1) as real
      invariant forall k :: pi <= k < |Percentiles| ==> Cum(b, lo, i - 1) as real <= Target(k, count)
      decreases hi - i
    {
      accum[i] := accum[i - 1] + buckets[i];
      CumStep(b, lo, i);
      res, pi := PlaceInBucket(b, lo, hi, count, i, buckets[i], accum[i], accum[i - 1], res, pi);
      if pi >= |Percentiles| {
        return;
      }
      i := i + 1;
    }
    ScanExhausted(b, lo, hi, count, pi);
  }

  /**
   * A scan that passes every bucket without placing all four percentiles
   * happens only for an empty histogram, where the rest have no value.
   */
  lemma ScanExhausted(b: seq<int>, lo: int, hi: int, count: nat, pi: nat)
    requires Drainable(b, lo, hi, count) && pi < |Percentiles|
    requires lo <= hi ==> Cum(b, lo, hi) as real <= Target(pi, count)
    ensures hi < lo && Expected(b, lo, hi, count, |Percentiles|) == Expected(b, lo, hi, count, pi)
  {
    if lo <= hi {
      TargetsIncrease(count);
      CumCoversTotal(b, lo, hi);
      assert false;
    }
    ExpectedEmpty(b, lo, hi, pi, |Percentiles|);
  }

  /** With no samples no percentile has a value. */
  lemma ExpectedEmpty(b: seq<int>, lo: int, hi: int, m: nat, n: nat)
    requires 0 <= lo < |b| && hi < |b| && m <= n <= |Percentiles|
    requires hi < lo
    ensures Expected(b, lo, hi, 0, n) == Expected(b, lo, hi, 0, m)
    decreases n
  {
    if n > m {
      ExpectedEmpty(b, lo, hi, m, n - 1);
    }
  }

  /** With samples, every percentile target is exceeded somewhere in [lo, hi]. */
  lemma PercentileFound(b: seq<int>, lo: int, hi: int, count: nat, k: nat)
    requires Drainable(b, lo, hi, count) && count > 0 && k < |Percentiles|
    ensures PercentileValue(b, lo, hi, count, k).Some?
  {
    TargetsIncrease(count);
    CumCoversTotal(b, lo, hi);
  }

  /** With samples, the first n percentiles all get a value. */
  lemma {:induction false} ExpectedKeys(b: seq<int>, lo: int, hi: int, count: nat, n: nat)
    requires Drainable(b, lo, hi, count) && count > 0 && n <= |Percentiles|
    ensures Expected(b, lo, hi, count, n).Keys == set k | 0 <= k < n :: Percentiles[k]
  {
    if n > 0 {
      PercentileFound(b, lo, hi, count, n - 1);
      ExpectedKeys(b, lo, hi, count, n - 1);
      var v := PercentileValue(b, lo, hi, count, n - 1).value;
      assert Expected(b, lo, hi, count, n) == Expected(b, lo, hi, count, n - 1)[Percentiles[n - 1] := v];
      assert (set k | 0 <= k < n :: Percentiles[k]) == (set k | 0 <= k < n - 1 :: Percentiles[k]) + {Percentiles[n - 1]};
    }
  }

  /**
   * The estimate for a percentile in the minimum bucket lies in [0, 10), and
   * one in a later bucket j in [10 * (j - 1), 10 * j): one bucket below the
   * bucket the samples were counted in.
   */
  lemma InterpolateRange(b: seq<int>, lo: int, j: int, t: real)
    requires 0 <= lo <= j < |b| && b[j] > 0 && 0.0 <= t
    requires Cum(b, lo, j) as real > t
    requires j == lo || Cum(b, lo, j - 1) as real <= t
    ensures j == lo ==> 0.0 <= Interpolate(b, lo, j, t) < Granularity
    ensures j > lo ==> Granularity * (j - 1) as real <= Interpolate(b, lo, j, t) < Granularity * j as real
  {
    CumStep(b, lo, j);
    var n := b[j] as real;
    var x := if j == lo then t else t - Cum(b, lo, j - 1) as real;
    assert 0.0 <= x < n;
    FractionBelowOne(x, n);
  }

  lemma FractionBelowOne(x: real, n: real)
    requires 0.0 <= x < n
    ensures 0.0 <= 10.0 / n * x < 10.0
  {
    assert 10.0 / n * x == 10.0 * (x / n);
    assert x / n < 1.0;
  }

  /**
   * When every sample lies in one bucket, the four estimates are 5, 9, 9.5 and
   * 9.9 whichever bucket that is: the minimum bucket carries no offset.
   */
  lemma SingleBucketPercentiles(b: seq<int>, lo: int, count: nat)
    requires Drainable(b, lo, lo, count) && count > 0
    ensures Expected(b, lo, lo, count, |Percentiles|) == map[0.5 := 5.0, 0.9 := 9.0, 0.95 := 9.5, 0.99 := 9.9]
  {
    SingleBucketValue(b, lo, count, 0);
    SingleBucketValue(b, lo, count, 1);
    SingleBucketValue(b, lo, count, 2);
    SingleBucketValue(b, lo, count, 3);
    assert Expected(b, lo, lo, count, 1) == map[0.5 := 5.0];
    assert Expected(b, lo, lo, count, 2) == map[0.5 := 5.0, 0.9 := 9.0];
    assert Expected(b, lo, lo, count, 3) == map[0.5 := 5.0, 0.9 := 9.0, 0.95 := 9.5];
  }

  /** With a single bucket holding every sample, percentile p is estimated as 10 * p. */
  lemma SingleBucketValue(b: seq<int>, lo: int, count: nat, k: nat)
    requires Drainable(b, lo, lo, count) && count > 0 && k < |Percentiles|
    ensures PercentileValue(b, lo, lo, count, k) == Some(10.0 * Percentiles[k])
  {
    CumCoversTotal(b, lo, lo);
    CumStep(b, lo, lo);
    TargetsIncrease(count);
    PercentileValueAt(b, lo, lo, count, k, lo);
    assert b[lo] == count;
    var n, t := count as real, Target(k, count);
    assert PercentileValue(b, lo, lo, count, k) == Some(Interpolate(b, lo, lo, t));
    assert Interpolate(b, lo, lo, t) == MinBucketValue(count, t) == 10.0 / n * t;
    assert t == Percentiles[k] * n;
    ScaleTarget(n, Percentiles[k]);
    assert 10.0 / n * t == 10.0 * Percentiles[k];
  }

  function Repeat(v: real, k: nat): (s: seq<real>)
    ensures |s| == k && forall i :: 0 <= i < k ==> s[i] == v
  {
    if k == 0 then [] else Repeat(v, k - 1) + [v]
  }

  /** The sum of k copies of v. */
  lemma {:induction false} RepeatSum(v: real, k: nat)
    ensures Sum(Repeat(v, k)) == k as real * v
  {
    if k > 0 {
      var r := Repeat(v, k - 1);
      assert Repeat(v, k) == r + [v];
      RepeatSum(v, k - 1);
      SumsAppend(r, v);
      MulSucc((k - 1) as real, v);
    }
  }

  /** The sum of the squares of k copies of v is the sum of k copies of v * v. */
  lemma {:induction false} RepeatSumSquares(v: real, k: nat)
    ensures SumSquares(Repeat(v, k)) == Sum(Repeat(v * v, k))
  {
    if k > 0 {
      assert Repeat(v, k) == Repeat(v, k - 1) + [v];
      assert Repeat(v * v, k) == Repeat(v * v, k - 1) + [v * v];
      RepeatSumSquares(v, k - 1);
      SumsAppend(Repeat(v, k - 1), v);
      SumsAppend(Repeat(v * v, k - 1), v * v);
    }
  }

  lemma MulSucc(c: real, v: real)
    ensures c * v + v == (c + 1.0) * v
  {
  }

  lemma DivOfScaled(s: real, c: real, x: real)
    requires c != 0.0 && s == c * x
    ensures s / c == x
  {
  }

  lemma ScaleTarget(n: real, p: real)
    requires n > 0.0
    ensures 10.0 / n * (p * n) == 10.0 * p
  {
  }

  /** The mean of k copies of v is v. */
  lemma RepeatMean(v: real, k: nat)
    requires k > 0
    ensures Sum(Repeat(v, k)) / k as real == v
  {
    RepeatSum(v, k);
    DivOfScaled(Sum(Repeat(v, k)), k as real, v);
  }

  /** The mean of k copies of v is v, and their mean square is v * v. */
  lemma RepeatMoments(v: real, k: nat)
    requires k > 0
    ensures Sum(Repeat(v, k)) / k as real == v
    ensures SumSquares(Repeat(v, k)) / k as real == v * v
  {
    RepeatMean(v, k);
    RepeatSumSquares(v, k);
    RepeatMean(v * v, k);
  }

  lemma SquareNonNegative(y: real)
    ensures y * y >= 0.0
  {
    if y < 0.0 {
      assert y * y == (-y) * (-y);
    }
  }

  /** The sum of the squared deviations of ds from m. */
  function Deviations(ds: seq<real>, m: real): (d: real)
    ensures d >= 0.0
  {
    if ds == [] then 0.0
    else
      var y := ds[|ds| - 1] - m;
      SquareNonNegative(y);
      Deviations(ds[..|ds| - 1], m) + y * y
  }

  /** The sum of the cross terms 2·m·x of the squares (x - m)². */
  function Cross(ds: seq<real>, m: real): real
  {
    if ds == [] then 0.0 else Cross(ds[..|ds| - 1], m) + 2.0 * m * ds[|ds| - 1]
  }

  lemma {:induction false} CrossIsScaledSum(ds: seq<real>, m: real)
    ensures Cross(ds, m) == 2.0 * m * Sum(ds)
  {
    if ds != [] {
      CrossIsScaledSum(ds[..|ds| - 1], m);
    }
  }

  /** Expanding the squares: the deviations in terms of the sum of squares, the cross terms and the count. */
  lemma {:induction false} DeviationsExpand(ds: seq<real>, m: real)
    ensures Deviations(ds, m) == SumSquares(ds) - Cross(ds, m) + Sum(Repeat(m * m, |ds|))
  {
    if ds != [] {
      var n := |ds| - 1;
      var x := ds[n];
      assert (x - m) * (x - m) == x * x - 2.0 * m * x + m * m;
      assert Repeat(m * m, |ds|) == Repeat(m * m, n) + [m * m];
      SumsAppend(Repeat(m * m, n), m * m);
      DeviationsExpand(ds[..n], m);
    }
  }

  /** The deviations from any m: the sum of squares, less 2·m·Σx, plus n·m². */
  lemma DeviationsClosed(ds: seq<real>, m: real)
    ensures Deviations(ds, m) == SumSquares(ds) - 2.0 * m * Sum(ds) + |ds| as real * (m * m)
  {
    DeviationsExpand(ds, m);
    CrossIsScaledSum(ds, m);
    RepeatSum(m * m, |ds|);
  }

  /**
   * The arithmetic of the variance, free of divisions: with mean m and
   * mean square q of n samples, and deviations d = ss - 2·m·s + n·m²,
   * n·(q - m²) is d.
   */
  lemma SpreadIdentity(ss: real, s: real, n: real, m: real, q: real, d: real)
    requires m * n == s && q * n == ss
    requires d == ss - 2.0 * m * s + n * (m * m)
    ensures n * (q - m * m) == d
  {
    assert n * (q - m * m) == ss - n * (m * m);
  }

  lemma DivTimes(a: real, n: real)
    requires n != 0.0
    ensures (a / n) * n == a
  {
  }

  lemma PositiveFactor(n: real, v: real)
    requires n > 0.0 && n * v >= 0.0
    ensures v >= 0.0
  {
    assert v == (n * v) / n;
  }

  /**
   * With d the deviations of count samples from their mean in closed form,
   * count · (mean square − mean²) is d.
   */
  lemma SpreadOfDeviations(count: nat, sum: real, sumSquare: real, d: real)
    requires count > 0
    requires d == sumSquare - 2.0 * (sum / count as real) * sum + count as real * ((sum / count as real) * (sum / count as real))
    ensures count as real * (sumSquare / count as real - (sum / count as real) * (sum / count as real)) == d
  {
    var n := count as real;
    DivTimes(sum, n);
    DivTimes(sumSquare, n);
    SpreadIdentity(sumSquare, sum, n, sum / n, sumSquare / n, d);
  }

  /**
   * The value under stddev's square root, times the count, is the sum of
   * the squared deviations of the samples from their mean: it is never
   * negative, so math.Sqrt is defined on it.
   */
  lemma VarianceIsSpread(h: Histogram)
    requires h.Counters() && h.count > 0
    ensures h.count as real * h.Variance().value == Deviations(h.samples, h.Avg().value)
    ensures h.Variance().value >= 0.0
  {
    var m := h.sum / h.count as real;
    DeviationsClosed(h.samples, m);
    SpreadOfDeviations(h.count, h.sum, h.sumSquare, Deviations(h.samples, m));
    PositiveFactor(h.count as real, h.Variance().value);
  }

  lemma ZeroSpread(s: real, q: real, n: real, v: real)
    requires n != 0.0 && s / n == v && q / n == v * v
    ensures q / n - (s / n) * (s / n) == 0.0
  {
  }

  /** k identical samples of value v: the mean is v and the variance zero. */
  lemma IdenticalSamplesMoments(h: Histogram, v: real, k: nat)
    requires h.Counters() && h.samples == Repeat(v, k) && k > 0
    ensures h.Avg() == Some(v)
    ensures h.Variance() == Some(0.0)
  {
    assert h.sum == Sum(Repeat(v, k)) && h.sumSquare == SumSquares(Repeat(v, k)) && h.count == k;
    RepeatMoments(v, k);
    ZeroSpread(h.sum, h.sumSquare, h.count as real, v);
    assert h.Avg().value == v && h.Variance().value == 0.0;
  }

  /**
   * When every sample lies in one bucket, all four percentile targets fall
   * into the minimum bucket: the case where the as-written getPercentiles
   * faults.
   */
  lemma SingleBucketFaults(b: seq<int>, lo: int, count: nat)
    requires Drainable(b, lo, lo, count) && count > 0
    ensures b[lo] as real > Target(3, count)
  {
    CumCoversTotal(b, lo, lo);
    CumStep(b, lo, lo);
    TargetsIncrease(count);
  }

  /**
   * One sample of 5.0: the as-written getPercentiles faults where the
   * bounded one gives 5, 9, 9.5 and 9.9.
   */
  method OneSampleExample() returns (asWritten: Option<map<real, real>>, bounded: map<real, real>)
    ensures asWritten == None
    ensures bounded == map[0.5 := 5.0, 0.9 := 9.0, 0.95 := 9.5, 0.99 := 9.9]
  {
    var h := new Histogram();
    var ok := h.AddSample(5.0);
    assert BucketIndex(5.0) == 0;
    ConsistentDrainable(h.buckets[..], h.samples, h.minBucket, h.maxBucket);
    SingleBucketFaults(h.buckets[..], h.minBucket, h.count);
    SingleBucketPercentiles(h.buckets[..], h.minBucket, h.count);
    asWritten := h.GetPercentilesAsWritten();
    bounded := h.GetPercentiles();
  }

  /** A drain: a named histogram of sojourn times. */
  class BookKeeper {
    const hdr: Histogram
    var name: string

    ghost predicate Valid()
      reads this, hdr, hdr.buckets
    {
      hdr.Valid()
    }

    /** NewBookKeeper */
    constructor ()
      ensures Valid() && fresh(hdr) && fresh(hdr.buckets)
      ensures hdr.samples == [] && name == ""
    {
      hdr := new Histogram();
      name := "";
    }

    method SetName(name: string)
      modifies this
      ensures this.name == name
    {
      this.name := name;
    }

    /**
     * TerminateReq at clock value `now`: records the request's sojourn time.
     * ok is false where addSample would fault (a sojourn time of -10 or less).
     */
    method TerminateReq(now: real, r: Request) returns (ok: bool)
      requires Valid()
      modifies hdr, hdr.buckets
      ensures Valid()
      ensures ok <==> -10.0 < GetDelay(now, r)
      ensures ok ==> hdr.samples == old(hdr.samples) + [GetDelay(now, r)]
      ensures !ok ==> hdr.samples == old(hdr.samples)
    {
      var d := GetDelay(now, r);
      ok := hdr.AddSample(d);
    }
  }
}
