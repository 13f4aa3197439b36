/** Percentiles read off a histogram by interpolation, and how far they can be from the true order statistic. */
module Percentile {
  import opened Wrappers
  import opened Histogram

  datatype Extremes = Extremes(min: Option<int>, max: Option<int>)

  datatype RangeError = RankOutOfRange | WrongBucketCount

  function FirstPositive(h: seq<nat>): (i: nat)
    requires Sum(h) > 0
    ensures i < |h| && h[i] > 0 && forall j :: 0 <= j < i ==> h[j] == 0
  {
    if Sum(h[..|h| - 1]) > 0 then FirstPositive(h[..|h| - 1])
    else
      SumPositive(h[..|h| - 1]);
      |h| - 1
  }

  function LastPositive(h: seq<nat>): (i: nat)
    requires Sum(h) > 0
    ensures i < |h| && h[i] > 0 && forall j :: i < j < |h| ==> h[j] == 0
  {
    if h[|h| - 1] > 0 then |h| - 1 else LastPositive(h[..|h| - 1])
  }

  lemma {:induction false} SumPositive(h: seq<nat>)
    ensures Sum(h) > 0 <==> exists i :: 0 <= i < |h| && h[i] > 0
  {
    if h != [] {
      var rest := h[..|h| - 1];
      SumPositive(rest);
      if i :| 0 <= i < |rest| && rest[i] > 0 {
        assert h[i] > 0;
      }
    }
  }

  lemma PrefixSumStep(h: seq<nat>, j: nat)
    requires 0 < j <= |h|
    ensures Sum(h[..j]) == Sum(h[..j - 1]) + h[j - 1]
  {
    assert h[..j][..j - 1] == h[..j - 1];
  }

  lemma {:induction false} PrefixSumsUpTo(h: seq<nat>, i: nat, j: nat)
    requires i <= j <= |h|
    ensures Sum(h[..i]) <= Sum(h[..j])
    ensures forall k :: i <= k < j ==> h[k] <= Sum(h[..j]) - Sum(h[..i])
    ensures (forall k :: i <= k < j ==> h[k] == 0) ==> Sum(h[..i]) == Sum(h[..j])
    decreases j
  {
    if i < j {
      PrefixSumStep(h, j);
      PrefixSumsUpTo(h, i, j - 1);
    }
  }

  /** Bucket `i` is the one the rank falls in. */
  ghost predicate RankBucket(h: Hist, rank: real, i: nat) {
    i < BUCKETS && Sum(h[..i]) as real < rank <= Sum(h[..i + 1]) as real
  }

  function Max(a: int, b: int): int { if a < b then b else a }

  function Min(a: int, b: int): int { if a < b then a else b }

  /** The lower end of bucket `i`: its edge, tightened by the smallest sample in the lowest populated bucket. */
  function Lower(h: Hist, i: nat, ends: Extremes): int
    requires i < BUCKETS && Sum(h) > 0
  {
    var edge := if i == 0 then 0 else EDGES[i - 1];
    if i == FirstPositive(h) && ends.min.Some? then Max(edge, ends.min.value) else edge
  }

  /** The upper end of bucket `i`, never below the lower end. */
  function Upper(h: Hist, i: nat, ends: Extremes): (u: int)
    requires i < BUCKETS && Sum(h) > 0
    ensures Lower(h, i, ends) <= u
  {
    var unclamped := if i == 0 then 0 else EDGES[i - 1];
    var edge := if i < |EDGES| then EDGES[i] else ends.max.GetOr(unclamped);
    var upper := if i == LastPositive(h) && ends.max.Some? then Min(edge, ends.max.value) else edge;
    Max(upper, Lower(h, i, ends))
  }

  /** `v` lies in the rank's bucket, as far along it as the rank is among the bucket's samples. */
  ghost predicate Interpolates(h: Hist, rank: real, ends: Extremes, i: nat, v: real) {
    && Sum(h) > 0 && RankBucket(h, rank, i) && h[i] > 0
    && Along(Lower(h, i, ends), Upper(h, i, ends), Sum(h[..i]), h[i], rank, v)
  }

  /** `v` is as far from `lo` to `hi` as the rank is into the `inside` samples that come after `below` others. */
  predicate Along(lo: int, hi: int, below: nat, inside: nat, rank: real, v: real) {
    (v - lo as real) * inside as real == (hi - lo) as real * (rank - below as real)
  }

  ghost predicate AtPercentile(h: Hist, rank: real, ends: Extremes, v: real) {
    exists i :: Interpolates(h, rank, ends, i, v)
  }

  function Rank(p: real, n: nat): real {
    p * n as real
  }

  method Percentile(hist: seq<nat>, p: real, ends: Extremes) returns (r: Result<Option<real>, RangeError>)
    ensures r.Ok? <==> 0.0 < p <= 1.0 && |hist| == BUCKETS
    ensures r == Err(RankOutOfRange) <==> !(0.0 < p <= 1.0)
    ensures r == Err(WrongBucketCount) <==> 0.0 < p <= 1.0 && |hist| != BUCKETS
    ensures r == Ok(None) <==> 0.0 < p <= 1.0 && |hist| == BUCKETS && Sum(hist) == 0
    ensures r.Ok? && r.value.Some? ==> AtPercentile(hist, Rank(p, Sum(hist)), ends, r.value.value)
  {
    if !(0.0 < p <= 1.0) {
      return Err(RankOutOfRange);
    }
    if |hist| != BUCKETS {
      return Err(WrongBucketCount);
    }
    if Sum(hist) == 0 {
      return Ok(None);
    }
    RankInRange(Sum(hist), p);
    var v := AtRank(hist, Rank(p, Sum(hist)), ends);
    return Ok(Some(v));
  }

  lemma RankInRange(n: nat, p: real)
    requires 0.0 < p <= 1.0 && n > 0
    ensures 0.0 < Rank(p, n) <= n as real
  {
  }

  /** The scan for the rank's bucket, and the interpolation inside it. */
  method AtRank(hist: Hist, rank: real, ends: Extremes) returns (v: real)
    requires Sum(hist) > 0 && 0.0 < rank <= Sum(hist) as real
    ensures AtPercentile(hist, rank, ends, v)
  {
    var before := 0;
    assert hist[..0] == [] && hist[..BUCKETS] == hist;
    for i := 0 to BUCKETS
      invariant before == Sum(hist[..i])
      invariant before as real < rank
    {
      PrefixSumStep(hist, i + 1);
      var count := hist[i];
      if count == 0 || (before + count) as real < rank {
        before := before + count;
        continue;
      }
      var lower, upper := BucketSpan(hist, i, ends);
      v := Interpolate(lower, upper, before, count, rank);
      SpanIs(hist, rank, ends, i, v, lower, upper, before, count);
      return;
    }
    assert false;
  }

  method Interpolate(lo: int, hi: int, before: nat, count: nat, rank: real) returns (v: real)
    requires count > 0
    ensures Along(lo, hi, before, count, rank, v)
  {
    v := lo as real + (hi - lo) as real * (rank - before as real) / count as real;
    Divides((hi - lo) as real * (rank - before as real), count as real);
  }

  /** The ends of the bucket holding the rank, tightened by the observed extremes. */
  method BucketSpan(hist: Hist, i: nat, ends: Extremes) returns (lower: int, upper: int)
    requires i < BUCKETS && Sum(hist) > 0
    ensures lower == Lower(hist, i, ends) && upper == Upper(hist, i, ends)
  {
    lower := if i == 0 then 0 else EDGES[i - 1];
    upper := if i < |EDGES| then EDGES[i] else ends.max.GetOr(lower);
    if i == FirstPositive(hist) && ends.min.Some? {
      lower := Max(lower, ends.min.value);
    }
    if i == LastPositive(hist) && ends.max.Some? {
      upper := Min(upper, ends.max.value);
    }
    if upper < lower {
      upper := lower;
    }
  }

  /** How many samples lie strictly below `v`. */
  function CountLt(samples: seq<int>, v: int): nat {
    CountLe(samples, v - 1)
  }

  /** `v` is the k-th smallest sample, counting from one. */
  ghost predicate KthSmallest(samples: seq<int>, k: nat, v: int) {
    v in samples && CountLt(samples, v) < k <= CountLe(samples, v)
  }

  ghost predicate IsMin(samples: seq<int>, m: int) {
    m in samples && forall x :: x in samples ==> m <= x
  }

  ghost predicate IsMax(samples: seq<int>, m: int) {
    m in samples && forall x :: x in samples ==> x <= m
  }

  /** Buckets order samples as their values do, so cumulative bucket counts bracket cumulative value counts. */
  lemma {:induction false} BucketsBracketCounts(samples: seq<int>, v: int)
    ensures CountBelowBucket(samples, Bucket(v)) <= CountLt(samples, v)
    ensures CountLe(samples, v) <= CountBelowBucket(samples, Bucket(v) + 1)
  {
    if samples != [] {
      var x := samples[|samples| - 1];
      BucketsBracketCounts(samples[..|samples| - 1], v);
      if x <= v {
        BucketMonotone(x, v);
      } else {
        BucketMonotone(v, x);
      }
      if v <= x {
        BucketMonotone(v, x);
      }
    }
  }

  lemma {:induction false} BucketHoldsSample(samples: seq<int>, x: int)
    requires x in samples
    ensures HistOf(samples)[Bucket(x)] > 0
  {
    var rest, last := samples[..|samples| - 1], samples[|samples| - 1];
    if x != last {
      assert x in rest;
      BucketHoldsSample(rest, x);
    }
  }

  lemma {:induction false} PopulatedBucketHasSample(samples: seq<int>, i: nat) returns (x: int)
    requires i < BUCKETS && HistOf(samples)[i] > 0
    ensures x in samples && Bucket(x) == i
  {
    if samples == [] {
      assert false;
      x := 0;
    } else {
      var rest, last := samples[..|samples| - 1], samples[|samples| - 1];
      if Bucket(last) == i {
        x := last;
      } else {
        x := PopulatedBucketHasSample(rest, i);
      }
    }
  }

  /** The lowest populated bucket holds the smallest sample and the highest holds the largest. */
  lemma EndsOfHistogram(samples: seq<int>, min: int, max: int)
    requires IsMin(samples, min) && IsMax(samples, max)
    ensures Sum(HistOf(samples)) == |samples| > 0
    ensures FirstPositive(HistOf(samples)) == Bucket(min)
    ensures LastPositive(HistOf(samples)) == Bucket(max)
  {
    HistCountsSamples(samples);
    BucketHoldsSample(samples, min);
    BucketHoldsSample(samples, max);
    forall i | 0 <= i < BUCKETS && HistOf(samples)[i] > 0
      ensures Bucket(min) <= i <= Bucket(max)
    {
      var x := PopulatedBucketHasSample(samples, i);
      BucketMonotone(min, x);
      BucketMonotone(x, max);
    }
    EndsOf(HistOf(samples), Bucket(min), Bucket(max));
  }

  lemma EndsOf(h: Hist, a: nat, b: nat)
    requires a <= b < BUCKETS && h[a] > 0 && h[b] > 0
    requires forall i :: 0 <= i < BUCKETS && h[i] > 0 ==> a <= i <= b
    ensures Sum(h) > 0 && FirstPositive(h) == a && LastPositive(h) == b
  {
    SumPositive(h);
  }

  /** The rank falls in the bucket of the true `ceil(p * n)`-th smallest sample. */
  lemma RankFindsOrderStatistic(samples: seq<int>, rank: real, k: nat, v: int, i: nat)
    requires (k - 1) as real < rank <= k as real
    requires KthSmallest(samples, k, v)
    ensures RankBucket(HistOf(samples), rank, i) <==> i == Bucket(v)
  {
    var h := HistOf(samples);
    BucketsBracketCounts(samples, v);
    var b := Bucket(v);
    PrefixSumCounts(samples, b);
    PrefixSumCounts(samples, b + 1);
    assert Sum(h[..b]) <= k - 1 && k <= Sum(h[..b + 1]);
    assert RankBucket(h, rank, b);
    if i < BUCKETS {
      if i < b {
        PrefixSumsUpTo(h, i + 1, b);
      } else if b < i {
        PrefixSumsUpTo(h, b + 1, i);
      }
    }
  }

  /** Nearest edge below a bucket, zero for the first: latencies are durations. */
  function EdgeBelow(b: nat): int
    requires b < BUCKETS
  {
    if b == 0 then 0 else EDGES[b - 1]
  }

  /** Edge above a bucket; the open-ended top bucket ends at the largest sample. */
  function EdgeAbove(b: nat, max: int): int
    requires b < BUCKETS
  {
    if b < |EDGES| then EDGES[b] else max
  }

  lemma BucketEnds(samples: seq<int>, min: int, max: int, b: nat)
    requires IsMin(samples, min) && IsMax(samples, max) && 0 <= min
    requires b < BUCKETS && HistOf(samples)[b] > 0
    ensures Sum(HistOf(samples)) > 0
    ensures Lower(HistOf(samples), b, Extremes(Some(min), Some(max))) == Max(EdgeBelow(b), min)
    ensures Upper(HistOf(samples), b, Extremes(Some(min), Some(max))) == Min(EdgeAbove(b, max), max)
  {
    EndsOfHistogram(samples, min, max);
    var x := PopulatedBucketHasSample(samples, b);
    BucketMonotone(min, x);
    BucketMonotone(x, max);
    BucketIsInclusiveAbove(x, b);
    BucketIsInclusiveAbove(min, Bucket(min));
    BucketIsInclusiveAbove(max, Bucket(max));
    LowerEnd(HistOf(samples), Extremes(Some(min), Some(max)), Bucket(min), b);
    UpperEnd(HistOf(samples), Extremes(Some(min), Some(max)), b, Bucket(max), x);
  }

  lemma LowerEnd(h: Hist, ends: Extremes, first: nat, b: nat)
    requires Sum(h) > 0 && FirstPositive(h) == first <= b < BUCKETS
    requires ends.min.Some? && 0 <= ends.min.value && InBucket(ends.min.value, first)
    ensures Lower(h, b, ends) == Max(EdgeBelow(b), ends.min.value)
  {
    EdgesAscend();
    if first < b {
      assert EDGES[first] <= EDGES[b - 1];
    }
  }

  /** A sample of the bucket lies between its ends, so the upper one needs no raising. */
  lemma UpperEnd(h: Hist, ends: Extremes, b: nat, last: nat, x: int)
    requires Sum(h) > 0 && b <= last == LastPositive(h) < BUCKETS && ends.max.Some? && InBucket(ends.max.value, last)
    requires ends.min.Some? && Lower(h, b, ends) == Max(EdgeBelow(b), ends.min.value)
    requires InBucket(x, b) && 0 <= ends.min.value <= x <= ends.max.value
    ensures Upper(h, b, ends) == Min(EdgeAbove(b, ends.max.value), ends.max.value)
  {
    EdgesAscend();
    if b < last {
      assert EDGES[b] <= EDGES[last - 1];
    }
  }

  lemma Between(lo: int, hi: int, below: nat, inside: nat, rank: real, v: real)
    requires lo <= hi && below as real <= rank <= (below + inside) as real && inside > 0
    requires Along(lo, hi, below, inside, rank, v)
    ensures lo as real <= v <= hi as real
  {
    AlongMonotone(lo, hi, below, inside, below as real, rank, lo as real, v);
    AlongMonotone(lo, hi, below, inside, rank, (below + inside) as real, v, hi as real);
  }

  lemma Divides(x: real, whole: real)
    requires whole > 0.0
    ensures x / whole * whole == x
  {
  }

  /** Extremes that were left out, or that lie in the outermost populated buckets. */
  ghost predicate EndsFit(h: Hist, ends: Extremes)
    requires Sum(h) > 0
  {
    && (ends.min.Some? ==> Bucket(ends.min.value) == FirstPositive(h))
    && (ends.max.Some? ==> Bucket(ends.max.value) == LastPositive(h))
    && (ends.min.Some? && ends.max.Some? ==> ends.min.value <= ends.max.value)
  }

  lemma LowerBucketEndsFirst(h: Hist, ends: Extremes, i: nat, j: nat)
    requires Sum(h) > 0 && EndsFit(h, ends)
    requires i < j < BUCKETS && h[i] > 0 && h[j] > 0
    ensures Upper(h, i, ends) <= Lower(h, j, ends)
  {
    EdgesAscend();
    EdgesBetween(i, j);
    if ends.min.Some? {
      BucketIsInclusiveAbove(ends.min.value, Bucket(ends.min.value));
    }
  }

  lemma EdgesBetween(i: nat, j: nat)
    requires i < j < BUCKETS
    ensures EDGES[i] <= EDGES[j - 1]
  {
    EdgesAscend();
  }

  lemma AlongMonotone(lo: int, hi: int, below: nat, inside: nat, rank: real, rank': real, v: real, v': real)
    requires lo <= hi && rank <= rank' && inside > 0
    requires Along(lo, hi, below, inside, rank, v) && Along(lo, hi, below, inside, rank', v')
    ensures v <= v'
  {
    Scales((hi - lo) as real, rank - below as real, rank' - below as real);
    Cancels(v - lo as real, v' - lo as real, inside as real);
  }

  lemma Scales(d: real, x: real, y: real)
    requires 0.0 <= d && x <= y
    ensures d * x <= d * y
  {
  }

  lemma Cancels(x: real, y: real, whole: real)
    requires x * whole <= y * whole && whole > 0.0
    ensures x <= y
  {
  }

  lemma InterpolatesInside(h: Hist, rank: real, ends: Extremes, i: nat, v: real)
    requires Interpolates(h, rank, ends, i, v)
    ensures Lower(h, i, ends) as real <= v <= Upper(h, i, ends) as real
  {
    PrefixSumStep(h, i + 1);
    Between(Lower(h, i, ends), Upper(h, i, ends), Sum(h[..i]), h[i], rank, v);
  }

  lemma RankBucketsOrdered(h: Hist, rank: real, rank': real, i: nat, i': nat)
    requires rank <= rank' && RankBucket(h, rank, i) && RankBucket(h, rank', i')
    ensures i <= i'
  {
    if i' < i {
      PrefixSumsUpTo(h, i' + 1, i);
    }
  }

  lemma SameBucketMonotone(h: Hist, ends: Extremes, rank: real, rank': real, i: nat, v: real, v': real)
    requires rank <= rank' && Interpolates(h, rank, ends, i, v) && Interpolates(h, rank', ends, i, v')
    ensures v <= v'
  {
    AlongMonotone(Lower(h, i, ends), Upper(h, i, ends), Sum(h[..i]), h[i], rank, rank', v, v');
  }

  /** Asking for a higher rank never gives a smaller latency. */
  lemma PercentileMonotone(h: Hist, ends: Extremes, rank: real, rank': real, v: real, v': real)
    requires Sum(h) > 0 && EndsFit(h, ends) && rank <= rank'
    requires AtPercentile(h, rank, ends, v) && AtPercentile(h, rank', ends, v')
    ensures v <= v'
  {
    var i :| Interpolates(h, rank, ends, i, v);
    var i' :| Interpolates(h, rank', ends, i', v');
    RankBucketsOrdered(h, rank, rank', i, i');
    if i == i' {
      SameBucketMonotone(h, ends, rank, rank', i, v, v');
    } else {
      InterpolatesInside(h, rank, ends, i, v);
      InterpolatesInside(h, rank', ends, i', v');
      LowerBucketEndsFirst(h, ends, i, i');
    }
  }

  /**
   * The reported percentile and the true order statistic lie in one bucket, cut down to the observed range:
   * the error is never more than that bucket's width, and the result never leaves [min, max]. It lies as far along
   * that span as the rank does among the samples between the bucket's edges.
   */
  lemma PercentileBracketsTruth(samples: seq<int>, rank: real, k: nat, truth: int, min: int, max: int, v: real)
    requires (k - 1) as real < rank <= k as real
    requires IsMin(samples, min) && IsMax(samples, max) && 0 <= min
    requires KthSmallest(samples, k, truth)
    requires AtPercentile(HistOf(samples), rank, Extremes(Some(min), Some(max)), v)
    ensures var i := Bucket(truth);
            && Max(EdgeBelow(i), min) <= truth <= Min(EdgeAbove(i, max), max)
            && Max(EdgeBelow(i), min) as real <= v <= Min(EdgeAbove(i, max), max) as real
    ensures min as real <= v <= max as real
    ensures Placed(samples, rank, Bucket(truth), min, max, v)
  {
    var i :| Interpolates(HistOf(samples), rank, Extremes(Some(min), Some(max)), i, v);
    RankFindsOrderStatistic(samples, rank, k, truth, i);
    BucketIsInclusiveAbove(truth, i);
    BucketEnds(samples, min, max, i);
    InterpolatesInside(HistOf(samples), rank, Extremes(Some(min), Some(max)), i, v);
    InterpolatesPlaces(samples, rank, i, min, max, v);
  }

  /** How many samples lie at or below the edge under bucket `b`. */
  function UpToEdge(samples: seq<int>, b: nat): nat {
    if b == 0 then 0 else if b < BUCKETS then CountLe(samples, EDGES[b - 1]) else |samples|
  }

  /** `v` is as far along the bucket's span as the rank is among the samples between the bucket's edges. */
  ghost predicate Placed(samples: seq<int>, rank: real, b: nat, min: int, max: int, v: real)
    requires b < BUCKETS
  {
    var lo, hi, below := Max(EdgeBelow(b), min), Min(EdgeAbove(b, max), max), UpToEdge(samples, b);
    UpToEdge(samples, b + 1) >= below && Along(lo, hi, below, UpToEdge(samples, b + 1) - below, rank, v)
  }

  lemma InterpolatesPlaces(samples: seq<int>, rank: real, b: nat, min: int, max: int, v: real)
    requires IsMin(samples, min) && IsMax(samples, max) && 0 <= min && b < BUCKETS
    requires Interpolates(HistOf(samples), rank, Extremes(Some(min), Some(max)), b, v)
    ensures Placed(samples, rank, b, min, max, v)
  {
    BucketEnds(samples, min, max, b);
    BucketCounts(samples, b);
    SpanIs(HistOf(samples), rank, Extremes(Some(min), Some(max)), b, v, Max(EdgeBelow(b), min),
           Min(EdgeAbove(b, max), max), UpToEdge(samples, b), UpToEdge(samples, b + 1) - UpToEdge(samples, b));
  }

  lemma SpanIs(h: Hist, rank: real, ends: Extremes, b: nat, v: real, lo: int, hi: int, below: nat, inside: nat)
    requires b < BUCKETS && Sum(h) > 0 && lo == Lower(h, b, ends) && hi == Upper(h, b, ends)
    requires Sum(h[..b]) == below && h[b] == inside
    ensures Interpolates(h, rank, ends, b, v)
       <==> RankBucket(h, rank, b) && inside > 0 && Along(lo, hi, below, inside, rank, v)
  {
  }

  /** A histogram's counts are counts of samples between edges. */
  lemma BucketCounts(samples: seq<int>, b: nat)
    requires b < BUCKETS
    ensures Sum(HistOf(samples)[..b]) == UpToEdge(samples, b)
    ensures HistOf(samples)[b] == UpToEdge(samples, b + 1) - UpToEdge(samples, b)
  {
    PrefixSumCounts(samples, b);
    PrefixSumCounts(samples, b + 1);
    PrefixSumStep(HistOf(samples), b + 1);
    BelowBucketIsUpToEdge(samples, b);
    BelowBucketIsUpToEdge(samples, b + 1);
  }

  lemma {:induction false} BelowBucketIsUpToEdge(samples: seq<int>, b: nat)
    requires b <= BUCKETS
    ensures CountBelowBucket(samples, b) == UpToEdge(samples, b)
  {
    if samples != [] {
      var x := samples[|samples| - 1];
      BelowBucketIsUpToEdge(samples[..|samples| - 1], b);
      BelowEdge(x, b);
    }
  }

  lemma BelowEdge(x: int, b: nat)
    requires b <= BUCKETS
    ensures Bucket(x) < b <==> b == BUCKETS || (b > 0 && x <= EDGES[b - 1])
  {
    EdgesAscend();
    BucketIsInclusiveAbove(x, Bucket(x));
    if 0 < b < BUCKETS {
      if Bucket(x) < b {
        assert EDGES[Bucket(x)] <= EDGES[b - 1];
      } else {
        assert EDGES[b - 1] <= EDGES[Bucket(x) - 1];
      }
    }
  }

  /** There is a k-th smallest sample for every k from one to the number of samples. */
  lemma KthSmallestExists(samples: seq<int>, k: nat, min: int, max: int) returns (v: int)
    requires 1 <= k <= |samples| && IsMin(samples, min) && IsMax(samples, max)
    ensures KthSmallest(samples, k, v)
  {
    v := min;
    CountLeNone(samples, min - 1);
    CountLeAll(samples, max);
    while CountLe(samples, v) < k
      invariant v <= max && CountLt(samples, v) < k
      decreases max - v
    {
      v := v + 1;
    }
    CountLeJumps(samples, v);
  }

  lemma {:induction false} CountLeNone(samples: seq<int>, v: int)
    requires forall x :: x in samples ==> v < x
    ensures CountLe(samples, v) == 0
  {
    if samples != [] {
      var rest := samples[..|samples| - 1];
      assert forall x :: x in rest ==> x in samples;
      assert samples[|samples| - 1] in samples;
      CountLeNone(rest, v);
    }
  }

  lemma {:induction false} CountLeAll(samples: seq<int>, v: int)
    requires forall x :: x in samples ==> x <= v
    ensures CountLe(samples, v) == |samples|
  {
    if samples != [] {
      var rest := samples[..|samples| - 1];
      assert forall x :: x in rest ==> x in samples;
      assert samples[|samples| - 1] in samples;
      CountLeAll(rest, v);
    }
  }

  lemma {:induction false} CountLeJumps(samples: seq<int>, v: int)
    ensures CountLt(samples, v) <= CountLe(samples, v)
    ensures CountLt(samples, v) < CountLe(samples, v) ==> v in samples
  {
    if samples != [] {
      var rest := samples[..|samples| - 1];
      CountLeJumps(rest, v);
      assert forall x :: x in rest ==> x in samples;
      assert samples[|samples| - 1] in samples;
    }
  }
}
