/** Fixed latency buckets: their edges, the bucket of a latency, and histograms of samples. */
module Histogram {

  const EDGES: seq<int> :=
    [10, 25, 50, 75, 100, 150, 200, 300, 500, 750, 1000, 1500, 2000, 3000, 5000, 7500, 10000, 15000, 30000]

  const BUCKETS: nat := 20

  type Hist = h: seq<nat> | |h| == BUCKETS witness [0, 0, 0, 0, 0, 0, 0, 0, 0, 0, 0, 0, 0, 0, 0, 0, 0, 0, 0, 0]

  const EMPTY: Hist := [0, 0, 0, 0, 0, 0, 0, 0, 0, 0, 0, 0, 0, 0, 0, 0, 0, 0, 0, 0]

  /** PostgreSQL's `width_bucket(operand, thresholds)`: how many lower bounds are at or below the operand. */
  function WidthBucket(operand: int, thresholds: seq<int>): (n: nat)
    ensures n <= |thresholds|
  {
    if thresholds == [] then 0
    else (if thresholds[0] <= operand then 1 else 0) + WidthBucket(operand, thresholds[1..])
  }

  /** The 0-based bucket the SQL fold files a latency under. */
  function Bucket(ms: int): (n: nat)
    ensures n < BUCKETS
  {
    WidthBucket(ms - 1, EDGES)
  }

  ghost predicate Ascending(s: seq<int>) {
    forall i, j :: 0 <= i < j < |s| ==> s[i] < s[j]
  }

  lemma {:induction false} WidthBucketSplits(operand: int, thresholds: seq<int>, n: nat)
    requires Ascending(thresholds) && n <= |thresholds|
    requires n > 0 ==> thresholds[n - 1] <= operand
    requires n < |thresholds| ==> operand < thresholds[n]
    ensures WidthBucket(operand, thresholds) == n
  {
    if thresholds != [] {
      if n == 0 {
        assert thresholds[0] > operand;
        if |thresholds| > 1 {
          assert thresholds[1..][0] == thresholds[1] > operand;
        }
        WidthBucketSplits(operand, thresholds[1..], 0);
      } else {
        assert thresholds[0] <= thresholds[n - 1];
        WidthBucketSplits(operand, thresholds[1..], n - 1);
      }
    }
  }

  lemma EdgesAscend()
    ensures Ascending(EDGES) && |EDGES| == BUCKETS - 1 && EDGES[0] > 0
  {
  }

  /** Bucket `b` holds exactly the latencies above the edge below it and at most the edge above it. */
  ghost predicate InBucket(ms: int, b: nat) {
    && b < BUCKETS
    && (b > 0 ==> EDGES[b - 1] < ms)
    && (b < BUCKETS - 1 ==> ms <= EDGES[b])
  }

  lemma BucketIsInclusiveAbove(ms: int, b: nat)
    ensures InBucket(ms, b) <==> Bucket(ms) == b
  {
    EdgesAscend();
    if InBucket(ms, b) {
      WidthBucketSplits(ms - 1, EDGES, b);
    }
    if Bucket(ms) == b {
      var n := SomeBucket(ms, 0);
      WidthBucketSplits(ms - 1, EDGES, n);
    }
  }

  /** Every latency has a bucket at or above any bucket whose lower edge it clears. */
  lemma {:induction false} SomeBucket(ms: int, from: nat) returns (b: nat)
    requires from < BUCKETS && (from > 0 ==> EDGES[from - 1] < ms)
    ensures InBucket(ms, b)
    decreases BUCKETS - from
  {
    if from == BUCKETS - 1 || ms <= EDGES[from] {
      b := from;
    } else {
      b := SomeBucket(ms, from + 1);
    }
  }

  /** The application's scan agrees with the SQL fold on every latency. */
  method BucketIndex(ms: int) returns (n: nat)
    ensures InBucket(ms, n) && n == Bucket(ms)
  {
    n := 0;
    EdgesAscend();
    for k := 0 to |EDGES|
      invariant n == k
      invariant n > 0 ==> EDGES[n - 1] < ms
    {
      if ms > EDGES[k] {
        n := n + 1;
      } else {
        break;
      }
    }
    BucketIsInclusiveAbove(ms, n);
  }

  lemma BucketMonotone(a: int, b: int)
    requires a <= b
    ensures Bucket(a) <= Bucket(b)
  {
    BucketIsInclusiveAbove(a, Bucket(a));
    BucketIsInclusiveAbove(b, Bucket(b));
    EdgesAscend();
  }

  /** A histogram holding one sample, in bucket `b`. */
  function OneHot(b: nat): Hist
    requires b < BUCKETS
  {
    seq(BUCKETS, i => if i == b then 1 else 0)
  }

  function MergeHistograms(a: Hist, b: Hist): (h: Hist)
    ensures forall i :: 0 <= i < BUCKETS ==> h[i] == a[i] + b[i]
  {
    seq(BUCKETS, i requires 0 <= i < BUCKETS => a[i] + b[i])
  }

  lemma MergeLaws(a: Hist, b: Hist, c: Hist)
    ensures MergeHistograms(a, EMPTY) == a && MergeHistograms(EMPTY, a) == a
    ensures MergeHistograms(a, b) == MergeHistograms(b, a)
    ensures MergeHistograms(MergeHistograms(a, b), c) == MergeHistograms(a, MergeHistograms(b, c))
  {
    var ab, bc := MergeHistograms(a, b), MergeHistograms(b, c);
    forall i | 0 <= i < BUCKETS
      ensures MergeHistograms(ab, c)[i] == MergeHistograms(a, bc)[i]
    {
    }
  }

  function Sum(h: seq<nat>): nat {
    if h == [] then 0 else Sum(h[..|h| - 1]) + h[|h| - 1]
  }

  function HistogramCount(h: Hist): nat {
    Sum(h)
  }

  /** The histogram of a sequence of latencies, in any order. */
  function HistOf(samples: seq<int>): Hist {
    if samples == [] then EMPTY
    else MergeHistograms(HistOf(samples[..|samples| - 1]), OneHot(Bucket(samples[|samples| - 1])))
  }

  lemma {:induction false} HistOfConcat(a: seq<int>, b: seq<int>)
    ensures HistOf(a + b) == MergeHistograms(HistOf(a), HistOf(b))
  {
    if b == [] {
      assert a + b == a;
      MergeLaws(HistOf(a), EMPTY, EMPTY);
    } else {
      var last := b[|b| - 1];
      assert (a + b)[..|a + b| - 1] == a + b[..|b| - 1];
      assert (a + b)[|a + b| - 1] == last;
      HistOfConcat(a, b[..|b| - 1]);
      MergeLaws(HistOf(a), HistOf(b[..|b| - 1]), OneHot(Bucket(last)));
    }
  }

  /** How many samples lie at or below `v`. */
  function CountLe(samples: seq<int>, v: int): nat {
    if samples == [] then 0
    else CountLe(samples[..|samples| - 1], v) + (if samples[|samples| - 1] <= v then 1 else 0)
  }

  /** How many samples fall in the first `k` buckets. */
  function CountBelowBucket(samples: seq<int>, k: nat): nat {
    if samples == [] then 0
    else CountBelowBucket(samples[..|samples| - 1], k) + (if Bucket(samples[|samples| - 1]) < k then 1 else 0)
  }

  lemma {:induction false} SumMerge(a: seq<nat>, b: seq<nat>, c: seq<nat>)
    requires |a| == |b| == |c|
    requires forall i :: 0 <= i < |a| ==> c[i] == a[i] + b[i]
    ensures Sum(c) == Sum(a) + Sum(b)
  {
    if a != [] {
      var n := |a| - 1;
      SumMerge(a[..n], b[..n], c[..n]);
    }
  }

  lemma {:induction false} SumOneHot(b: nat, k: nat)
    requires b < BUCKETS && k <= BUCKETS
    ensures Sum(OneHot(b)[..k]) == if b < k then 1 else 0
  {
    if k > 0 {
      assert OneHot(b)[..k][..k - 1] == OneHot(b)[..k - 1];
      SumOneHot(b, k - 1);
    }
  }

  lemma {:induction false} SumZero(k: nat)
    requires k <= BUCKETS
    ensures Sum(EMPTY[..k]) == 0
  {
    if k > 0 {
      assert EMPTY[..k][..k - 1] == EMPTY[..k - 1];
      SumZero(k - 1);
    }
  }

  /** The cumulative counts of a histogram are the cumulative counts of its samples. */
  lemma {:induction false} PrefixSumCounts(samples: seq<int>, k: nat)
    requires k <= BUCKETS
    ensures Sum(HistOf(samples)[..k]) == CountBelowBucket(samples, k)
  {
    if samples == [] {
      SumZero(k);
    } else {
      var rest, b := samples[..|samples| - 1], Bucket(samples[|samples| - 1]);
      PrefixSumCounts(rest, k);
      SumOneHot(b, k);
      SumMerge(HistOf(rest)[..k], OneHot(b)[..k], HistOf(samples)[..k]);
    }
  }

  lemma {:induction false} HistCountsSamples(samples: seq<int>)
    ensures HistogramCount(HistOf(samples)) == |samples|
  {
    PrefixSumCounts(samples, BUCKETS);
    assert HistOf(samples)[..BUCKETS] == HistOf(samples);
    CountAll(samples);
  }

  lemma {:induction false} CountAll(samples: seq<int>)
    ensures CountBelowBucket(samples, BUCKETS) == |samples|
  {
    if samples != [] {
      CountAll(samples[..|samples| - 1]);
    }
  }
}
