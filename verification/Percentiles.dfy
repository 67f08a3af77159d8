/**
 Latency percentiles of the simulator (internal/simulator/reporter.go:90-117): one pass
 over a 2 ms histogram against the exact order statistics of the recorded latencies.
 */
module Percentiles {
  import opened Counting

  const BUCKETS := 50
  const TARGETS: seq<real> := [0.50, 0.95, 0.99]

  /** The bucket sendRequest files a latency in (internal/simulator/traffic.go:117-122). */
  function BucketOf(latency: nat): (b: nat)
    ensures b < BUCKETS
  {
    if latency / 2 >= BUCKETS then BUCKETS - 1 else latency / 2
  }

  function InBucket(b: nat): nat -> bool {
    (latency: nat) => BucketOf(latency) == b
  }

  function BelowBucket(b: nat): nat -> bool {
    (latency: nat) => BucketOf(latency) < b
  }

  /** buckets counts the given latencies. */
  ghost predicate IsHistogram(buckets: seq<nat>, latencies: seq<nat>) {
    |buckets| == BUCKETS && forall b | 0 <= b < BUCKETS :: buckets[b] == Count(latencies, InBucket(b))
  }

  function Sum(s: seq<nat>): nat {
    if s == [] then 0 else Sum(s[..|s| - 1]) + s[|s| - 1]
  }

  /** The scan's test: this share of the total is at least the target. */
  predicate Reaches(cumulative: nat, total: nat, target: real)
    requires total > 0
  {
    cumulative as real / total as real >= target
  }

  /** i is the first bucket at which the running share reaches the target. */
  ghost predicate FirstReaching(buckets: seq<nat>, target: real, i: nat) {
    && i < |buckets| && Sum(buckets) > 0
    && Reaches(Sum(buckets[..i + 1]), Sum(buckets), target)
    && (forall j | 0 <= j <= i :: !Reaches(Sum(buckets[..j]), Sum(buckets), target))
  }

  lemma ReachesScaled(cumulative: nat, total: nat, target: real)
    requires total > 0
    ensures Reaches(cumulative, total, target) <==> cumulative as real >= target * total as real
  {
    var q := cumulative as real / total as real;
    assert q * total as real == cumulative as real;
    if q >= target {
      assert (q - target) * total as real >= 0.0;
    } else {
      assert (target - q) * total as real > 0.0;
    }
  }

  class Reporter {
    const latencyBuckets: array<nat>

    constructor (latencyBuckets: array<nat>)
      ensures this.latencyBuckets == latencyBuckets
    {
      this.latencyBuckets := latencyBuckets;
    }

    /** Reads every counter once. */
    method Load() returns (buckets: array<nat>, total: nat)
      ensures fresh(buckets) && buckets[..] == latencyBuckets[..] && total == Sum(latencyBuckets[..])
    {
      buckets := new nat[latencyBuckets.Length](_ => 0);
      total := 0;
      for i := 0 to buckets.Length
        invariant buckets[..i] == latencyBuckets[..i]
        invariant total == Sum(latencyBuckets[..i])
      {
        buckets[i] := latencyBuckets[i];
        total := total + buckets[i];
        assert latencyBuckets[..i + 1][..i] == latencyBuckets[..i];
        assert buckets[..i + 1] == latencyBuckets[..i + 1];
      }
      assert latencyBuckets[..latencyBuckets.Length] == latencyBuckets[..];
      assert buckets[..buckets.Length] == buckets[..];
    }

    /** Zeros on an empty histogram; otherwise each percentile is twice the first bucket at
        which the running share reaches its target, and all three are found. */
    method Percentiles() returns (p50: nat, p95: nat, p99: nat)
      ensures Sum(latencyBuckets[..]) == 0 ==> p50 == p95 == p99 == 0
      ensures Sum(latencyBuckets[..]) > 0 ==>
                Found(latencyBuckets[..], 0, p50) && Found(latencyBuckets[..], 1, p95) && Found(latencyBuckets[..], 2, p99)
    {
      var buckets, total := Load();
      if total == 0 {
        return 0, 0, 0;
      }
      ghost var h := buckets[..];
      hide Found, NotYet, Reaches, Sum;
      NothingReached(h);
      var results := new nat[3](_ => 0);
      var cumulative, ti, i := 0, 0, 0;
      while i < buckets.Length && ti < 3
        invariant 0 <= i <= buckets.Length && 0 <= ti <= 3
        invariant buckets[..] == h && total == Sum(h)
        invariant ti < 3 ==> cumulative == Sum(h[..i])
        invariant forall k | 0 <= k < ti :: Found(h, k, results[k])
        invariant forall k | ti <= k < 3 :: NotYet(h, k, i)
      {
        cumulative := cumulative + buckets[i];
        SumNext(h, i);
        while ti < 3 && Reaches(cumulative, total, TARGETS[ti])
          invariant 0 <= ti <= 3 && cumulative == Sum(h[..i + 1])
          invariant buckets[..] == h
          invariant forall k | 0 <= k < ti :: Found(h, k, results[k])
          invariant forall k | ti <= k < 3 :: NotYet(h, k, i)
        {
          results[ti] := i * 2;
          FoundHere(h, ti, i);
          ti := ti + 1;
        }
        if ti < 3 {
          LaterTargetsWait(h, i, i + 1, ti);
        }
        i := i + 1;
      }
      if ti < 3 {
        EndReaches(h, ti);
      }
      return results[0], results[1], results[2];
    }
  }

  /** v is the percentile for target k. */
  ghost predicate Found(h: seq<nat>, k: nat, v: nat)
    requires k < 3
  {
    v % 2 == 0 && FirstReaching(h, TARGETS[k], v / 2)
  }

  /** Before bucket i the running share has not reached target k. */
  ghost predicate NotYet(h: seq<nat>, k: nat, i: nat)
    requires k < 3
  {
    i <= |h| && Sum(h) > 0 && forall j | 0 <= j <= i :: !Reaches(Sum(h[..j]), Sum(h), TARGETS[k])
  }

  lemma FoundHere(h: seq<nat>, k: nat, i: nat)
    requires k < 3 && i < |h| && NotYet(h, k, i) && Reaches(Sum(h[..i + 1]), Sum(h), TARGETS[k])
    ensures Found(h, k, i * 2)
  {
    assert FirstReaching(h, TARGETS[k], i);
    assert i * 2 % 2 == 0 && i * 2 / 2 == i;
  }

  lemma LaterTargetsWait(h: seq<nat>, i: nat, next: nat, ti: nat)
    requires i < next == i + 1 <= |h| && ti < 3 && Sum(h) > 0
    requires !Reaches(Sum(h[..next]), Sum(h), TARGETS[ti])
    requires forall k | ti <= k < 3 :: NotYet(h, k, i)
    ensures forall k | ti <= k < 3 :: NotYet(h, k, next)
  {
    hide NotYet, Reaches;
    forall k | ti <= k < 3 ensures NotYet(h, k, next) {
      assert NotYet(h, k, i);
      LowerReachedFirst(Sum(h[..next]), Sum(h), TARGETS[ti], TARGETS[k]);
      WaitsOn(h, k, i);
    }
  }

  lemma WaitsOn(h: seq<nat>, k: nat, i: nat)
    requires k < 3 && i < |h| && NotYet(h, k, i) && !Reaches(Sum(h[..i + 1]), Sum(h), TARGETS[k])
    ensures NotYet(h, k, i + 1)
  {
  }

  lemma SumNext(h: seq<nat>, i: nat)
    requires i < |h|
    ensures Sum(h[..i + 1]) == Sum(h[..i]) + h[i]
  {
    assert h[..i + 1][..i] == h[..i];
  }

  lemma NothingReached(h: seq<nat>)
    ensures Sum(h[..0]) == 0
    ensures Sum(h) > 0 ==> forall k | 0 <= k < 3 :: NotYet(h, k, 0)
  {
    assert h[..0] == [];
  }

  lemma LowerReachedFirst(cumulative: nat, total: nat, low: real, high: real)
    requires total > 0 && low <= high && !Reaches(cumulative, total, low)
    ensures !Reaches(cumulative, total, high)
  {
  }

  /** The whole histogram reaches every target. */
  lemma EndReaches(h: seq<nat>, k: nat)
    requires k < 3
    ensures !NotYet(h, k, |h|)
  {
    assert h[..|h|] == h;
    if Sum(h) > 0 {
      ReachesScaled(Sum(h), Sum(h), TARGETS[k]);
    }
  }

  // ----- Theorems -----

  /** The running sum counts the latencies filed below a bucket. */
  lemma {:induction false} SumIsCount(buckets: seq<nat>, latencies: seq<nat>, i: nat)
    requires IsHistogram(buckets, latencies) && i <= BUCKETS
    ensures Sum(buckets[..i]) == Count(latencies, BelowBucket(i))
  {
    if i == 0 {
      CountExtremes(latencies, BelowBucket(0));
    } else {
      SumIsCount(buckets, latencies, i - 1);
      assert buckets[..i][..i - 1] == buckets[..i - 1];
      NextBucket(latencies, i - 1);
    }
  }

  lemma {:induction false} NextBucket(latencies: seq<nat>, b: nat)
    ensures Count(latencies, BelowBucket(b + 1)) == Count(latencies, BelowBucket(b)) + Count(latencies, InBucket(b))
  {
    if latencies != [] {
      NextBucket(latencies[..|latencies| - 1], b);
    }
  }

  lemma SumIsTotal(buckets: seq<nat>, latencies: seq<nat>)
    requires IsHistogram(buckets, latencies)
    ensures Sum(buckets) == |latencies|
  {
    assert buckets[..BUCKETS] == buckets;
    SumIsCount(buckets, latencies, BUCKETS);
    CountExtremes(latencies, BelowBucket(BUCKETS));
  }

  predicate Ascending(s: seq<nat>) {
    forall i, j | 0 <= i <= j < |s| :: s[i] <= s[j]
  }

  lemma BucketsAscend(x: nat, y: nat)
    requires x <= y
    ensures BucketOf(x) <= BucketOf(y)
  {
  }

  /** In ascending order the latencies below a bucket come first. */
  lemma BelowComeFirst(sorted: seq<nat>, b: nat, k: nat)
    requires Ascending(sorted) && k < |sorted|
    ensures BucketOf(sorted[k]) < b <==> k < Count(sorted, BelowBucket(b))
  {
    if BucketOf(sorted[k]) < b {
      var head := sorted[..k + 1];
      forall i | 0 <= i < |head| ensures BelowBucket(b)(head[i]) {
        BucketsAscend(head[i], sorted[k]);
      }
      PrefixPasses(sorted, BelowBucket(b), k + 1);
    } else {
      var tail := sorted[k..];
      forall i | 0 <= i < |tail| ensures !BelowBucket(b)(tail[i]) {
        BucketsAscend(sorted[k], tail[i]);
      }
      SuffixFails(sorted, BelowBucket(b), k);
    }
  }

  lemma PrefixPasses(s: seq<nat>, p: nat -> bool, k: nat)
    requires k <= |s| && forall i | 0 <= i < k :: p(s[..k][i])
    ensures Count(s, p) >= k
  {
    CountExtremes(s[..k], p);
    CountSplit(s, k, p);
  }

  lemma SuffixFails(s: seq<nat>, p: nat -> bool, k: nat)
    requires k <= |s| && forall i | 0 <= i < |s| - k :: !p(s[k..][i])
    ensures Count(s, p) <= k
  {
    CountExtremes(s[..k], p);
    CountExtremes(s[k..], p);
    CountSplit(s, k, p);
  }

  /** r is the smallest rank whose share of n reaches the target. */
  predicate IsRank(r: nat, n: nat, target: real)
    requires n > 0
  {
    1 <= r <= n && Reaches(r, n, target) && !Reaches(r - 1, n, target)
  }

  /** The scan agrees with exact order statistics: for any non-empty list of latencies and
      its histogram, the bucket found for a target is that of the smallest sorted latency
      whose rank reaches the target. */
  lemma PercentileIsOrderStatistic(buckets: seq<nat>, latencies: seq<nat>, sorted: seq<nat>, target: real, i: nat, r: nat)
    requires IsHistogram(buckets, latencies) && |latencies| > 0
    requires multiset(sorted) == multiset(latencies) && Ascending(sorted) && |sorted| == |latencies|
    requires FirstReaching(buckets, target, i) && IsRank(r, |latencies|, target)
    ensures i == BucketOf(sorted[r - 1])
  {
    var n := |latencies|;
    SumIsTotal(buckets, latencies);
    SumIsCount(buckets, latencies, i);
    SumIsCount(buckets, latencies, i + 1);
    CountPermuted(latencies, sorted, BelowBucket(i));
    CountPermuted(latencies, sorted, BelowBucket(i + 1));
    var lo, hi := Count(sorted, BelowBucket(i)), Count(sorted, BelowBucket(i + 1));
    ReachesScaled(lo, n, target);
    ReachesScaled(hi, n, target);
    ReachesScaled(r, n, target);
    ReachesScaled(r - 1, n, target);
    assert !Reaches(Sum(buckets[..i]), Sum(buckets), target);
    assert lo < r <= hi;
    BelowComeFirst(sorted, i, r - 1);
    BelowComeFirst(sorted, i + 1, r - 1);
  }

  /** Every target in (0, 1] has a rank. */
  lemma RankExists(n: nat, target: real) returns (r: nat)
    requires n > 0 && 0.0 < target <= 1.0
    ensures IsRank(r, n, target)
  {
    ReachesScaled(n, n, target);
    r := RankUpTo(n, target, n);
  }

  lemma {:induction false} RankUpTo(n: nat, target: real, m: nat) returns (r: nat)
    requires 1 <= m <= n && target > 0.0 && Reaches(m, n, target)
    ensures IsRank(r, n, target)
  {
    if Reaches(m - 1, n, target) {
      ReachesScaled(m - 1, n, target);
      assert m - 1 != 0;
      r := RankUpTo(n, target, m - 1);
    } else {
      r := m;
    }
  }

  /** What Percentiles returns for target k (0.50, 0.95 and 0.99) is, to the even millisecond
      below, the smallest sorted latency whose rank reaches the target; 98 stands for 100 and more. */
  lemma PercentileValue(buckets: seq<nat>, latencies: seq<nat>, sorted: seq<nat>, k: nat, v: nat) returns (r: nat)
    requires IsHistogram(buckets, latencies) && |latencies| > 0
    requires multiset(sorted) == multiset(latencies) && Ascending(sorted) && |sorted| == |latencies|
    requires k < 3 && Found(buckets, k, v)
    ensures IsRank(r, |latencies|, if k == 0 then 0.50 else if k == 1 then 0.95 else 0.99)
    ensures var latency := sorted[r - 1]; if latency < 100 then v <= latency < v + 2 else v == 98
    ensures v == 2 * BucketOf(sorted[r - 1])
  {
    r := RankExists(|latencies|, TARGETS[k]);
    PercentileIsOrderStatistic(buckets, latencies, sorted, TARGETS[k], v / 2, r);
  }

  /** A higher target is never reached earlier: p50 <= p95 <= p99. */
  lemma PercentilesOrdered(buckets: seq<nat>, p50: nat, p95: nat, p99: nat)
    requires Found(buckets, 0, p50) && Found(buckets, 1, p95) && Found(buckets, 2, p99)
    ensures p50 <= p95 <= p99
  {
    ReachedInOrder(buckets, TARGETS[0], TARGETS[1], p50 / 2, p95 / 2);
    ReachedInOrder(buckets, TARGETS[1], TARGETS[2], p95 / 2, p99 / 2);
  }

  lemma ReachedInOrder(buckets: seq<nat>, low: real, high: real, i: nat, j: nat)
    requires low <= high && FirstReaching(buckets, low, i) && FirstReaching(buckets, high, j)
    ensures i <= j
  {
    assert Reaches(Sum(buckets[..j + 1]), Sum(buckets), low);
  }
}
