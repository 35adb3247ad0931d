/**
  The latency histogram of internal/benchrunner/stats.go: 320 bucket bounds, one overflow
  bucket, and running total, sum, minimum and maximum.  Durations are in nanoseconds.

  The reference is the sequence of all recorded latencies, which the code never stores.
 */
module LatencyHistograms {
  import opened Sums

  const MILLISECOND: int := 1_000_000
  const BUCKETS: nat := 320

  /** The i-th bucket bound, in milliseconds, in closed form. */
  function BoundMs(i: nat): (ms: nat)
    requires i < BUCKETS
  {
    if i < 100 then i + 1
    else if i < 180 then 105 + 5 * (i - 100)
    else if i < 230 then 510 + 10 * (i - 180)
    else 1100 + 100 * (i - 230)
  }

  function Bound(i: nat): (d: int)
    requires i < BUCKETS
  {
    BoundMs(i) * MILLISECOND
  }

  const BOUNDS: seq<int> := seq(BUCKETS, i requires 0 <= i < BUCKETS => Bound(i))

  /** The last finite bound, ten seconds. */
  const TOP: int := 10_000 * MILLISECOND

  /** buildLatencyBucketBounds: its four loops produce the closed form. */
  method BuildLatencyBucketBounds() returns (bounds: seq<int>)
    ensures bounds == BOUNDS
    ensures |bounds| == BUCKETS && bounds[BUCKETS - 1] == TOP
  {
    bounds := [];
    var ms := 1;
    while ms <= 100
      invariant 1 <= ms <= 101 && |bounds| == ms - 1
      invariant forall i: nat :: i < |bounds| ==> bounds[i] == Bound(i)
    {
      bounds := bounds + [ms * MILLISECOND];
      ms := ms + 1;
    }
    ms := 105;
    while ms <= 500
      invariant ms == 105 + 5 * (|bounds| - 100) && 100 <= |bounds| <= 180
      invariant forall i: nat :: i < |bounds| ==> bounds[i] == Bound(i)
    {
      bounds := bounds + [ms * MILLISECOND];
      ms := ms + 5;
    }
    ms := 510;
    while ms <= 1000
      invariant ms == 510 + 10 * (|bounds| - 180) && 180 <= |bounds| <= 230
      invariant forall i: nat :: i < |bounds| ==> bounds[i] == Bound(i)
    {
      bounds := bounds + [ms * MILLISECOND];
      ms := ms + 10;
    }
    ms := 1100;
    while ms <= 10000
      invariant ms == 1100 + 100 * (|bounds| - 230) && 230 <= |bounds| <= BUCKETS
      invariant forall i: nat :: i < |bounds| ==> bounds[i] == Bound(i)
    {
      bounds := bounds + [ms * MILLISECOND];
      ms := ms + 100;
    }
  }

  // ----- choosing a bucket

  /** The bucket of a latency, by scanning the bounds from the first; BUCKETS is the overflow bucket. */
  function ScanFrom(v: int, i: nat): (b: nat)
    requires i <= BUCKETS
    ensures i <= b <= BUCKETS
    decreases BUCKETS - i
  {
    if i == BUCKETS || v <= Bound(i) then i else ScanFrom(v, i + 1)
  }

  function BucketOf(v: int): (b: nat)
    ensures b <= BUCKETS
  {
    ScanFrom(v, 0)
  }

  /** Bucket `b`, counted from bound `i`, is the first whose bound is at least the latency. */
  ghost predicate FirstAtLeast(v: int, i: nat, b: nat)
    requires b <= BUCKETS
  {
    (forall k: nat :: i <= k < b ==> Bound(k) < v) && (b < BUCKETS ==> v <= Bound(b))
  }

  lemma {:induction false} ScanFindsFirst(v: int, i: nat)
    requires i <= BUCKETS
    ensures FirstAtLeast(v, i, ScanFrom(v, i))
    decreases BUCKETS - i
  {
    if i < BUCKETS && v > Bound(i) {
      ScanFindsFirst(v, i + 1);
    }
  }

  /** A bucket is the latency's exactly when its bound is the first that is at least the latency. */
  lemma {:induction false} BucketExactly(v: int, b: nat)
    requires b <= BUCKETS
    ensures BucketOf(v) == b <==> FirstAtLeast(v, 0, b)
  {
    ScanFindsFirst(v, 0);
  }

  lemma {:induction false} BucketMonotone(v: int, w: int)
    requires v <= w
    ensures BucketOf(v) <= BucketOf(w)
  {
    BucketExactly(v, BucketOf(v));
    BucketExactly(w, BucketOf(w));
  }

  /** sort.Search over the bounds: the halving search picks the bucket the scan picks. */
  method SearchBucket(bounds: seq<int>, v: int) returns (i: nat)
    requires bounds == BOUNDS
    ensures i == BucketOf(v)
  {
    i := 0;
    var j: nat := |bounds|;
    while i < j
      invariant 0 <= i <= j <= |bounds|
      invariant forall k: nat :: k < i ==> Bound(k) < v
      invariant forall k: nat :: j <= k < BUCKETS ==> v <= Bound(k)
    {
      var h := (i + j) / 2;
      if v <= bounds[h] {
        j := h;
      } else {
        i := h + 1;
      }
    }
    BucketExactly(v, i);
  }

  // ----- the reference: the sorted latencies

  function Insert(x: int, s: seq<int>): (r: seq<int>)
    ensures multiset(r) == multiset(s) + multiset{x}
  {
    if s == [] || x <= s[0] then
      [x] + s
    else
      var r := [s[0]] + Insert(x, s[1..]);
      assert s == [s[0]] + s[1..];
      r
  }

  /** The recorded latencies in ascending order. */
  function SortedCopy(log: seq<int>): (r: seq<int>)
    ensures multiset(r) == multiset(log)
    ensures |r| == |log|
  {
    if log == [] then []
    else
      var n := |log| - 1;
      var r := Insert(log[n], SortedCopy(log[..n]));
      assert log == log[..n] + [log[n]];
      assert |r| == |multiset(r)| == |multiset(log)| == |log|;
      r
  }

  lemma {:induction false} InsertAscending(x: int, s: seq<int>)
    requires Ascending(s)
    ensures Ascending(Insert(x, s))
  {
    if !(s == [] || x <= s[0]) {
      InsertAscending(x, s[1..]);
      var t := Insert(x, s[1..]);
      forall k | 0 <= k < |t| ensures s[0] <= t[k] {
        assert t[k] in multiset(t);
      }
    }
  }

  lemma {:induction false} SortedCopyAscending(log: seq<int>)
    ensures Ascending(SortedCopy(log))
  {
    if log != [] {
      SortedCopyAscending(log[..|log| - 1]);
      InsertAscending(log[|log| - 1], SortedCopy(log[..|log| - 1]));
    }
  }

  function AtMost(d: int): (p: int -> bool) { v => v <= d }

  lemma {:induction false} KthAtMost(a: seq<int>, b: seq<int>, k: nat)
    requires Ascending(a) && Ascending(b) && multiset(a) == multiset(b)
    requires k < |a| && k < |b|
    ensures b[k] <= a[k]
  {
    var p := AtMost(a[k]);
    assert DownwardClosed(p);
    RankByCount(p, a, k + 1);
    RankByCount(p, b, k + 1);
    CountPermutation(p, a, b);
  }

  /** There is only one ascending arrangement of a multiset. */
  lemma {:induction false} AscendingUnique(a: seq<int>, b: seq<int>)
    requires Ascending(a) && Ascending(b) && multiset(a) == multiset(b)
    ensures a == b
  {
    assert |a| == |multiset(a)| == |multiset(b)| == |b|;
    forall k: nat | k < |a| ensures a[k] == b[k] {
      KthAtMost(a, b, k);
      KthAtMost(b, a, k);
    }
  }

  /** 0 for the empty log, as the zero-initialized fields of the code. */
  function MinOf(log: seq<int>): (m: int) {
    if log == [] then 0
    else
      var n := |log| - 1;
      if n == 0 || log[n] < MinOf(log[..n]) then log[n] else MinOf(log[..n])
  }

  function MaxOf(log: seq<int>): (m: int) {
    if log == [] then 0
    else
      var n := |log| - 1;
      if n == 0 || log[n] > MaxOf(log[..n]) then log[n] else MaxOf(log[..n])
  }

  /** MinOf and MaxOf are the bounds of the log that occur in it. */
  lemma {:induction false} MinMax(log: seq<int>)
    requires log != []
    ensures MinOf(log) in log && forall k :: 0 <= k < |log| ==> MinOf(log) <= log[k]
    ensures MaxOf(log) in log && forall k :: 0 <= k < |log| ==> log[k] <= MaxOf(log)
  {
    var n := |log| - 1;
    if n > 0 {
      MinMax(log[..n]);
      assert forall k :: 0 <= k < n ==> log[k] == log[..n][k];
      assert forall x :: x in log[..n] ==> x in log;
    }
  }

  lemma {:induction false} MinMaxAppend(log: seq<int>, v: int)
    ensures MinOf(log + [v]) == if log == [] || v < MinOf(log) then v else MinOf(log)
    ensures MaxOf(log + [v]) == if log == [] || v > MaxOf(log) then v else MaxOf(log)
  {
  }

  lemma {:induction false} SameMembers(a: seq<int>, b: seq<int>, x: int)
    requires multiset(a) == multiset(b) && x in a
    ensures x in b
  {
    assert x in multiset(a);
    assert x in multiset(b);
  }

  lemma {:induction false} MinMaxPermutation(a: seq<int>, b: seq<int>)
    requires multiset(a) == multiset(b) && a != [] && b != []
    ensures MinOf(a) == MinOf(b) && MaxOf(a) == MaxOf(b)
  {
    MinMax(a);
    MinMax(b);
    SameMembers(a, b, MinOf(a));
    SameMembers(a, b, MaxOf(a));
    SameMembers(b, a, MinOf(b));
    SameMembers(b, a, MaxOf(b));
  }

  function Ceil(x: real): (c: int)
    ensures x <= c as real < x + 1.0
  {
    -((-x).Floor)
  }

  /** The nearest rank: the ceiling of percentile times total, at least 1. */
  function Rank(percentile: real, total: nat): (rank: nat)
    requires 0.0 <= percentile
    ensures rank >= 1
  {
    var r := Ceil(percentile * total as real);
    if r <= 0 then 1 else r
  }

  lemma {:induction false} ScaleMonotone(p: real, q: real, total: nat)
    requires p <= q
    ensures Ceil(p * total as real) <= Ceil(q * total as real)
  {
    assert p * total as real <= q * total as real;
    assert Ceil(p * total as real) as real < q * total as real + 1.0;
  }

  lemma {:induction false} RankInRange(percentile: real, total: nat)
    requires 0.0 <= percentile <= 1.0 && total > 0
    ensures Rank(percentile, total) <= total
  {
    ScaleMonotone(percentile, 1.0, total);
  }

  lemma {:induction false} RankMonotone(p: real, q: real, total: nat)
    requires 0.0 <= p <= q
    ensures Rank(p, total) <= Rank(q, total)
  {
    ScaleMonotone(p, q, total);
  }

  /** What a latency is reported as: its bucket's bound, or the maximum in the overflow bucket. */
  function Reported(v: int, max: int): (q: int) {
    var b := BucketOf(v);
    if b < BUCKETS then Bound(b) else max
  }

  /** The reported value of the latency of the given rank, the maximum if there is none. */
  function AtRank(log: seq<int>, rank: nat): (q: int)
    requires rank >= 1
  {
    if rank > |log| then MaxOf(log) else Reported(SortedCopy(log)[rank - 1], MaxOf(log))
  }

  /** The reference quantile: the reported value of the nearest-rank latency. */
  function QuantileOf(log: seq<int>, percentile: real): (q: int)
    requires 0.0 <= percentile
  {
    if log == [] then 0 else AtRank(log, Rank(percentile, |log|))
  }

  // ----- counting buckets

  function InBucket(b: nat): (p: int -> bool) { v => BucketOf(v) == b }

  function BelowBucket(b: nat): (p: int -> bool) { v => BucketOf(v) < b }

  function Itself(): (f: int -> int) { v => v }

  lemma {:induction false} BelowStep(b: nat, log: seq<int>)
    ensures CountBy(BelowBucket(b + 1), log) == CountBy(BelowBucket(b), log) + CountBy(InBucket(b), log)
  {
    CountSplit(BelowBucket(b + 1), BelowBucket(b), InBucket(b), log);
  }

  /** Counting up to a bucket is counting the latencies at most its bound. */
  lemma {:induction false} BelowIsAtMost(b: nat, log: seq<int>)
    requires b < BUCKETS
    ensures CountBy(BelowBucket(b + 1), log) == CountBy(AtMost(Bound(b)), log)
  {
    forall v | v in log ensures BelowBucket(b + 1)(v) == AtMost(Bound(b))(v) {
      BucketExactly(v, BucketOf(v));
      assert b < BucketOf(v) ==> Bound(b) < v;
      assert BucketOf(v) <= b ==> v <= Bound(BucketOf(v)) <= Bound(b);
    }
    CountSame(BelowBucket(b + 1), AtMost(Bound(b)), log);
  }

  lemma {:induction false} BelowDownward(b: nat)
    ensures DownwardClosed(BelowBucket(b))
  {
    forall v, w | v <= w && BelowBucket(b)(w) ensures BelowBucket(b)(v) {
      BucketMonotone(v, w);
    }
  }

  /** The bucket where the rank walk has to stop; past the last one if there is no such rank. */
  function WalkTarget(log: seq<int>, rank: nat): (b: nat)
    requires rank >= 1
  {
    if rank <= |log| then BucketOf(SortedCopy(log)[rank - 1]) else BUCKETS + 1
  }

  /** The cumulative count up to and including bucket `b` reaches the rank. */
  predicate Reaches(log: seq<int>, rank: nat, b: nat) {
    CountBy(BelowBucket(b + 1), log) >= rank
  }

  /** The rank walk stops at bucket `b` or earlier exactly when the nearest-rank latency is that low. */
  lemma {:induction false} WalkStops(log: seq<int>, rank: nat, b: nat)
    requires rank >= 1 && b <= BUCKETS
    ensures Reaches(log, rank, b) <==> WalkTarget(log, rank) <= b
  {
    if rank <= |log| {
      var s := SortedCopy(log);
      SortedCopyAscending(log);
      BelowDownward(b + 1);
      RankByCount(BelowBucket(b + 1), s, rank);
      CountPermutation(BelowBucket(b + 1), log, s);
    }
  }

  /** The walk stops within the buckets exactly when there is a latency of that rank. */
  lemma {:induction false} WalkReturnsExactly(log: seq<int>, rank: nat)
    requires rank >= 1
    ensures Reaches(log, rank, BUCKETS) <==> rank <= |log|
  {
    WalkStops(log, rank, BUCKETS);
  }

  /** The counts array as a function of the recording. */
  function CountsOf(log: seq<int>): (c: seq<nat>)
    ensures |c| == BUCKETS + 1
  {
    seq(BUCKETS + 1, b requires 0 <= b <= BUCKETS => CountBy(InBucket(b), log))
  }

  lemma {:induction false} CountsAt(log: seq<int>, b: nat)
    requires b <= BUCKETS
    ensures CountsOf(log)[b] == CountBy(InBucket(b), log)
  {
  }

  lemma {:induction false} CountsAppendAt(log: seq<int>, v: int, b: nat)
    requires b <= BUCKETS
    ensures CountsOf(log + [v])[b] == CountsOf(log)[b] + if b == BucketOf(v) then 1 else 0
  {
    CountsAt(log, b);
    CountsAt(log + [v], b);
  }

  lemma {:induction false} CountsAppend(log: seq<int>, v: int)
    ensures CountsOf(log + [v]) == CountsOf(log)[BucketOf(v) := CountsOf(log)[BucketOf(v)] + 1]
  {
    var before, after := CountsOf(log), CountsOf(log + [v]);
    forall b: nat | b <= BUCKETS ensures after[b] == before[BucketOf(v) := before[BucketOf(v)] + 1][b] {
      CountsAppendAt(log, v, b);
    }
  }

  // ----- the class

  function Clamp(latency: int): (v: int) {
    if latency < 0 then 0 else latency
  }

  /** All the fields of the histogram but the bounds. */
  datatype Histogram = Histogram(counts: seq<nat>, total: nat, sum: int, min: int, max: int)

  /** The fields as functions of the recording. */
  function HistogramOf(log: seq<int>): (h: Histogram) {
    Histogram(CountsOf(log), |log|, SumBy(Itself(), log), MinOf(log), MaxOf(log))
  }

  /** One recording, field by field. */
  function Recorded(h: Histogram, v: int): (r: Histogram)
    requires |h.counts| == BUCKETS + 1
  {
    var b := BucketOf(v);
    Histogram(
      h.counts[b := h.counts[b] + 1],
      h.total + 1,
      h.sum + v,
      if h.total == 0 || v < h.min then v else h.min,
      if h.total == 0 || v > h.max then v else h.max)
  }

  /** The incremental update is right for every recording. */
  lemma {:induction false} HistogramAppend(log: seq<int>, v: int)
    ensures HistogramOf(log + [v]) == Recorded(HistogramOf(log), v)
  {
    MinMaxAppend(log, v);
    CountsAppend(log, v);
  }

  /** One exported bucket: the Prometheus `le` bound (in nanoseconds here) and the cumulative count. */
  datatype Bucket = Bucket(upperBound: int, cumulative: nat)

  function BucketsOf(log: seq<int>): (bs: seq<Bucket>)
    ensures |bs| == BUCKETS
  {
    seq(BUCKETS, i requires 0 <= i < BUCKETS => Bucket(Bound(i), CountBy(AtMost(Bound(i)), log)))
  }

  method Increment(counts: array<nat>, index: nat)
    requires index < counts.Length
    modifies counts
    ensures counts[..] == old(counts[..])[index := old(counts[index]) + 1]
  {
    counts[index] := counts[index] + 1;
  }

  lemma {:induction false} CumulativeStep(log: seq<int>, b: nat)
    requires b < BUCKETS
    ensures var cumulative := CountBy(BelowBucket(b), log) + CountsOf(log)[b];
            && cumulative == CountBy(BelowBucket(b + 1), log)
            && BucketsOf(log)[b] == Bucket(Bound(b), cumulative)
  {
    BelowStep(b, log);
    BelowIsAtMost(b, log);
  }

  /** The accumulating loop of metricsSnapshot. */
  method CumulativeBuckets(bounds: seq<int>, counts: seq<nat>, ghost log: seq<int>) returns (buckets: seq<Bucket>)
    requires bounds == BOUNDS && counts == CountsOf(log)
    ensures buckets == BucketsOf(log)
  {
    buckets := [];
    var cumulative: nat := 0;
    NoneBelow(log);
    for index := 0 to |bounds|
      invariant cumulative == CountBy(BelowBucket(index), log)
      invariant buckets == BucketsOf(log)[..index]
    {
      CumulativeStep(log, index);
      cumulative := cumulative + counts[index];
      buckets := buckets + [Bucket(bounds[index], cumulative)];
    }
  }

  /** The sum of the first n counts. */
  function PrefixSum(counts: seq<nat>, n: nat): (sum: nat)
    requires n <= |counts|
  {
    if n == 0 then 0 else PrefixSum(counts, n - 1) + counts[n - 1]
  }

  lemma {:induction false} NoneBelow(log: seq<int>)
    ensures CountBy(BelowBucket(0), log) == 0
  {
    CountNone(BelowBucket(0), log);
  }

  lemma {:induction false} PrefixSumIsBelow(log: seq<int>, n: nat)
    requires n <= BUCKETS + 1
    ensures PrefixSum(CountsOf(log), n) == CountBy(BelowBucket(n), log)
  {
    if n == 0 {
      NoneBelow(log);
    } else {
      PrefixSumIsBelow(log, n - 1);
      CountsAt(log, n - 1);
      BelowStep(n - 1, log);
    }
  }

  /** The walk over the counts stops at `target`: there, and not before, the sum reaches the rank. */
  ghost predicate StopsAt(counts: seq<nat>, rank: nat, target: nat) {
    forall n: nat :: 1 <= n <= |counts| ==> (PrefixSum(counts, n) >= rank <==> target < n)
  }

  lemma {:induction false} WalkTargetStops(log: seq<int>, rank: nat)
    requires rank >= 1
    ensures StopsAt(CountsOf(log), rank, WalkTarget(log, rank))
  {
    forall n: nat | 1 <= n <= BUCKETS + 1
      ensures PrefixSum(CountsOf(log), n) >= rank <==> WalkTarget(log, rank) < n
    {
      PrefixSumIsBelow(log, n);
      WalkStops(log, rank, n - 1);
    }
  }

  /** The rank walk of quantile. */
  method RankWalk(bounds: seq<int>, counts: seq<nat>, max: int, rank: nat, ghost target: nat) returns (q: int)
    requires |counts| == |bounds| + 1 && StopsAt(counts, rank, target)
    ensures q == if target < |bounds| then bounds[target] else max
  {
    var cumulative: nat := 0;
    for index := 0 to |counts|
      invariant cumulative == PrefixSum(counts, index) && index <= target
    {
      cumulative := cumulative + counts[index];
      assert cumulative == PrefixSum(counts, index + 1);
      if cumulative < rank {
        continue;
      }
      if index < |bounds| {
        return bounds[index];
      }
      return max;
    }
    return max;
  }

  class LatencyHistogram {
    const bounds: seq<int>
    const counts: array<nat>
    var total: nat
    var sum: int
    var min: int
    var max: int
    /** The latencies recorded so far, in order; never stored by the code. */
    ghost var recorded: seq<int>

    ghost function View(): (h: Histogram)
      reads this, counts
    {
      Histogram(counts[..], total, sum, min, max)
    }

    ghost predicate Valid()
      reads this, counts
    {
      bounds == BOUNDS && View() == HistogramOf(recorded)
    }

    /** newLatencyHistogram. */
    constructor ()
      ensures Valid() && recorded == [] && fresh(counts)
    {
      var b := BuildLatencyBucketBounds();
      bounds := b;
      counts := new nat[|b| + 1](_ => 0);
      total, sum, min, max := 0, 0, 0, 0;
      recorded := [];
      new;
      assert counts[..] == CountsOf([]);
    }

    /** record: a negative latency counts as zero. */
    method Record(latency: int)
      requires Valid()
      modifies this, counts
      ensures Valid()
      ensures recorded == old(recorded) + [Clamp(latency)]
    {
      var v := latency;
      if v < 0 {
        v := 0;
      }
      Update(v);
      HistogramAppend(recorded, v);
      recorded := recorded + [v];
    }

    method Update(v: int)
      requires bounds == BOUNDS && counts.Length == BUCKETS + 1
      modifies this, counts
      ensures View() == Recorded(old(View()), v) && recorded == old(recorded)
    {
      var index := SearchBucket(bounds, v);
      Increment(counts, index);
      total := total + 1;
      sum := sum + v;
      Widen(v);
    }

    method Widen(v: int)
      modifies this`min, this`max
      ensures min == if total == 1 || v < old(min) then v else old(min)
      ensures max == if total == 1 || v > old(max) then v else old(max)
    {
      if total == 1 || v < min {
        min := v;
      }
      if total == 1 || v > max {
        max := v;
      }
    }

    /** quantile: the rank walk over the counts returns the reference quantile. */
    method Quantile(percentile: real) returns (q: int)
      requires Valid() && 0.0 <= percentile
      ensures q == QuantileOf(recorded, percentile)
      ensures recorded != [] && 0.0 < percentile <= 1.0 ==> IsQuantile(recorded, percentile, q)
    {
      if total == 0 {
        return 0;
      }
      var rank := Rank(percentile, total);
      WalkTargetStops(recorded, rank);
      q := RankWalk(bounds, counts[..], max, rank, WalkTarget(recorded, rank));
      if 0.0 < percentile <= 1.0 {
        QuantileHasShare(recorded, percentile);
      }
    }

    /** metricsSnapshot: each exported bucket counts the recorded latencies at most its bound. */
    method MetricsSnapshot() returns (buckets: seq<Bucket>, count: nat, sumOut: int)
      requires Valid()
      ensures buckets == BucketsOf(recorded)
      ensures count == |recorded|
      ensures sumOut == SumBy(Itself(), recorded)
    {
      buckets := CumulativeBuckets(bounds, counts[..], recorded);
      count := total;
      sumOut := sum;
    }
  }

  // ----- what the quantile promises

  /** How far a reported latency may lie above the true one. */
  function Slack(v: int): (d: int) {
    if v / 10 > MILLISECOND then v / 10 else MILLISECOND
  }

  /** Every bucket is at most a millisecond, or a tenth of its lower bound, wide. */
  lemma {:induction false} BoundGap(b: nat)
    requires 0 < b < BUCKETS
    ensures Bound(b) - Bound(b - 1) <= MILLISECOND || 10 * (Bound(b) - Bound(b - 1)) <= Bound(b - 1)
  {
    assert BoundMs(b) - BoundMs(b - 1) <= 1 || 10 * (BoundMs(b) - BoundMs(b - 1)) <= BoundMs(b - 1);
  }

  /** Up to ten seconds the reported value is at least the latency and within max(1 ms, 10%) of it. */
  lemma {:induction false} ReportedError(v: int, max: int)
    requires 0 <= v <= TOP
    ensures v <= Reported(v, max) <= v + Slack(v)
  {
    OverflowExactly(v);
    var b := BucketOf(v);
    BucketExactly(v, b);
    if b > 0 {
      assert Bound(b - 1) < v;
      BoundGap(b);
    }
  }

  /** Only latencies above ten seconds overflow. */
  lemma {:induction false} OverflowExactly(v: int)
    ensures BucketOf(v) == BUCKETS <==> v > TOP
  {
    BucketExactly(v, BUCKETS);
    assert Bound(BUCKETS - 1) == TOP;
    assert forall k: nat :: k < BUCKETS ==> Bound(k) <= TOP;
  }

  /** `q` reports `v`: never below, within the slack up to ten seconds, the maximum above. */
  ghost predicate Reports(q: int, v: int, max: int) {
    && v <= q
    && (v <= TOP ==> BucketOf(v) < BUCKETS && q == Bound(BucketOf(v)) && q <= v + Slack(v))
    && (v > TOP ==> q == max)
  }

  /** `rank` is the least whole number that is at least 1 and at least percentile times total. */
  ghost predicate NearestRank(percentile: real, total: nat, rank: nat) {
    rank >= 1 && percentile * total as real <= rank as real
    && (rank == 1 || (rank - 1) as real < percentile * total as real)
  }

  lemma {:induction false} RankIsNearest(percentile: real, total: nat, rank: nat)
    requires 0.0 <= percentile && NearestRank(percentile, total, rank)
    ensures rank == Rank(percentile, total)
  {
  }

  /**
    The main refinement.  For every recording and every percentile in [0, 1], whatever
    ascending arrangement `s` of the recording one takes, the quantile is the reported value of
    the nearest-rank latency v: never below v, within max(1 ms, v/10) of it up to ten seconds,
    and the recorded maximum above.
   */
  lemma {:induction false} QuantileRefinesNearestRank(log: seq<int>, s: seq<int>, percentile: real, rank: nat)
    requires log != [] && forall k :: 0 <= k < |log| ==> 0 <= log[k]
    requires Ascending(s) && multiset(s) == multiset(log)
    requires 0.0 <= percentile <= 1.0 && NearestRank(percentile, |log|, rank)
    ensures |s| == |log| && rank <= |s|
    ensures Reports(QuantileOf(log, percentile), s[rank - 1], MaxOf(log))
  {
    RankIsNearest(percentile, |log|, rank);
    RankInRange(percentile, |log|);
    AtRankRefines(log, s, rank);
  }

  // ----- the quantile without ranks

  /** `q` is a bucket bound, or the recorded maximum when that is above all of them. */
  ghost predicate Reportable(log: seq<int>, q: int) {
    (exists k: nat :: k < BUCKETS && q == Bound(k)) || (q == MaxOf(log) && q > TOP)
  }

  /**
    At least `share` of the latencies are at most `q`, and fewer are at most any smaller bucket
    bound.
   */
  ghost predicate HasShare(log: seq<int>, share: real, q: int) {
    && Reportable(log, q)
    && CountBy(AtMost(q), log) as real >= share
    && forall k: nat :: k < BUCKETS && Bound(k) < q ==> (CountBy(AtMost(Bound(k)), log) as real) < share
  }

  ghost predicate IsQuantile(log: seq<int>, percentile: real, q: int) {
    HasShare(log, percentile * |log| as real, q)
  }

  lemma {:induction false} MissesShare(count: nat, rank: nat, share: real)
    requires count < rank && (rank - 1) as real < share
    ensures (count as real) < share
  {
  }

  lemma {:induction false} AllAtMostMax(log: seq<int>)
    requires log != []
    ensures CountBy(AtMost(MaxOf(log)), log) == |log|
  {
    MinMax(log);
    CountAtLeast(AtMost(MaxOf(log)), log, |log|);
  }

  /** The rank of a positive percentile: the least whole number that is at least the share. */
  lemma {:induction false} RankOfShare(percentile: real, total: nat)
    requires 0.0 < percentile <= 1.0 && total > 0
    ensures var rank := Rank(percentile, total);
            && rank <= total && percentile * total as real <= rank as real
            && (rank - 1) as real < percentile * total as real
  {
    RankInRange(percentile, total);
    assert percentile * total as real > 0.0;
  }

  lemma {:induction false} BoundsIncrease(i: nat, j: nat)
    requires i < BUCKETS && j < BUCKETS
    ensures Bound(i) < Bound(j) <==> i < j
  {
  }

  lemma {:induction false} SmallerBoundMisses(log: seq<int>, rank: nat, k: nat)
    requires 1 <= rank <= |log| && k < BUCKETS && k < BucketOf(SortedCopy(log)[rank - 1])
    ensures CountBy(AtMost(Bound(k)), log) < rank
  {
    WalkStops(log, rank, k);
    BelowIsAtMost(k, log);
  }

  lemma {:induction false} OwnBoundReaches(log: seq<int>, rank: nat)
    requires log != [] && 1 <= rank <= |log|
    ensures CountBy(AtMost(AtRank(log, rank)), log) >= rank
    ensures Reportable(log, AtRank(log, rank))
  {
    var b := BucketOf(SortedCopy(log)[rank - 1]);
    if b < BUCKETS {
      WalkStops(log, rank, b);
      BelowIsAtMost(b, log);
    } else {
      AllAtMostMax(log);
      SortedBetween(log, rank);
      OverflowExactly(SortedCopy(log)[rank - 1]);
    }
  }

  lemma {:induction false} AtRankHasShare(log: seq<int>, rank: nat, share: real)
    requires 1 <= rank <= |log| && share <= rank as real && (rank - 1) as real < share
    ensures HasShare(log, share, AtRank(log, rank))
  {
    OwnBoundReaches(log, rank);
    forall k: nat | k < BUCKETS && Bound(k) < AtRank(log, rank)
      ensures (CountBy(AtMost(Bound(k)), log) as real) < share
    {
      SmallerBoundMisses(log, rank, k);
      MissesShare(CountBy(AtMost(Bound(k)), log), rank, share);
    }
  }

  /** The answer of quantile has the share at or below it, and no smaller bound has. */
  lemma {:induction false} QuantileHasShare(log: seq<int>, percentile: real)
    requires log != [] && 0.0 < percentile <= 1.0
    ensures IsQuantile(log, percentile, QuantileOf(log, percentile))
  {
    RankOfShare(percentile, |log|);
    AtRankHasShare(log, Rank(percentile, |log|), percentile * |log| as real);
  }

  lemma {:induction false} NotSmaller(log: seq<int>, share: real, q: int, r: int)
    requires HasShare(log, share, q) && HasShare(log, share, r)
    ensures r <= q
  {
    assert forall k: nat :: k < BUCKETS ==> Bound(k) <= TOP;
  }

  /** The quantile is the only value of that kind, for every recording and positive percentile. */
  lemma {:induction false} QuantileExactly(log: seq<int>, percentile: real, q: int)
    requires log != [] && 0.0 < percentile <= 1.0
    ensures q == QuantileOf(log, percentile) <==> IsQuantile(log, percentile, q)
  {
    QuantileHasShare(log, percentile);
    if IsQuantile(log, percentile, q) {
      NotSmaller(log, percentile * |log| as real, q, QuantileOf(log, percentile));
      NotSmaller(log, percentile * |log| as real, QuantileOf(log, percentile), q);
    }
  }

  /** The bounds are the whole milliseconds to 100, then steps of 5 to 500, 10 to 1000, 100 to 10000. */
  lemma {:induction false} BoundsExactly(d: int)
    ensures (exists i: nat :: i < BUCKETS && Bound(i) == d)
       <==> d % 1_000_000 == 0 &&
            var ms := d / 1_000_000;
            || 1 <= ms <= 100
            || (100 < ms <= 500 && ms % 5 == 0)
            || (500 < ms <= 1000 && ms % 10 == 0)
            || (1000 < ms <= 10_000 && ms % 100 == 0)
  {
    var ms := d / 1_000_000;
    var i := if ms <= 100 then ms - 1 else if ms <= 500 then 100 + (ms - 105) / 5
             else if ms <= 1000 then 180 + (ms - 510) / 10 else 230 + (ms - 1100) / 100;
    if d % 1_000_000 == 0 && (1 <= ms <= 100 || (100 < ms <= 500 && ms % 5 == 0)
        || (500 < ms <= 1000 && ms % 10 == 0) || (1000 < ms <= 10_000 && ms % 100 == 0)) {
      assert 0 <= i < BUCKETS && BoundMs(i) == ms;
      assert Bound(i) == d;
    }
  }

  lemma {:induction false} AtRankRefines(log: seq<int>, s: seq<int>, rank: nat)
    requires forall k :: 0 <= k < |log| ==> 0 <= log[k]
    requires Ascending(s) && multiset(s) == multiset(log)
    requires 1 <= rank <= |log|
    ensures |s| == |log| && Reports(AtRank(log, rank), s[rank - 1], MaxOf(log))
  {
    SortedCopyAscending(log);
    AscendingUnique(s, SortedCopy(log));
    AtRankError(log, rank);
  }

  lemma {:induction false} AtRankError(log: seq<int>, rank: nat)
    requires 1 <= rank <= |log| && forall k :: 0 <= k < |log| ==> 0 <= log[k]
    ensures Reports(AtRank(log, rank), SortedCopy(log)[rank - 1], MaxOf(log))
  {
    var v := SortedCopy(log)[rank - 1];
    SortedBetween(log, rank);
    OverflowExactly(v);
    if v <= TOP {
      ReportedError(v, MaxOf(log));
    }
  }

  lemma {:induction false} SortedBetween(log: seq<int>, rank: nat)
    requires 1 <= rank <= |log|
    ensures SortedCopy(log)[rank - 1] in log
    ensures MinOf(log) <= SortedCopy(log)[rank - 1] <= MaxOf(log)
  {
    var v := SortedCopy(log)[rank - 1];
    assert v in multiset(SortedCopy(log));
    assert v in multiset(log);
    MinMax(log);
  }

  lemma {:induction false} ReportedMonotone(v: int, w: int, max: int)
    requires v <= w <= max
    ensures Reported(v, max) <= Reported(w, max)
  {
    BucketMonotone(v, w);
    OverflowExactly(v);
    OverflowExactly(w);
    assert forall k: nat :: k < BUCKETS ==> Bound(k) <= TOP;
  }

  /** Percentiles never decrease with the percentage, also across the overflow bucket, and start at min. */
  lemma {:induction false} QuantileMonotone(log: seq<int>, p: real, q: real)
    requires log != [] && 0.0 <= p <= q <= 1.0
    ensures MinOf(log) <= QuantileOf(log, p) <= QuantileOf(log, q)
  {
    RankMonotone(p, q, |log|);
    RankInRange(q, |log|);
    AtRankMonotone(log, Rank(p, |log|), Rank(q, |log|));
  }

  lemma {:induction false} ReportedAbove(v: int, max: int)
    requires v <= max
    ensures v <= Reported(v, max)
  {
    BucketExactly(v, BucketOf(v));
  }

  lemma {:induction false} AtRankMonotone(log: seq<int>, j: nat, k: nat)
    requires 1 <= j <= k <= |log|
    ensures MinOf(log) <= AtRank(log, j) <= AtRank(log, k)
  {
    var v, w, max := SortedCopy(log)[j - 1], SortedCopy(log)[k - 1], MaxOf(log);
    assert v <= w by { SortedCopyAscending(log); }
    SortedBetween(log, j);
    SortedBetween(log, k);
    assert MinOf(log) <= Reported(v, max) by { ReportedAbove(v, max); }
    assert Reported(v, max) <= Reported(w, max) by { ReportedMonotone(v, w, max); }
  }

  /** One half-millisecond sample: the median reported is one millisecond, above the maximum. */
  lemma {:induction false} QuantileMayExceedMax()
    ensures QuantileOf([500_000], 0.5) == MILLISECOND && MaxOf([500_000]) == 500_000
  {
  }

  /** `v` shares the bucket of the maximum, which lies strictly below the bucket's bound. */
  ghost predicate BelowOwnBound(v: int, max: int) {
    var b := BucketOf(max);
    BucketOf(v) == b && b < BUCKETS && max < Bound(b)
  }

  /**
    Exactly when a percentile exceeds the recorded maximum, for every recording and every rank
    (hence every percentile: QuantileOf is AtRank of the percentile's rank).
   */
  lemma {:induction false} QuantileAboveMaxExactly(log: seq<int>, rank: nat)
    requires 1 <= rank <= |log|
    ensures AtRank(log, rank) > MaxOf(log) <==> BelowOwnBound(SortedCopy(log)[rank - 1], MaxOf(log))
  {
    var v, max := SortedCopy(log)[rank - 1], MaxOf(log);
    SortedBetween(log, rank);
    BucketMonotone(v, max);
    BucketExactly(max, BucketOf(max));
    assert BucketOf(v) < BucketOf(max) ==> Bound(BucketOf(v)) < max;
  }

  /** The exported buckets are what the Prometheus text format asks: cumulative, bounded by the count. */
  lemma {:induction false} BucketsCumulative(log: seq<int>, i: nat, j: nat)
    requires i <= j < BUCKETS
    ensures Bound(i) <= Bound(j)
    ensures BucketsOf(log)[i].cumulative <= BucketsOf(log)[j].cumulative <= |log|
  {
    CountMonotone(AtMost(Bound(i)), AtMost(Bound(j)), log);
  }

  /** Recording order does not matter: every field of the histogram is a function of the multiset. */
  lemma {:induction false} HistogramOrderIndependent(a: seq<int>, b: seq<int>)
    requires multiset(a) == multiset(b)
    ensures |a| == |b|
    ensures SumBy(Itself(), a) == SumBy(Itself(), b)
    ensures MinOf(a) == MinOf(b) && MaxOf(a) == MaxOf(b)
    ensures forall k: nat :: CountBy(InBucket(k), a) == CountBy(InBucket(k), b)
    ensures BucketsOf(a) == BucketsOf(b)
    ensures forall p: real :: 0.0 <= p ==> QuantileOf(a, p) == QuantileOf(b, p)
  {
    SumPermutation(Itself(), a, b);
    SortedCopyAscending(a);
    SortedCopyAscending(b);
    AscendingUnique(SortedCopy(a), SortedCopy(b));
    if a != [] && b != [] {
      MinMaxPermutation(a, b);
    }
    forall k: nat ensures CountBy(InBucket(k), a) == CountBy(InBucket(k), b) {
      CountPermutation(InBucket(k), a, b);
    }
    forall i: nat | i < BUCKETS ensures BucketsOf(a)[i] == BucketsOf(b)[i] {
      CountPermutation(AtMost(Bound(i)), a, b);
    }
  }
}
