/**
 Service level objectives: recording, aggregation over a window, and the three views of
 availability (compliance, error budget, burn rate) in exact arithmetic. A bucket list is a
 JavaScript Map in insertion order.
 */
module SloTrackers {
  import opened Sequences

  datatype Bucket = Bucket(bound: int, count: nat)
  datatype Sample = Sample(totalRequests: nat, failedRequests: nat, histogram: seq<Bucket>)
  datatype Recorded = Recorded(timestamp: int, sample: Sample)
  datatype Aggregate = Aggregate(totalRequests: nat, failedRequests: nat, buckets: seq<Bucket>)
  datatype Rate = Finite(rate: real) | Infinite
  datatype Kind = Availability | Latency
  datatype Tracked = Tracked(kind: Kind, target: real, history: seq<Recorded>)

  // ---- History ----

  /** h.slice(-n): the last n for a positive n, everything for zero, all but the first -n otherwise. */
  function SliceLast<T>(h: seq<T>, n: int): seq<T> {
    if n > 0 then (if |h| > n then h[|h| - n..] else h)
    else if -n <= |h| then h[-n..]
    else []
  }

  function Pushed<T>(h: seq<T>, x: T, max: int): seq<T> {
    if |h| + 1 > max then SliceLast(h + [x], max) else h + [x]
  }

  /** Recording keeps the history within the maximum if and only if the maximum is at least one. */
  lemma HistoryBounded(max: int)
    ensures (forall h: seq<Recorded>, x :: |Pushed(h, x, max)| <= max) <==> max >= 1
  {
    if max < 1 {
      assert |Pushed([], Recorded(0, Sample(0, 0, [])), max)| > max;
    }
  }

  /** With room for it, what is kept is the end of everything recorded, the newest sample last. */
  lemma NewestKept(h: seq<Recorded>, x: Recorded, max: int)
    requires max >= 1
    ensures var p := Pushed(h, x, max);
      p != [] && p[|p| - 1] == x && |p| == (if |h| + 1 > max then max else |h| + 1) && p == (h + [x])[|h| + 1 - |p|..]
  {
  }

  // ---- Aggregation ----

  function InWindow(h: seq<Recorded>, cutoff: int): seq<Recorded> {
    if h == [] then [] else (if h[0].timestamp >= cutoff then [h[0]] else []) + InWindow(h[1..], cutoff)
  }

  /** bucketMap.set(bound, (bucketMap.get(bound) ?? 0) + count) */
  function Add(bs: seq<Bucket>, b: Bucket): seq<Bucket> {
    if bs == [] then [b]
    else if bs[0].bound == b.bound then [Bucket(b.bound, bs[0].count + b.count)] + bs[1..]
    else [bs[0]] + Add(bs[1..], b)
  }

  function AddAll(bs: seq<Bucket>, histogram: seq<Bucket>): seq<Bucket>
    decreases |histogram|
  {
    if histogram == [] then bs else AddAll(Add(bs, histogram[0]), histogram[1..])
  }

  function AggregateFrom(a: Aggregate, samples: seq<Recorded>): Aggregate
    decreases |samples|
  {
    if samples == [] then a
    else
      var s := samples[0].sample;
      AggregateFrom(Aggregate(a.totalRequests + s.totalRequests, a.failedRequests + s.failedRequests,
                              AddAll(a.buckets, s.histogram)), samples[1..])
  }

  function Aggregated(samples: seq<Recorded>): Aggregate {
    AggregateFrom(Aggregate(0, 0, []), samples)
  }

  // ---- What an aggregate means ----

  /** The numbers a list of samples or an aggregate can be asked for. */
  datatype Metric = Total | Failed | AllCounts | CountUpTo(bound: int) | Mentions(bound: int)

  function OfBucket(m: Metric, b: Bucket): nat {
    match m
    case Total => 0
    case Failed => 0
    case AllCounts => b.count
    case CountUpTo(k) => if b.bound <= k then b.count else 0
    case Mentions(k) => if b.bound == k then 1 else 0
  }

  function OfBuckets(m: Metric, bs: seq<Bucket>): nat {
    if bs == [] then 0 else OfBucket(m, bs[0]) + OfBuckets(m, bs[1..])
  }

  function OfSample(m: Metric, s: Sample): nat {
    match m
    case Total => s.totalRequests
    case Failed => s.failedRequests
    case _ => OfBuckets(m, s.histogram)
  }

  function OfSamples(m: Metric, samples: seq<Recorded>): nat {
    if samples == [] then 0 else OfSample(m, samples[0].sample) + OfSamples(m, samples[1..])
  }

  function OfAggregate(m: Metric, a: Aggregate): nat {
    match m
    case Total => a.totalRequests
    case Failed => a.failedRequests
    case _ => OfBuckets(m, a.buckets)
  }

  /** The number over the entries of a history from a point of time on. */
  function Since(m: Metric, h: seq<Recorded>, cutoff: int): nat {
    if h == [] then 0
    else (if h[0].timestamp >= cutoff then OfSample(m, h[0].sample) else 0) + Since(m, h[1..], cutoff)
  }

  lemma {:induction false} WindowSince(m: Metric, h: seq<Recorded>, cutoff: int)
    ensures OfSamples(m, InWindow(h, cutoff)) == Since(m, h, cutoff)
  {
    if h != [] {
      WindowSince(m, h[1..], cutoff);
      if h[0].timestamp >= cutoff {
        assert InWindow(h, cutoff)[1..] == InWindow(h[1..], cutoff);
      } else {
        assert InWindow(h, cutoff) == InWindow(h[1..], cutoff);
      }
    }
  }

  /** A window keeps exactly the entries from the cutoff on, in their order. */
  lemma {:induction false} WindowKeeps(h: seq<Recorded>, cutoff: int) returns (at: seq<nat>)
    ensures Ordered(at, |h|) && forall i :: 0 <= i < |h| ==> (i in at <==> h[i].timestamp >= cutoff)
    ensures |InWindow(h, cutoff)| == |at|
    ensures forall k :: 0 <= k < |at| ==> at[k] < |h| && InWindow(h, cutoff)[k] == h[at[k]]
  {
    at := [];
    if h != [] {
      var rest := WindowKeeps(h[1..], cutoff);
      var first := h[0].timestamp >= cutoff;
      KeptOrdered(rest, |h| - 1, first);
      KeptElements(h, rest, first, InWindow(h[1..], cutoff));
      WindowFrom(h, cutoff);
      at := Kept(rest, first);
      forall i | 0 <= i < |h|
        ensures i in at <==> h[i].timestamp >= cutoff
      {
        KeptIn(rest, first, i);
        if i > 0 {
          assert h[1..][i - 1] == h[i];
        }
      }
    }
  }

  lemma WindowFrom(h: seq<Recorded>, cutoff: int)
    requires h != []
    ensures InWindow(h, cutoff)
         == if h[0].timestamp >= cutoff then [h[0]] + InWindow(h[1..], cutoff) else InWindow(h[1..], cutoff)
  {
    assert [] + InWindow(h[1..], cutoff) == InWindow(h[1..], cutoff);
  }

  /** A Map has one bucket per bound. */
  ghost predicate Distinct(bs: seq<Bucket>) {
    forall k :: OfBuckets(Mentions(k), bs) <= 1
  }

  function AtMostOne(n: nat): nat {
    if n > 1 then 1 else n
  }

  /** How the numbers of a Map grow: counts add up, mentions do not. */
  function Plus(m: Metric, x: nat, y: nat): nat {
    if m.Mentions? then AtMostOne(x + y) else x + y
  }

  lemma {:induction false} AddMeans(m: Metric, bs: seq<Bucket>, b: Bucket)
    requires m.Mentions? ==> OfBuckets(m, bs) <= 1
    ensures OfBuckets(m, Add(bs, b)) == Plus(m, OfBuckets(m, bs), OfBucket(m, b))
  {
    if bs != [] {
      if bs[0].bound == b.bound {
        assert Add(bs, b)[1..] == bs[1..];
      } else {
        AddMeans(m, bs[1..], b);
        assert Add(bs, b)[1..] == Add(bs[1..], b);
      }
    }
  }

  lemma {:induction false} AddAllMeans(m: Metric, bs: seq<Bucket>, histogram: seq<Bucket>)
    requires m.Mentions? ==> OfBuckets(m, bs) <= 1
    ensures OfBuckets(m, AddAll(bs, histogram)) == Plus(m, OfBuckets(m, bs), OfBuckets(m, histogram))
    decreases |histogram|
  {
    if histogram != [] {
      AddMeans(m, bs, histogram[0]);
      AddAllMeans(m, Add(bs, histogram[0]), histogram[1..]);
    }
  }

  lemma {:induction false} AggregateFromMeans(m: Metric, a: Aggregate, samples: seq<Recorded>)
    requires m.Mentions? ==> OfAggregate(m, a) <= 1
    ensures OfAggregate(m, AggregateFrom(a, samples)) == Plus(m, OfAggregate(m, a), OfSamples(m, samples))
    decreases |samples|
  {
    if samples != [] {
      var s := samples[0].sample;
      var t := Aggregate(a.totalRequests + s.totalRequests, a.failedRequests + s.failedRequests,
                         AddAll(a.buckets, s.histogram));
      if !m.Total? && !m.Failed? {
        AddAllMeans(m, a.buckets, s.histogram);
      }
      AggregateFromMeans(m, t, samples[1..]);
    }
  }

  /** Aggregation adds up every number the samples hold. */
  lemma AggregateMeans(m: Metric, samples: seq<Recorded>)
    ensures OfAggregate(m, Aggregated(samples)) == Plus(m, 0, OfSamples(m, samples))
  {
    AggregateFromMeans(m, Aggregate(0, 0, []), samples);
  }

  lemma AggregateDistinct(samples: seq<Recorded>)
    ensures Distinct(Aggregated(samples).buckets)
  {
    forall k
      ensures OfBuckets(Mentions(k), Aggregated(samples).buckets) <= 1
    {
      AggregateMeans(Mentions(k), samples);
    }
  }

  lemma {:induction false} SamplesConcat(m: Metric, a: seq<Recorded>, b: seq<Recorded>)
    ensures OfSamples(m, a + b) == OfSamples(m, a) + OfSamples(m, b)
  {
    if a == [] {
      assert a + b == b;
    } else {
      SamplesConcat(m, a[1..], b);
      assert (a + b)[1..] == a[1..] + b;
    }
  }

  lemma {:induction false} WithoutOne(m: Metric, b: seq<Recorded>, i: nat)
    requires i < |b|
    ensures OfSamples(m, b) == OfSample(m, b[i].sample) + OfSamples(m, b[..i] + b[i + 1..])
  {
    if i == 0 {
      assert b[..0] + b[1..] == b[1..];
    } else {
      WithoutOne(m, b[1..], i - 1);
      assert (b[..i] + b[i + 1..])[1..] == b[1..][..i - 1] + b[1..][i..];
    }
  }

  lemma MultisetWithoutOne(b: seq<Recorded>, i: nat)
    requires i < |b|
    ensures multiset(b[..i] + b[i + 1..]) == multiset(b) - multiset{b[i]}
  {
    assert b == b[..i] + [b[i]] + b[i + 1..];
  }

  lemma PermutedRest(a: seq<Recorded>, b: seq<Recorded>, i: nat)
    requires multiset(a) == multiset(b) && a != [] && i < |b| && b[i] == a[0]
    ensures multiset(a[1..]) == multiset(b[..i] + b[i + 1..])
  {
    assert a == [a[0]] + a[1..];
    assert multiset(a[1..]) == multiset(a) - multiset{a[0]};
    MultisetWithoutOne(b, i);
  }

  lemma {:induction false} SamplesPermuted(m: Metric, a: seq<Recorded>, b: seq<Recorded>)
    requires multiset(a) == multiset(b)
    ensures OfSamples(m, a) == OfSamples(m, b)
  {
    if a == [] {
      assert |multiset(b)| == 0;
    } else {
      assert a[0] in multiset(b);
      var i :| 0 <= i < |b| && b[i] == a[0];
      WithoutOne(m, b, i);
      PermutedRest(a, b, i);
      SamplesPermuted(m, a[1..], b[..i] + b[i + 1..]);
    }
  }

  // ---- Percentiles ----

  function InsertSorted(b: Bucket, bs: seq<Bucket>): seq<Bucket> {
    if bs == [] || b.bound <= bs[0].bound then [b] + bs else [bs[0]] + InsertSorted(b, bs[1..])
  }

  /** entries.sort(([a], [b]) => a - b) */
  function SortBuckets(bs: seq<Bucket>): seq<Bucket> {
    if bs == [] then [] else InsertSorted(bs[0], SortBuckets(bs[1..]))
  }

  /** ceil(percentile / 100 * total) */
  function TargetCount(percentile: nat, total: nat): nat {
    (percentile * total + 99) / 100
  }

  /**
   The least bucket whose cumulative count reaches the target; the greatest bucket when the
   buckets do not cover the target; zero without requests or buckets.
   */
  ghost predicate IsPercentile(bs: seq<Bucket>, percentile: nat, total: nat, r: int) {
    var target := TargetCount(percentile, total);
    if total == 0 || bs == [] then r == 0
    else
      && OfBuckets(Mentions(r), bs) > 0
      && (if OfBuckets(AllCounts, bs) >= target
          then OfBuckets(CountUpTo(r), bs) >= target
            && forall k :: k < r && OfBuckets(Mentions(k), bs) > 0 ==> OfBuckets(CountUpTo(k), bs) < target
          else forall k :: OfBuckets(Mentions(k), bs) > 0 ==> k <= r)
  }

  predicate Ascending(bs: seq<Bucket>) {
    forall i, j :: 0 <= i < j < |bs| ==> bs[i].bound < bs[j].bound
  }

  lemma {:induction false} InsertMeans(m: Metric, b: Bucket, bs: seq<Bucket>)
    ensures OfBuckets(m, InsertSorted(b, bs)) == OfBucket(m, b) + OfBuckets(m, bs)
  {
    if bs == [] || b.bound <= bs[0].bound {
      assert ([b] + bs)[1..] == bs;
    } else {
      InsertMeans(m, b, bs[1..]);
      assert ([bs[0]] + InsertSorted(b, bs[1..]))[1..] == InsertSorted(b, bs[1..]);
    }
  }

  lemma {:induction false} SortMeans(m: Metric, bs: seq<Bucket>)
    ensures OfBuckets(m, SortBuckets(bs)) == OfBuckets(m, bs)
  {
    if bs != [] {
      SortMeans(m, bs[1..]);
      InsertMeans(m, bs[0], SortBuckets(bs[1..]));
    }
  }

  lemma {:induction false} MentionsAt(bs: seq<Bucket>, k: int)
    ensures OfBuckets(Mentions(k), bs) > 0 <==> exists i :: 0 <= i < |bs| && bs[i].bound == k
  {
    if bs != [] {
      MentionsAt(bs[1..], k);
      if i :| 0 <= i < |bs| && bs[i].bound == k && i > 0 {
        assert bs[1..][i - 1].bound == k;
      }
    }
  }

  lemma {:induction false} InsertAscending(b: Bucket, bs: seq<Bucket>)
    requires Ascending(bs) && OfBuckets(Mentions(b.bound), bs) == 0
    ensures Ascending(InsertSorted(b, bs))
  {
    MentionsAt(bs, b.bound);
    if bs != [] && bs[0].bound < b.bound {
      var rest := InsertSorted(b, bs[1..]);
      InsertAscending(b, bs[1..]);
      forall i | 0 <= i < |rest|
        ensures bs[0].bound < rest[i].bound
      {
        MentionsAt(rest, rest[i].bound);
        InsertMeans(Mentions(rest[i].bound), b, bs[1..]);
        MentionsAt(bs[1..], rest[i].bound);
      }
    }
  }

  lemma {:induction false} SortAscending(bs: seq<Bucket>)
    requires Distinct(bs)
    ensures Ascending(SortBuckets(bs))
  {
    if bs != [] {
      assert Distinct(bs[1..]) by {
        forall k
          ensures OfBuckets(Mentions(k), bs[1..]) <= 1
        {
          assert OfBuckets(Mentions(k), bs) <= 1;
        }
      }
      SortAscending(bs[1..]);
      assert OfBuckets(Mentions(bs[0].bound), bs) <= 1;
      SortMeans(Mentions(bs[0].bound), bs[1..]);
      InsertAscending(bs[0], SortBuckets(bs[1..]));
    }
  }

  /** In ascending order, the cumulative count is the count up to the bucket's bound. */
  lemma {:induction false} CumulativeIs(bs: seq<Bucket>, i: nat)
    requires Ascending(bs) && i < |bs|
    ensures OfBuckets(CountUpTo(bs[i].bound), bs) == OfBuckets(AllCounts, bs[..i + 1])
  {
    var m := CountUpTo(bs[i].bound);
    assert bs[..i + 1][1..] == bs[1..][..i];
    if i > 0 {
      CumulativeIs(bs[1..], i - 1);
    } else {
      NoneUpTo(bs[1..], bs[0].bound);
    }
  }

  lemma {:induction false} NoneUpTo(bs: seq<Bucket>, k: int)
    requires forall i :: 0 <= i < |bs| ==> bs[i].bound > k
    ensures OfBuckets(CountUpTo(k), bs) == 0
  {
    if bs != [] {
      NoneUpTo(bs[1..], k);
    }
  }

  lemma {:induction false} CountsConcat(a: seq<Bucket>, b: seq<Bucket>)
    ensures OfBuckets(AllCounts, a + b) == OfBuckets(AllCounts, a) + OfBuckets(AllCounts, b)
  {
    if a == [] {
      assert a + b == b;
    } else {
      CountsConcat(a[1..], b);
      assert (a + b)[1..] == a[1..] + b;
    }
  }

  /** The accumulating loop finds the percentile, independently of the order the Map was filled in. */
  method ComputePercentileFromBuckets(bs: seq<Bucket>, percentile: nat, total: nat) returns (r: int)
    requires Distinct(bs)
    ensures IsPercentile(bs, percentile, total, r)
  {
    if total == 0 || bs == [] {
      return 0;
    }
    var targetCount := TargetCount(percentile, total);
    var sorted := SortBuckets(bs);
    SortAscending(bs);
    ghost var all := sorted;
    var cumulative := 0;
    SortedNonEmpty(bs);
    for i := 0 to |sorted|
      invariant cumulative == OfBuckets(AllCounts, sorted[..i])
      invariant forall j :: 0 <= j < i ==> OfBuckets(CountUpTo(sorted[j].bound), sorted) < targetCount
      invariant i > 0 ==> cumulative < targetCount
    {
      assert sorted[..i + 1] == sorted[..i] + [sorted[i]];
      CountsConcat(sorted[..i], [sorted[i]]);
      assert [sorted[i]][1..] == [];
      CumulativeIs(sorted, i);
      cumulative := cumulative + sorted[i].count;
      if cumulative >= targetCount {
        r := sorted[i].bound;
        PercentileFound(bs, percentile, total, i);
        return;
      }
    }
    assert sorted[..|sorted|] == sorted;
    r := sorted[|sorted| - 1].bound;
    PercentileBeyond(bs, percentile, total);
  }

  /** The sums over the samples, and the 95th percentile of the summed histogram. */
  method AggregateSamples(samples: seq<Recorded>) returns (a: Aggregate, latencyPercentileMs: int)
    ensures a == Aggregated(samples)
    ensures IsPercentile(a.buckets, 95, a.totalRequests, latencyPercentileMs)
  {
    var totalRequests: nat, failedRequests: nat := 0, 0;
    var bucketMap: seq<Bucket> := [];
    for i := 0 to |samples|
      invariant AggregateFrom(Aggregate(totalRequests, failedRequests, bucketMap), samples[i..]) == Aggregated(samples)
    {
      var sample := samples[i].sample;
      assert samples[i..][1..] == samples[i + 1..];
      ghost var before := bucketMap;
      totalRequests := totalRequests + sample.totalRequests;
      failedRequests := failedRequests + sample.failedRequests;
      for j := 0 to |sample.histogram|
        invariant AddAll(bucketMap, sample.histogram[j..]) == AddAll(before, sample.histogram)
      {
        assert sample.histogram[j..][1..] == sample.histogram[j + 1..];
        bucketMap := Add(bucketMap, sample.histogram[j]);
      }
    }
    a := Aggregate(totalRequests, failedRequests, bucketMap);
    AggregateDistinct(samples);
    latencyPercentileMs := ComputePercentileFromBuckets(bucketMap, 95, totalRequests);
  }

  lemma SortedNonEmpty(bs: seq<Bucket>)
    requires bs != []
    ensures SortBuckets(bs) != []
  {
  }

  lemma PercentileFound(bs: seq<Bucket>, percentile: nat, total: nat, i: nat)
    requires Distinct(bs) && total > 0 && i < |SortBuckets(bs)| && bs != []
    requires var s := SortBuckets(bs);
      && OfBuckets(CountUpTo(s[i].bound), s) >= TargetCount(percentile, total)
      && forall j :: 0 <= j < i ==> OfBuckets(CountUpTo(s[j].bound), s) < TargetCount(percentile, total)
    ensures IsPercentile(bs, percentile, total, SortBuckets(bs)[i].bound)
  {
    var s := SortBuckets(bs);
    var r := s[i].bound;
    SortAscending(bs);
    SortMeans(CountUpTo(r), bs);
    SortMeans(Mentions(r), bs);
    MentionsAt(s, r);
    UpToIsPart(bs, r);
    forall k | k < r && OfBuckets(Mentions(k), bs) > 0
      ensures OfBuckets(CountUpTo(k), bs) < TargetCount(percentile, total)
    {
      SortMeans(Mentions(k), bs);
      MentionsAt(s, k);
      var j :| 0 <= j < |s| && s[j].bound == k;
      assert j < i;
      SortMeans(CountUpTo(k), bs);
    }
  }

  lemma {:induction false} UpToIsPart(bs: seq<Bucket>, k: int)
    ensures OfBuckets(CountUpTo(k), bs) <= OfBuckets(AllCounts, bs)
  {
    if bs != [] {
      UpToIsPart(bs[1..], k);
    }
  }

  lemma PercentileBeyond(bs: seq<Bucket>, percentile: nat, total: nat)
    requires Distinct(bs) && total > 0 && bs != []
    requires OfBuckets(AllCounts, SortBuckets(bs)) < TargetCount(percentile, total)
    ensures SortBuckets(bs) != []
    ensures IsPercentile(bs, percentile, total, SortBuckets(bs)[|SortBuckets(bs)| - 1].bound)
  {
    SortedNonEmpty(bs);
    var s := SortBuckets(bs);
    var r := s[|s| - 1].bound;
    SortAscending(bs);
    SortMeans(AllCounts, bs);
    SortMeans(Mentions(r), bs);
    MentionsAt(s, r);
    forall k | OfBuckets(Mentions(k), bs) > 0
      ensures k <= r
    {
      SortMeans(Mentions(k), bs);
      MentionsAt(s, k);
    }
  }

  /** There is only one percentile. */
  lemma PercentileUnique(bs: seq<Bucket>, percentile: nat, total: nat, q: int, r: int)
    requires IsPercentile(bs, percentile, total, q) && IsPercentile(bs, percentile, total, r)
    ensures q == r
  {
  }

  /**
   Aggregation does not depend on the order of the samples: neither a sum, nor a count up to
   any bound, nor which buckets there are, nor therefore the percentile.
   */
  lemma OrderIrrelevant(a: seq<Recorded>, b: seq<Recorded>, percentile: nat, r: int)
    requires multiset(a) == multiset(b)
    ensures forall m :: OfAggregate(m, Aggregated(a)) == OfAggregate(m, Aggregated(b))
    ensures IsPercentile(Aggregated(a).buckets, percentile, Aggregated(a).totalRequests, r)
       <==> IsPercentile(Aggregated(b).buckets, percentile, Aggregated(b).totalRequests, r)
  {
    forall m
      ensures OfAggregate(m, Aggregated(a)) == OfAggregate(m, Aggregated(b))
    {
      SamplesPermuted(m, a, b);
      AggregateMeans(m, a);
      AggregateMeans(m, b);
    }
    SameNumbersSamePercentile(Aggregated(a), Aggregated(b), percentile, r);
  }

  /**
   The percentile of what a history holds from a point of time on, told by the samples themselves: the
   least bucket that with those below it covers so many hundredths of the requests, or the
   greatest one when even all of them do not.
   */
  ghost predicate PercentileSince(h: seq<Recorded>, cutoff: int, percentile: nat, r: int) {
    var needed := percentile * Since(Total, h, cutoff);
    if Since(Total, h, cutoff) == 0 || forall k :: Since(Mentions(k), h, cutoff) == 0 then r == 0
    else
      && Since(Mentions(r), h, cutoff) > 0
      && (if 100 * Since(AllCounts, h, cutoff) >= needed
          then 100 * Since(CountUpTo(r), h, cutoff) >= needed
            && forall k :: k < r && Since(Mentions(k), h, cutoff) > 0 ==> 100 * Since(CountUpTo(k), h, cutoff) < needed
          else forall k :: Since(Mentions(k), h, cutoff) > 0 ==> k <= r)
  }

  lemma PercentileSinceUnique(h: seq<Recorded>, cutoff: int, percentile: nat, q: int, r: int)
    requires PercentileSince(h, cutoff, percentile, q) && PercentileSince(h, cutoff, percentile, r)
    ensures q == r
  {
  }

  lemma AggregateSince(m: Metric, h: seq<Recorded>, cutoff: int)
    ensures OfAggregate(m, Aggregated(InWindow(h, cutoff))) == Plus(m, 0, Since(m, h, cutoff))
  {
    AggregateMeans(m, InWindow(h, cutoff));
    WindowSince(m, h, cutoff);
  }

  lemma TargetReached(percentile: nat, total: nat, count: nat)
    ensures count >= TargetCount(percentile, total) <==> 100 * count >= percentile * total
  {
  }

  lemma NoBuckets(bs: seq<Bucket>)
    ensures bs == [] <==> forall k :: OfBuckets(Mentions(k), bs) == 0
  {
    if bs != [] {
      assert OfBuckets(Mentions(bs[0].bound), bs) > 0;
    }
  }

  /** That is what the aggregate's percentile is. */
  lemma PercentileOfWindow(h: seq<Recorded>, cutoff: int, percentile: nat, r: int)
    ensures var a := Aggregated(InWindow(h, cutoff));
      IsPercentile(a.buckets, percentile, a.totalRequests, r) ==> PercentileSince(h, cutoff, percentile, r)
  {
    var bs := Aggregated(InWindow(h, cutoff)).buckets;
    AggregateSince(Total, h, cutoff);
    AggregateSince(AllCounts, h, cutoff);
    forall k
      ensures OfBuckets(Mentions(k), bs) == AtMostOne(Since(Mentions(k), h, cutoff))
      ensures OfBuckets(CountUpTo(k), bs) == Since(CountUpTo(k), h, cutoff)
    {
      AggregateSince(Mentions(k), h, cutoff);
      AggregateSince(CountUpTo(k), h, cutoff);
    }
    NoBuckets(bs);
    PercentileReached(bs, percentile, Since(Total, h, cutoff));
  }

  lemma PercentileReached(bs: seq<Bucket>, percentile: nat, total: nat)
    ensures forall k :: OfBuckets(CountUpTo(k), bs) >= TargetCount(percentile, total)
                   <==> 100 * OfBuckets(CountUpTo(k), bs) >= percentile * total
    ensures OfBuckets(AllCounts, bs) >= TargetCount(percentile, total)
       <==> 100 * OfBuckets(AllCounts, bs) >= percentile * total
  {
    forall k
      ensures OfBuckets(CountUpTo(k), bs) >= TargetCount(percentile, total)
         <==> 100 * OfBuckets(CountUpTo(k), bs) >= percentile * total
    {
      TargetReached(percentile, total, OfBuckets(CountUpTo(k), bs));
    }
    TargetReached(percentile, total, OfBuckets(AllCounts, bs));
  }

  lemma SameNumbersSamePercentile(a: Aggregate, b: Aggregate, percentile: nat, r: int)
    requires forall m :: OfAggregate(m, a) == OfAggregate(m, b)
    ensures IsPercentile(a.buckets, percentile, a.totalRequests, r)
       <==> IsPercentile(b.buckets, percentile, b.totalRequests, r)
  {
    assert a.totalRequests == OfAggregate(Total, a) == OfAggregate(Total, b);
    forall m: Metric | !m.Total? && !m.Failed?
      ensures OfBuckets(m, a.buckets) == OfBuckets(m, b.buckets)
    {
      assert OfAggregate(m, a) == OfAggregate(m, b);
    }
    if a.buckets != [] {
      assert OfBuckets(Mentions(a.buckets[0].bound), a.buckets) > 0;
    }
    if b.buckets != [] {
      assert OfBuckets(Mentions(b.buckets[0].bound), b.buckets) > 0;
    }
  }

  /** Nor on the grouping: the aggregate of two batches is the sum of theirs. */
  lemma GroupingIrrelevant(m: Metric, a: seq<Recorded>, b: seq<Recorded>)
    ensures OfAggregate(m, Aggregated(a + b)) == Plus(m, OfAggregate(m, Aggregated(a)), OfAggregate(m, Aggregated(b)))
  {
    SamplesConcat(m, a, b);
    AggregateMeans(m, a);
    AggregateMeans(m, b);
    AggregateMeans(m, a + b);
  }

  // ---- The three views of availability ----

  function ErrorRate(total: nat, failed: nat): real {
    if total > 0 then failed as real / total as real else 0.0
  }

  function CurrentSLI(total: nat, failed: nat): real {
    if total > 0 then 1.0 - ErrorRate(total, failed) else 1.0
  }

  predicate Compliant(target: real, total: nat, failed: nat) {
    CurrentSLI(total, failed) >= target
  }

  function AllowedFailures(target: real, total: nat): int {
    ((1.0 - target) * total as real).Floor
  }

  predicate Consumed(target: real, total: nat, failed: nat) {
    failed >= AllowedFailures(target, total)
  }

  function BurnRate(target: real, total: nat, failed: nat): Rate {
    var e := ErrorRate(total, failed);
    if 1.0 - target > 0.0 then Finite(e / (1.0 - target))
    else if e > 0.0 then Infinite
    else Finite(0.0)
  }

  predicate Burning(r: Rate) {
    r.Infinite? || r.rate > 1.0
  }

  lemma RateScaled(f: nat, t: nat, a: real)
    requires t > 0
    ensures f as real / t as real <= a <==> f as real <= a * t as real
  {
    var x, y := f as real / t as real, t as real;
    assert x * y == f as real;
    if x <= a {
      assert x * y <= a * y;
    } else {
      assert x * y > a * y;
    }
  }

  /** Compliance is staying within the allowed failures, a floor; it fails only without requests. */
  lemma BudgetAgreesExactly(target: real, total: nat, failed: nat)
    ensures (Compliant(target, total, failed) <==> failed <= AllowedFailures(target, total))
       <==> total > 0 || (target <= 1.0 <==> failed == 0)
  {
    if total > 0 {
      RateScaled(failed, total, 1.0 - target);
    }
  }

  /** Compliance is not burning, for every target up to one; above one, only while something fails. */
  lemma BurnAgreesExactly(target: real, total: nat, failed: nat)
    ensures (Compliant(target, total, failed) <==> !Burning(BurnRate(target, total, failed)))
       <==> target <= 1.0 || (total > 0 && failed > 0)
  {
    var e, a := ErrorRate(total, failed), 1.0 - target;
    if total > 0 {
      RateScaled(failed, total, 0.0);
    }
    assert Compliant(target, total, failed) <==> e <= a;
    if a > 0.0 {
      RatioAboveOne(e, a);
    }
  }

  lemma RatioAboveOne(e: real, a: real)
    requires a > 0.0
    ensures e / a > 1.0 <==> e > a
  {
    var r := e / a;
    assert r * a == e;
    if r > 1.0 {
      assert r * a > 1.0 * a;
    } else {
      assert r * a <= 1.0 * a;
    }
  }

  /** A compliant objective with requests has its budget consumed only at the very last allowed failure. */
  lemma ConsumedAtTheEdge(target: real, total: nat, failed: nat)
    requires total > 0
    ensures Compliant(target, total, failed) && Consumed(target, total, failed)
       <==> failed == AllowedFailures(target, total)
  {
    BudgetAgreesExactly(target, total, failed);
  }

  lemma {:induction false} InnerWindow(h: seq<Recorded>, inner: int, outer: int)
    requires outer <= inner
    ensures InWindow(InWindow(h, inner), outer) == InWindow(h, inner)
  {
    if h != [] {
      InnerWindow(h[1..], inner, outer);
      if h[0].timestamp >= inner {
        assert InWindow(h, inner)[1..] == InWindow(h[1..], inner);
      } else {
        assert InWindow(h, inner) == InWindow(h[1..], inner);
      }
    }
  }

  /**
   The views agree: for a target up to one and a window with requests, an objective is
   compliant exactly when failures are within the floor of what is allowed, exactly when
   the burn rate over any window that begins no later than the snapshot's is at most one. The
   clock is read again for each burn rate.
   */
  lemma ViewsAgree(h: seq<Recorded>, now: int, later: int, snapshotMinutes: nat, burnMinutes: nat, target: real)
    requires later - burnMinutes * 60_000 <= now - snapshotMinutes * 60_000 && target <= 1.0
    ensures var samples := InWindow(h, now - snapshotMinutes * 60_000);
      var a, b := Aggregated(samples), Aggregated(InWindow(samples, later - burnMinutes * 60_000));
      && a.totalRequests == b.totalRequests == Since(Total, h, now - snapshotMinutes * 60_000)
      && a.failedRequests == b.failedRequests == Since(Failed, h, now - snapshotMinutes * 60_000)
      && (a.totalRequests > 0 ==>
        && (Compliant(target, a.totalRequests, a.failedRequests)
            <==> a.failedRequests <= AllowedFailures(target, a.totalRequests))
        && (Compliant(target, a.totalRequests, a.failedRequests)
            <==> !Burning(BurnRate(target, b.totalRequests, b.failedRequests))))
  {
    var samples := InWindow(h, now - snapshotMinutes * 60_000);
    InnerWindow(h, now - snapshotMinutes * 60_000, later - burnMinutes * 60_000);
    var a := Aggregated(samples);
    AggregateSince(Total, h, now - snapshotMinutes * 60_000);
    AggregateSince(Failed, h, now - snapshotMinutes * 60_000);
    BudgetAgreesExactly(target, a.totalRequests, a.failedRequests);
    BurnAgreesExactly(target, a.totalRequests, a.failedRequests);
  }

  // ---- Latency objectives, and the whole status ----

  /** p95 / target, or what stands for it without a positive target. */
  function LatencyRate(target: real, p95: int): Rate {
    if target > 0.0 then Finite(p95 as real / target)
    else if p95 > 0 then Infinite
    else Finite(0.0)
  }

  /**
   Of a latency objective the views are comparisons of one percentile with the target. Compliance
   and the burn rate agree exactly unless a target below zero is missed by a percentile that is not above.
   */
  lemma LatencyViewsExactly(target: real, p95: int)
    ensures (p95 as real <= target <==> !Burning(LatencyRate(target, p95)))
       <==> target >= 0.0 || p95 as real <= target || p95 > 0
  {
    if target > 0.0 {
      RatioAboveOne(p95 as real, target);
    }
  }

  // ---- What is shown ----

  function Max(a: real, b: real): real {
    if a >= b then a else b
  }

  /** Math.round */
  function Nearest(value: real): int {
    (value + 0.5).Floor
  }

  /** round(value, decimals), with factor 10 ** decimals. */
  function Rounded(value: real, factor: nat): real
    requires factor > 0
  {
    Nearest(value * factor as real) as real / factor as real
  }

  const SIX_DECIMALS: nat := 1_000_000
  const FOUR_DECIMALS: nat := 10_000

  lemma UnitsCompare(n: int, value: real, factor: nat)
    requires factor > 0
    ensures n as real / factor as real <= value <==> n as real <= value * factor as real
  {
    var x, y := n as real / factor as real, factor as real;
    assert x * y == n as real;
    if x <= value {
      assert x * y <= value * y;
    } else {
      assert x * y > value * y;
    }
  }

  /**
   Against a target with no more decimals than are shown, the shown value meets the target exactly when
   the value does or falls short of it by no more than half a unit of the last decimal.
   */
  lemma ShownExactly(value: real, units: int, factor: nat)
    requires factor > 0
    ensures Rounded(value, factor) >= units as real / factor as real
       <==> value * factor as real + 0.5 >= units as real
    ensures value >= units as real / factor as real ==> Rounded(value, factor) >= units as real / factor as real
  {
    var shown := Nearest(value * factor as real);
    UnitsCompare(units, Rounded(value, factor), factor);
    UnitsCompare(units, value, factor);
    assert shown as real / factor as real * factor as real == shown as real;
    assert shown >= units <==> value * factor as real + 0.5 >= units as real;
  }

  /** remainingPercent is remainingShare here. */
  datatype ErrorBudget = ErrorBudget(totalRequests: nat, allowedFailures: int, actualFailures: nat,
                                     remainingBudget: int, remainingShare: real, consumed: bool)

  function AvailabilityBudget(target: real, total: nat, failed: nat): ErrorBudget {
    var allowed := AllowedFailures(target, total);
    var remaining := if allowed - failed > 0 then allowed - failed else 0;
    ErrorBudget(total, allowed, failed, remaining,
      if allowed > 0 then Rounded(remaining as real / allowed as real, FOUR_DECIMALS)
      else if failed == 0 then 1.0 else 0.0,
      Consumed(target, total, failed))
  }

  /** What is left of a latency budget as long as the target. */
  function LatencyLeft(target: real, p95: int): real {
    Max(0.0, target - Max(0.0, p95 as real - target))
  }

  function LatencyBudget(target: real, total: nat, p95: int): ErrorBudget {
    var left := LatencyLeft(target, p95);
    ErrorBudget(total, 0, 0, Nearest(left),
      Rounded(if target > 0.0 then left / target else if p95 as real <= target then 1.0 else 0.0, FOUR_DECIMALS),
      p95 as real > target)
  }

  /**
   A consumed budget has nothing left; yet a share of it is shown, all of it, exactly when nothing
   was allowed and nothing failed.
   */
  lemma ShareExactly(target: real, total: nat, failed: nat)
    ensures var b := AvailabilityBudget(target, total, failed);
      && (b.consumed <==> b.remainingBudget == 0)
      && (b.consumed && b.remainingShare != 0.0 <==> AllowedFailures(target, total) <= 0 && failed == 0)
  {
    var b := AvailabilityBudget(target, total, failed);
    if b.consumed && b.allowedFailures > 0 {
      assert 0.0 / b.allowedFailures as real == 0.0;
      assert b.remainingShare == Rounded(0.0, FOUR_DECIMALS);
      assert Nearest(0.0) == 0;
    }
  }

  /** A latency budget is called consumed above the target, but is used up only at twice the target. */
  lemma LatencyLeftExactly(target: real, total: nat, p95: int)
    ensures LatencyBudget(target, total, p95).consumed <==> p95 as real > target
    ensures LatencyLeft(target, p95) == 0.0 <==> target <= 0.0 || p95 as real >= 2.0 * target
  {
  }

  const BURN_RATE_WINDOWS: seq<nat> := [5, 30, 60]

  /** The threshold is always 1. */
  datatype Burn = Burn(windowMinutes: nat, shown: Rate, burning: bool)

  function Shown(r: Rate): Rate {
    if r.Infinite? then r else Finite(Rounded(r.rate, FOUR_DECIMALS))
  }

  function BurnOver(minutes: nat, r: Rate): Burn {
    Burn(minutes, Shown(r), Burning(r))
  }

  /** The name, type and target of the objective apart. */
  datatype Status = Status(currentSLI: real, errorBudget: ErrorBudget, burnRates: seq<Burn>, compliant: bool)

  // ---- What the status means, in the numbers the samples hold ----

  /** The multiple of one unit nearest to the value, the greater of two. */
  ghost predicate Nears(shown: real, value: real, units: nat) {
    var n := (shown * units as real).Floor;
    shown * units as real == n as real && n as real - 0.5 <= value * units as real < n as real + 0.5
  }

  lemma RoundedNears(value: real, factor: nat)
    requires factor > 0
    ensures Nears(Rounded(value, factor), value, factor)
  {
    var n := Nearest(value * factor as real);
    assert Rounded(value, factor) * factor as real == n as real;
  }

  ghost predicate AvailabilityMeans(target: real, total: nat, failed: nat, s: Status) {
    var b := s.errorBudget;
    && (if total == 0 then s.currentSLI == 1.0
        else Nears(s.currentSLI, (total - failed) as real / total as real, 1_000_000))
    && (s.compliant <==> if total == 0 then target <= 1.0 else (total - failed) as real >= target * total as real)
    && b.totalRequests == total && b.actualFailures == failed
    && b.allowedFailures as real <= (1.0 - target) * total as real < b.allowedFailures as real + 1.0
    && b.remainingBudget == (if failed < b.allowedFailures then b.allowedFailures - failed else 0)
    && (if b.allowedFailures > 0
        then Nears(b.remainingShare, b.remainingBudget as real / b.allowedFailures as real, 10_000)
        else b.remainingShare == if failed == 0 then 1.0 else 0.0)
    && (b.consumed <==> failed >= b.allowedFailures)
  }

  /** The whole target is left up to the target, nothing from twice the target on. */
  function MsLeft(target: real, p95: int): real {
    if target <= 0.0 then 0.0
    else if p95 as real <= target then target
    else if p95 as real < 2.0 * target then 2.0 * target - p95 as real
    else 0.0
  }

  ghost predicate LatencyMeans(target: real, total: nat, p95: int, s: Status) {
    var b := s.errorBudget;
    && s.currentSLI == p95 as real && (s.compliant <==> p95 as real <= target)
    && b.totalRequests == total && b.allowedFailures == 0 && b.actualFailures == 0
    && b.remainingBudget as real - 0.5 <= MsLeft(target, p95) < b.remainingBudget as real + 0.5
    && (if target > 0.0 then Nears(b.remainingShare, MsLeft(target, p95) / target, 10_000)
        else b.remainingShare == if p95 as real <= target then 1.0 else 0.0)
    && (b.consumed <==> p95 as real > target)
  }

  /** The failures as a multiple of those allowed; without any allowed, infinitely many if there are any. */
  ghost predicate AvailabilityBurns(target: real, total: nat, failed: nat, minutes: nat, b: Burn) {
    && b.windowMinutes == minutes
    && (b.burning <==> total > 0 && failed > 0 && failed as real > (1.0 - target) * total as real)
    && (if target < 1.0
        then b.shown.Finite? && Nears(b.shown.rate,
               if total == 0 then 0.0 else failed as real / total as real / (1.0 - target), 10_000)
        else b.shown == if total > 0 && failed > 0 then Infinite else Finite(0.0))
  }

  ghost predicate LatencyBurns(target: real, p95: int, minutes: nat, b: Burn) {
    && b.windowMinutes == minutes
    && (b.burning <==> if target > 0.0 then p95 as real > target else p95 > 0)
    && (if target > 0.0 then b.shown.Finite? && Nears(b.shown.rate, p95 as real / target, 10_000)
        else b.shown == if p95 > 0 then Infinite else Finite(0.0))
  }

  ghost predicate BurnMeans(slo: Tracked, h: seq<Recorded>, cutoff: int, minutes: nat, b: Burn) {
    if slo.kind == Availability
    then AvailabilityBurns(slo.target, Since(Total, h, cutoff), Since(Failed, h, cutoff), minutes, b)
    else exists p95 :: PercentileSince(h, cutoff, 95, p95) && LatencyBurns(slo.target, p95, minutes, b)
  }

  /** The rates of the last 5, 30 and 60 minutes, of what the history holds from these points of time on. */
  ghost predicate BurnsMean(slo: Tracked, h: seq<Recorded>, since5: int, since30: int, since60: int, bs: seq<Burn>) {
    && |bs| == 3
    && BurnMeans(slo, h, since5, 5, bs[0])
    && BurnMeans(slo, h, since30, 30, bs[1])
    && BurnMeans(slo, h, since60, 60, bs[2])
  }

  /** Everything but the burn rates, of what the history holds from the cutoff on. */
  ghost predicate StatusMeans(slo: Tracked, h: seq<Recorded>, cutoff: int, s: Status) {
    if slo.kind == Availability
    then AvailabilityMeans(slo.target, Since(Total, h, cutoff), Since(Failed, h, cutoff), s)
    else exists p95 :: PercentileSince(h, cutoff, 95, p95)
           && LatencyMeans(slo.target, Since(Total, h, cutoff), p95, s)
  }

  lemma AvailabilityIs(target: real, total: nat, failed: nat, s: Status)
    requires s.currentSLI == Rounded(CurrentSLI(total, failed), SIX_DECIMALS)
    requires s.errorBudget == AvailabilityBudget(target, total, failed)
    requires s.compliant == Compliant(target, total, failed)
    ensures AvailabilityMeans(target, total, failed, s)
  {
    SliShown(total, failed);
    CompliantIs(target, total, failed);
    BudgetShown(target, total, failed);
  }

  lemma SliShown(total: nat, failed: nat)
    ensures var shown := Rounded(CurrentSLI(total, failed), SIX_DECIMALS);
      if total == 0 then shown == 1.0 else Nears(shown, (total - failed) as real / total as real, 1_000_000)
  {
    if total == 0 {
      WholeShown(1, SIX_DECIMALS);
    } else {
      SliIs(total, failed);
      RoundedNears(CurrentSLI(total, failed), 1_000_000);
    }
  }

  lemma CompliantIs(target: real, total: nat, failed: nat)
    ensures Compliant(target, total, failed)
       <==> if total == 0 then target <= 1.0 else (total - failed) as real >= target * total as real
  {
    if total > 0 {
      RateScaled(failed, total, 1.0 - target);
      assert (1.0 - target) * total as real == total as real - target * total as real;
    }
  }

  lemma BudgetShown(target: real, total: nat, failed: nat)
    ensures var b := AvailabilityBudget(target, total, failed);
      if b.allowedFailures > 0
      then Nears(b.remainingShare, b.remainingBudget as real / b.allowedFailures as real, 10_000)
      else b.remainingShare == if failed == 0 then 1.0 else 0.0
  {
    var b := AvailabilityBudget(target, total, failed);
    if b.allowedFailures > 0 {
      RoundedNears(b.remainingBudget as real / b.allowedFailures as real, 10_000);
    }
  }

  lemma SliIs(total: nat, failed: nat)
    requires total > 0
    ensures CurrentSLI(total, failed) == (total - failed) as real / total as real
  {
    var x, y := failed as real / total as real, total as real;
    assert x * y == failed as real;
    assert (1.0 - x) * y == (total - failed) as real;
  }

  lemma LatencyIs(target: real, total: nat, p95: int, s: Status)
    requires s.currentSLI == Rounded(p95 as real, SIX_DECIMALS)
    requires s.errorBudget == LatencyBudget(target, total, p95)
    requires s.compliant == (p95 as real <= target)
    ensures LatencyMeans(target, total, p95, s)
  {
    WholeShown(p95, SIX_DECIMALS);
    assert LatencyLeft(target, p95) == MsLeft(target, p95);
    if target > 0.0 {
      RoundedNears(MsLeft(target, p95) / target, 10_000);
    } else {
      WholeShown(1, FOUR_DECIMALS);
      WholeShown(0, FOUR_DECIMALS);
    }
  }

  lemma Cancel(x: real, z: real, y: real)
    requires y > 0.0 && x * y == z * y
    ensures x == z
  {
    assert (x - z) * y == 0.0;
  }

  lemma ProductCast(n: int, k: nat)
    ensures n as real * k as real == (n * k) as real
  {
  }

  lemma RoundedTimes(value: real, factor: nat)
    requires factor > 0
    ensures Rounded(value, factor) * factor as real == Nearest(value * factor as real) as real
  {
  }

  lemma NearestWhole(v: real, k: int)
    requires v == k as real
    ensures Nearest(v) == k && Nearest(v) as real == v
  {
  }

  lemma WholeShown(n: int, factor: nat)
    requires factor > 0
    ensures Rounded(n as real, factor) == n as real
  {
    var v, k := n as real * factor as real, n * factor;
    ProductCast(n, factor);
    NearestWhole(v, k);
    RoundedTimes(n as real, factor);
    Cancel(Rounded(n as real, factor), n as real, factor as real);
  }

  /** The comparison behind a burn rate, without its divisions. */
  lemma BurningIs(target: real, total: nat, failed: nat)
    ensures Burning(BurnRate(target, total, failed))
       <==> total > 0 && failed > 0 && failed as real > (1.0 - target) * total as real
  {
    var e, allowed := ErrorRate(total, failed), 1.0 - target;
    if total > 0 {
      RateScaled(failed, total, allowed);
      RateScaled(failed, total, 0.0);
      SignOf(allowed, total);
    }
    if allowed > 0.0 {
      RatioAboveOne(e, allowed);
    }
  }

  lemma SignOf(allowed: real, total: nat)
    requires total > 0
    ensures allowed > 0.0 ==> allowed * total as real > 0.0
    ensures allowed <= 0.0 ==> allowed * total as real <= 0.0
  {
  }

  lemma AvailabilityBurnIs(target: real, total: nat, failed: nat, minutes: nat)
    ensures AvailabilityBurns(target, total, failed, minutes, BurnOver(minutes, BurnRate(target, total, failed)))
  {
    BurningIs(target, total, failed);
    BurnShown(target, total, failed);
  }

  lemma BurnShown(target: real, total: nat, failed: nat)
    ensures var shown := Shown(BurnRate(target, total, failed));
      if target < 1.0
      then shown.Finite? && Nears(shown.rate,
             if total == 0 then 0.0 else failed as real / total as real / (1.0 - target), 10_000)
      else shown == if total > 0 && failed > 0 then Infinite else Finite(0.0)
  {
    var e, allowed := ErrorRate(total, failed), 1.0 - target;
    if allowed > 0.0 {
      assert total == 0 ==> e / allowed == 0.0;
      RoundedNears(e / allowed, 10_000);
    } else {
      WholeShown(0, FOUR_DECIMALS);
      if total > 0 {
        RateScaled(failed, total, 0.0);
      }
    }
  }

  lemma LatencyBurnIs(target: real, p95: int, minutes: nat)
    ensures LatencyBurns(target, p95, minutes, BurnOver(minutes, LatencyRate(target, p95)))
  {
    if target > 0.0 {
      RatioAboveOne(p95 as real, target);
      RoundedNears(p95 as real / target, 10_000);
    } else {
      WholeShown(0, FOUR_DECIMALS);
    }
  }

  function Latest(a: int, b: int): int {
    if a < b then b else a
  }

  lemma {:induction false} SinceWithin(m: Metric, h: seq<Recorded>, outer: int, inner: int)
    ensures Since(m, InWindow(h, outer), inner) == Since(m, h, Latest(outer, inner))
  {
    if h != [] {
      SinceWithin(m, h[1..], outer, inner);
      WindowFrom(h, outer);
    }
  }

  lemma BurnWithin(slo: Tracked, h: seq<Recorded>, outer: int, inner: int, minutes: nat, b: Burn)
    requires BurnMeans(slo, InWindow(h, outer), inner, minutes, b)
    ensures BurnMeans(slo, h, Latest(outer, inner), minutes, b)
  {
    SinceWithin(Total, h, outer, inner);
    SinceWithin(Failed, h, outer, inner);
    if slo.kind == Latency {
      var p95 :| PercentileSince(InWindow(h, outer), inner, 95, p95) && LatencyBurns(slo.target, p95, minutes, b);
      forall m
        ensures Since(m, InWindow(h, outer), inner) == Since(m, h, Latest(outer, inner))
      {
        SinceWithin(m, h, outer, inner);
      }
      assert PercentileSince(h, Latest(outer, inner), 95, p95);
    }
  }

  lemma BurnsWithin(slo: Tracked, h: seq<Recorded>, from: int, clocks: seq<int>, burns: seq<Burn>)
    requires |clocks| == 3
    requires BurnsMean(slo, InWindow(h, from), clocks[0] - 300_000, clocks[1] - 1_800_000, clocks[2] - 3_600_000, burns)
    ensures BurnsMean(slo, h, Latest(from, clocks[0] - 300_000), Latest(from, clocks[1] - 1_800_000),
                      Latest(from, clocks[2] - 3_600_000), burns)
  {
    BurnWithin(slo, h, from, clocks[0] - 300_000, 5, burns[0]);
    BurnWithin(slo, h, from, clocks[1] - 1_800_000, 30, burns[1]);
    BurnWithin(slo, h, from, clocks[2] - 3_600_000, 60, burns[2]);
  }

  method ComputeBurnRates(slo: Tracked, samples: seq<Recorded>, clocks: seq<int>) returns (burns: seq<Burn>)
    requires |clocks| == 3
    ensures BurnsMean(slo, samples, clocks[0] - 300_000, clocks[1] - 1_800_000, clocks[2] - 3_600_000, burns)
  {
    burns := [];
    for i := 0 to |BURN_RATE_WINDOWS|
      invariant |burns| == i
      invariant forall j :: 0 <= j < i ==>
        BurnMeans(slo, samples, clocks[j] - BURN_RATE_WINDOWS[j] * 60_000, BURN_RATE_WINDOWS[j], burns[j])
    {
      var minutes, cutoff := BURN_RATE_WINDOWS[i], clocks[i] - BURN_RATE_WINDOWS[i] * 60_000;
      var windowSamples := InWindow(samples, cutoff);
      var a, p95 := AggregateSamples(windowSamples);
      var rate;
      if slo.kind == Availability {
        rate := BurnRate(slo.target, a.totalRequests, a.failedRequests);
        AvailabilityBurnIs(slo.target, a.totalRequests, a.failedRequests, minutes);
        AggregateSince(Total, samples, cutoff);
        AggregateSince(Failed, samples, cutoff);
      } else {
        rate := LatencyRate(slo.target, p95);
        LatencyBurnIs(slo.target, p95, minutes);
        PercentileOfWindow(samples, cutoff, 95, p95);
      }
      burns := burns + [BurnOver(minutes, rate)];
    }
  }

  lemma AvailabilityStatus(slo: Tracked, from: int, s: Status)
    requires slo.kind == Availability
    requires var a := Aggregated(InWindow(slo.history, from));
      && s.currentSLI == Rounded(CurrentSLI(a.totalRequests, a.failedRequests), SIX_DECIMALS)
      && s.errorBudget == AvailabilityBudget(slo.target, a.totalRequests, a.failedRequests)
      && s.compliant == Compliant(slo.target, a.totalRequests, a.failedRequests)
    ensures StatusMeans(slo, slo.history, from, s)
  {
    AggregateSince(Total, slo.history, from);
    AggregateSince(Failed, slo.history, from);
    AvailabilityIs(slo.target, Since(Total, slo.history, from), Since(Failed, slo.history, from), s);
  }

  lemma LatencyStatus(slo: Tracked, from: int, p95: int, s: Status)
    requires slo.kind == Latency
    requires var a := Aggregated(InWindow(slo.history, from));
      && IsPercentile(a.buckets, 95, a.totalRequests, p95)
      && s.currentSLI == Rounded(p95 as real, SIX_DECIMALS)
      && s.errorBudget == LatencyBudget(slo.target, a.totalRequests, p95)
      && s.compliant == (p95 as real <= slo.target)
    ensures StatusMeans(slo, slo.history, from, s)
  {
    AggregateSince(Total, slo.history, from);
    PercentileOfWindow(slo.history, from, 95, p95);
    LatencyIs(slo.target, Since(Total, slo.history, from), p95, s);
  }

  // ---- The tracker itself ----

  class SLOTracker {
    const maxHistoryPerSLO: int
    var slos: map<string, Tracked>

    constructor (max: int)
      ensures maxHistoryPerSLO == max && slos == map[]
    {
      maxHistoryPerSLO, slos := max, map[];
    }

    method Define(name: string, kind: Kind, target: real)
      modifies this
      ensures slos == old(slos)[name := Tracked(kind, target, [])]
    {
      slos := slos[name := Tracked(kind, target, [])];
    }

    /** Recording for an objective that was never defined is an error and changes nothing. */
    method Record(name: string, sample: Sample, timestamp: int) returns (defined: bool)
      modifies this
      ensures defined <==> name in old(slos)
      ensures slos == if !defined then old(slos) else
        var slo := old(slos)[name];
        old(slos)[name := slo.(history := Pushed(slo.history, Recorded(timestamp, sample), maxHistoryPerSLO))]
    {
      if name !in slos {
        return false;
      }
      var h := slos[name].history + [Recorded(timestamp, sample)];
      if |h| > maxHistoryPerSLO {
        h := SliceLast(h, maxHistoryPerSLO);
      }
      slos := slos[name := slos[name].(history := h)];
      defined := true;
    }

    /** The status of one objective over the last windowMinutes. */
    method ComputeStatus(name: string, windowMinutes: nat, now: int, clocks: seq<int>) returns (s: Status)
      requires name in slos && |clocks| == 3
      ensures StatusMeans(slos[name], slos[name].history, now - windowMinutes * 60_000, s)
      ensures var from := now - windowMinutes * 60_000;
        BurnsMean(slos[name], slos[name].history, Latest(from, clocks[0] - 300_000),
                  Latest(from, clocks[1] - 1_800_000), Latest(from, clocks[2] - 3_600_000), s.burnRates)
    {
      var slo := slos[name];
      var from := now - windowMinutes * 60_000;
      var windowSamples := InWindow(slo.history, from);
      var aggregated, p95 := AggregateSamples(windowSamples);
      var burns := ComputeBurnRates(slo, windowSamples, clocks);
      BurnsWithin(slo, slo.history, from, clocks, burns);
      if slo.kind == Availability {
        var sli := CurrentSLI(aggregated.totalRequests, aggregated.failedRequests);
        s := Status(
          Rounded(sli, SIX_DECIMALS),
          AvailabilityBudget(slo.target, aggregated.totalRequests, aggregated.failedRequests),
          burns,
          sli >= slo.target);
        AvailabilityStatus(slo, from, s);
      } else {
        s := Status(
          Rounded(p95 as real, SIX_DECIMALS),
          LatencyBudget(slo.target, aggregated.totalRequests, p95),
          burns,
          p95 as real <= slo.target);
        LatencyStatus(slo, from, p95, s);
      }
    }
  }
}
